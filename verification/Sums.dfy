/** Byte totals over the places a buffer can be. */
module Sums {
  import opened Options
  import opened Scalars

  /** What a device buffer is for, which is the row its bytes are counted in. */
  datatype Tag = Output | Upload | Chain | Indirect

  /** A buffer's record: the allocation it names, and the elements it is said to hold. */
  datatype Buffer = Buffer(handle: nat, padded: nat, kind: Class, tag: Tag)

  /** A pool's key: elements and class. */
  type Shape = (nat, Class)

  function Bytes(padded: nat, kind: Class): nat {
    padded * Width(kind)
  }

  function BytesOf(b: Buffer): nat {
    Bytes(b.padded, b.kind)
  }

  /** A buffer's bytes in one row, or in all of them. */
  function Weight(b: Buffer, row: Option<Tag>): nat {
    if row.None? || row.value == b.tag then BytesOf(b) else 0
  }

  ghost function SumMap(m: map<nat, Buffer>, row: Option<Tag>): nat {
    if m == map[] then 0 else
      var k: nat :| k in m;
      Weight(m[k], row) + SumMap(m - {k}, row)
  }

  ghost function SumSeq(s: seq<Buffer>, row: Option<Tag>): nat {
    if s == [] then 0 else SumSeq(s[..|s| - 1], row) + Weight(s[|s| - 1], row)
  }

  ghost function SumPool(p: map<Shape, seq<Buffer>>, row: Option<Tag>): nat {
    if p == map[] then 0 else
      var k :| k in p;
      SumSeq(p[k], row) + SumPool(p - {k}, row)
  }

  lemma {:induction false} SumWithout(m: map<nat, Buffer>, k: nat, row: Option<Tag>)
    requires k in m
    ensures SumMap(m, row) == Weight(m[k], row) + SumMap(m - {k}, row)
    decreases |m|
  {
    var j: nat :| j in m && SumMap(m, row) == Weight(m[j], row) + SumMap(m - {j}, row);
    if j != k {
      SumWithout(m - {j}, k, row);
      SumWithout(m - {k}, j, row);
      assert m - {j} - {k} == m - {k} - {j};
    }
  }

  lemma SumWith(m: map<nat, Buffer>, k: nat, b: Buffer, row: Option<Tag>)
    ensures SumMap(m[k := b], row) == Weight(b, row) + SumMap(m - {k}, row)
  {
    SumWithout(m[k := b], k, row);
    assert m[k := b] - {k} == m - {k};
  }

  lemma {:induction false} PoolWithout(p: map<Shape, seq<Buffer>>, k: Shape, row: Option<Tag>)
    requires k in p
    ensures SumPool(p, row) == SumSeq(p[k], row) + SumPool(p - {k}, row)
    decreases |p|
  {
    var j :| j in p && SumPool(p, row) == SumSeq(p[j], row) + SumPool(p - {j}, row);
    if j != k {
      PoolWithout(p - {j}, k, row);
      PoolWithout(p - {k}, j, row);
      assert p - {j} - {k} == p - {k} - {j};
    }
  }

  function Pool(p: map<Shape, seq<Buffer>>, k: Shape): seq<Buffer> {
    if k in p then p[k] else []
  }

  /** Changing one list of the pool changes the total by what changed in the list. */
  lemma PoolWith(p: map<Shape, seq<Buffer>>, k: Shape, s: seq<Buffer>, row: Option<Tag>)
    ensures SumPool(p[k := s], row) + SumSeq(Pool(p, k), row) == SumPool(p, row) + SumSeq(s, row)
  {
    PoolWithout(p[k := s], k, row);
    assert p[k := s] - {k} == p - {k};
    if k in p { PoolWithout(p, k, row); } else { assert p - {k} == p; }
  }

  lemma SumSnoc(s: seq<Buffer>, b: Buffer, row: Option<Tag>)
    ensures SumSeq(s + [b], row) == SumSeq(s, row) + Weight(b, row)
  {
    assert (s + [b])[..|s|] == s;
  }

  lemma NothingSums(m: map<nat, Buffer>, p: map<Shape, seq<Buffer>>, row: Option<Tag>)
    requires |m| == 0 && |p| == 0
    ensures SumMap(m, row) == 0 && SumPool(p, row) == 0
  {
    assert m == map[] && p == map[];
  }
}
