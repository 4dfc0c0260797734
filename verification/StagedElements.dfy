/** What a host input stages, element by element. */
module StagedElements {
  import opened Options
  import opened Scalars
  import opened Staging
  import opened Words
  import Batches

  ghost predicate AreBytes(data: Bytes) {
    forall i :: 0 <= i < |data| ==> 0 <= data[i] < 256
  }

  /** Element `k` of some bytes, as the number its `width` bytes spell. */
  function Element(data: Bytes, width: nat, k: nat): int
    requires k * width + width <= |data|
  {
    Number(data[k * width..k * width + width])
  }

  lemma {:induction false} NarrowAt(data: Bytes, k: nat)
    requires 4 * k + 4 <= |data|
    ensures 2 * k + 2 <= |Narrow(data)|
    ensures Narrow(data)[2 * k] == data[4 * k + 2] && Narrow(data)[2 * k + 1] == data[4 * k + 3]
  {
    if k > 0 { NarrowAt(data[4..], k - 1); }
  }

  lemma {:induction false} WidenAt(data: Bytes, k: nat)
    requires 2 * k + 2 <= |data|
    ensures 4 * k + 4 <= |Widen(data)|
    ensures Widen(data)[4 * k] == Widen(data)[4 * k + 1] == 0
    ensures Widen(data)[4 * k + 2] == data[2 * k] && Widen(data)[4 * k + 3] == data[2 * k + 1]
  {
    if k > 0 {
      WidenAt(data[2..], k - 1);
      assert Widen(data)[4..] == Widen(data[2..]);
    }
  }

  lemma NumberOfTwo(a: int, b: int)
    ensures Number([a, b]) == a + 0x100 * b
  {
    assert [a, b][1..] == [b] && [b][1..] == [];
    assert Number([b]) == b;
  }

  lemma NumberOfFour(a: int, b: int, c: int, d: int)
    ensures Number([a, b, c, d]) == a + 0x100 * b + 0x1_0000 * c + 0x100_0000 * d
  {
    assert [a, b, c, d][1..] == [b, c, d] && [b, c, d][1..] == [c, d];
    NumberOfTwo(c, d);
    assert Number([b, c, d]) == b + 0x100 * Number([c, d]);
  }

  lemma TwoBytes(data: Bytes, k: nat)
    requires k * 2 + 2 <= |data|
    ensures Element(data, 2, k) == data[2 * k] + 0x100 * data[2 * k + 1]
  {
    NumberOfTwo(data[2 * k], data[2 * k + 1]);
    assert data[k * 2..k * 2 + 2] == [data[2 * k], data[2 * k + 1]];
  }

  lemma FourBytes(data: Bytes, k: nat)
    requires k * 4 + 4 <= |data|
    ensures Element(data, 4, k) ==
      data[4 * k] + 0x100 * data[4 * k + 1] + 0x1_0000 * data[4 * k + 2] + 0x100_0000 * data[4 * k + 3]
  {
    NumberOfFour(data[4 * k], data[4 * k + 1], data[4 * k + 2], data[4 * k + 3]);
    assert data[k * 4..k * 4 + 4] == [data[4 * k], data[4 * k + 1], data[4 * k + 2], data[4 * k + 3]];
  }

  lemma HighHalf(low: int, high: int)
    requires 0 <= low < 0x1_0000
    ensures (low + 0x1_0000 * high) / 0x1_0000 == high
  {
  }

  /** A narrowed float is the number in its high half. */
  lemma NarrowedElement(data: Bytes, k: nat)
    requires AreBytes(data) && 4 * k + 4 <= |data|
    ensures Element(Narrow(data), 2, k) == Element(data, 4, k) / 0x1_0000
  {
    NarrowAt(data, k);
    TwoBytes(Narrow(data), k);
    FourBytes(data, k);
    var low, high := data[4 * k] + 0x100 * data[4 * k + 1], data[4 * k + 2] + 0x100 * data[4 * k + 3];
    HighHalf(low, high);
    assert Element(Narrow(data), 2, k) == high && Element(data, 4, k) == low + 0x1_0000 * high;
  }

  /** A widened brain float is its number in the high half. */
  lemma WidenedElement(data: Bytes, k: nat)
    requires AreBytes(data) && 2 * k + 2 <= |data|
    ensures Element(Widen(data), 4, k) == Element(data, 2, k) * 0x1_0000
  {
    WidenAt(data, k);
    FourBytes(Widen(data), k);
    TwoBytes(data, k);
    var low, high := data[2 * k], data[2 * k + 1];
    assert 0x1_0000 * low + 0x100_0000 * high == (low + 0x100 * high) * 0x1_0000;
  }

  /** The class of an input's slot, and the bytes one element of it is staged in. */
  function ClassAt(d: Dispatch, i: nat): Class {
    if i < |d.slots| then d.slots[i] else d.fallback
  }

  function ElementBytes(kind: Class): nat {
    match kind
    case IntClass => 8
    case FloatClass => 4
    case BFloat16Class => 2
  }

  /** How an element passed in one class is staged in another: brain floats are the high halves of floats. */
  ghost predicate Converted(passed: Class, kind: Class, from: int, to: int) {
    if passed == FloatClass && kind == BFloat16Class then to == from / 0x1_0000
    else if passed == BFloat16Class && kind == FloatClass then to == from * 0x1_0000
    else to == from
  }

  /** The bytes an element of what is passed takes: data that is not converted is read at its slot's width. */
  function PassedBytes(passed: Class, kind: Class): nat {
    if kind != IntClass && passed != IntClass then ElementBytes(passed) else ElementBytes(kind)
  }

  /** A block that stages every whole element of the data, each converted to its slot's class, and nothing else. */
  ghost predicate StagesElements(passed: Class, data: Bytes, kind: Class, block: Bytes) {
    && |block| == |data| / PassedBytes(passed, kind) * ElementBytes(kind)
    && forall k: nat :: k < |data| / PassedBytes(passed, kind) ==> StagesElement(passed, data, kind, block, k)
  }

  ghost predicate StagesElement(passed: Class, data: Bytes, kind: Class, block: Bytes, k: nat) {
    && k * PassedBytes(passed, kind) + PassedBytes(passed, kind) <= |data|
    && k * ElementBytes(kind) + ElementBytes(kind) <= |block|
    && Converted(passed, kind, Element(data, PassedBytes(passed, kind), k), Element(block, ElementBytes(kind), k))
  }

  /** Every host input is staged element by element: at its slot's class, whole elements only. */
  lemma HostsAreStaged(d: Dispatch, i: nat)
    requires i < |d.inputs| && d.inputs[i].Host? && AreBytes(d.inputs[i].data)
    ensures StagedInput(d, i).block.Some?
    ensures StagesElements(d.inputs[i].passed, d.inputs[i].data, ClassAt(d, i), StagedInput(d, i).block.value)
  {
    var passed, data, kind := d.inputs[i].passed, d.inputs[i].data, ClassAt(d, i);
    if passed == FloatClass && kind == BFloat16Class {
      NarrowedBlock(data);
    } else if passed == BFloat16Class && kind == FloatClass {
      WidenedBlock(data);
    } else {
      SameBlock(passed, data, kind);
    }
  }

  lemma NarrowedBlock(data: Bytes)
    requires AreBytes(data)
    ensures StagesElements(FloatClass, data, BFloat16Class, HostBlock(FloatClass, data, BFloat16Class))
  {
    var block := HostBlock(FloatClass, data, BFloat16Class);
    assert block == Narrow(data);
    forall k: nat | k < |data| / 4 ensures StagesElement(FloatClass, data, BFloat16Class, block, k) {
      NarrowedElement(data, k);
    }
  }

  lemma WidenedBlock(data: Bytes)
    requires AreBytes(data)
    ensures StagesElements(BFloat16Class, data, FloatClass, HostBlock(BFloat16Class, data, FloatClass))
  {
    var block := HostBlock(BFloat16Class, data, FloatClass);
    assert block == Widen(data);
    forall k: nat | k < |data| / 2 ensures StagesElement(BFloat16Class, data, FloatClass, block, k) {
      WidenedElement(data, k);
    }
  }

  lemma SameBlock(passed: Class, data: Bytes, kind: Class)
    requires !(passed == FloatClass && kind == BFloat16Class) && !(passed == BFloat16Class && kind == FloatClass)
    ensures StagesElements(passed, data, kind, HostBlock(passed, data, kind))
  {
    var width := ElementBytes(kind);
    var n := |data| / width;
    assert PassedBytes(passed, kind) == width == Width(kind);
    assert HostBlock(passed, data, kind) == data[..n * width];
    forall k: nat | k < n ensures StagesElement(passed, data, kind, HostBlock(passed, data, kind), k) {
      SameElement(data, HostBlock(passed, data, kind), width, n, k);
    }
  }

  lemma SameElement(data: Bytes, block: Bytes, width: nat, n: nat, k: nat)
    requires width > 0 && n == |data| / width && k < n && n * width <= |data| && block == data[..n * width]
    ensures k * width + width <= |block| && Element(block, width, k) == Element(data, width, k)
  {
    Fits(width, n, k);
    assert block[k * width..k * width + width] == data[k * width..k * width + width];
  }

  lemma Fits(width: nat, n: nat, k: nat)
    requires k < n
    ensures k * width + width <= n * width
  {
    assert (k + 1) * width <= n * width;
  }
}
