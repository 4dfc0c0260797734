/** SPIR-V words: instructions behind a head word, and strings four bytes to a word. */
module Encoding {
  import opened Options
  import opened PushConstants
  import opened Words

  datatype Inst = Inst(opcode: nat, operands: seq<nat>)

  /** A sixteen-bit opcode. */
  ghost predicate Fits(i: Inst) {
    i.opcode < 0x1_0000
  }

  /** The head word: the word count in the high half, cut to thirty-two bits, and the opcode in the low. */
  function Head(i: Inst): nat {
    (|i.operands| + 1) * 0x1_0000 % 0x1_0000_0000 + i.opcode
  }

  /** `encode`: the head, then the operands. */
  method Encode(i: Inst, words: seq<nat>) returns (r: seq<nat>)
    ensures r == words + Encoded(i) && |r| == |words| + 1 + |i.operands| && r[..|words|] == words
    ensures r[|words| + 1..] == i.operands
    ensures Fits(i) ==>
      r[|words|] % 0x1_0000 == i.opcode && r[|words|] / 0x1_0000 == (|i.operands| + 1) % 0x1_0000
  {
    if Fits(i) { HeadSpells(i); }
    r := words + [Head(i)];
    r := r + i.operands;
  }

  function Encoded(i: Inst): seq<nat> {
    [Head(i)] + i.operands
  }

  function EncodedAll(insts: seq<Inst>): seq<nat> {
    if insts == [] then [] else Encoded(insts[0]) + EncodedAll(insts[1..])
  }

  /** The word count and the opcode a head word spells. */
  function Count(word: nat): nat {
    word / 0x1_0000 % 0x1_0000
  }

  function Opcode(word: nat): nat {
    word % 0x1_0000
  }

  lemma HeadSpells(i: Inst)
    requires Fits(i)
    ensures Count(Head(i)) == (|i.operands| + 1) % 0x1_0000 && Opcode(Head(i)) == i.opcode
  {
    var n := |i.operands| + 1;
    var q, r := n / 0x1_0000, n % 0x1_0000;
    assert n * 0x1_0000 == 0x1_0000_0000 * q + r * 0x1_0000;
    Remainder(n * 0x1_0000, 0x1_0000_0000, q, r * 0x1_0000);
    Remainder(Head(i), 0x1_0000, r, i.opcode);
  }

  /** A word-count walk of a stream: the instruction at the front, and on by its count. */
  function Walk(words: seq<nat>): Option<seq<Inst>>
    decreases |words|
  {
    if words == [] then Some([])
    else
      var count := Count(words[0]);
      if count == 0 || count > |words| then None
      else
        match Walk(words[count..])
        case None => None
        case Some(rest) => Some([Inst(Opcode(words[0]), words[1..count])] + rest)
  }

  ghost predicate AllFit(insts: seq<Inst>) {
    forall i :: 0 <= i < |insts| ==> Fits(insts[i])
  }

  ghost predicate AllShort(insts: seq<Inst>) {
    forall i :: 0 <= i < |insts| ==> |insts[i].operands| < 65535
  }

  lemma {:induction false} WalkInverts(insts: seq<Inst>)
    requires AllFit(insts) && AllShort(insts)
    ensures Walk(EncodedAll(insts)) == Some(insts)
  {
    if insts != [] {
      var first := insts[0];
      HeadSpells(first);
      WalkInverts(insts[1..]);
      var words := EncodedAll(insts);
      var n := |first.operands| + 1;
      assert words[0] == Head(first) && words[1..n] == first.operands && words[n..] == EncodedAll(insts[1..]);
      assert [first] + insts[1..] == insts;
    }
  }

  lemma {:induction false} WalkedAreShort(words: seq<nat>)
    ensures Walk(words).Some? ==> AllShort(Walk(words).value)
    decreases |words|
  {
    if words != [] {
      var count := Count(words[0]);
      if count != 0 && count <= |words| { WalkedAreShort(words[count..]); }
    }
  }

  /** The walk recovers every opcode and operand list exactly when no instruction has 65535 operands or more. */
  lemma WalkRecoversExactlyTheShort(insts: seq<Inst>)
    requires AllFit(insts)
    ensures Walk(EncodedAll(insts)) == Some(insts) <==> AllShort(insts)
  {
    if AllShort(insts) { WalkInverts(insts); }
    WalkedAreShort(EncodedAll(insts));
  }

  // ---- the census ----

  /** How many instructions of a list have an opcode. */
  function Tally(insts: seq<Inst>, opcode: nat): nat {
    if insts == [] then 0
    else Tally(insts[..|insts| - 1], opcode) + if insts[|insts| - 1].opcode == opcode then 1 else 0
  }

  lemma {:induction false} EncodedSplit(insts: seq<Inst>, k: nat)
    requires k <= |insts|
    ensures EncodedAll(insts) == EncodedAll(insts[..k]) + EncodedAll(insts[k..])
    decreases k
  {
    if k == 0 {
      assert insts[..0] == [] && insts[0..] == insts;
    } else {
      EncodedSplit(insts[1..], k - 1);
      assert insts[1..][k - 1..] == insts[k..];
      EncodedFront(insts, k);
      var a, b, c := Encoded(insts[0]), EncodedAll(insts[1..][..k - 1]), EncodedAll(insts[k..]);
      assert a + (b + c) == a + b + c;
    }
  }

  lemma EncodedFront(insts: seq<Inst>, k: nat)
    requires 0 < k <= |insts|
    ensures EncodedAll(insts) == Encoded(insts[0]) + EncodedAll(insts[1..])
    ensures EncodedAll(insts[..k]) == Encoded(insts[0]) + EncodedAll(insts[1..][..k - 1])
  {
    assert insts[..k][1..] == insts[1..][..k - 1] && insts[..k][0] == insts[0];
  }

  /** The walk's place before instruction `k`: what comes next is its head. */
  lemma AtBoundary(header: seq<nat>, insts: seq<Inst>, k: nat)
    requires k < |insts| && AllFit(insts) && AllShort(insts)
    ensures var words, at := header + EncodedAll(insts), |header| + |EncodedAll(insts[..k])|;
      at < |words| && Opcode(words[at]) == insts[k].opcode && Count(words[at]) == |insts[k].operands| + 1 &&
      at + Count(words[at]) == |header| + |EncodedAll(insts[..k + 1])|
  {
    EncodedSplit(insts, k);
    EncodedSplit(insts[..k + 1], k);
    assert insts[..k + 1][..k] == insts[..k] && insts[..k + 1][k..] == [insts[k]];
    assert EncodedAll([insts[k]]) == Encoded(insts[k]) + EncodedAll([insts[k]][1..]);
    assert EncodedAll(insts[k..]) == Encoded(insts[k]) + EncodedAll(insts[k..][1..]);
    HeadSpells(insts[k]);
  }

  /** `census`: on a module the encoder wrote, behind its five header words, it counts what is there. */
  method Census(words: seq<nat>, ghost header: seq<nat>, ghost insts: seq<Inst>)
    returns (extended: nat, imports: nat, decorations: nat)
    requires |header| == 5 && words == header + EncodedAll(insts) && AllFit(insts) && AllShort(insts)
    ensures extended == Tally(insts, 12) && imports == Tally(insts, 11) && decorations == Tally(insts, 71)
  {
    extended, imports, decorations := 0, 0, 0;
    var at := 5;
    ghost var k := 0;
    while at < |words|
      invariant k <= |insts| && at == 5 + |EncodedAll(insts[..k])|
      invariant extended == Tally(insts[..k], 12) && imports == Tally(insts[..k], 11) &&
        decorations == Tally(insts[..k], 71)
      decreases |words| - at
    {
      assert insts[..|insts|] == insts;
      AtBoundary(header, insts, k);
      assert insts[..k + 1][..k] == insts[..k];
      var opcode := Opcode(words[at]);
      if opcode == 12 {
        extended := extended + 1;
      } else if opcode == 11 {
        imports := imports + 1;
      } else if opcode == 71 {
        decorations := decorations + 1;
      }
      at := at + Count(words[at]);
      k := k + 1;
    }
    if k < |insts| { AtBoundary(header, insts, k); }
    assert insts[..k] == insts;
  }

  // ---- strings ----

  ghost predicate AreBytes(text: seq<int>) {
    forall i :: 0 <= i < |text| ==> 0 <= text[i] < 256
  }

  /** Four bytes to a word, the last word short of some. */
  function Pack(bytes: seq<int>): seq<int> {
    if bytes == [] then []
    else if |bytes| <= 4 then [Number(bytes)]
    else [Number(bytes[..4])] + Pack(bytes[4..])
  }

  /** `spv_string`: the text and a closing NUL, packed. */
  function SpvString(text: seq<int>): seq<int> {
    Pack(text + [0])
  }

  /** The bytes of some words, least first. */
  function Unpack(words: seq<int>): seq<int> {
    if words == [] || words[0] < 0 then [] else LowBytes(words[0], 4) + Unpack(words[1..])
  }

  /** What stands before the first NUL. */
  function UpToNul(bytes: seq<int>): seq<int> {
    if bytes == [] || bytes[0] == 0 then [] else [bytes[0]] + UpToNul(bytes[1..])
  }

  function Nuls(n: nat): seq<int> {
    seq(n, _ => 0)
  }

  lemma {:induction false} NumberIsPositive(bytes: seq<int>)
    requires AreBytes(bytes)
    ensures Number(bytes) >= 0
  {
    if bytes != [] { NumberIsPositive(bytes[1..]); }
  }

  lemma {:induction false} ZeroBytes(width: nat)
    ensures LowBytes(0, width) == Nuls(width)
  {
    if width > 0 { ZeroBytes(width - 1); }
  }

  lemma {:induction false} BytesOfNumber(bytes: seq<int>, width: nat)
    requires AreBytes(bytes) && |bytes| <= width
    ensures Number(bytes) >= 0 && LowBytes(Number(bytes), width) == bytes + Nuls(width - |bytes|)
  {
    NumberIsPositive(bytes);
    if bytes == [] {
      ZeroBytes(width);
    } else {
      NumberIsPositive(bytes[1..]);
      BytesOfNumber(bytes[1..], width - 1);
      Remainder(Number(bytes), 256, Number(bytes[1..]), bytes[0]);
      assert [bytes[0]] + (bytes[1..] + Nuls(width - |bytes|)) == bytes + Nuls(width - |bytes|);
    }
  }

  /** Unpacking gives the packed bytes back, then fewer than four NULs. */
  lemma {:induction false} UnpackInverts(bytes: seq<int>) returns (pad: nat)
    requires AreBytes(bytes)
    ensures pad < 4 && Unpack(Pack(bytes)) == bytes + Nuls(pad)
    decreases |bytes|
  {
    if bytes == [] {
      pad := 0;
    } else if |bytes| <= 4 {
      pad := 4 - |bytes|;
      BytesOfNumber(bytes, 4);
      assert Unpack([]) == [];
      assert Pack(bytes)[1..] == [];
    } else {
      pad := UnpackInverts(bytes[4..]);
      UnpackOne(bytes);
      assert bytes[..4] + (bytes[4..] + Nuls(pad)) == bytes + Nuls(pad);
    }
  }

  lemma UnpackOne(bytes: seq<int>)
    requires AreBytes(bytes) && |bytes| > 4
    ensures Unpack(Pack(bytes)) == bytes[..4] + Unpack(Pack(bytes[4..]))
  {
    BytesOfNumber(bytes[..4], 4);
    assert bytes[..4] + Nuls(0) == bytes[..4];
    assert Pack(bytes)[1..] == Pack(bytes[4..]);
  }

  lemma {:induction false} CutAtNul(text: seq<int>, rest: seq<int>)
    ensures UpToNul(text + [0] + rest) == text <==> 0 !in text
    ensures 0 !in UpToNul(text + [0] + rest)
  {
    var all := text + [0] + rest;
    if text == [] {
      assert all[0] == 0;
    } else {
      assert all[1..] == text[1..] + [0] + rest;
      CutAtNul(text[1..], rest);
      assert text == [text[0]] + text[1..];
    }
  }

  /** A packed string reads back as its text exactly when the text has no NUL. */
  lemma StringRoundTrip(text: seq<int>)
    requires AreBytes(text)
    ensures UpToNul(Unpack(SpvString(text))) == text <==> 0 !in text
  {
    var pad := UnpackInverts(text + [0]);
    CutAtNul(text, Nuls(pad));
  }
}
