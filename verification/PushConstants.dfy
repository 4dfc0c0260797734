/** The push-constant block: one layout for the emitter's members and the bytes a launch writes. */
module PushConstants {
  import opened Options
  import opened Scalars
  import opened DeviceMemory
  import opened Words

  /** The bytes one pushed leaf occupies. */
  function PushWidth(root: Class, kind: Class): nat {
    if root == IntClass && kind == IntClass then 8 else 4
  }

  /** The next multiple of a leaf's width. */
  function Aligned(cursor: nat, width: nat): (r: nat)
    requires width == 4 || width == 8
    ensures cursor <= r < cursor + width && r % width == 0
  {
    if width == 4 then (cursor + 3) / 4 * 4 else (cursor + 7) / 8 * 8
  }

  /** Where leaf `i` sits, and where the first `i` leaves end. */
  function OffsetOf(root: Class, leaves: seq<Class>, i: nat): nat
    requires i < |leaves|
    decreases i, 1
  {
    Aligned(EndOf(root, leaves, i), PushWidth(root, leaves[i]))
  }

  function EndOf(root: Class, leaves: seq<Class>, i: nat): nat
    requires i <= |leaves|
    decreases i, 0
  {
    if i == 0 then 0 else OffsetOf(root, leaves, i - 1) + PushWidth(root, leaves[i - 1])
  }

  /** `push_layout`: each leaf's offset, and the block's size. */
  method PushLayout(root: Class, leaves: seq<Class>) returns (offsets: seq<nat>, size: nat)
    ensures |offsets| == |leaves| && size == EndOf(root, leaves, |leaves|)
    ensures forall i :: 0 <= i < |leaves| ==> offsets[i] == OffsetOf(root, leaves, i)
  {
    offsets, size := [], 0;
    for i := 0 to |leaves|
      invariant |offsets| == i && size == EndOf(root, leaves, i)
      invariant forall j :: 0 <= j < i ==> offsets[j] == OffsetOf(root, leaves, j)
    {
      var width := PushWidth(root, leaves[i]);
      var cursor := Aligned(size, width);
      offsets := offsets + [cursor];
      size := cursor + width;
    }
  }

  /**
  Every leaf is aligned, starts where the one before it ends or less than its own width later, and the block ends at
  the last.
   */
  lemma LayoutIsTight(root: Class, leaves: seq<Class>, i: nat)
    requires i < |leaves|
    ensures var width := PushWidth(root, leaves[i]);
      OffsetOf(root, leaves, i) % width == 0 &&
      EndOf(root, leaves, i) <= OffsetOf(root, leaves, i) < EndOf(root, leaves, i) + width &&
      EndOf(root, leaves, i + 1) == OffsetOf(root, leaves, i) + width
  {
  }

  lemma {:induction false} LeavesAreApart(root: Class, leaves: seq<Class>, i: nat, j: nat)
    requires i < j <= |leaves|
    ensures OffsetOf(root, leaves, i) + PushWidth(root, leaves[i]) <= EndOf(root, leaves, j)
    ensures j < |leaves| ==> OffsetOf(root, leaves, i) + PushWidth(root, leaves[i]) <= OffsetOf(root, leaves, j)
    decreases j
  {
    if i < j - 1 { LeavesAreApart(root, leaves, i, j - 1); }
  }

  // ---- the block ----

  /** One launch scalar: its class and its word, read as sixty-four bits. */
  datatype Leaf = Leaf(kind: Class, bits: int)

  datatype BlockError =
    | ScalarLeavesMismatch(declared: nat, given: nat)
    | TooLarge(bytes: nat, max: nat)
    | ExtentNotAnInteger(kind: Class)
    | OutOfBounds

  const WORD: nat := 0x1_0000_0000_0000_0000

  /** The bytes of a leaf as `to_le_bytes` cut to its width. */
  function LeafBytes(root: Class, leaf: Leaf): seq<int> {
    LowBytes(leaf.bits % WORD, PushWidth(root, leaf.kind))
  }

  /** `write_leaf`: in place, or a panic when the slice ends past the block. */
  method WriteLeaf(block: array<int>, offset: nat, root: Class, leaf: Leaf) returns (ok: bool)
    modifies block
    ensures ok <==> offset + PushWidth(root, leaf.kind) <= block.Length
    ensures ok ==> block[offset..offset + PushWidth(root, leaf.kind)] == LeafBytes(root, leaf)
    ensures ok ==> block[..offset] == old(block[..offset])
    ensures ok ==> block[offset + PushWidth(root, leaf.kind)..] == old(block[offset + PushWidth(root, leaf.kind)..])
    ensures !ok ==> block[..] == old(block[..])
  {
    var width := PushWidth(root, leaf.kind);
    if offset + width > block.Length { return false; }
    var word := LeafBytes(root, leaf);
    var k := 0;
    while k < width
      invariant 0 <= k <= width
      invariant forall i :: 0 <= i < k ==> block[offset + i] == word[i]
      invariant forall i :: 0 <= i < offset || offset + width <= i < block.Length ==> block[i] == old(block[i])
    {
      block[offset + k] := word[k];
      k := k + 1;
    }
    return true;
  }

  // ---- what a member holds ----

  /** The bytes of a leaf that its member's width keeps: as many as the shorter of the two has. */
  function KeptWidth(root: Class, declared: Class, given: Class): nat {
    if PushWidth(root, given) < PushWidth(root, declared) then PushWidth(root, given) else PushWidth(root, declared)
  }

  /** A leaf's low bytes, filled up with zeros to its member's width. */
  function MemberBytes(root: Class, declared: Class, leaf: Leaf): (r: seq<int>)
    ensures |r| == PushWidth(root, declared)
  {
    var kept := KeptWidth(root, declared, leaf.kind);
    LowBytes(leaf.bits % WORD, kept) + Zeros(PushWidth(root, declared) - kept)
  }

  /** Member `i` of a block holds its leaf, cut or filled up to the member's width. */
  ghost predicate Holds(block: seq<int>, root: Class, classes: seq<Class>, leaves: seq<Leaf>, i: nat)
    requires i < |leaves| && i < |classes|
  {
    var offset, width := OffsetOf(root, classes, i), PushWidth(root, classes[i]);
    offset + width <= |block| && block[offset..offset + width] == MemberBytes(root, classes[i], leaves[i])
  }

  lemma {:induction false} LowBytesPrefix(u: nat, width: nat, more: nat)
    requires width <= more
    ensures LowBytes(u, more)[..width] == LowBytes(u, width)
  {
    if width > 0 {
      LowBytesPrefix(u / 256, width - 1, more - 1);
      assert LowBytes(u, more)[..width] == [u % 256] + LowBytes(u / 256, more - 1)[..width - 1];
    }
  }

  /** The leaves a launch pushes: the count it dispatches over, then its own. */
  function Pushed(count: nat, given: seq<Leaf>): seq<Leaf> {
    [Leaf(IntClass, count)] + given
  }

  /** The launch's leaves are of the classes the fragment declares for them. */
  predicate ClassesMatch(classes: seq<Class>, given: seq<Leaf>) {
    |classes| == |given| + 1 && forall i :: 0 <= i < |given| ==> given[i].kind == classes[i + 1]
  }

  lemma HoldsStays(before: seq<int>, after: seq<int>, root: Class, classes: seq<Class>, leaves: seq<Leaf>, i: nat,
      edge: nat)
    requires i < |leaves| && i < |classes| && Holds(before, root, classes, leaves, i)
    requires OffsetOf(root, classes, i) + PushWidth(root, classes[i]) <= edge <= |before| == |after| &&
      after[..edge] == before[..edge]
    ensures Holds(after, root, classes, leaves, i)
  {
    var offset, width := OffsetOf(root, classes, i), PushWidth(root, classes[i]);
    assert after[offset..offset + width] == after[..edge][offset..offset + width];
    assert before[offset..offset + width] == before[..edge][offset..offset + width];
  }

  /**
  Exactly when no write ends past the block: unless, in an integer module, the last leaf is an
  integer given for a member declared narrower. An earlier leaf has the members after it to end in.
   */
  predicate AllFit(root: Class, classes: seq<Class>, leaves: seq<Leaf>)
    requires |leaves| == |classes|
  {
    leaves == [] || !(root == IntClass && classes[|classes| - 1] != IntClass && leaves[|leaves| - 1].kind == IntClass)
  }

  lemma FitsExactly(root: Class, classes: seq<Class>, leaves: seq<Leaf>, i: nat)
    requires i < |leaves| == |classes|
    ensures var fits := OffsetOf(root, classes, i) + PushWidth(root, leaves[i].kind) <= EndOf(root, classes, |classes|);
      fits <==> i < |leaves| - 1 || AllFit(root, classes, leaves)
  {
    LeavesAreApart(root, classes, i, |classes|);
    if i < |leaves| - 1 {
      LeavesAreApart(root, classes, i, i + 1);
      LeavesAreApart(root, classes, i + 1, |classes|);
    }
  }

  /**
  From where the first `i` writes have left the block zero: an eight-byte write never gets past the next member's
  first half.
   */
  function Reach(root: Class, classes: seq<Class>, i: nat): nat
    requires i <= |classes|
  {
    if i == 0 then 0 else OffsetOf(root, classes, i - 1) + 8
  }

  ghost predicate ZeroFrom(block: seq<int>, edge: nat) {
    forall x :: edge <= x < |block| ==> block[x] == 0
  }

  /** One write leaves its member holding its leaf, every earlier member as it was, and zeros past its reach. */
  lemma WriteHolds(before: seq<int>, after: seq<int>, root: Class, classes: seq<Class>, leaves: seq<Leaf>, i: nat)
    requires i < |leaves| == |classes| && |before| == |after| == EndOf(root, classes, |classes|)
    requires ZeroFrom(before, Reach(root, classes, i)) && forall j :: 0 <= j < i ==>
      Holds(before, root, classes, leaves, j)
    requires var offset, width := OffsetOf(root, classes, i), PushWidth(root, leaves[i].kind);
      && offset + width <= |before| && after[..offset] == before[..offset]
      && after[offset + width..] == before[offset + width..]
      && after[offset..offset + width] == LeafBytes(root, leaves[i])
    ensures ZeroFrom(after, Reach(root, classes, i + 1))
    ensures forall j :: 0 <= j <= i ==> Holds(after, root, classes, leaves, j)
  {
    var offset, width := OffsetOf(root, classes, i), PushWidth(root, leaves[i].kind);
    forall x | offset + width <= x < |after| ensures after[x] == before[x] {
      assert after[x] == after[offset + width..][x - offset - width];
    }
    if i > 0 { LeavesAreApart(root, classes, i - 1, i); }
    WrittenHolds(before, after, root, classes, leaves, i);
    forall j | 0 <= j < i ensures Holds(after, root, classes, leaves, j) {
      LeavesAreApart(root, classes, j, i);
      HoldsStays(before, after, root, classes, leaves, j, offset);
    }
  }

  lemma WrittenHolds(before: seq<int>, after: seq<int>, root: Class, classes: seq<Class>, leaves: seq<Leaf>, i: nat)
    requires i < |leaves| == |classes| && |before| == |after| == EndOf(root, classes, |classes|)
    requires ZeroFrom(before, Reach(root, classes, i)) && Reach(root, classes, i) <= OffsetOf(root, classes, i) + 4
    requires var offset, width := OffsetOf(root, classes, i), PushWidth(root, leaves[i].kind);
      && offset + width <= |before| && after[offset..offset + width] == LeafBytes(root, leaves[i])
      && forall x :: offset + width <= x < |after| ==> after[x] == before[x]
    ensures Holds(after, root, classes, leaves, i)
  {
    var offset, width := OffsetOf(root, classes, i), PushWidth(root, leaves[i].kind);
    LeavesAreApart(root, classes, i, |classes|);
    CutBytes(after, offset, width, PushWidth(root, classes[i]), leaves[i].bits % WORD);
  }

  /** Some bytes written where all after them was zero, read at another width. */
  lemma CutBytes(after: seq<int>, offset: nat, width: nat, declared: nat, u: nat)
    requires offset + width <= |after| && offset + declared <= |after| &&
      after[offset..offset + width] == LowBytes(u, width)
    requires forall x :: offset + width <= x < offset + declared ==> after[x] == 0
    ensures var kept := if width < declared then width else declared;
      after[offset..offset + declared] == LowBytes(u, kept) + Zeros(declared - kept)
  {
    var kept := if width < declared then width else declared;
    LowBytesPrefix(u, kept, width);
    assert after[offset..offset + kept] == after[offset..offset + width][..kept];
    assert after[offset..offset + declared] == after[offset..offset + kept] + after[offset + kept..offset + declared];
  }

  /** Fill the block: member `i` from leaf `i`, in order. */
  method WriteLeaves(block: array<int>, root: Class, classes: seq<Class>, offsets: seq<nat>, leaves: seq<Leaf>)
    returns (ok: bool)
    requires |leaves| == |classes| == |offsets| && block.Length == EndOf(root, classes, |classes|)
    requires forall i :: 0 <= i < |classes| ==> offsets[i] == OffsetOf(root, classes, i)
    requires ZeroFrom(block[..], 0)
    modifies block
    ensures ok <==> AllFit(root, classes, leaves)
    ensures ok ==> forall i :: 0 <= i < |leaves| ==> Holds(block[..], root, classes, leaves, i)
  {
    ok := true;
    var i := 0;
    while i < |leaves| && ok
      invariant 0 <= i <= |leaves|
      invariant ok ==> ZeroFrom(block[..], Reach(root, classes, i)) && forall j :: 0 <= j < i ==>
        Holds(block[..], root, classes, leaves, j)
      invariant i < |leaves| ==> ok
      invariant i == |leaves| ==> (ok <==> AllFit(root, classes, leaves))
    {
      ghost var before := block[..];
      FitsExactly(root, classes, leaves, i);
      ok := WriteLeaf(block, offsets[i], root, leaves[i]);
      if ok {
        ghost var width := PushWidth(root, leaves[i].kind);
        assert block[..][..offsets[i]] == block[..offsets[i]] && before[..offsets[i]] == before[..][..offsets[i]];
        assert block[..][offsets[i] + width..] == block[offsets[i] + width..] &&
          block[..][offsets[i]..offsets[i] + width] == block[offsets[i]..offsets[i] + width];
        WriteHolds(before, block[..], root, classes, leaves, i);
      }
      i := i + 1;
    }
  }

  /** The members of the block: every leaf but the last, which is the index. */
  function Members(leaves: seq<Class>): seq<Class> {
    if leaves == [] then [] else leaves[..|leaves| - 1]
  }

  /** The checks before anything is written, in order. */
  function Refused(root: Class, leaves: seq<Class>, given: seq<Leaf>, max: nat): Option<BlockError> {
    var declared := if |leaves| < 2 then 0 else |leaves| - 2;
    var size := EndOf(root, Members(leaves), |Members(leaves)|);
    if |given| != declared then Some(ScalarLeavesMismatch(declared, |given|))
    else if size > max then Some(TooLarge(size, max))
    else if leaves != [] && leaves[0] != IntClass then Some(ExtentNotAnInteger(leaves[0]))
    else None
  }

  /** The block's members: what a launch that gets as far as writing them fills. */
  function Filled(root: Class, leaves: seq<Class>, given: seq<Leaf>, count: nat): bool
    requires |given| == if |leaves| < 2 then 0 else |leaves| - 2
  {
    Members(leaves) != [] && AllFit(root, Members(leaves), Pushed(count, given))
  }

  /**
  A launch's block: an extent that is an integer, a leaf for every other member, and every member holding its own.
   */
  ghost predicate Pushes(block: seq<int>, root: Class, leaves: seq<Class>, given: seq<Leaf>, count: nat) {
    && |leaves| >= 2 && leaves[0] == IntClass && |given| + 2 == |leaves|
    && |block| == EndOf(root, Members(leaves), |Members(leaves)|)
    && forall k :: 0 <= k < |Members(leaves)| ==> Holds(block, root, Members(leaves), Pushed(count, given), k)
  }

  /** What an error rests on. The last is a panic: no member to write the extent to, or a write past the block. */
  ghost predicate Cause(root: Class, leaves: seq<Class>, given: seq<Leaf>, max: nat, e: BlockError) {
    match e
    case ScalarLeavesMismatch(declared, found) =>
      found == |given| != declared && declared == if |leaves| < 2 then 0 else |leaves| - 2
    case TooLarge(bytes, most) => most == max < bytes == EndOf(root, Members(leaves), |Members(leaves)|)
    case ExtentNotAnInteger(kind) => leaves != [] && kind == leaves[0] != IntClass
    case OutOfBounds =>
      |leaves| < 2 ||
      (root == IntClass && leaves[|leaves| - 2] != IntClass && (given == [] || given[|given| - 1].kind == IntClass))
  }

  /** Which check an error comes from. */
  function Check(e: BlockError): nat {
    match e
    case ScalarLeavesMismatch(_, _) => 0
    case TooLarge(_, _) => 1
    case ExtentNotAnInteger(_) => 2
    case OutOfBounds => 3
  }

  lemma RefusedForItsCause(root: Class, leaves: seq<Class>, given: seq<Leaf>, count: nat, max: nat, e: BlockError)
    requires Cause(root, leaves, given, max, e)
    ensures var refused := Refused(root, leaves, given, max);
      if refused.Some? then Cause(root, leaves, given, max, refused.value) && Check(refused.value) <= Check(e)
      else e.OutOfBounds? && !Filled(root, leaves, given, count)
  {
    if |leaves| >= 2 { assert Members(leaves)[|leaves| - 2] == leaves[|leaves| - 2]; }
  }

  lemma FilledWithoutCause(root: Class, leaves: seq<Class>, given: seq<Leaf>, count: nat, max: nat)
    ensures var refused := Refused(root, leaves, given, max);
      (refused.Some? ==> Cause(root, leaves, given, max, refused.value)) &&
      (refused.None? && !Filled(root, leaves, given, count) ==> Cause(root, leaves, given, max, OutOfBounds))
  {
  }

  /** The first check that has a cause to refuse. */
  ghost predicate FirstCause(root: Class, leaves: seq<Class>, given: seq<Leaf>, max: nat, e: BlockError) {
    Cause(root, leaves, given, max, e) && forall f :: Cause(root, leaves, given, max, f) ==> Check(e) <= Check(f)
  }

  /**
  `scalar_block`: refused by name, or filled exactly when every write fits. A fragment whose only leaf is
  its index has no member to write the extent to, which is a panic like a write past the block.
   */
  method ScalarBlock(root: Class, leaves: seq<Class>, given: seq<Leaf>, count: nat, max: nat)
    returns (r: Result<seq<int>, BlockError>)
    ensures Refused(root, leaves, given, max).Some? ==> r == Failure(Refused(root, leaves, given, max).value)
    ensures Refused(root, leaves, given, max).None? && r.Failure? ==> r == Failure(OutOfBounds)
    ensures Refused(root, leaves, given, max).None? ==> (r.Success? <==> Filled(root, leaves, given, count))
    ensures r.Success? ==> Pushes(r.value, root, leaves, given, count) && |r.value| <= max
    ensures r.Failure? ==> FirstCause(root, leaves, given, max, r.error)
    ensures r.Success? ==> forall e :: !Cause(root, leaves, given, max, e)
  {
    FilledWithoutCause(root, leaves, given, count, max);
    forall e | Cause(root, leaves, given, max, e)
      ensures var refused := Refused(root, leaves, given, max);
        if refused.Some? then Check(refused.value) <= Check(e)
        else e.OutOfBounds? && !Filled(root, leaves, given, count)
    {
      RefusedForItsCause(root, leaves, given, count, max, e);
    }
    var refused := Refused(root, leaves, given, max);
    if refused.Some? { return Failure(refused.value); }
    var classes := Members(leaves);
    if classes == [] { return Failure(OutOfBounds); }
    r := FilledBlock(root, classes, Pushed(count, given));
  }

  method FilledBlock(root: Class, classes: seq<Class>, leaves: seq<Leaf>) returns (r: Result<seq<int>, BlockError>)
    requires |leaves| == |classes|
    ensures r.Failure? ==> r == Failure(OutOfBounds)
    ensures r.Success? <==> AllFit(root, classes, leaves)
    ensures r.Success? ==> |r.value| == EndOf(root, classes, |classes|)
    ensures r.Success? ==> forall i :: 0 <= i < |leaves| ==> Holds(r.value, root, classes, leaves, i)
  {
    var offsets, size := PushLayout(root, classes);
    var block := new int[size](_ => 0);
    var ok := WriteLeaves(block, root, classes, offsets, leaves);
    if !ok { return Failure(OutOfBounds); }
    return Success(block[..]);
  }

  /** Launch leaves of the classes declared for them always fit. */
  lemma MatchingLeavesFit(root: Class, leaves: seq<Class>, given: seq<Leaf>, count: nat)
    requires |leaves| >= 2 && leaves[0] == IntClass && ClassesMatch(Members(leaves), given)
    ensures Filled(root, leaves, given, count)
  {
  }

  /** An integer given for a last leaf declared as a float: refused by nothing, and written past the block. */
  method LaunchPastTheBlock(bits: int, count: nat, max: nat) returns (r: Result<seq<int>, BlockError>)
    requires max >= 12
    ensures r == Failure(OutOfBounds)
  {
    var leaves, given := [IntClass, FloatClass, IntClass], [Leaf(IntClass, bits)];
    assert Members(leaves) == [IntClass, FloatClass];
    assert EndOf(IntClass, [IntClass, FloatClass], 1) == 8 && EndOf(IntClass, [IntClass, FloatClass], 2) == 12;
    r := ScalarBlock(IntClass, leaves, given, count, max);
  }

  lemma NumberOfZeros(n: nat)
    ensures Number(Zeros(n)) == 0
  {
    if n > 0 {
      NumberOfZeros(n - 1);
      assert Zeros(n)[1..] == Zeros(n - 1);
    }
  }

  lemma {:induction false} NumberThenZeros(bytes: seq<int>, n: nat)
    ensures Number(bytes + Zeros(n)) == Number(bytes)
  {
    if bytes == [] {
      NumberOfZeros(n);
      assert bytes + Zeros(n) == Zeros(n);
    } else {
      NumberThenZeros(bytes[1..], n);
      assert (bytes + Zeros(n))[1..] == bytes[1..] + Zeros(n);
    }
  }

  /**
  Reading member `i` at the emitter's offset and width gives the leaf's bits modulo the shorter of the
  leaf's width and the member's, whatever the leaves around it were. Only an integer in an integer module is wide.
   */
  lemma MemberReadsBack(block: seq<int>, root: Class, classes: seq<Class>, leaves: seq<Leaf>, i: nat)
    requires i < |leaves| && i < |classes| && Holds(block, root, classes, leaves, i)
    ensures var offset, width := OffsetOf(root, classes, i), PushWidth(root, classes[i]);
      Number(block[offset..offset + width]) == leaves[i].bits % Power(KeptWidth(root, classes[i], leaves[i].kind))
    ensures var offset, wide := OffsetOf(root, classes, i), root == IntClass == classes[i];
      offset + (if wide then 8 else 4) <= |block| &&
      Number(block[offset..offset + if wide then 8 else 4]) ==
        leaves[i].bits % if wide && leaves[i].kind == IntClass then 0x1_0000_0000_0000_0000 else 0x1_0000_0000
  {
    var width := KeptWidth(root, classes[i], leaves[i].kind);
    LowBytesRoundTrip(leaves[i].bits % WORD, width);
    NumberThenZeros(LowBytes(leaves[i].bits % WORD, width), PushWidth(root, classes[i]) - width);
    Powers();
    if width == 8 {
      WordOfWord(leaves[i].bits);
    } else {
      HalfOfWord(leaves[i].bits);
    }
  }

  lemma Powers()
    ensures Power(4) == 0x1_0000_0000 && Power(8) == WORD
  {
    assert Power(1) == 256 && Power(2) == 65536 && Power(3) == 0x100_0000;
    assert Power(4) == 0x1_0000_0000;
    assert Power(5) == 0x100_0000_0000 && Power(6) == 0x1_0000_0000_0000 && Power(7) == 0x100_0000_0000_0000;
  }

  lemma WordOfWord(bits: int)
    ensures bits % WORD % WORD == bits % WORD
  {
  }

  lemma HalfOfWord(bits: int)
    ensures bits % WORD % 0x1_0000_0000 == bits % 0x1_0000_0000
  {
    var h := 0x1_0000_0000;
    var q, r := bits / WORD, bits % WORD;
    assert bits == WORD * q + r;
    assert WORD * q == h * (h * q);
    Remainder(bits, h, h * q + r / h, r % h);
  }
}
