/** The redirection in the body's own terms. */
module Relays {
  import opened Graphs
  import opened Options
  import opened Kernel
  import opened Reachability
  import opened Structure
  import opened PlanProperties
  import opened Rings

  // Insideness, dominance and the order of blocks say which pass-throughs carry a branch, and where
  // they hand on to each other for ever.

  // ---- what an edge is offered ----

  /** `a` is a selection with a pass-through to `join`, has block `b` inside it, and is not the one left out. */
  ghost predicate Offers(body: Body, join: nat, b: nat, out: Option<nat>, a: nat)
    requires Structured(body)
  {
    NeedsPass(body, a) && Join(body, a) == join && Inside(Flow(body), a, join, b) && Some(a) != out
  }

  ghost predicate Lowest(body: Body, join: nat, b: nat, out: Option<nat>, low: nat)
    requires Structured(body)
  {
    Offers(body, join, b, out, low) && forall c: nat :: Offers(body, join, b, out, c) ==> low <= c
  }

  /** Of those that dominate the lowest, the one that dominates them all. */
  ghost predicate Picks(body: Body, join: nat, b: nat, out: Option<nat>, a: nat)
    requires Structured(body)
  {
    Offers(body, join, b, out, a) &&
    exists low: nat :: Lowest(body, join, b, out, low) && Tops(body, join, b, out, low, a)
  }

  ghost predicate Tops(body: Body, join: nat, b: nat, out: Option<nat>, low: nat, a: nat)
    requires Structured(body)
  {
    && Dominates(Flow(body), body.entry, a, low)
    && forall c: nat :: Offers(body, join, b, out, c) && Dominates(Flow(body), body.entry, c, low) ==>
         Dominates(Flow(body), body.entry, a, c)
  }

  ghost function PassOf(body: Body, h: nat): Pass
    requires Structured(body) && NeedsPass(body, h)
  {
    Pass(h, Join(body, h), Merge(body, h).value)
  }

  lemma PassIsListed(body: Body, h: nat)
    requires Structured(body) && NeedsPass(body, h)
    ensures PassOf(body, h) in AllPasses(body)
  {
    PassHasItsNode(body, h);
    NodeShape(body, Merge(body, h).value);
  }

  lemma ListedIsPass(body: Body, p: Pass)
    requires Structured(body) && p in AllPasses(body)
    ensures NeedsPass(body, p.header) && p == PassOf(body, p.header)
  {
    PassIsItsNode(body, p, p);
    PassIsListed(body, p.header);
    PassIsItsNode(body, p, PassOf(body, p.header));
  }

  /** The node an edge leaves: a pass-through's own, or one that is no pass-through. */
  ghost predicate LeavesFrom(body: Body, from: nat, out: Option<nat>)
    requires Structured(body)
  {
    if out.Some? then NeedsPass(body, out.value) && from == PassOf(body, out.value).node else from < FirstPass(body)
  }

  lemma CandidateIsOffered(body: Body, from: nat, join: nat, b: nat, out: Option<nat>, p: Pass)
    requires Structured(body) && LeavesFrom(body, from, out) && p in AllPasses(body)
    ensures Candidate(Flow(body), p, from, join, b) <==> Offers(body, join, b, out, p.header)
  {
    ListedIsPass(body, p);
    PassIsItsNode(body, p, p);
    if out.Some? {
      PassIsListed(body, out.value);
      PassIsItsNode(body, p, PassOf(body, out.value));
    }
  }

  ghost predicate NoneLower(g: Graph, passes: seq<Pass>, from: nat, join: nat, b: nat, h: nat) {
    forall p :: p in passes && Candidate(g, p, from, join, b) ==> h <= p.header
  }

  lemma {:induction false} FirstIsLowest(g: Graph, passes: seq<Pass>, from: nat, join: nat, b: nat)
    requires forall i, j :: 0 <= i < j < |passes| ==> passes[i].header < passes[j].header
    ensures var first := FirstCandidate(g, passes, from, join, b);
      first.Some? ==>
        first.value in passes && Candidate(g, first.value, from, join, b) &&
        NoneLower(g, passes, from, join, b, first.value.header)
  {
    if passes != [] {
      var rest, last := passes[..|passes| - 1], passes[|passes| - 1];
      FirstIsLowest(g, rest, from, join, b);
      assert passes == rest + [last];
      NoneBefore(g, rest, from, join, b);
      forall p | p in passes ensures p == last || p in rest {}
      assert forall p :: p in rest ==> p.header < last.header;
    }
  }

  lemma {:induction false} NoneBefore(g: Graph, passes: seq<Pass>, from: nat, join: nat, b: nat)
    ensures FirstCandidate(g, passes, from, join, b).None? ==> forall p :: p in passes ==>
      !Candidate(g, p, from, join, b)
  {
    if passes != [] {
      var rest, last := passes[..|passes| - 1], passes[|passes| - 1];
      NoneBefore(g, rest, from, join, b);
      assert passes == rest + [last];
    }
  }

  lemma OutermostIsPicked(body: Body, from: nat, join: nat, b: nat, out: Option<nat>, first: Pass, c: Pass)
    requires Structured(body) && LeavesFrom(body, from, out)
    requires Outermost(Flow(body), body.entry, AllPasses(body), from, join, b, first, c)
    requires first in AllPasses(body) && Candidate(Flow(body), first, from, join, b)
    requires NoneLower(Flow(body), AllPasses(body), from, join, b, first.header)
    ensures Picks(body, join, b, out, c.header)
  {
    CandidateIsOffered(body, from, join, b, out, c);
    CandidateIsOffered(body, from, join, b, out, first);
    forall a: nat | Offers(body, join, b, out, a)
      ensures first.header <= a
      ensures Dominates(Flow(body), body.entry, a, first.header) ==> Dominates(Flow(body), body.entry, c.header, a)
    {
      PassIsListed(body, a);
      CandidateIsOffered(body, from, join, b, out, PassOf(body, a));
    }
    assert Lowest(body, join, b, out, first.header) && Tops(body, join, b, out, first.header, c.header);
  }

  lemma PickIsOne(body: Body, join: nat, b: nat, out: Option<nat>, a: nat, c: nat)
    requires Structured(body) && Picks(body, join, b, out, a) && Picks(body, join, b, out, c)
    ensures a == c
  {
    var low: nat :| Lowest(body, join, b, out, low) && Tops(body, join, b, out, low, a);
    var other: nat :| Lowest(body, join, b, out, other) && Tops(body, join, b, out, other, c);
    DominatesAntisymmetric(Flow(body), body.entry, a, c);
  }

  /** The redirection of an edge chooses exactly the selection the body picks. */
  lemma ChosenExactly(body: Body, from: nat, join: nat, b: nat, out: Option<nat>)
    requires Structured(body) && LeavesFrom(body, from, out)
    ensures var c := Chosen(Flow(body), body.entry, AllPasses(body), from, join, b);
      && (c.None? <==> forall a: nat :: !Offers(body, join, b, out, a))
      && (forall a: nat :: Picks(body, join, b, out, a) <==> NeedsPass(body, a) && c == Some(PassOf(body, a)))
      && (c.Some? ==> Picks(body, join, b, out, c.value.header) && c == Some(PassOf(body, c.value.header)))
  {
    var g, passes := Flow(body), AllPasses(body);
    var c := Chosen(g, body.entry, passes, from, join, b);
    PassesAreSelections(body, |body.blocks|);
    forall p | p in passes ensures Reaches(g, body.entry, p.header) { PassIsItsNode(body, p, p); }
    ChosenIsCandidate(g, body.entry, passes, from, join, b);
    if c.None? {
      forall a: nat ensures !Offers(body, join, b, out, a) {
        if NeedsPass(body, a) {
          PassIsListed(body, a);
          CandidateIsOffered(body, from, join, b, out, PassOf(body, a));
        }
      }
    } else {
      ChosenIsOutermost(g, body.entry, passes, from, join, b);
      FirstIsLowest(g, passes, from, join, b);
      OutermostIsPicked(body, from, join, b, out, FirstCandidate(g, passes, from, join, b).value, c.value);
      ListedIsPass(body, c.value);
      forall a: nat | Picks(body, join, b, out, a) ensures a == c.value.header {
        PickIsOne(body, join, b, out, a, c.value.header);
      }
    }
  }

  // ---- rings ----

  /** The pass-through of `a` hands on to that of `b`. */
  ghost predicate HandsTo(body: Body, a: nat, b: nat)
    requires Structured(body)
  {
    NeedsPass(body, a) && Picks(body, Join(body, a), a, Some(a), b)
  }

  /** The pass-through of `a` hands on to none: it goes to its join. */
  ghost predicate Final(body: Body, a: nat)
    requires Structured(body)
  {
    NeedsPass(body, a) && forall c: nat :: !Offers(body, Join(body, a), a, Some(a), c)
  }

  lemma OnwardExactly(body: Body, a: nat)
    requires Structured(body) && NeedsPass(body, a)
    ensures Onward(body, PassOf(body, a)).None? <==> Final(body, a)
    ensures forall b: nat :: HandsTo(body, a, b) <==>
      NeedsPass(body, b) && Onward(body, PassOf(body, a)) == Some(PassOf(body, b))
    ensures var q := Onward(body, PassOf(body, a)); q.Some? ==>
      HandsTo(body, a, q.value.header) && q == Some(PassOf(body, q.value.header))
  {
    ChosenExactly(body, PassOf(body, a).node, Join(body, a), a, Some(a));
  }

  lemma HandsOn(body: Body, a: nat, b: nat)
    requires Structured(body) && HandsTo(body, a, b)
    ensures NeedsPass(body, b) && Onward(body, PassOf(body, a)) == Some(PassOf(body, b))
  {
    OnwardExactly(body, a);
  }

  /** Where a pass-through hands on to, if anywhere. */
  lemma HandsOrEnds(body: Body, a: nat)
    requires Structured(body) && NeedsPass(body, a)
    ensures var q := Onward(body, PassOf(body, a));
      if q.None? then Final(body, a)
      else
        NeedsPass(body, q.value.header) && q.value == PassOf(body, q.value.header) && HandsTo(body, a, q.value.header)
  {
    OnwardExactly(body, a);
  }

  ghost predicate InRing(body: Body, a: nat, b: nat, c: nat)
    requires Structured(body)
  {
    HandsTo(body, a, b) && (HandsTo(body, b, a) || (HandsTo(body, b, c) && HandsTo(body, c, a)))
  }

  /** In the body's own terms: no two or three selections each hand on to the next in a circle. */
  lemma NoRingsExactly(body: Body)
    requires Structured(body)
    ensures NoRings(body) <==> forall a: nat, b: nat, c: nat :: !InRing(body, a, b, c)
  {
    if exists a: nat, b: nat, c: nat :: InRing(body, a, b, c) {
      var a: nat, b: nat, c: nat :| InRing(body, a, b, c);
      CircleIsRing(body, a, b, c);
    }
    if !NoRings(body) {
      var p :| p in AllPasses(body) && Ring(body, p);
      var c := RingIsCircle(body, p);
    }
  }

  lemma CircleIsRing(body: Body, a: nat, b: nat, c: nat)
    requires Structured(body) && InRing(body, a, b, c)
    ensures !NoRings(body)
  {
    OnwardExactly(body, a);
    OnwardExactly(body, b);
    if !HandsTo(body, b, a) { OnwardExactly(body, c); }
    PassIsListed(body, a);
    assert Ring(body, PassOf(body, a));
  }

  lemma RingIsCircle(body: Body, p: Pass) returns (c: nat)
    requires Structured(body) && p in AllPasses(body) && Ring(body, p)
    ensures Onward(body, p).Some? && InRing(body, p.header, Onward(body, p).value.header, c)
  {
    ListedIsPass(body, p);
    OnwardExactly(body, p.header);
    var q := Onward(body, p).value;
    OnwardExactly(body, q.header);
    var r := Onward(body, q).value;
    OnwardExactly(body, r.header);
    c := r.header;
  }

  // ---- where a branch is carried ----

  /** The selections whose pass-throughs carry a branch of block `u` to `join`, in turn. */
  ghost predicate Relay(body: Body, u: nat, join: nat, hs: seq<nat>)
    requires Structured(body)
  {
    |hs| > 0 && Picks(body, join, u, None, hs[0]) && Handed(body, hs)
  }

  ghost predicate Handed(body: Body, hs: seq<nat>)
    requires Structured(body)
  {
    forall i :: 0 < i < |hs| ==> HandsTo(body, hs[i - 1], hs[i])
  }

  /**
  A branch of `u` to `join` gets there: it is offered no pass-through, or the last it is handed to hands it on to
  none.
   */
  ghost predicate Delivered(body: Body, u: nat, join: nat)
    requires Structured(body)
  {
    || (forall c: nat :: !Offers(body, join, u, None, c))
    || exists hs :: Relay(body, u, join, hs) && Final(body, hs[|hs| - 1])
  }

  /** The pass-through of `h` carries a branch of `u`. */
  ghost predicate Carries(body: Body, u: nat, h: nat)
    requires Structured(body)
  {
    NeedsPass(body, h) && Edge(Flow(body), u, Join(body, h)) && exists hs ::
      Relay(body, u, Join(body, h), hs) && hs[|hs| - 1] == h
  }

  lemma HandedRest(body: Body, hs: seq<nat>)
    requires Structured(body) && |hs| > 1 && Handed(body, hs)
    ensures Handed(body, hs[1..])
  {
    forall i | 0 < i < |hs[1..]| ensures HandsTo(body, hs[1..][i - 1], hs[1..][i]) {
      assert HandsTo(body, hs[i + 1 - 1], hs[i + 1]);
    }
  }

  lemma HandedMore(body: Body, h: nat, rest: seq<nat>)
    requires Structured(body) && |rest| > 0 && HandsTo(body, h, rest[0]) && Handed(body, rest)
    ensures Handed(body, [h] + rest)
  {
    forall i | 0 < i < |[h] + rest| ensures HandsTo(body, ([h] + rest)[i - 1], ([h] + rest)[i]) {
      if i > 1 { assert HandsTo(body, rest[i - 1 - 1], rest[i - 1]); }
    }
  }

  lemma {:induction false} HandedIsChain(body: Body, hs: seq<nat>)
    requires Structured(body) && |hs| > 0 && NeedsPass(body, hs[0]) && Handed(body, hs)
    ensures NeedsPass(body, hs[|hs| - 1]) &&
      Chain(body, PassOf(body, hs[0]), |hs| - 1) == Some(PassOf(body, hs[|hs| - 1]))
    decreases |hs|
  {
    if |hs| > 1 {
      assert HandsTo(body, hs[1 - 1], hs[1]);
      HandsOn(body, hs[0], hs[1]);
      HandedRest(body, hs);
      HandedIsChain(body, hs[1..]);
    }
  }

  /** A pass-through that settles hands on in finitely many turns to one that is final. */
  lemma {:induction false} ChainIsHanded(body: Body, h: nat, k: nat) returns (hs: seq<nat>)
    requires Structured(body) && NeedsPass(body, h) && Chain(body, PassOf(body, h), k).None?
    ensures |hs| > 0 && hs[0] == h && Handed(body, hs) && Final(body, hs[|hs| - 1])
    decreases k
  {
    HandsOrEnds(body, h);
    var q := Onward(body, PassOf(body, h));
    hs := [h];
    if q.Some? {
      var rest := ChainIsHanded(body, q.value.header, k - 1);
      HandedMore(body, h, rest);
      hs := [h] + rest;
    }
  }

  /** A branch is delivered exactly when the redirection offers it none or the one it chooses settles. */
  lemma DeliveredExactly(body: Body, u: nat, join: nat)
    requires Structured(body) && u < FirstPass(body)
    ensures var c := Chosen(Flow(body), body.entry, AllPasses(body), u, join, u);
      Delivered(body, u, join) <==> c.None? || Settles(body, c.value)
  {
    ChosenExactly(body, u, join, u, None);
    var c := Chosen(Flow(body), body.entry, AllPasses(body), u, join, u);
    if c.Some? {
      if Settles(body, c.value) {
        var k: nat :| Chain(body, c.value, k) == None;
        var hs := ChainIsHanded(body, c.value.header, k);
        assert Relay(body, u, join, hs);
      }
      if exists hs :: Relay(body, u, join, hs) && Final(body, hs[|hs| - 1]) {
        var hs :| Relay(body, u, join, hs) && Final(body, hs[|hs| - 1]);
        FinalSettles(body, hs);
      }
    }
  }

  lemma FinalSettles(body: Body, hs: seq<nat>)
    requires Structured(body) && |hs| > 0 && NeedsPass(body, hs[0]) && Handed(body, hs) && Final(body, hs[|hs| - 1])
    ensures Settles(body, PassOf(body, hs[0]))
  {
    HandedIsChain(body, hs);
    PassIsListed(body, hs[0]);
    ChainStep(body, PassOf(body, hs[0]), |hs| - 1);
    HandsOrEnds(body, hs[|hs| - 1]);
    OnwardExactly(body, hs[|hs| - 1]);
  }
}
