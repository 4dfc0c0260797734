/** Lists of numbers in which nothing occurs twice. */
module Distinctness {

  /** No number occurs twice. */
  ghost predicate Distinct(s: seq<nat>) {
    s == [] || (s[|s| - 1] !in s[..|s| - 1] && Distinct(s[..|s| - 1]))
  }

  lemma DistinctSnoc(s: seq<nat>, x: nat)
    ensures Distinct(s + [x]) <==> Distinct(s) && x !in s
  {
    assert (s + [x])[..|s|] == s;
  }

  lemma {:induction false} DistinctAppend(a: seq<nat>, b: seq<nat>)
    requires Distinct(a) && Distinct(b) && forall v :: v in b ==> v !in a
    ensures Distinct(a + b)
  {
    if b == [] {
      assert a + b == a;
    } else {
      var c, last := b[..|b| - 1], b[|b| - 1];
      DistinctAppend(a, c);
      DistinctSnoc(a + c, last);
      assert a + b == a + c + [last];
    }
  }

  ghost function Members(s: seq<nat>): (r: set<nat>)
    ensures forall x :: x in r <==> x in s
    ensures Distinct(s) ==> |r| == |s|
  {
    if s == [] then {}
    else
      assert s == s[..|s| - 1] + [s[|s| - 1]];
      Members(s[..|s| - 1]) + {s[|s| - 1]}
  }

  ghost function Below(n: nat): (r: set<nat>)
    ensures |r| == n && forall v: nat :: v in r <==> v < n
  {
    if n == 0 then {} else Below(n - 1) + {n - 1}
  }

  /** Distinct numbers below `n` are all of them exactly when there are `n`. */
  lemma CountDistinct(s: seq<nat>, n: nat)
    requires Distinct(s) && forall v :: v in s ==> v < n
    ensures |s| <= n
    ensures |s| == n <==> forall v: nat :: v < n ==> v in s
  {
    var some, all := Members(s), Below(n);
    assert all == some + (all - some);
    assert |all| == |some| + |all - some|;
    if |s| != n {
      assert |all - some| > 0;
      var v :| v in all - some;
    } else {
      assert all - some == {};
    }
  }

  /** A list is distinct when it names each of its members at one place. */
  lemma {:induction false} DistinctPlaces(s: seq<nat>)
    ensures Distinct(s) <==> forall i, j :: 0 <= i < j < |s| ==> s[i] != s[j]
  {
    if s != [] {
      var t := s[..|s| - 1];
      DistinctPlaces(t);
      if Distinct(s) {
        forall i, j | 0 <= i < j < |s| ensures s[i] != s[j] { assert s[i] == t[i]; }
      } else if s[|s| - 1] in t {
        var i :| 0 <= i < |t| && t[i] == s[|s| - 1];
        assert s[i] == s[|s| - 1];
      } else {
        var i, j :| 0 <= i < j < |t| && t[i] == t[j];
        assert s[i] == s[j];
      }
    }
  }

  lemma {:induction false} DistinctParts(a: seq<nat>, b: seq<nat>)
    requires Distinct(a + b)
    ensures Distinct(a) && Distinct(b) && forall v :: v in a ==> v !in b
  {
    if b == [] {
      assert a + b == a;
    } else {
      var c := b[..|b| - 1];
      assert (a + b)[..|a + b| - 1] == a + c;
      DistinctParts(a, c);
      assert b == c + [b[|b| - 1]];
    }
  }
}
