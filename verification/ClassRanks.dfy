/** In a well-formed body that can be planned, operands can be ranked below what reads them, so resolution ends. */
module ClassRanks {
  import opened Graphs
  import opened Kernel
  import opened Structure
  import opened Planner
  import opened Distinctness
  import opened Ssa
  import opened Classes

  /** The definitions are the body's: parameters of its blocks, instructions of its blocks with their operands. */
  ghost predicate DefinitionsMatch(p: Program) {
    forall v: nat :: v < |p.defs| ==> DefinitionMatches(p, v)
  }

  ghost predicate DefinitionMatches(p: Program, v: nat)
    requires v < |p.defs|
  {
    var d := p.defs[v];
    && (d.Parameter? ==> d.block < |p.body.blocks| && v in p.body.blocks[d.block].params)
    && (d.Instruction? ==> v in p.body.operands && p.body.operands[v] == d.args && IsInstruction(p.body, v))
  }

  ghost predicate IsInstruction(body: Body, v: nat) {
    exists b: nat :: b < |body.blocks| && v in body.blocks[b].instrs
  }

  ghost function PlaceOf(s: seq<nat>, x: nat): (k: nat)
    requires x in s
    ensures k < |s| && s[k] == x
  {
    var k: nat :| k < |s| && s[k] == x; k
  }

  ghost function Home(body: Body, v: nat): (b: nat)
    requires IsInstruction(body, v)
    ensures b < |body.blocks| && v in body.blocks[b].instrs
  {
    var b: nat :| b < |body.blocks| && v in body.blocks[b].instrs; b
  }

  ghost function Longest(blocks: seq<Block>): (n: nat)
    ensures forall i :: 0 <= i < |blocks| ==> |blocks[i].instrs| <= n
  {
    if blocks == [] then 0
    else
      var rest := Longest(blocks[..|blocks| - 1]);
      var last := |blocks[|blocks| - 1].instrs|;
      if last > rest then last else rest
  }

  /** When an instruction is written: its block's turn first, then its place in the block. */
  ghost function Turn(body: Body, order: seq<nat>, b: nat, j: nat): nat
    requires b in order
  {
    PlaceOf(order, b) * (Longest(body.blocks) + 1) + j
  }

  lemma EarlierBlockEarlierTurn(body: Body, order: seq<nat>, d: nat, k: nat, b: nat, j: nat)
    requires d in order && b in order && PlaceOf(order, d) < PlaceOf(order, b) && k <= Longest(body.blocks)
    ensures Turn(body, order, d, k) < Turn(body, order, b, j)
  {
    var l := Longest(body.blocks) + 1;
    assert PlaceOf(order, d) * l + l == (PlaceOf(order, d) + 1) * l <= PlaceOf(order, b) * l;
  }

  ghost function RankFor(p: Program, order: seq<nat>, v: nat): nat
    requires DefinitionsMatch(p) && (forall b: nat :: b < |p.body.blocks| ==> b in order)
  {
    if v < |p.defs| && p.defs[v].Instruction? then
      assert DefinitionMatches(p, v);
      Turn(p.body, order, Home(p.body, v), PlaceOf(p.body.blocks[Home(p.body, v)].instrs, v))
    else 0
  }

  /** An operand available to an instruction is a parameter, or an instruction with an earlier turn. */
  lemma OperandIsEarlier(p: Program, order: seq<nat>, v: nat, a: nat)
    requires ValidSsa(p.body) && DefinitionsMatch(p) && (forall b: nat :: b < |p.body.blocks| ==> b in order) &&
      Distinct(order)
    requires v < |p.defs| && p.defs[v].Instruction? && a < |p.defs| && p.defs[a].Instruction? &&
      IsInstruction(p.body, v)
    requires Available(p.body, Home(p.body, v), PlaceOf(p.body.blocks[Home(p.body, v)].instrs, v), a)
    requires forall d: nat :: d != Home(p.body, v) && Dominates(Flow(p.body), p.body.entry, d, Home(p.body, v)) ==>
      d in order && PlaceOf(order, d) < PlaceOf(order, Home(p.body, v))
    ensures RankFor(p, order, a) < RankFor(p, order, v)
  {
    assert DefinitionMatches(p, v) && DefinitionMatches(p, a);
    var b, c := Home(p.body, v), Home(p.body, a);
    var j, k := PlaceOf(p.body.blocks[b].instrs, v), PlaceOf(p.body.blocks[c].instrs, a);
    assert Defines(p.body, c, a) && Distinct(p.body.blocks[b].params + p.body.blocks[b].instrs);
    NotBoth(p.body, b, c, a);
    if a in p.body.blocks[b].instrs[..j] {
      assert Defines(p.body, b, a);
      Once(p.body.blocks[b].params, p.body.blocks[b].instrs, j, k, a);
    } else {
      var d: nat :| d != b && Defines(p.body, d, a) && Dominates(Flow(p.body), p.body.entry, d, b);
      EarlierBlockEarlierTurn(p.body, order, c, k, b, j);
    }
  }

  /** A value that is some block's instruction is no block's parameter. */
  lemma NotBoth(body: Body, b: nat, c: nat, a: nat)
    requires ValidSsa(body) && b < |body.blocks| && c < |body.blocks| && a in body.blocks[c].instrs
    ensures a !in body.blocks[b].params
  {
    if a in body.blocks[b].params {
      assert Defines(body, b, a) && Defines(body, c, a);
    }
  }

  lemma Once(params: seq<nat>, instrs: seq<nat>, j: nat, k: nat, a: nat)
    requires Distinct(params + instrs) && j < |instrs| && k < |instrs| && instrs[k] == a && a in instrs[..j]
    ensures k < j
  {
    DistinctParts(params, instrs);
    DistinctPlaces(instrs);
    var i :| 0 <= i < j && instrs[..j][i] == a;
    assert instrs[i] == a;
  }

  /** So every body that can be planned has a ranking, and the resolver's walk over it ends. */
  lemma PlannedBodiesRank(p: Program, q: Plan)
    requires ValidSsa(p.body) && PlanOrder(p.body, q) && |p.body.blocks| <= |q.targets| && DefinitionsMatch(p)
    ensures exists rank :: Ranked(p, rank)
  {
    OrderCovers(p.body, q);
    var rank := seq(|p.defs|, v requires 0 <= v < |p.defs| => RankFor(p, q.order, v));
    forall v: nat | v < |p.defs| ensures DefinitionFits(p, rank, v) {
      DefinitionRanks(p, q, rank, v);
    }
    assert Ranked(p, rank);
  }

  lemma OrderCovers(body: Body, q: Plan)
    requires PlanOrder(body, q) && |body.blocks| <= |q.targets|
    ensures Distinct(q.order) && forall b: nat :: b < |body.blocks| ==> b in q.order
  {
  }

  lemma AboveIsEarlier(body: Body, q: Plan, b: nat, d: nat)
    requires PlanOrder(body, q) && b < |body.blocks| && b in q.order && Distinct(q.order)
    requires d != b && Dominates(Flow(body), body.entry, d, b)
    ensures d in q.order && PlaceOf(q.order, d) < PlaceOf(q.order, b)
  {
    var i := PlaceOf(q.order, b);
    assert d in q.order[..i];
    DistinctPlaces(q.order);
    var k :| 0 <= k < i && q.order[..i][k] == d;
    assert q.order[k] == d;
  }

  lemma DefinitionRanks(p: Program, q: Plan, rank: seq<nat>, v: nat)
    requires ValidSsa(p.body) && PlanOrder(p.body, q) && DefinitionsMatch(p) && Distinct(q.order)
    requires forall b: nat :: b < |p.body.blocks| ==> b in q.order
    requires |rank| == |p.defs| && v < |p.defs| && forall x: nat :: x < |p.defs| ==> rank[x] == RankFor(p, q.order, x)
    ensures DefinitionFits(p, rank, v)
  {
    assert DefinitionMatches(p, v);
    if p.defs[v].Instruction? {
      var args := p.defs[v].args;
      var b := Home(p.body, v);
      var j := PlaceOf(p.body.blocks[b].instrs, v);
      forall d: nat | d != b && Dominates(Flow(p.body), p.body.entry, d, b)
        ensures d in q.order && PlaceOf(q.order, d) < PlaceOf(q.order, b)
      {
        AboveIsEarlier(p.body, q, b, d);
      }
      forall a | a in args ensures RankOf(p, rank, a) < RankOf(p, rank, v) {
        assert AllAvailable(p.body, b, j, p.body.operands[v]);
        var i :| 0 <= i < |args| && args[i] == a;
        assert Available(p.body, b, j, a);
        if a < |p.defs| && p.defs[a].Instruction? { OperandIsEarlier(p, q.order, v, a); }
      }
    }
  }
}
