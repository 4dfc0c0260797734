/** Along every run of a well-formed body, whatever a block reads has been defined: dominance makes it so. */
module Scoping {
  import opened Graphs
  import opened Kernel
  import opened Emission
  import opened Ssa
  import opened Machines

  /** At the start of a block its parameters and everything defined above it hold words. */
  ghost predicate InScope(body: Body, s: Source) {
    s.At? ==> s.block < |body.blocks| && forall v :: v in body.blocks[s.block].params || FromAbove(body, s.block, v) ==>
      v in s.env
  }

  lemma {:induction false} RunDefines(m: Meaning, body: Body, instrs: seq<nat>, env: map<nat, int>, memory: seq<int>)
    ensures forall v :: v in Run(m, body, instrs, env, memory).0 <==> v in env || v in instrs
  {
    if instrs != [] {
      RunDefines(m, body, instrs[..|instrs| - 1], env, memory);
      assert instrs == instrs[..|instrs| - 1] + [instrs[|instrs| - 1]];
    }
  }

  lemma {:induction false} BindDefines(env: map<nat, int>, names: seq<nat>, words: seq<int>)
    requires |names| == |words|
    ensures forall v :: v in Bind(env, names, words) <==> v in env || v in names
  {
    if names != [] {
      BindDefines(env, names[..|names| - 1], words[..|words| - 1]);
      assert names == names[..|names| - 1] + [names[|names| - 1]];
    }
  }

  lemma TakenIsAnEdge(m: Meaning, body: Body, b: nat, env: map<nat, int>)
    requires ValidBody(body) && b < |body.blocks| && !body.blocks[b].terminator.Return?
    ensures BranchFits(body, Take(m, body.blocks[b].terminator, env))
    ensures Edge(Flow(body), b, Take(m, body.blocks[b].terminator, env).target)
  {
    FlowIsValid(body);
    assert Take(m, body.blocks[b].terminator, env) in Branches(body.blocks[b].terminator);
  }

  /** One block keeps the scope. */
  lemma ScopeKept(m: Meaning, body: Body, s: Source)
    requires ValidBody(body) && InScope(body, s)
    ensures InScope(body, Step(m, body, s))
  {
    if s.At? && !body.blocks[s.block].terminator.Return? {
      var b := s.block;
      var (e, mem) := Run(m, body, body.blocks[b].instrs, s.env, s.memory);
      RunDefines(m, body, body.blocks[b].instrs, s.env, s.memory);
      TakenIsAnEdge(m, body, b, e);
      var br := Take(m, body.blocks[b].terminator, e);
      BindDefines(e, body.blocks[br.target].params, Read(e, br.args));
      forall v | FromAbove(body, br.target, v) ensures v in e {
        AboveTheNext(body, b, br.target, v);
      }
    }
  }

  lemma {:induction false} ScopeHolds(m: Meaning, body: Body, s: Source, n: nat)
    requires ValidBody(body) && InScope(body, s)
    ensures InScope(body, Steps(m, body, s, n))
    decreases n
  {
    if n > 0 {
      ScopeKept(m, body, s);
      ScopeHolds(m, body, Step(m, body, s), n - 1);
    }
  }

  lemma BeginsInScope(body: Body, inputs: seq<int>, memory: seq<int>)
    requires ValidBody(body) && |inputs| == |body.blocks[body.entry].params|
    ensures InScope(body, Begin(body, inputs, memory))
  {
    BindDefines(map[], body.blocks[body.entry].params, inputs);
    NothingAbove(body);
  }

  /** Nothing is defined above the entry. */
  lemma NothingAbove(body: Body)
    requires ValidBody(body)
    ensures forall v :: !FromAbove(body, body.entry, v)
  {
    forall d: nat | d != body.entry ensures !Dominates(Flow(body), body.entry, d, body.entry) {
      TrivialWalk(Flow(body), body.entry);
      assert d !in [body.entry];
    }
  }

  /** Every run, every block, every instruction: the words it reads were all defined before. */
  lemma NothingUndefinedIsRead(m: Meaning, body: Body, inputs: seq<int>, memory: seq<int>, n: nat, j: nat)
    requires ValidSsa(body) && |inputs| == |body.blocks[body.entry].params|
    requires var s := Steps(m, body, Begin(body, inputs, memory), n); s.At? && j <= |body.blocks[s.block].instrs|
    ensures var s := Steps(m, body, Begin(body, inputs, memory), n);
      var block := body.blocks[s.block];
      var env := Run(m, body, block.instrs[..j], s.env, s.memory).0;
      if j < |block.instrs| then
        block.instrs[j] in body.operands && forall i :: 0 <= i < |body.operands[block.instrs[j]]| ==>
          body.operands[block.instrs[j]][i] in env
      else forall i :: 0 <= i < |Uses(block.terminator)| ==> Uses(block.terminator)[i] in env
  {
    BeginsInScope(body, inputs, memory);
    ScopeHolds(m, body, Begin(body, inputs, memory), n);
    var s := Steps(m, body, Begin(body, inputs, memory), n);
    var block := body.blocks[s.block];
    RunDefines(m, body, block.instrs[..j], s.env, s.memory);
    var values := if j < |block.instrs| then body.operands[block.instrs[j]] else Uses(block.terminator);
    forall i | 0 <= i < |values| ensures values[i] in Run(m, body, block.instrs[..j], s.env, s.memory).0 {
      assert AllAvailable(body, s.block, j, values);
      assert Available(body, s.block, j, values[i]);
    }
  }
}
