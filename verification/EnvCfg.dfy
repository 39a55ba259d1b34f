// The environment graph's worklist on the CFGs that buildCfg builds: their order is closed
// under edges, so one condition on the code is enough for the worklist to visit everything.
module EnvCfg {
  import opened CfgTypes
  import opened BlockFlow
  import opened Regions
  import opened Dominators
  import opened Invariants
  import opened Reach
  import opened BuildCfg
  import opened EnvState
  import opened EnvFlow
  import opened EnvCollect
  import opened EnvDirect

  lemma InOrder(cfg: FunctionCfg, b: nat)
    requires OrderRight(cfg.blocks, cfg.entry, cfg.rpo)
    ensures b in cfg.rpo <==> Reachable(cfg.blocks, cfg.entry, b)
  {
    assert PreorderRight(cfg.blocks, cfg.entry, cfg.rpo);
  }

  lemma OrderHoldsSuccs(cfg: FunctionCfg, g: Flow, b: nat, j: nat)
    requires FlowOf(cfg, g) && OrderRight(cfg.blocks, cfg.entry, cfg.rpo) && b < |g.code| && b in g.rpo && j < |g.succs[b]|
    ensures g.succs[b][j] in g.rpo
  {
    InOrder(cfg, b);
    InOrder(cfg, g.succs[b][j]);
    var e := cfg.blocks[b].succs[j];
    assert g.succs[b] == Targets(cfg.blocks[b].succs);
    assert e in cfg.blocks[b].succs && e.to == g.succs[b][j];
    assert IsEdge(cfg.blocks, b, e.to);
    ReachableStep(cfg.blocks, cfg.entry, b, e.to);
  }

  lemma OrderHoldsResume(l: Layout, S: seq<Entry>, cfg: FunctionCfg, k: nat)
    requires Assembled(l, S, cfg) && k < |cfg.suspendPoints| && cfg.suspendPoints[k].resumeBlock < |cfg.blocks|
    ensures cfg.suspendPoints[k].resumeBlock in cfg.rpo
  {
    DispatcherBlock(l, S, cfg);
    var d, t := |l.blocks|, cfg.suspendPoints[k].resumeBlock;
    assert IsEdge(cfg.blocks, d, t);
    InOrder(cfg, d);
    InOrder(cfg, t);
    assert cfg.rpo[0] == d;
    ReachableStep(cfg.blocks, cfg.entry, d, t);
  }

  lemma BuiltOrderClosed(l: Layout, S: seq<Entry>, cfg: FunctionCfg, g: Flow)
    requires Assembled(l, S, cfg) && FlowOf(cfg, g)
    ensures OrderClosed(g)
  {
    forall b: nat, j | b in g.rpo && b < |g.code| && 0 <= j < |g.succs[b]| ensures g.succs[b][j] in g.rpo {
      OrderHoldsSuccs(cfg, g, b, j);
    }
    forall b: nat, j | b < |g.code| && 0 <= j < |g.resumes[b]| ensures g.resumes[b][j] in g.rpo {
      assert g.resumes[b][j] in g.resumes[b];
      var k :| 0 <= k < |cfg.suspendPoints| && cfg.suspendPoints[k].resumeBlock == g.resumes[b][j];
      OrderHoldsResume(l, S, cfg, k);
    }
  }

  lemma {:induction false} PathFlows(cfg: FunctionCfg, g: Flow, w: seq<BlockId>)
    requires FlowOf(cfg, g) && Path(cfg.blocks, cfg.entry, w)
    ensures FlowPath(g, w)
    decreases |w|
  {
    if |w| > 1 {
      PathFlows(cfg, g, w[..|w| - 1]);
      NextBlocks(cfg.blocks, cfg.exceptionSuccs, w[|w| - 2], w[|w| - 1]);
      assert g.succs[w[|w| - 2]] == Targets(cfg.blocks[w[|w| - 2]].succs);
    }
  }

  /** ... and holds only blocks that edges lead to. */
  lemma BuiltOrderReached(cfg: FunctionCfg, g: Flow)
    requires FlowOf(cfg, g) && OrderRight(cfg.blocks, cfg.entry, cfg.rpo)
    ensures OrderReached(g)
  {
    forall b: nat | b in g.rpo ensures FlowReaches(g, b) {
      InOrder(cfg, b);
      var w :| Path(cfg.blocks, cfg.entry, w) && Last(w, b);
      PathFlows(cfg, g, w);
    }
  }

  /** With an order closed under edges and protected blocks that all write a register, a
      drained run that learned nothing visited every block reachable over normal and
      exception edges. */
  lemma ReachableIsVisited(cfg: FunctionCfg, g: Flow, self: Option<Option<Node>>, facts: Facts, entry: seq<State>, b: nat)
    requires FlowOf(cfg, g) && OrderClosed(g) && ProtectedBlocksWrite(g) && PostFix(g, self, facts, entry)
    requires AnyReachable(cfg.blocks, cfg.exceptionSuccs, cfg.entry, b)
    ensures b < |g.code| && Live(g, entry, b) && Settled(g, self, facts, entry, b)
  {
    WritesCover(g, self, facts, entry);
    ReachableIsLive(cfg, g, entry, b);
  }
}
