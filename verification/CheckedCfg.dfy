// buildCfg followed by checkCfgInvariants (src/cfg/index.ts:34-92, src/cfg/invariants.ts): the
// one check that can fail on a built graph, and the inputs on which it does.
module CheckedCfg {
  import opened CfgTypes
  import opened Blocks
  import opened BlockFlow
  import opened Regions
  import opened Exceptions
  import opened Generators
  import opened Reach
  import opened Invariants
  import opened BuildCfg

  /** What the decoder hands over. */
  datatype Body = Body(insns: seq<Instruction>, handlers: seq<ExceptionHandler>, size: nat, at: map<int, nat>)

  // ------------------------------------------- the instructions a body can run

  /** Where a generator body is entered: at its start, or where a save resumes. */
  ghost predicate EntryPoint(insns: seq<Instruction>, j: nat) {
    j == 0 || (j < |insns| && exists i: nat :: i < |insns| && IsSaveSite(insns[i]) && insns[j].offset == insns[i].targets[0])
  }

  /** No leader between them: i and j are in one block. */
  ghost predicate Together(p: Body, i: nat, j: nat) {
    i <= j < |p.insns| && forall m: nat :: i < m <= j ==> !Leader(p.insns, p.handlers, p.size, p.at, p.insns[m].offset)
  }

  /** The entry covers instruction i and what follows it up to the next leader. */
  ghost predicate Protected(p: Body, h: ExceptionHandler, i: nat) {
    i < |p.insns| && h.start <= p.insns[i].offset && forall j: nat :: Together(p, i, j) ==> p.insns[j].End() <= h.end
  }

  ghost predicate Raises(p: Body, i: nat, j: nat) {
    j < |p.insns| && exists k: nat :: k < |p.handlers| && p.handlers[k].target == p.insns[j].offset && Protected(p, p.handlers[k], i)
  }

  ghost predicate Follows(p: Body, i: nat, j: nat) {
    CanStep(p.insns, i, j) || Raises(p, i, j)
  }

  ghost predicate LivePath(p: Body, w: seq<nat>) {
    && |w| > 0
    && if |w| == 1 then EntryPoint(p.insns, w[0])
       else LivePath(p, w[..|w| - 1]) && Follows(p, w[|w| - 2], w[|w| - 1])
  }

  /** Steps and handlers lead from an entry point to instruction j. */
  ghost predicate LiveInsn(p: Body, j: nat) {
    exists w :: LivePath(p, w) && Last(w, j)
  }

  /** The body of an opcode-era generator that resumes, with an instruction no run gets to. */
  ghost predicate DeadInGenerator(p: Body, era: Era, kind: FunctionKind) {
    Resumes(p.insns, era) && kind != NormalFunction && exists j: nat :: j < |p.insns| && !LiveInsn(p, j)
  }

  lemma LiveFollows(p: Body, i: nat, j: nat)
    requires LiveInsn(p, i) && Follows(p, i, j)
    ensures LiveInsn(p, j)
  {
    var w :| LivePath(p, w) && Last(w, i);
    var v := w + [j];
    assert v[..|v| - 1] == w;
    assert LivePath(p, v) && Last(v, j);
  }

  lemma LiveEntry(p: Body, j: nat)
    requires EntryPoint(p.insns, j)
    ensures LiveInsn(p, j)
  {
    assert LivePath(p, [j]) && Last([j], j);
  }

  // --------------------------------------------------- blocks and their bodies

  function BodyOf(l: Layout): Body {
    Body(l.insns, l.handlers, l.size, l.at)
  }

  ghost predicate Holds(l: Layout, k: nat, i: nat) {
    k < |l.leaders| && |l.cut| == |l.leaders| + 1 && l.cut[k] <= i < l.cut[k + 1] <= |l.insns|
  }

  lemma OneHolder(l: Layout, a: nat, b: nat, i: nat)
    requires Built(l) && l.insns != [] && Holds(l, a, i) && Holds(l, b, i)
    ensures a == b
  {
  }

  lemma Holder(l: Layout, i: nat) returns (k: nat)
    requires Built(l) && i < |l.insns|
    ensures Holds(l, k, i)
  {
    k := BlockHolding(l, i);
    BlockBody(l, k);
  }

  /** A block whose first instruction is live is live throughout. */
  lemma {:induction false} BlockLives(l: Layout, k: nat, i: nat)
    requires Built(l) && l.insns != [] && Holds(l, k, i) && LiveInsn(BodyOf(l), l.cut[k])
    ensures LiveInsn(BodyOf(l), i)
    decreases i
  {
    if i > l.cut[k] {
      BlockLives(l, k, i - 1);
      MiddleFallsThrough(l, i - 1, k);
      LiveFollows(BodyOf(l), i - 1, i);
    }
  }

  lemma TogetherInBlock(l: Layout, k: nat, i: nat, j: nat)
    requires Built(l) && l.insns != [] && Holds(l, k, i) && i <= j < |l.insns|
    ensures Together(BodyOf(l), i, j) <==> j < l.cut[k + 1]
  {
    if j < l.cut[k + 1] {
      forall m: nat | i < m <= j ensures !Leader(l.insns, l.handlers, l.size, l.at, l.insns[m].offset) {
        if Leader(l.insns, l.handlers, l.size, l.at, l.insns[m].offset) {
          var b := LedBlock(l, m);
          BlockBody(l, b);
          OneHolder(l, b, k, m);
        }
      }
    } else {
      LeadsNext(l, k);
    }
  }

  /** What ends a block, short of the end of the function, is a leader. */
  lemma LeadsNext(l: Layout, k: nat)
    requires Built(l) && l.insns != [] && k < |l.leaders| && l.cut[k + 1] < |l.insns|
    ensures Leader(l.insns, l.handlers, l.size, l.at, l.insns[l.cut[k + 1]].offset)
  {
    assert k + 1 < |l.leaders|;
    BlockBody(l, k + 1);
    assert l.leaders[k + 1] in l.leaders;
  }

  lemma EndsAscend(l: Layout, i: nat, j: nat)
    requires Built(l) && i <= j < |l.insns|
    ensures l.insns[i].offset <= l.insns[j].offset && l.insns[i].End() <= l.insns[j].End()
  {
    if i < j { OffsetsIncrease(l.insns, l.size, i, j); }
  }

  lemma CoveredIsProtected(l: Layout, h: ExceptionHandler, k: nat, i: nat)
    requires Built(l) && l.insns != [] && Holds(l, k, i) && Covers(h, l.blocks[k])
    ensures Protected(BodyOf(l), h, i)
  {
    BlockBody(l, k);
    EndsAscend(l, l.cut[k], i);
    forall j: nat | Together(BodyOf(l), i, j) ensures l.insns[j].End() <= h.end {
      TogetherInBlock(l, k, i, j);
      EndsAscend(l, j, l.cut[k + 1] - 1);
    }
  }

  lemma ProtectedIsCovered(l: Layout, h: ExceptionHandler, k: nat, i: nat)
    requires Built(l) && l.insns != [] && Holds(l, k, i) && Protected(BodyOf(l), h, i) && h.start in l.byOffset
    ensures Covers(h, l.blocks[k])
  {
    BlockBody(l, k);
    TogetherInBlock(l, k, i, l.cut[k + 1] - 1);
    assert Together(BodyOf(l), i, l.cut[k + 1] - 1);
    StartsBefore(l, h.start, k, i);
  }

  /** A leader at or before an instruction is at or before its block. */
  lemma StartsBefore(l: Layout, o: int, k: nat, i: nat)
    requires Built(l) && l.insns != [] && Holds(l, k, i) && o in l.byOffset && o <= l.insns[i].offset
    ensures o <= l.leaders[k]
  {
    var q := l.byOffset[o];
    assert l.leaders[q] == o;
    BlockBody(l, q);
    if k < q {
      assert l.cut[k + 1] <= l.cut[q];
      OffsetsIncrease(l.insns, l.size, i, l.cut[q]);
    }
  }

  // ------------------------------------------------- edges, seen from the code

  lemma CoveringMembers(S: seq<Entry>, handlers: seq<ExceptionHandler>, b: BasicBlock, x: nat)
    requires TableOf(S, handlers)
    ensures x in NestingOrder(S, b) <==> x < |handlers| && Covers(handlers[x], b)
  {
    CoveringLists(S, b, |S|);
    InnermostSame(S, handlers, b, Covering(S, b, |S|));
    if x in InFileOrder(handlers, b, |handlers|) {
      var k :| 0 <= k < |InFileOrder(handlers, b, |handlers|)| && InFileOrder(handlers, b, |handlers|)[k] == x;
    }
  }

  /** The exception edges of a block: one to the handler of each covering entry. */
  lemma HandlerEdge(S: seq<Entry>, handlers: seq<ExceptionHandler>, blocks: seq<BasicBlock>, byOffset: map<int, BlockId>,
                    succs: map<BlockId, seq<BlockId>>, a: nat, t: nat)
    requires SuccsRight(S, handlers, blocks, byOffset, |blocks|, succs) && a < |blocks|
    ensures a in succs && t in succs[a] <==> exists x: nat :: x < |handlers| && Covers(handlers[x], blocks[a]) && byOffset[handlers[x].target] == t
  {
    var order := NestingOrder(S, blocks[a]);
    assert SuccsAt(S, handlers, blocks[a], byOffset, Lookup(succs, a));
    if a in succs && t in succs[a] {
      var k :| 0 <= k < |succs[a]| && succs[a][k] == t;
      CoveringMembers(S, handlers, blocks[a], order[k]);
    }
    if x: nat :| x < |handlers| && Covers(handlers[x], blocks[a]) && byOffset[handlers[x].target] == t {
      CoveringMembers(S, handlers, blocks[a], x);
      var k :| 0 <= k < |order| && order[k] == x;
      assert succs[a][k] == t;
    }
  }

  lemma HandlerStarts(l: Layout, S: seq<Entry>, cfg: FunctionCfg, x: nat)
    requires Assembled(l, S, cfg) && x < |l.handlers|
    ensures l.handlers[x].start in l.byOffset && l.handlers[x].target in l.byOffset
  {
    var k := Position(S, l.handlers, x);
    RegionOf(l, S, cfg, k);
  }

  /** The block that begins at a known offset. */
  lemma BeginsAt(l: Layout, o: int, j: nat)
    requires Built(l) && l.insns != [] && o in l.byOffset && (j < |l.insns| ==> (l.insns[j].offset == o || l.cut[l.byOffset[o]] == j)) && j < |l.insns|
    ensures l.byOffset[o] < |l.leaders| && l.cut[l.byOffset[o]] == j && l.insns[j].offset == o && Holds(l, l.byOffset[o], j)
  {
    var b := l.byOffset[o];
    assert l.leaders[b] == o;
    BlockBody(l, b);
    OffsetUnique(l.insns, l.at, l.cut[b], l.cut[b]);
    if l.insns[j].offset == o { OffsetUnique(l.insns, l.at, l.cut[b], j); }
  }

  /** The exception successors lead where the table's handlers stand. */
  ghost predicate Leads(l: Layout, S: seq<Entry>, succs: map<BlockId, seq<BlockId>>) {
    && SuccsRight(S, l.handlers, l.blocks, l.byOffset, |l.blocks|, succs)
    && forall x: nat :: x < |l.handlers| ==> l.handlers[x].start in l.byOffset && l.handlers[x].target in l.byOffset
  }

  lemma AssembledLeads(l: Layout, S: seq<Entry>, cfg: FunctionCfg)
    requires Assembled(l, S, cfg)
    ensures Built(l) && Leads(l, S, cfg.exceptionSuccs)
  {
    forall x: nat | x < |l.handlers| ensures l.handlers[x].start in l.byOffset && l.handlers[x].target in l.byOffset { HandlerStarts(l, S, cfg, x); }
  }

  /** An exception edge goes to the target of a handler that covers the block. */
  lemma RaiseAlongEdge(l: Layout, S: seq<Entry>, succs: map<BlockId, seq<BlockId>>, a: nat, t: nat) returns (x: nat)
    requires Built(l) && Leads(l, S, succs) && l.insns != [] && a < |l.leaders| && a in succs && t in succs[a]
    ensures t < |l.leaders| && l.cut[t] < |l.insns|
    ensures x < |l.handlers| && l.handlers[x].target == l.insns[l.cut[t]].offset && Covers(l.handlers[x], l.blocks[a])
  {
    HandlerEdge(S, l.handlers, l.blocks, l.byOffset, succs, a, t);
    x :| x < |l.handlers| && Covers(l.handlers[x], l.blocks[a]) && l.byOffset[l.handlers[x].target] == t;
    BlockBody(l, t);
    BeginsAt(l, l.handlers[x].target, l.cut[t]);
  }

  lemma EdgeOfRaise(l: Layout, S: seq<Entry>, cfg: FunctionCfg, a: nat, i: nat, j: nat) returns (t: nat)
    requires Assembled(l, S, cfg) && l.insns != [] && Holds(l, a, i) && Raises(BodyOf(l), i, j)
    ensures Holds(l, t, j) && a in cfg.exceptionSuccs && t in cfg.exceptionSuccs[a]
  {
    var x: nat :| x < |l.handlers| && l.handlers[x].target == l.insns[j].offset && Protected(BodyOf(l), l.handlers[x], i);
    HandlerStarts(l, S, cfg, x);
    t := l.byOffset[l.handlers[x].target];
    BeginsAt(l, l.handlers[x].target, j);
    ProtectedIsCovered(l, l.handlers[x], a, i);
    HandlerEdge(S, l.handlers, l.blocks, l.byOffset, cfg.exceptionSuccs, a, t);
  }

  lemma EdgeContinues(l: Layout, a: nat, b: nat)
    requires Built(l) && l.insns != [] && a < |l.leaders| && IsEdge(l.blocks, a, b)
    ensures b < |l.leaders| && l.cut[a + 1] <= |l.insns| && ContinuesAt(l.insns[l.cut[a + 1] - 1], l.size, l.leaders[b])
  {
    BlockBody(l, a);
    var e :| e in l.blocks[a].succs && e.to == b;
  }

  lemma StepAlongEdge(l: Layout, a: nat, b: nat)
    requires Built(l) && l.insns != [] && a < |l.leaders| && IsEdge(l.blocks, a, b)
    ensures b < |l.leaders| && CanStep(l.insns, l.cut[a + 1] - 1, l.cut[b])
  {
    EdgeContinues(l, a, b);
    BlockBody(l, b);
    ContinuesIffStep(l.insns, l.size, l.at, l.cut[a + 1] - 1, l.cut[b]);
  }

  /** A step from the last instruction of a block follows an edge. */
  lemma EdgeOfLast(l: Layout, a: nat, i: nat, j: nat) returns (b: nat)
    requires Built(l) && l.insns != [] && a < |l.leaders| && |l.cut| == |l.leaders| + 1 && i == l.cut[a + 1] - 1 && 0 <= i < |l.insns| && CanStep(l.insns, i, j)
    ensures Holds(l, b, j) && IsEdge(l.blocks, a, b)
  {
    BlockBody(l, a);
    StepFromLast(l, a, j);
    b := LedBlock(l, j);
    BlockBody(l, b);
    ContinuesIffStep(l.insns, l.size, l.at, i, j);
  }

  /** A step stays in its block or follows an edge. */
  lemma EdgeOfStep(l: Layout, a: nat, i: nat, j: nat) returns (b: nat)
    requires Built(l) && l.insns != [] && Holds(l, a, i) && CanStep(l.insns, i, j)
    ensures Holds(l, b, j) && (a == b || IsEdge(l.blocks, a, b))
  {
    BlockBody(l, a);
    if i + 1 < l.cut[a + 1] {
      MiddleFallsThrough(l, i, a);
      b := a;
    } else {
      b := EdgeOfLast(l, a, i, j);
    }
  }

  // ------------------------------------------------- reachable blocks are live

  lemma SameEdges(xs: seq<BasicBlock>, ys: seq<BasicBlock>, a: nat, b: nat)
    requires a < |xs| && a < |ys| && xs[a].succs == ys[a].succs
    ensures IsEdge(xs, a, b) <==> IsEdge(ys, a, b)
  {
  }

  lemma DispatchEdge(l: Layout, S: seq<Entry>, cfg: FunctionCfg, b: nat)
    requires Assembled(l, S, cfg) && cfg.suspendPoints != []
    ensures IsEdge(cfg.blocks, |l.blocks|, b) <==> b == 0 || exists k :: 0 <= k < |cfg.suspendPoints| && cfg.suspendPoints[k].resumeBlock == b
  {
    var raw := l.blocks + [Dispatcher(|l.blocks|, 0, cfg.suspendPoints)];
    PointStates(l.insns, l.byOffset, cfg.suspendPoints);
    DispatchExtendsGraph(l.blocks, 0, cfg.suspendPoints, raw);
    assert raw == WithDispatcher(l.blocks, cfg.suspendPoints);
    SameEdges(cfg.blocks, raw, |l.blocks|, b);
  }

  lemma ResumeIsEntry(l: Layout, points: seq<SuspendPoint>, k: nat)
    requires Built(l) && TargetsAreBlocks(l.insns, l.byOffset, |l.insns|) && PointsRight(l.insns, l.byOffset, |l.insns|, points) && k < |points|
    ensures l.insns != [] && points[k].resumeBlock < |l.leaders| && l.cut[points[k].resumeBlock] < |l.insns|
    ensures EntryPoint(l.insns, l.cut[points[k].resumeBlock])
  {
    var i := SaveSites(l.insns, |l.insns|)[k];
    assert IsSaveSite(l.insns[i]);
    var o := l.insns[i].targets[0];
    assert PointRight(l.insns, l.byOffset, i, k, points[k]);
    BlockBody(l, l.byOffset[o]);
    BeginsAt(l, o, l.cut[l.byOffset[o]]);
  }

  lemma SaveOfEntry(l: Layout, points: seq<SuspendPoint>, i: nat, j: nat) returns (k: nat)
    requires Built(l) && l.insns != [] && TargetsAreBlocks(l.insns, l.byOffset, |l.insns|) && PointsRight(l.insns, l.byOffset, |l.insns|, points)
    requires i < |l.insns| && j < |l.insns| && IsSaveSite(l.insns[i]) && l.insns[j].offset == l.insns[i].targets[0]
    ensures k < |points| && points[k].resumeBlock < |l.leaders| && Holds(l, points[k].resumeBlock, j)
  {
    var s := SaveSites(l.insns, |l.insns|);
    k :| 0 <= k < |s| && s[k] == i;
    assert PointRight(l.insns, l.byOffset, i, k, points[k]);
    BeginsAt(l, l.insns[i].targets[0], j);
  }

  lemma EntryIsResume(l: Layout, points: seq<SuspendPoint>, j: nat) returns (b: nat)
    requires Built(l) && l.insns != [] && TargetsAreBlocks(l.insns, l.byOffset, |l.insns|) && PointsRight(l.insns, l.byOffset, |l.insns|, points)
    requires EntryPoint(l.insns, j)
    ensures Holds(l, b, j) && (b == 0 || exists k :: 0 <= k < |points| && points[k].resumeBlock == b)
  {
    b := 0;
    BlockBody(l, 0);
    if j != 0 {
      var i: nat :| i < |l.insns| && IsSaveSite(l.insns[i]) && l.insns[j].offset == l.insns[i].targets[0];
      var k := SaveOfEntry(l, points, i, j);
      b := points[k].resumeBlock;
    }
  }

  lemma LivePastBlock(l: Layout, a: nat, i: nat, j: nat)
    requires Built(l) && l.insns != [] && Holds(l, a, i) && LiveInsn(BodyOf(l), l.cut[a]) && Follows(BodyOf(l), i, j)
    ensures LiveInsn(BodyOf(l), j)
  {
    BlockLives(l, a, i);
    LiveFollows(BodyOf(l), i, j);
  }

  lemma StepKeepsLive(l: Layout, a: nat, b: nat)
    requires Built(l) && l.insns != [] && a < |l.leaders| && LiveInsn(BodyOf(l), l.cut[a]) && IsEdge(l.blocks, a, b)
    ensures b < |l.leaders| && LiveInsn(BodyOf(l), l.cut[b])
  {
    BlockBody(l, a);
    StepAlongEdge(l, a, b);
    LivePastBlock(l, a, l.cut[a + 1] - 1, l.cut[b]);
  }

  lemma RaiseIsLive(l: Layout, a: nat, i: nat, j: nat, x: nat)
    requires Built(l) && l.insns != [] && Holds(l, a, i) && LiveInsn(BodyOf(l), l.cut[a]) && j < |l.insns|
    requires x < |l.handlers| && l.handlers[x].target == l.insns[j].offset && Covers(l.handlers[x], l.blocks[a])
    ensures LiveInsn(BodyOf(l), j)
  {
    CoveredIsProtected(l, l.handlers[x], a, i);
    assert Raises(BodyOf(l), i, j);
    LivePastBlock(l, a, i, j);
  }

  lemma RaiseKeepsLive(l: Layout, S: seq<Entry>, succs: map<BlockId, seq<BlockId>>, a: nat, b: nat)
    requires Built(l) && Leads(l, S, succs) && l.insns != [] && a < |l.leaders| && a in succs && b in succs[a] && LiveInsn(BodyOf(l), l.cut[a])
    ensures b < |l.leaders| && LiveInsn(BodyOf(l), l.cut[b])
  {
    LastHolds(l, a);
    var x := RaiseAlongEdge(l, S, succs, a, b);
    RaiseIsLive(l, a, l.cut[a + 1] - 1, l.cut[b], x);
  }

  /** Own edges are those of the layout. */
  lemma OwnEdge(l: Layout, S: seq<Entry>, cfg: FunctionCfg, a: nat, b: nat)
    requires Assembled(l, S, cfg) && a < |l.blocks| && IsEdge(cfg.blocks, a, b)
    ensures IsEdge(l.blocks, a, b)
  {
    BlockOfLayout(l, S, cfg, a);
  }

  lemma LastHolds(l: Layout, a: nat)
    requires Built(l) && l.insns != [] && a < |l.leaders|
    ensures l.cut[a] < l.cut[a + 1] <= |l.insns| && Holds(l, a, l.cut[a + 1] - 1)
  {
    BlockBody(l, a);
  }

  lemma EdgeKeepsLive(l: Layout, S: seq<Entry>, cfg: FunctionCfg, a: nat, b: nat)
    requires Assembled(l, S, cfg) && l.insns != [] && a < |l.leaders| && LiveInsn(BodyOf(l), l.cut[a])
    requires AnyEdge(cfg.blocks, cfg.exceptionSuccs, a, b)
    ensures b < |l.leaders| && LiveInsn(BodyOf(l), l.cut[b])
  {
    if IsEdge(cfg.blocks, a, b) {
      OwnEdge(l, S, cfg, a, b);
      StepKeepsLive(l, a, b);
    } else {
      AssembledLeads(l, S, cfg);
      RaiseKeepsLive(l, S, cfg.exceptionSuccs, a, b);
    }
  }

  lemma DispatchIsLive(l: Layout, S: seq<Entry>, cfg: FunctionCfg, b: nat)
    requires Assembled(l, S, cfg) && cfg.suspendPoints != [] && AnyEdge(cfg.blocks, cfg.exceptionSuccs, |l.blocks|, b)
    ensures l.insns != [] && b < |l.leaders| && LiveInsn(BodyOf(l), l.cut[b])
  {
    ResumeIsEntry(l, cfg.suspendPoints, 0);
    DispatchEdge(l, S, cfg, b);
    if k :| 0 <= k < |cfg.suspendPoints| && cfg.suspendPoints[k].resumeBlock == b { ResumeIsEntry(l, cfg.suspendPoints, k); }
    BlockBody(l, b);
    LiveEntry(BodyOf(l), l.cut[b]);
  }

  /** Block b is the dispatcher, or starts with a live instruction. */
  ghost predicate StartsLive(l: Layout, b: nat) {
    b == |l.blocks| || (b < |l.blocks| && b < |l.cut| && LiveInsn(BodyOf(l), l.cut[b]))
  }

  lemma EdgeStartsLive(l: Layout, S: seq<Entry>, cfg: FunctionCfg, a: nat, b: nat)
    requires Assembled(l, S, cfg) && cfg.suspendPoints != [] && StartsLive(l, a) && AnyEdge(cfg.blocks, cfg.exceptionSuccs, a, b)
    ensures StartsLive(l, b)
  {
    ResumeIsEntry(l, cfg.suspendPoints, 0);
    if a == |l.blocks| { DispatchIsLive(l, S, cfg, b); } else { EdgeKeepsLive(l, S, cfg, a, b); }
  }

  lemma ReachedIsLive(l: Layout, S: seq<Entry>, cfg: FunctionCfg, b: nat)
    requires Assembled(l, S, cfg) && cfg.suspendPoints != [] && AnyReachable(cfg.blocks, cfg.exceptionSuccs, cfg.entry, b)
    ensures StartsLive(l, b)
  {
    var w :| AnyPath(cfg.blocks, cfg.exceptionSuccs, cfg.entry, w) && Last(w, b);
    PathStartsLive(l, S, cfg, w);
  }

  lemma PathStartsLive(l: Layout, S: seq<Entry>, cfg: FunctionCfg, w: seq<nat>)
    requires Assembled(l, S, cfg) && cfg.suspendPoints != [] && AnyPath(cfg.blocks, cfg.exceptionSuccs, cfg.entry, w)
    ensures forall b: nat :: Last(w, b) ==> StartsLive(l, b)
  {
    var s := set x: nat | x <= |l.blocks| && StartsLive(l, x);
    forall x, y | x in s && AnyEdge(cfg.blocks, cfg.exceptionSuccs, x, y) ensures y in s { EdgeStartsLive(l, S, cfg, x, y); }
    ClosedHoldsAnyPath(cfg.blocks, cfg.exceptionSuccs, cfg.entry, s, w);
  }

  // ------------------------------------------------- live blocks are reachable

  ghost predicate Reached(cfg: FunctionCfg, b: nat) {
    AnyReachable(cfg.blocks, cfg.exceptionSuccs, cfg.entry, b)
  }

  lemma DispatcherReached(l: Layout, S: seq<Entry>, cfg: FunctionCfg)
    requires Assembled(l, S, cfg) && cfg.suspendPoints != []
    ensures Reached(cfg, |l.blocks|)
  {
    assert AnyPath(cfg.blocks, cfg.exceptionSuccs, cfg.entry, [cfg.entry]) && Last([cfg.entry], cfg.entry);
  }

  lemma FollowReaches(l: Layout, S: seq<Entry>, cfg: FunctionCfg, a: nat, i: nat, j: nat, b: nat)
    requires Assembled(l, S, cfg) && l.insns != [] && Holds(l, a, i) && Holds(l, b, j) && Follows(BodyOf(l), i, j) && Reached(cfg, a)
    ensures Reached(cfg, b)
  {
    BlockBody(l, a);
    BlockOfLayout(l, S, cfg, a);
    var t;
    if CanStep(l.insns, i, j) { t := EdgeOfStep(l, a, i, j); } else { t := EdgeOfRaise(l, S, cfg, a, i, j); }
    OneHolder(l, b, t, j);
    if a != t {
      assert AnyEdge(cfg.blocks, cfg.exceptionSuccs, a, t);
      AnyReachableStep(cfg.blocks, cfg.exceptionSuccs, cfg.entry, a, t);
    } else if !CanStep(l.insns, i, j) {
      AnyReachableStep(cfg.blocks, cfg.exceptionSuccs, cfg.entry, a, t);
    }
  }

  lemma EntryReached(l: Layout, S: seq<Entry>, cfg: FunctionCfg, j: nat, b: nat)
    requires Assembled(l, S, cfg) && cfg.suspendPoints != [] && l.insns != [] && EntryPoint(l.insns, j) && Holds(l, b, j)
    ensures Reached(cfg, b)
  {
    var t := EntryIsResume(l, cfg.suspendPoints, j);
    OneHolder(l, b, t, j);
    DispatchEdge(l, S, cfg, b);
    DispatcherReached(l, S, cfg);
    AnyReachableStep(cfg.blocks, cfg.exceptionSuccs, cfg.entry, |l.blocks|, b);
  }

  /** Entry points lie in s, and s is closed under what follows: it holds every live instruction. */
  lemma {:induction false} ClosedHoldsLive(p: Body, s: set<nat>, w: seq<nat>)
    requires LivePath(p, w) && forall j: nat :: EntryPoint(p.insns, j) ==> j in s
    requires forall i: nat, j: nat :: i in s && Follows(p, i, j) ==> j in s
    ensures w[|w| - 1] in s
    decreases |w|
  {
    if |w| > 1 { ClosedHoldsLive(p, s, w[..|w| - 1]); }
  }

  ghost predicate InReached(l: Layout, cfg: FunctionCfg, j: nat) {
    exists b: nat :: Holds(l, b, j) && Reached(cfg, b)
  }

  lemma FollowInReached(l: Layout, S: seq<Entry>, cfg: FunctionCfg, i: nat, j: nat)
    requires Assembled(l, S, cfg) && l.insns != [] && InReached(l, cfg, i) && Follows(BodyOf(l), i, j)
    ensures j < |l.insns| && InReached(l, cfg, j)
  {
    var a: nat :| Holds(l, a, i) && Reached(cfg, a);
    var b := Holder(l, j);
    FollowReaches(l, S, cfg, a, i, j, b);
  }

  lemma EntryInReached(l: Layout, S: seq<Entry>, cfg: FunctionCfg, j: nat)
    requires Assembled(l, S, cfg) && cfg.suspendPoints != [] && l.insns != [] && EntryPoint(l.insns, j)
    ensures j < |l.insns| && InReached(l, cfg, j)
  {
    var b := Holder(l, j);
    EntryReached(l, S, cfg, j, b);
  }

  lemma LiveIsReached(l: Layout, S: seq<Entry>, cfg: FunctionCfg, i: nat, b: nat)
    requires Assembled(l, S, cfg) && cfg.suspendPoints != [] && l.insns != [] && LiveInsn(BodyOf(l), i) && Holds(l, b, i)
    ensures Reached(cfg, b)
  {
    var w :| LivePath(BodyOf(l), w) && Last(w, i);
    var s := set x: nat | x < |l.insns| && InReached(l, cfg, x);
    forall j: nat | EntryPoint(l.insns, j) ensures j in s { EntryInReached(l, S, cfg, j); }
    forall x: nat, j: nat | x in s && Follows(BodyOf(l), x, j) ensures j in s { FollowInReached(l, S, cfg, x, j); }
    ClosedHoldsLive(BodyOf(l), s, w);
    var a: nat :| Holds(l, a, i) && Reached(cfg, a);
    OneHolder(l, a, b, i);
  }

  /** A block of a resumable body is reachable exactly when its instructions are live. */
  lemma ReachedIffLive(l: Layout, S: seq<Entry>, cfg: FunctionCfg, b: nat, i: nat)
    requires Assembled(l, S, cfg) && cfg.suspendPoints != [] && l.insns != [] && Holds(l, b, i)
    ensures Reached(cfg, b) <==> LiveInsn(BodyOf(l), i)
  {
    BlockBody(l, b);
    if Reached(cfg, b) {
      ReachedIsLive(l, S, cfg, b);
      BlockLives(l, b, i);
    }
    if LiveInsn(BodyOf(l), i) { LiveIsReached(l, S, cfg, i, b); }
  }

  lemma BlocksHold(l: Layout, S: seq<Entry>, cfg: FunctionCfg)
    requires Assembled(l, S, cfg) && cfg.suspendPoints != []
    ensures l.insns != [] && |l.blocks| == |l.leaders| && |cfg.blocks| == |l.blocks| + 1
    ensures forall b: nat {:trigger l.blocks[b]} :: b < |l.blocks| ==> Holds(l, b, l.cut[b])
  {
    ResumeIsEntry(l, cfg.suspendPoints, 0);
    forall b: nat | b < |l.blocks| ensures Holds(l, b, l.cut[b]) { BlockBody(l, b); }
  }

  lemma AllReachedIsLive(l: Layout, S: seq<Entry>, cfg: FunctionCfg, j: nat)
    requires Assembled(l, S, cfg) && cfg.suspendPoints != [] && j < |l.insns| && forall b: nat :: b < |cfg.blocks| ==> Reached(cfg, b)
    ensures LiveInsn(BodyOf(l), j)
  {
    BlocksHold(l, S, cfg);
    var b := Holder(l, j);
    ReachedIffLive(l, S, cfg, b, j);
  }

  lemma StartHeld(l: Layout, S: seq<Entry>, cfg: FunctionCfg, b: nat)
    requires Assembled(l, S, cfg) && cfg.suspendPoints != [] && b < |l.blocks|
    ensures l.insns != [] && l.cut[b] < |l.insns| && Holds(l, b, l.cut[b])
  {
    BlocksHold(l, S, cfg);
    BlockBody(l, b);
    assert Holds(l, b, l.cut[b]);
  }

  lemma LiveStartIsReached(l: Layout, S: seq<Entry>, cfg: FunctionCfg, b: nat)
    requires Assembled(l, S, cfg) && cfg.suspendPoints != [] && b < |l.blocks|
    requires l.cut[b] < |l.insns| ==> LiveInsn(BodyOf(l), l.cut[b])
    ensures Reached(cfg, b)
  {
    StartHeld(l, S, cfg, b);
    ReachedIffLive(l, S, cfg, b, l.cut[b]);
  }

  lemma AllLiveIsReached(l: Layout, S: seq<Entry>, cfg: FunctionCfg, b: nat)
    requires Assembled(l, S, cfg) && cfg.suspendPoints != [] && b < |cfg.blocks| && forall j: nat :: j < |l.insns| ==> LiveInsn(BodyOf(l), j)
    ensures Reached(cfg, b)
  {
    if b < |l.blocks| { LiveStartIsReached(l, S, cfg, b); } else { DispatcherReached(l, S, cfg); }
  }

  /** Every block of a resumable body is reachable exactly when every instruction is live. */
  lemma AllReachedIffLive(l: Layout, S: seq<Entry>, cfg: FunctionCfg)
    requires Assembled(l, S, cfg) && cfg.suspendPoints != []
    ensures (forall b: nat :: b < |cfg.blocks| ==> Reached(cfg, b)) <==> forall j: nat :: j < |l.insns| ==> LiveInsn(BodyOf(l), j)
  {
    if forall b: nat :: b < |cfg.blocks| ==> Reached(cfg, b) {
      forall j: nat | j < |l.insns| ensures LiveInsn(BodyOf(l), j) { AllReachedIsLive(l, S, cfg, j); }
    }
    if forall j: nat :: j < |l.insns| ==> LiveInsn(BodyOf(l), j) {
      forall b: nat | b < |cfg.blocks| ensures Reached(cfg, b) { AllLiveIsReached(l, S, cfg, b); }
    }
  }

  /** CFG-05 is the reachability of every block of a resumable body. */
  lemma Cfg05IsReached(cfg: FunctionCfg)
    ensures Cfg05(cfg) <==> !OpcodeGenerator(cfg) || cfg.suspendPoints == [] || forall b: nat :: b < |cfg.blocks| ==> Reached(cfg, b)
  {
    if forall b: nat :: b < |cfg.blocks| ==> Reached(cfg, b) {
      forall b: nat | b < |cfg.blocks| ensures AnyReachable(cfg.blocks, cfg.exceptionSuccs, cfg.entry, b) { assert Reached(cfg, b); }
    }
  }

  /** CFG-05 holds of a built graph exactly when no instruction of a resumable body is dead. */
  lemma UnreachableIffDead(l: Layout, S: seq<Entry>, cfg: FunctionCfg)
    requires Assembled(l, S, cfg) && (cfg.suspendPoints != [] <==> Resumes(l.insns, cfg.era))
    ensures Cfg05(cfg) <==> !DeadInGenerator(BodyOf(l), cfg.era, cfg.kind)
  {
    Cfg05IsReached(cfg);
    if cfg.suspendPoints != [] { AllReachedIffLive(l, S, cfg); }
  }

  /** What the checker can answer about a built graph. */
  lemma VerdictOfBuilt(l: Layout, S: seq<Entry>, cfg: FunctionCfg, v: Verdict)
    requires Assembled(l, S, cfg) && WellIndexed(cfg) && (cfg.suspendPoints != [] <==> Resumes(l.insns, cfg.era))
    requires v.Pass? ==> Invariants.Holds(cfg, l.insns, l.size, CFG05)
    requires v.Fail? ==> !Invariants.Holds(cfg, l.insns, l.size, v.id)
    ensures v == Pass || v == Fail(CFG05)
    ensures v == Fail(CFG05) <==> DeadInGenerator(BodyOf(l), cfg.era, cfg.kind)
  {
    if v.Fail? && v.id != CFG05 { ResultMeetsInvariants(l, S, cfg, v.id); }
    UnreachableIffDead(l, S, cfg);
  }

  /** buildCfg followed by the checker: only CFG-05 can fail, and it does exactly when the
      instructions are those of an opcode-era generator that resumes and some of them are dead. */
  method BuildAndCheck(insns: seq<Instruction>, handlers: seq<ExceptionHandler>, size: nat, at: map<int, nat>, era: Era, kind: FunctionKind, maxBlocks: nat)
    returns (r: BuildResult, v: Verdict)
    requires Decoded(insns, size, at)
    ensures r.Ok? ==> WellIndexed(r.cfg) && (v == Pass || v == Fail(CFG05))
    ensures r.Ok? ==> (v == Fail(CFG05) <==> DeadInGenerator(Body(insns, handlers, size, at), era, kind))
    ensures handlers == [] ==> r.Ok? || r.TooComplex?
  {
    ghost var l, S;
    r, l, S := BuildCfg.BuildCfg(insns, handlers, size, at, era, kind, maxBlocks);
    v := Pass;
    if r.Ok? {
      ResultWellIndexed(l, S, r.cfg);
      v := CheckCfgInvariants(r.cfg, insns, size);
      VerdictOfBuilt(l, S, r.cfg, v);
    }
  }
}
