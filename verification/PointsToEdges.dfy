// The exports tables and the slot rounds put together (src/artifact/points-to.ts:689-762): what
// a reported call edge says about the bundle.
module PointsToEdges {
  import opened CfgTypes
  import opened PtMachine
  import opened PointsTo
  import opened PointsToSound
  import opened PointsToRounds
  import opened ExportsPass
  import opened ExportsSound
  import opened ExportsModule
  import opened Invariants
  import opened LastWrite

  /** resolvePointsToCalls, with the exports tables it asks for. */
  method ResolveCalls(b: Bundle, index: SlotIndex, ofModule: map<ModuleId, Fn>, cfgs: map<Fn, FunctionCfg>, order: seq<Fn>)
    returns (edges: map<SiteKey, CallEdge>, rounds: nat, table: ExportsTable, ghost cxs: map<ModuleId, Context>)
    requires Complete(b, index) && forall id :: id in ofModule ==> ofModule[id] in b.factories
    requires forall fn :: fn in cfgs ==> CfgShape(cfgs[fn]) && Disjoint(cfgs[fn].blocks)
    ensures TableOfAll(b, index, ofModule, cfgs, cxs, table) && EdgesTrue(b, table, edges)
    ensures EdgesOfRounds(b, index, table, order, rounds, edges)
  {
    table, cxs := ExportsOfAll(b, index, ofModule, cfgs);
    ghost var P, trace;
    var resolved;
    edges, resolved, rounds, P, trace := ResolvePointsToCalls(b, index, table, order);
  }

  /** The same from the module list: the factories are those of its rows, and the rounds walk
      them in the order of first mention. */
  method ResolveModules(modules: seq<ModuleRow>, paramCount: map<Fn, nat>, code: seq<seq<PtSite>>, resolvedAt: map<SiteKey, Node>, live: set<SiteKey>,
                        index: SlotIndex, cfgs: map<Fn, FunctionCfg>)
    returns (edges: map<SiteKey, CallEdge>, table: ExportsTable, ghost b: Bundle, ghost cxs: map<ModuleId, Context>)
    requires Complete(Bundle(code, map[], resolvedAt, live), index)
    requires forall fn :: fn in cfgs ==> CfgShape(cfgs[fn]) && Disjoint(cfgs[fn].blocks)
    ensures b.code == code && b.resolvedAt == resolvedAt && b.live == live
    ensures exists ofModule :: FactoriesRight(modules, paramCount, |modules|, b.factories, ofModule) && SlotsRight(paramCount, b.factories)
                               && TableOfAll(b, index, ofModule, cfgs, cxs, table)
    ensures EdgesTrue(b, table, edges) && exists order, rounds :: EdgesOfRounds(b, index, table, order, rounds, edges)
  {
    var factories, ofModule, order := Factories(modules, paramCount);
    var bundle := Bundle(code, factories, resolvedAt, live);
    b := bundle;
    var rounds;
    edges, rounds, table, cxs := ResolveCalls(bundle, index, ofModule, cfgs, order);
  }

  /** The tables, one context for each module that decodes. */
  ghost predicate TableOfAll(b: Bundle, index: SlotIndex, ofModule: map<ModuleId, Fn>, cfgs: map<Fn, FunctionCfg>, cxs: map<ModuleId, Context>, table: ExportsTable) {
    && (forall id :: id in cxs ==> ContextOf(b, index, ofModule, id, cxs[id]))
    && forall id: ModuleId, name: string, f: Fn :: TableRight(cxs, cfgs, table, id, name, f)
  }

  /** The edges of the last of the rounds. */
  ghost predicate EdgesOfRounds(b: Bundle, index: SlotIndex, table: ExportsTable, order: seq<Fn>, rounds: nat, edges: map<SiteKey, CallEdge>) {
    exists P: seq<map<Reg, nat>>, trace: seq<RoundState> :: ParamTables(b, P) && Rounds(b, P, index, order, trace) && Stopped(trace, MAX_ROUNDS)
      && |trace| == rounds + 1 && AllEdges(b, P, trace[rounds].resolved, table, trace[rounds].walked, edges)
  }

  /** Two runs report the same edges. */
  lemma EdgesDetermined(b: Bundle, index: SlotIndex, table: ExportsTable, order: seq<Fn>, m: nat, n: nat, a: map<SiteKey, CallEdge>, c: map<SiteKey, CallEdge>)
    requires EdgesOfRounds(b, index, table, order, m, a) && EdgesOfRounds(b, index, table, order, n, c)
    ensures m == n && a == c
  {
    var P: seq<map<Reg, nat>>, s: seq<RoundState> :| ParamTables(b, P) && Rounds(b, P, index, order, s) && Stopped(s, MAX_ROUNDS)
      && |s| == m + 1 && AllEdges(b, P, s[m].resolved, table, s[m].walked, a);
    var Q: seq<map<Reg, nat>>, t: seq<RoundState> :| ParamTables(b, Q) && Rounds(b, Q, index, order, t) && Stopped(t, MAX_ROUNDS)
      && |t| == n + 1 && AllEdges(b, Q, t[n].resolved, table, t[n].walked, c);
    forall fn: nat | fn < |b.code| ensures P[fn] == Q[fn] { UniqueIsUnique(ParamMaker, b, fn, P[fn], Q[fn]); }
    assert P == Q;
    RoundsDetermined(b, P, index, order, MAX_ROUNDS, s, t);
    AllEdgesUnique(b, P, s[m].resolved, table, s[m].walked, a, c);
  }

  lemma AllEdgesUnique(b: Bundle, P: seq<map<Reg, nat>>, resolved: map<SlotKey, ModuleId>, table: ExportsTable, walked: set<Fn>, a: map<SiteKey, CallEdge>, c: map<SiteKey, CallEdge>)
    requires ParamTables(b, P) && AllEdges(b, P, resolved, table, walked, a) && AllEdges(b, P, resolved, table, walked, c)
    ensures a == c
  {
    forall x ensures x in a <==> x in c {
      assert Find(a, x) == Find(c, x);
    }
    forall x | x in a ensures a[x] == c[x] {
      assert Find(a, x) == Find(c, x);
    }
  }

  /** w runs through the factory's graph to an exit, and its last recognised put of `name` is
      the one of this kind at instruction i of w[p]. */
  ghost predicate LastPutOnPath(cx: Context, cfgs: map<Fn, FunctionCfg>, w: seq<BlockId>, p: nat, i: nat, name: string, kind: PutKind) {
    && cx.fn < |cx.b.code| && cx.fn in cfgs && Disjoint(cfgs[cx.fn].blocks)
    && Path(cfgs[cx.fn].blocks, cfgs[cx.fn].entry, w) && IsExitBlock(cfgs[cx.fn], w[|w| - 1])
    && LastPut(cx, cfgs[cx.fn], w, p, i, name, kind)
  }

  /** An edge m.name -> f, in every run: what is called was read as `name` off the exports of
      m (or is those exports), and on every normal path of m's factory to an exit that performs
      a recognised put of `name`, the last such put stores a closure of f. */
  lemma EdgeNamesLastPut(b: Bundle, index: SlotIndex, ofModule: map<ModuleId, Fn>, cfgs: map<Fn, FunctionCfg>, cxs: map<ModuleId, Context>, table: ExportsTable,
                         edges: map<SiteKey, CallEdge>, x: SiteKey, w: seq<BlockId>, p: nat, i: nat, kind: PutKind)
    requires TableOfAll(b, index, ofModule, cfgs, cxs, table) && EdgesTrue(b, table, edges) && x in edges
    ensures edges[x].m in cxs && cxs[edges[x].m].fn == ofModule[edges[x].m]
    ensures forall m, j {:trigger Reached(b, m), m.frames[j]} :: Reached(b, m) && 0 <= j < |m.frames| && AtSite(b, m.frames[j]) && (m.frames[j].fn, m.frames[j].pc) == x ==>
              CalleeRight(m, edges[x], CalleeValue(b, m.frames[j]))
    ensures LastPutOnPath(cxs[edges[x].m], cfgs, w, p, i, edges[x].name, kind) ==> kind == StoresClosure(edges[x].callee)
  {
    var e := edges[x];
    assert TableRight(cxs, cfgs, table, e.m, e.name, e.callee);
    var cx := cxs[e.m];
    if LastPutOnPath(cx, cfgs, w, p, i, e.name, kind) {
      LastPutStoresFunction(cx, cfgs[cx.fn], e.name, e.callee, w, p, i, kind);
    }
  }
}
