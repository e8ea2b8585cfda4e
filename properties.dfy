/**
 * Properties of the init-before-foo analysis: where the block scan stops,
 * what each kind of call contributes to a report, where a reported chain
 * starts, and what the must-analysis facts mean in terms of paths.
 */
module InitProperties {
  import opened Mir
  import Dataflow
  import opened InitAnalysis

  // ---------------------------------------------------------------------------
  // The scan stops at the first violating block in declaration order

  /** No block from `from` on violates. */
  ghost predicate BlocksPass(p: Program, join: Dataflow.Join, body: Body, entry: seq<bool>, stack: set<FnId>, from: nat)
    requires |entry| == |body.blocks|
  {
    forall k | from <= k < |body.blocks| :: BlockCheck(p, join, body, entry, stack, k).None?
  }

  lemma {:induction false} ScanAllPass(p: Program, join: Dataflow.Join, body: Body, entry: seq<bool>, stack: set<FnId>, from: nat)
    requires |entry| == |body.blocks| && from <= |body.blocks|
    ensures Scan(p, join, body, entry, stack, from) == NotInit <==> BlocksPass(p, join, body, entry, stack, from)
    decreases |body.blocks| - from
  {
    if from < |body.blocks| {
      ScanAllPass(p, join, body, entry, stack, from + 1);
      if BlockCheck(p, join, body, entry, stack, from).None? {
        assert Scan(p, join, body, entry, stack, from) == Scan(p, join, body, entry, stack, from + 1);
      } else {
        assert Scan(p, join, body, entry, stack, from).NeedsInit?;
      }
    }
  }

  lemma {:induction false} ScanStopsAt(p: Program, join: Dataflow.Join, body: Body, entry: seq<bool>, stack: set<FnId>, from: nat, k: nat)
    requires |entry| == |body.blocks| && from <= k < |body.blocks|
    requires BlockCheck(p, join, body, entry, stack, k).Some?
    requires forall i | from <= i < k :: BlockCheck(p, join, body, entry, stack, i).None?
    ensures Scan(p, join, body, entry, stack, from) == NeedsInit(BlockCheck(p, join, body, entry, stack, k).value)
    decreases k - from
  {
    if from < k {
      ScanStopsAt(p, join, body, entry, stack, from + 1, k);
    }
  }

  /** The blocks of `id`'s body before `k` do not violate, in the state `check_init(id, stack)` scans them. */
  ghost predicate ScanPassesUpTo(p: Program, join: Dataflow.Join, id: FnId, stack: set<FnId>, k: nat)
    requires MirAvailable(p, id)
  {
    var body := p.fns[id].value;
    var inner := stack + {id};
    var entry := SeenInit(p, join, body, inner);
    forall i | 0 <= i < k && i < |body.blocks| :: BlockCheck(p, join, body, entry, inner, i).None?
  }

  /** `check_init` on a scanned function reports the first violating block. */
  lemma CheckInitReportsFirst(p: Program, join: Dataflow.Join, id: FnId, stack: set<FnId>, k: nat)
    requires id !in stack && p.init != Some(id) && MirAvailable(p, id)
    requires k < |p.fns[id].value.blocks| && ScanPassesUpTo(p, join, id, stack, k)
    ensures var body := p.fns[id].value;
            var inner := stack + {id};
            var v := BlockCheck(p, join, body, SeenInit(p, join, body, inner), inner, k);
            v.Some? ==> CheckInit(p, join, id, stack) == NeedsInit(v.value)
  {
    var body := p.fns[id].value;
    var inner := stack + {id};
    var entry := SeenInit(p, join, body, inner);
    if BlockCheck(p, join, body, entry, inner, k).Some? {
      ScanStopsAt(p, join, body, entry, inner, 0, k);
    }
  }

  /** A function whose every block passes is NotInit, even if it calls the initializer. */
  lemma CheckInitAllPass(p: Program, join: Dataflow.Join, id: FnId, stack: set<FnId>)
    requires id !in stack && p.init != Some(id) && MirAvailable(p, id)
    requires ScanPassesUpTo(p, join, id, stack, |p.fns[id].value.blocks|)
    ensures CheckInit(p, join, id, stack) == NotInit
  {
    var body := p.fns[id].value;
    var inner := stack + {id};
    ScanAllPass(p, join, body, SeenInit(p, join, body, inner), inner, 0);
  }

  /** An indirect call reached by the scan is reported alone, whatever the dataflow fact. */
  lemma IndirectCallReported(p: Program, join: Dataflow.Join, id: FnId, stack: set<FnId>, k: nat)
    requires id !in stack && p.init != Some(id) && MirAvailable(p, id)
    requires k < |p.fns[id].value.blocks| && ScanPassesUpTo(p, join, id, stack, k)
    requires p.fns[id].value.blocks[k].terminator.Call?
    requires p.fns[id].value.blocks[k].terminator.callee.Indirect?
    ensures CheckInit(p, join, id, stack) == NeedsInit([p.fns[id].value.blocks[k].terminator.span])
  {
    CheckInitReportsFirst(p, join, id, stack, k);
  }

  /** A call of `foo` reached while init is not certain just before it is reported alone. */
  lemma UninitializedFooReported(p: Program, join: Dataflow.Join, id: FnId, stack: set<FnId>, k: nat)
    requires id !in stack && p.init != Some(id) && MirAvailable(p, id)
    requires k < |p.fns[id].value.blocks| && ScanPassesUpTo(p, join, id, stack, k)
    requires var t := p.fns[id].value.blocks[k].terminator;
             t.Call? && t.callee.Known? && p.foo == Some(t.callee.id)
    requires !SeenInit(p, join, p.fns[id].value, stack + {id})[k]
    ensures CheckInit(p, join, id, stack) == NeedsInit([p.fns[id].value.blocks[k].terminator.span])
  {
    SeekBeforeTerminator(SeenInit(p, join, p.fns[id].value, stack + {id}), p.fns[id].value, k);
    CheckInitReportsFirst(p, join, id, stack, k);
  }

  /**
   * A direct call passes when the fact before it is true or its callee is
   * not `foo`, and the callee is no violation.
   */
  lemma KnownCallPasses(p: Program, join: Dataflow.Join, body: Body, entry: seq<bool>, stack: set<FnId>, k: nat)
    requires |entry| == |body.blocks| && k < |body.blocks|
    requires var t := body.blocks[k].terminator;
             && t.Call? && t.callee.Known?
             && (entry[k] || p.foo != Some(t.callee.id))
             && !CheckInit(p, join, t.callee.id, stack).NeedsInit?
    ensures BlockCheck(p, join, body, entry, stack, k) == None
  {
  }

  /**
   * A callee's chain is reported with the caller's call span appended, so
   * the chain runs innermost call first. This holds unless the call is one
   * of `foo` made before init is certain.
   */
  lemma CalleeChainExtended(p: Program, join: Dataflow.Join, id: FnId, stack: set<FnId>, k: nat)
    requires id !in stack && p.init != Some(id) && MirAvailable(p, id)
    requires k < |p.fns[id].value.blocks| && ScanPassesUpTo(p, join, id, stack, k)
    requires var t := p.fns[id].value.blocks[k].terminator;
             t.Call? && t.callee.Known?
    requires var t := p.fns[id].value.blocks[k].terminator;
             SeenInit(p, join, p.fns[id].value, stack + {id})[k] || p.foo != Some(t.callee.id)
    requires CheckInit(p, join, p.fns[id].value.blocks[k].terminator.callee.id, stack + {id}).NeedsInit?
    ensures var t := p.fns[id].value.blocks[k].terminator;
            CheckInit(p, join, id, stack) ==
              NeedsInit(CheckInit(p, join, t.callee.id, stack + {id}).spans + [t.span])
  {
    SeekBeforeTerminator(SeenInit(p, join, p.fns[id].value, stack + {id}), p.fns[id].value, k);
    CheckInitReportsFirst(p, join, id, stack, k);
  }

  // ---------------------------------------------------------------------------
  // Where a reported chain comes from

  /** Block `k` of `id` ends in a call with this span. */
  predicate CallSite(p: Program, id: FnId, k: nat, span: Span) {
    && MirAvailable(p, id)
    && k < |p.fns[id].value.blocks|
    && p.fns[id].value.blocks[k].terminator.Call?
    && p.fns[id].value.blocks[k].terminator.span == span
  }

  /** Block `k` of `id` ends in a direct call of `g`. */
  predicate CallsAt(p: Program, id: FnId, k: nat, g: FnId) {
    && MirAvailable(p, id)
    && k < |p.fns[id].value.blocks|
    && p.fns[id].value.blocks[k].terminator.Call?
    && p.fns[id].value.blocks[k].terminator.callee == Known(g)
  }

  /** Block `k` of `id` ends in an indirect call or a call of `foo`. */
  predicate RiskySite(p: Program, id: FnId, k: nat) {
    && MirAvailable(p, id)
    && k < |p.fns[id].value.blocks|
    && var t := p.fns[id].value.blocks[k].terminator;
       t.Call? && (t.callee.Indirect? || p.foo == Some(t.callee.id))
  }

  /** `id` calls `g` directly from one of its blocks. */
  ghost predicate Calls(p: Program, id: FnId, g: FnId) {
    exists k: nat :: CallsAt(p, id, k, g)
  }

  /** `path` is a chain of direct calls from `root` to `id`. */
  ghost predicate IsCallPath(p: Program, path: seq<FnId>, root: FnId, id: FnId) {
    && |path| >= 1
    && path[0] == root
    && path[|path| - 1] == id
    && (forall i | 0 <= i < |path| - 1 :: Calls(p, path[i], path[i + 1]))
  }

  /** The walker can get from `root` to `id` through direct calls. */
  ghost predicate Reachable(p: Program, root: FnId, id: FnId) {
    exists path: seq<FnId> :: IsCallPath(p, path, root, id)
  }

  lemma ReachableSelf(p: Program, id: FnId)
    ensures Reachable(p, id, id)
  {
    assert IsCallPath(p, [id], id, id);
  }

  lemma ReachableThroughCall(p: Program, root: FnId, g: FnId, id: FnId)
    requires Calls(p, root, g) && Reachable(p, g, id)
    ensures Reachable(p, root, id)
  {
    var path :| IsCallPath(p, path, g, id);
    var longer := [root] + path;
    forall i | 0 <= i < |longer| - 1 ensures Calls(p, longer[i], longer[i + 1]) {
      if i > 0 {
        assert longer[i] == path[i - 1] && longer[i + 1] == path[i];
      }
    }
    assert IsCallPath(p, longer, root, id);
  }

  /**
   * The initializer is not on the stack. This holds on every stack the
   * walker builds from the empty one: `init` is never walked into, since
   * `CheckInitInner` answers Init for it before any descent.
   */
  predicate InitOff(p: Program, stack: set<FnId>) {
    p.init.None? || p.init.value !in stack
  }

  /**
   * Block `k` of `id` is a call the lint may report by itself: an indirect
   * call, or a call of `foo` where the seen-init fact is false, computed on
   * some call stack that holds `id` but not `init`, as the walker's stacks do.
   */
  ghost predicate ReportableSite(p: Program, join: Dataflow.Join, id: FnId, k: nat) {
    && MirAvailable(p, id)
    && k < |p.fns[id].value.blocks|
    && var t := p.fns[id].value.blocks[k].terminator;
       && t.Call?
       && (|| t.callee.Indirect?
           || (&& p.foo == Some(t.callee.id)
               && exists s: set<FnId> :: id in s && InitOff(p, s) && !SeenInit(p, join, p.fns[id].value, s)[k]))
  }

  /** Some block of the program ends in a call with this span. */
  ghost predicate IsCallSpan(p: Program, span: Span) {
    exists id: FnId, k: nat :: CallSite(p, id, k, span)
  }

  /** The span is that of a reportable call in a function reachable from `root`. */
  ghost predicate StartsAtReportableSite(p: Program, join: Dataflow.Join, root: FnId, span: Span) {
    exists id: FnId, k: nat :: ReportableSite(p, join, id, k) && CallSite(p, id, k, span) && Reachable(p, root, id)
  }

  /** The span is that of a call made by `root` itself. */
  ghost predicate IsCallIn(p: Program, root: FnId, span: Span) {
    exists k: nat :: CallSite(p, root, k, span)
  }

  /**
   * A report about `root` is a chain of call spans of the program. Its
   * innermost span is a reportable call in a function reachable from
   * `root`, and its outermost span is a call made by `root`.
   */
  ghost predicate ReportedChain(p: Program, join: Dataflow.Join, root: FnId, spans: seq<Span>) {
    && |spans| >= 1
    && StartsAtReportableSite(p, join, root, spans[0])
    && (forall i | 0 <= i < |spans| :: IsCallSpan(p, spans[i]))
    && IsCallIn(p, root, spans[|spans| - 1])
  }

  /** A callee's chain, extended by the span of a call of that callee, is a chain of the caller. */
  lemma ChainExtends(p: Program, join: Dataflow.Join, spans: seq<Span>, c: FnId, id: FnId, k: nat, span: Span)
    requires ReportedChain(p, join, c, spans)
    requires CallSite(p, id, k, span) && CallsAt(p, id, k, c)
    ensures ReportedChain(p, join, id, spans + [span])
  {
    var longer := spans + [span];
    assert longer[0] == spans[0];
    var r, j :| ReportableSite(p, join, r, j) && CallSite(p, r, j, spans[0]) && Reachable(p, c, r);
    assert Calls(p, id, c);
    ReachableThroughCall(p, id, c, r);
    assert StartsAtReportableSite(p, join, id, longer[0]);
    assert IsCallSpan(p, span);
    forall i | 0 <= i < |longer| ensures IsCallSpan(p, longer[i]) {
      if i < |spans| {
        assert longer[i] == spans[i];
      }
    }
    assert IsCallIn(p, id, longer[|longer| - 1]);
  }

  lemma {:induction false} CheckInitChainOrigin(p: Program, join: Dataflow.Join, id: FnId, stack: set<FnId>)
    requires InitOff(p, stack)
    ensures var r := CheckInit(p, join, id, stack);
            r.NeedsInit? ==> ReportedChain(p, join, id, r.spans)
    decreases Unvisited(p, stack), 2, 0
  {
    if id !in stack && p.init != Some(id) && MirAvailable(p, id) {
      var inner := stack + {id};
      var body := p.fns[id].value;
      assert inner - {id} == stack;
      assert InitOff(p, inner);
      EnterShrinks(p, id, inner);
      ScanChainOrigin(p, join, id, body, SeenInit(p, join, body, inner), inner, 0);
    }
  }

  lemma {:induction false} ScanChainOrigin(p: Program, join: Dataflow.Join, id: FnId, body: Body, entry: seq<bool>, stack: set<FnId>, from: nat)
    requires MirAvailable(p, id) && p.fns[id].value == body && id in stack && InitOff(p, stack)
    requires entry == SeenInit(p, join, body, stack) && from <= |body.blocks|
    ensures var r := Scan(p, join, body, entry, stack, from);
            r.NeedsInit? ==> ReportedChain(p, join, id, r.spans)
    decreases Unvisited(p, stack), 5, |body.blocks| - from
  {
    if from < |body.blocks| {
      BlockChainOrigin(p, join, id, body, entry, stack, from);
      ScanChainOrigin(p, join, id, body, entry, stack, from + 1);
    }
  }

  lemma {:induction false} BlockChainOrigin(p: Program, join: Dataflow.Join, id: FnId, body: Body, entry: seq<bool>, stack: set<FnId>, b: nat)
    requires MirAvailable(p, id) && p.fns[id].value == body && id in stack && InitOff(p, stack)
    requires entry == SeenInit(p, join, body, stack) && b < |body.blocks|
    ensures var v := BlockCheck(p, join, body, entry, stack, b);
            v.Some? ==> ReportedChain(p, join, id, v.value)
    decreases Unvisited(p, stack), 4, 0
  {
    var t := body.blocks[b].terminator;
    if t.Call? {
      assert CallSite(p, id, b, t.span);
      assert IsCallSpan(p, t.span) && IsCallIn(p, id, t.span);
      match t.callee
      case Indirect =>
        ReachableSelf(p, id);
        assert ReportableSite(p, join, id, b);
        assert StartsAtReportableSite(p, join, id, t.span);
      case Known(c) =>
        SeekBeforeTerminator(entry, body, b);
        if !entry[b] && p.foo == Some(c) {
          ReachableSelf(p, id);
          assert ReportableSite(p, join, id, b);
          assert StartsAtReportableSite(p, join, id, t.span);
        } else {
          CheckInitChainOrigin(p, join, c, stack);
          if CheckInit(p, join, c, stack).NeedsInit? {
            assert CallsAt(p, id, b, c);
            ChainExtends(p, join, CheckInit(p, join, c, stack).spans, c, id, b, t.span);
          }
        }
    }
  }

  /**
   * No reachable risk, no report: when no function the walker can reach
   * from the entry makes an indirect call or a call of `foo`, nothing is
   * reported.
   */
  lemma NoReachableRiskyCallNoDiagnostic(p: Program, join: Dataflow.Join, mainFn: Option<FnId>)
    requires mainFn.Some? ==> forall id, k :: Reachable(p, mainFn.value, id) ==> !RiskySite(p, id, k)
    ensures CheckCrate(p, join, mainFn) == None
  {
    if mainFn.Some? {
      var m := mainFn.value;
      CheckInitChainOrigin(p, join, m, {});
      var r := CheckInit(p, join, m, {});
      if r.NeedsInit? {
        var id, k :| ReportableSite(p, join, id, k) && CallSite(p, id, k, r.spans[0]) && Reachable(p, m, id);
        assert RiskySite(p, id, k);
      }
    }
  }

  // ---------------------------------------------------------------------------
  // What the must-analysis facts mean

  /** Which blocks end in a direct call of the initializer while it is not on the stack. */
  function InitializerCalls(p: Program, body: Body, stack: set<FnId>): (calls: seq<bool>)
    ensures |calls| == |body.blocks|
  {
    seq(|body.blocks|, k requires 0 <= k < |body.blocks| => CallsInitializer(p, body.blocks[k].terminator, stack))
  }

  lemma GensAreInitializerCalls(p: Program, join: Dataflow.Join, body: Body, stack: set<FnId>)
    ensures Gens(p, join, body, stack, 0) == InitializerCalls(p, body, stack)
  {
  }

  /**
   * With the intersecting join, the fact the cursor reports just before the
   * terminator of block `b` is true exactly when every walk from the entry
   * block to `b` passes, before `b`, a block that calls the initializer.
   */
  lemma SeenInitMeetOverPaths(p: Program, body: Body, stack: set<FnId>, b: nat)
    requires b < |body.blocks|
    ensures Seek(SeenInit(p, Dataflow.Intersect, body, stack), body, TerminatorLocation(body, b))
            <==> Dataflow.AllPathsGen(Cfg(body), InitializerCalls(p, body, stack), b)
  {
    GensAreInitializerCalls(p, Dataflow.Intersect, body, stack);
    SeekBeforeTerminator(SeenInit(p, Dataflow.Intersect, body, stack), body, b);
    Dataflow.MustMeetOverPaths(Cfg(body), InitializerCalls(p, body, stack), b);
  }

  /**
   * Block `k` is safe under the must-analysis: it is no indirect call; a
   * call of `foo` is preceded by a call of `init` on every path to it; and
   * no callee is itself a violation.
   */
  ghost predicate SafeBlock(p: Program, body: Body, stack: set<FnId>, k: nat)
    requires k < |body.blocks|
  {
    var t := body.blocks[k].terminator;
    t.Call? ==>
      && t.callee.Known?
      && (p.foo == Some(t.callee.id) ==> Dataflow.AllPathsGen(Cfg(body), InitializerCalls(p, body, stack), k))
      && !CheckInit(p, Dataflow.Intersect, t.callee.id, stack).NeedsInit?
  }

  /** With the intersecting join, a function that uses `foo` only after `init` on every path passes. */
  lemma CorrectFunctionPasses(p: Program, id: FnId, stack: set<FnId>)
    requires id !in stack && p.init != Some(id) && MirAvailable(p, id)
    requires forall k | 0 <= k < |p.fns[id].value.blocks| :: SafeBlock(p, p.fns[id].value, stack + {id}, k)
    ensures CheckInit(p, Dataflow.Intersect, id, stack) == NotInit
  {
    var body := p.fns[id].value;
    var inner := stack + {id};
    var entry := SeenInit(p, Dataflow.Intersect, body, inner);
    forall k | 0 <= k < |body.blocks|
      ensures BlockCheck(p, Dataflow.Intersect, body, entry, inner, k).None?
    {
      assert SafeBlock(p, body, inner, k);
      SeenInitMeetOverPaths(p, body, inner, k);
    }
    CheckInitAllPass(p, Dataflow.Intersect, id, stack);
  }
}
