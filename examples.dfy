/**
 * The two UI tests of the lint as concrete programs, with their verdicts.
 *
 * init_before_foo3: `main` calls `bar` and only then `init`; `bar` calls
 * `foo`. init_before_foo4: `main` calls `init` on one branch of an `if` and
 * then calls `foo` unconditionally. Then a correct program: `main` calls
 * `init` and then `foo`. Finally two programs showing that the fact is per
 * function body: an `init` call made by a caller is not seen in the callee,
 * and one made inside a helper is not seen in the helper's caller.
 */
module Examples {
  import opened Mir
  import Dataflow
  import opened InitAnalysis
  import opened InitProperties

  const MAIN: FnId := 0
  const BAR: FnId := 1
  const FOO: FnId := 2
  const INIT: FnId := 3
  const FALSE_VALUE: FnId := 4
  const SETUP: FnId := 5

  function Leaf(): Body {
    Body([BasicBlock([], Return)])
  }

  // ---------------------------------------------------------------------------
  // init_before_foo3

  function Foo3Main(): Body {
    Body([
      BasicBlock([], Call(Known(BAR), Span(5, 5), [1])),
      BasicBlock([], Call(Known(INIT), Span(6, 5), [2])),
      BasicBlock([], Return)
    ])
  }

  function Foo3Bar(): Body {
    Body([
      BasicBlock([], Call(Known(FOO), Span(10, 5), [1])),
      BasicBlock([], Return)
    ])
  }

  function Foo3(): Program {
    Program(map[MAIN := Some(Foo3Main()), BAR := Some(Foo3Bar()), FOO := Some(Leaf()), INIT := Some(Leaf())],
            Some(INIT), Some(FOO))
  }

  /** `bar` calls `foo` with nothing before it: the chain starts at that call. */
  lemma Foo3BarVerdict(join: Dataflow.Join)
    ensures CheckInit(Foo3(), join, BAR, {MAIN}) == NeedsInit([Span(10, 5)])
  {
    var p := Foo3();
    var body := Foo3Bar();
    var inner := {MAIN, BAR};
    Dataflow.EntryFactFalse(join, Cfg(body), Gens(p, join, body, inner, 0));
    UninitializedFooReported(p, join, BAR, {MAIN}, 0);
  }

  /** `main` reports the chain of `bar` extended by its own call of `bar`. */
  lemma Foo3MainVerdict(join: Dataflow.Join)
    ensures CheckInit(Foo3(), join, MAIN, {}) == NeedsInit([Span(10, 5), Span(5, 5)])
  {
    var p := Foo3();
    var body := Foo3Main();
    var inner := {MAIN};
    Dataflow.EntryFactFalse(join, Cfg(body), Gens(p, join, body, inner, 0));
    assert {} + {MAIN} == inner;
    Foo3BarVerdict(join);
    CalleeChainExtended(p, join, MAIN, {}, 0);
    assert [Span(10, 5)] + [Span(5, 5)] == [Span(10, 5), Span(5, 5)];
  }

  /** The lint reports the call of `foo` in `bar`, then the call of `bar` in `main`. */
  lemma Foo3Verdict(join: Dataflow.Join)
    ensures CheckCrate(Foo3(), join, Some(MAIN)) == Some([Span(10, 5), Span(5, 5)])
  {
    Foo3MainVerdict(join);
  }

  // ---------------------------------------------------------------------------
  // init_before_foo4

  function Foo4Main(): Body {
    Body([
      BasicBlock([], Call(Known(FALSE_VALUE), Span(5, 8), [1])),
      BasicBlock([], Branch([2, 3])),
      BasicBlock([], Call(Known(INIT), Span(6, 9), [3])),
      BasicBlock([], Call(Known(FOO), Span(8, 5), [4])),
      BasicBlock([], Return)
    ])
  }

  function Foo4(): Program {
    Program(map[MAIN := Some(Foo4Main()), FALSE_VALUE := Some(Leaf()), FOO := Some(Leaf()), INIT := Some(Leaf())],
            Some(INIT), Some(FOO))
  }

  lemma LeafNotInit(p: Program, join: Dataflow.Join, id: FnId, stack: set<FnId>)
    requires id !in stack && p.init != Some(id) && id in p.fns && p.fns[id] == Some(Leaf())
    ensures CheckInit(p, join, id, stack) == NotInit
  {
    CheckInitAllPass(p, join, id, stack);
  }

  /** The blocks of `main` before the call of `foo` do not violate, whatever the join. */
  lemma Foo4PrefixPasses(join: Dataflow.Join)
    ensures ScanPassesUpTo(Foo4(), join, MAIN, {}, 3)
  {
    Foo4PrefixPassesIn(Foo4(), join);
  }

  lemma Foo4PrefixPassesIn(p: Program, join: Dataflow.Join)
    requires p == Foo4()
    ensures ScanPassesUpTo(p, join, MAIN, {}, 3)
  {
    var body := Foo4Main();
    assert p.fns[MAIN].value == body;
    var inner := {MAIN};
    assert {} + {MAIN} == inner;
    var entry := SeenInit(p, join, body, inner);
    forall i | 0 <= i < 3
      ensures BlockCheck(p, join, body, entry, inner, i).None?
    {
      if i == 0 {
        LeafNotInit(p, join, FALSE_VALUE, inner);
        KnownCallPasses(p, join, body, entry, inner, 0);
      } else if i == 2 {
        assert CheckInit(p, join, INIT, inner).Init?;
        KnownCallPasses(p, join, body, entry, inner, 2);
      }
    }
  }

  /** Along the branch that skips `init`, the call of `foo` is reached with the must-fact false. */
  lemma Foo4FooUnseen()
    ensures !SeenInit(Foo4(), Dataflow.Intersect, Foo4Main(), {MAIN})[3]
  {
    var p := Foo4();
    var body := Foo4Main();
    var inner := {MAIN};
    var calls := InitializerCalls(p, body, inner);
    var path: seq<nat> := [0, 1, 3];
    assert Dataflow.IsPathTo(Cfg(body), path, 3);
    assert !calls[0] && !calls[1];
    assert !Dataflow.GenOnPath(calls, path);
    SeenInitMeetOverPaths(p, body, inner, 3);
    SeekBeforeTerminator(SeenInit(p, Dataflow.Intersect, body, inner), body, 3);
  }

  /** With the intersecting join, `foo` is reported. */
  lemma Foo4UnderIntersect()
    ensures CheckCrate(Foo4(), Dataflow.Intersect, Some(MAIN)) == Some([Span(8, 5)])
  {
    assert {} + {MAIN} == {MAIN};
    Foo4FooUnseen();
    Foo4PrefixPasses(Dataflow.Intersect);
    UninitializedFooReported(Foo4(), Dataflow.Intersect, MAIN, {}, 3);
  }

  /** With the union join, the branch that calls `init` makes the fact true at `foo`. */
  lemma Foo4FooSeenUnderUnion()
    ensures SeenInit(Foo4(), Dataflow.Union, Foo4Main(), {MAIN})[3]
  {
    var p := Foo4();
    var body := Foo4Main();
    var inner := {MAIN};
    var gens := Gens(p, Dataflow.Union, body, inner, 0);
    var entry := SeenInit(p, Dataflow.Union, body, inner);
    assert entry[3] == Dataflow.StepAt(Dataflow.Union, Cfg(body), gens, entry, 3);
    assert gens[2];
    assert Dataflow.Exits(gens, entry)[2];
    assert 3 in Cfg(body)[2];
  }

  /** With the union join, the call of `foo` does not violate: the fact is true there and `foo` is NotInit. */
  lemma Foo4FooPassesUnderUnion()
    ensures BlockCheck(Foo4(), Dataflow.Union, Foo4Main(), SeenInit(Foo4(), Dataflow.Union, Foo4Main(), {MAIN}), {MAIN}, 3).None?
  {
    var p := Foo4();
    var body := Foo4Main();
    var inner := {MAIN};
    var entry := SeenInit(p, Dataflow.Union, body, inner);
    Foo4FooSeenUnderUnion();
    LeafNotInit(p, Dataflow.Union, FOO, inner);
    KnownCallPasses(p, Dataflow.Union, body, entry, inner, 3);
  }

  /** With the union join, no block of `main` violates. */
  lemma Foo4PassesUnderUnion()
    ensures ScanPassesUpTo(Foo4(), Dataflow.Union, MAIN, {}, 5)
  {
    Foo4PassesUnderUnionIn(Foo4());
  }

  lemma Foo4PassesUnderUnionIn(p: Program)
    requires p == Foo4()
    ensures ScanPassesUpTo(p, Dataflow.Union, MAIN, {}, 5)
  {
    var body := Foo4Main();
    assert p.fns[MAIN].value == body;
    var inner := {MAIN};
    assert {} + {MAIN} == inner;
    var entry := SeenInit(p, Dataflow.Union, body, inner);
    Foo4PrefixPassesIn(p, Dataflow.Union);
    Foo4FooPassesUnderUnion();
    forall i | 0 <= i < 5
      ensures BlockCheck(p, Dataflow.Union, body, entry, inner, i).None?
    {
      if i < 3 {
        assert ScanPassesUpTo(p, Dataflow.Union, MAIN, {}, 3);
      }
    }
  }

  /** With the union join, nothing is reported: the call of `foo` counts as preceded by `init`. */
  lemma Foo4UnderUnion()
    ensures CheckInit(Foo4(), Dataflow.Union, MAIN, {}) == NotInit
  {
    Foo4PassesUnderUnion();
    CheckInitAllPass(Foo4(), Dataflow.Union, MAIN, {});
  }

  lemma Foo4UnderUnionCrate()
    ensures CheckCrate(Foo4(), Dataflow.Union, Some(MAIN)) == None
  {
    Foo4UnderUnion();
  }

  // ---------------------------------------------------------------------------
  // A correct program: init, then foo

  function InitThenFooMain(): Body {
    Body([
      BasicBlock([], Call(Known(INIT), Span(2, 5), [1])),
      BasicBlock([], Call(Known(FOO), Span(3, 5), [2])),
      BasicBlock([], Return)
    ])
  }

  function InitThenFoo(): Program {
    Program(map[MAIN := Some(InitThenFooMain()), FOO := Some(Leaf()), INIT := Some(Leaf())],
            Some(INIT), Some(FOO))
  }

  /** Every path to the call of `foo` passes the call of `init` in the entry block. */
  lemma InitThenFooSeen()
    ensures Dataflow.AllPathsGen(Cfg(InitThenFooMain()), InitializerCalls(InitThenFoo(), InitThenFooMain(), {MAIN}), 1)
  {
    InitThenFooSeenOn({MAIN});
  }

  /** The same on any call stack without `init`. */
  lemma InitThenFooSeenOn(stack: set<FnId>)
    requires INIT !in stack
    ensures Dataflow.AllPathsGen(Cfg(InitThenFooMain()), InitializerCalls(InitThenFoo(), InitThenFooMain(), stack), 1)
  {
    var calls := InitializerCalls(InitThenFoo(), InitThenFooMain(), stack);
    assert calls[0];
    forall path: seq<nat> | Dataflow.IsPathTo(Cfg(InitThenFooMain()), path, 1)
      ensures Dataflow.GenOnPath(calls, path)
    {
      assert path[0] < |calls| && calls[path[0]];
    }
  }

  /** The call of `foo` in the correct program is no site the lint may report, under Intersect. */
  lemma InitThenFooNotReportable()
    ensures !ReportableSite(InitThenFoo(), Dataflow.Intersect, MAIN, 1)
  {
    var p := InitThenFoo();
    var body := InitThenFooMain();
    forall s: set<FnId> | MAIN in s && InitOff(p, s)
      ensures SeenInit(p, Dataflow.Intersect, body, s)[1]
    {
      InitThenFooSeenOn(s);
      SeenInitMeetOverPaths(p, body, s, 1);
      SeekBeforeTerminator(SeenInit(p, Dataflow.Intersect, body, s), body, 1);
    }
  }

  /** With the intersecting join, the correct program gets no diagnostic. */
  lemma InitThenFooPasses()
    ensures CheckCrate(InitThenFoo(), Dataflow.Intersect, Some(MAIN)) == None
  {
    var p := InitThenFoo();
    var body := InitThenFooMain();
    var inner := {MAIN};
    assert {} + {MAIN} == inner;
    InitThenFooSeen();
    LeafNotInit(p, Dataflow.Intersect, FOO, inner);
    assert SafeBlock(p, body, inner, 0);
    assert SafeBlock(p, body, inner, 1);
    assert SafeBlock(p, body, inner, 2);
    CorrectFunctionPasses(p, MAIN, {});
  }
  // ---------------------------------------------------------------------------
  // The fact is per body: init in the caller, foo in the callee

  function CallerInitMain(): Body {
    Body([
      BasicBlock([], Call(Known(INIT), Span(2, 5), [1])),
      BasicBlock([], Call(Known(BAR), Span(3, 5), [2])),
      BasicBlock([], Return)
    ])
  }

  function CallerInit(): Program {
    Program(map[MAIN := Some(CallerInitMain()), BAR := Some(Foo3Bar()), FOO := Some(Leaf()), INIT := Some(Leaf())],
            Some(INIT), Some(FOO))
  }

  /** In `bar` the fact starts false, though `main` called `init` before calling `bar`. */
  lemma CallerInitBarVerdict(p: Program, join: Dataflow.Join)
    requires p == CallerInit()
    ensures CheckInit(p, join, BAR, {MAIN}) == NeedsInit([Span(10, 5)])
  {
    var body := Foo3Bar();
    assert p.fns[BAR].value == body;
    var inner := {MAIN, BAR};
    assert {MAIN} + {BAR} == inner;
    Dataflow.EntryFactFalse(join, Cfg(body), Gens(p, join, body, inner, 0));
    UninitializedFooReported(p, join, BAR, {MAIN}, 0);
  }

  /** `main { init(); bar(); }` with `bar { foo(); }` is reported, whatever the join. */
  lemma CallerInitReported(join: Dataflow.Join)
    ensures CheckCrate(CallerInit(), join, Some(MAIN)) == Some([Span(10, 5), Span(3, 5)])
  {
    CallerInitReportedIn(CallerInit(), join);
  }

  /** The call of `init` in `main` does not violate. */
  lemma CallerInitInitPasses(p: Program, join: Dataflow.Join)
    requires p == CallerInit()
    ensures ScanPassesUpTo(p, join, MAIN, {}, 1)
  {
    var body := CallerInitMain();
    assert p.fns[MAIN].value == body;
    var inner := {MAIN};
    assert {} + {MAIN} == inner;
    var entry := SeenInit(p, join, body, inner);
    assert CheckInit(p, join, INIT, inner).Init?;
    KnownCallPasses(p, join, body, entry, inner, 0);
  }

  lemma CallerInitReportedIn(p: Program, join: Dataflow.Join)
    requires p == CallerInit()
    ensures CheckInit(p, join, MAIN, {}) == NeedsInit([Span(10, 5), Span(3, 5)])
  {
    var body := CallerInitMain();
    assert p.fns[MAIN].value == body;
    var inner := {MAIN};
    assert {} + {MAIN} == inner;
    CallerInitInitPasses(p, join);
    CallerInitBarVerdict(p, join);
    CalleeChainExtended(p, join, MAIN, {}, 1);
    assert [Span(10, 5)] + [Span(3, 5)] == [Span(10, 5), Span(3, 5)];
  }

  // ---------------------------------------------------------------------------
  // The fact is per body: init inside a helper, foo in the helper's caller

  function HelperInitMain(): Body {
    Body([
      BasicBlock([], Call(Known(SETUP), Span(2, 5), [1])),
      BasicBlock([], Call(Known(FOO), Span(3, 5), [2])),
      BasicBlock([], Return)
    ])
  }

  function HelperInitSetup(): Body {
    Body([
      BasicBlock([], Call(Known(INIT), Span(7, 5), [1])),
      BasicBlock([], Return)
    ])
  }

  function HelperInit(): Program {
    Program(map[MAIN := Some(HelperInitMain()), SETUP := Some(HelperInitSetup()), FOO := Some(Leaf()), INIT := Some(Leaf())],
            Some(INIT), Some(FOO))
  }

  /** A helper that calls `init` is NotInit, not Init: only `init` itself is Init. */
  lemma HelperInitSetupNotInit(p: Program, join: Dataflow.Join)
    requires p == HelperInit()
    ensures CheckInit(p, join, SETUP, {MAIN}) == NotInit
  {
    var body := HelperInitSetup();
    assert p.fns[SETUP].value == body;
    var inner := {MAIN, SETUP};
    assert {MAIN} + {SETUP} == inner;
    var entry := SeenInit(p, join, body, inner);
    assert CheckInit(p, join, INIT, inner).Init?;
    KnownCallPasses(p, join, body, entry, inner, 0);
    assert ScanPassesUpTo(p, join, SETUP, {MAIN}, 2);
    CheckInitAllPass(p, join, SETUP, {MAIN});
  }

  /** So the call of the helper does not gen, and the fact is false at `foo`. */
  lemma HelperInitFooUnseen(p: Program, join: Dataflow.Join)
    requires p == HelperInit()
    ensures !SeenInit(p, join, HelperInitMain(), {MAIN})[1]
  {
    var body := HelperInitMain();
    var inner := {MAIN};
    var cfg := Cfg(body);
    var gens := Gens(p, join, body, inner, 0);
    HelperInitSetupCallNoGen(p, join);
    assert cfg == [[1], [2], []];
    Dataflow.EntryFactFalse(join, cfg, gens);
    OnlyPredecessorNoGen(join, cfg, gens, Dataflow.Fixpoint(join, cfg, gens));
  }

  lemma HelperInitSetupCallNoGen(p: Program, join: Dataflow.Join)
    requires p == HelperInit()
    ensures |Gens(p, join, HelperInitMain(), {MAIN}, 0)| == 3
    ensures !Gens(p, join, HelperInitMain(), {MAIN}, 0)[0]
  {
    HelperInitSetupNotInit(p, join);
  }

  /** In the graph 0 -> 1 -> 2, block 1 sees only what block 0 passes on. */
  lemma OnlyPredecessorNoGen(join: Dataflow.Join, cfg: seq<seq<nat>>, gens: seq<bool>, f: seq<bool>)
    requires cfg == [[1], [2], []] && |gens| == |f| == 3
    requires Dataflow.Solution(join, cfg, gens, f)
    requires !gens[0] && !f[0]
    ensures !f[1]
  {
    assert f[1] == Dataflow.StepAt(join, cfg, gens, f, 1);
    Dataflow.StepAtEquation(join, cfg, gens, f, 1);
    assert 1 in cfg[0] && 1 !in cfg[1] && 1 !in cfg[2];
  }

  /** `main { setup(); foo(); }` with `setup { init(); }` is reported, whatever the join. */
  lemma HelperInitReported(join: Dataflow.Join)
    ensures CheckCrate(HelperInit(), join, Some(MAIN)) == Some([Span(3, 5)])
  {
    HelperInitReportedIn(HelperInit(), join);
  }

  lemma HelperInitReportedIn(p: Program, join: Dataflow.Join)
    requires p == HelperInit()
    ensures CheckInit(p, join, MAIN, {}) == NeedsInit([Span(3, 5)])
  {
    var body := HelperInitMain();
    assert p.fns[MAIN].value == body;
    var inner := {MAIN};
    assert {} + {MAIN} == inner;
    var entry := SeenInit(p, join, body, inner);
    HelperInitSetupNotInit(p, join);
    KnownCallPasses(p, join, body, entry, inner, 0);
    assert ScanPassesUpTo(p, join, MAIN, {}, 1);
    HelperInitFooUnseen(p, join);
    UninitializedFooReported(p, join, MAIN, {}, 1);
  }
}
