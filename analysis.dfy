/**
 * The init-before-foo analysis as pure functions: the call-graph walker
 * (`CheckInit`, `CheckInitInner`, the block scan) and the "seen init"
 * dataflow whose call transfer asks the walker about each callee. The two
 * halves are mutually recursive; the call stack is passed by value.
 *
 * Termination: every recursive descent goes through a function with
 * available MIR that is added to the stack, so the number of ids of the
 * program that are not on the stack (`Unvisited`) strictly decreases.
 */
module InitAnalysis {
  import opened Mir
  import Dataflow

  /** The walker's verdict on a function, seen as a callee. */
  datatype InitState =
    | Init                           // calling it establishes that `init` ran
    | NotInit                        // calling it neither establishes nor violates anything
    | NeedsInit(spans: seq<Span>)    // a violation: call chain, innermost call first

  function Unvisited(p: Program, stack: set<FnId>): nat {
    |p.fns.Keys - stack|
  }

  lemma EnterShrinks(p: Program, id: FnId, stack: set<FnId>)
    requires id in p.fns && id in stack
    ensures Unvisited(p, stack) < |p.fns.Keys - (stack - {id})|
  {
    assert p.fns.Keys - (stack - {id}) == (p.fns.Keys - stack) + {id};
  }

  /** A terminator that is a direct call of the initializer, which is not on the stack. */
  predicate CallsInitializer(p: Program, t: Terminator, stack: set<FnId>) {
    t.Call? && t.callee.Known? && p.init == Some(t.callee.id) && t.callee.id !in stack
  }

  /**
   * `check_init`: the cycle guard around `CheckInitInner`. An id already on
   * the stack yields NotInit without being analysed; otherwise it is pushed
   * for the duration of the inner analysis.
   */
  function CheckInit(p: Program, join: Dataflow.Join, id: FnId, stack: set<FnId>): (r: InitState)
    ensures r.Init? <==> p.init == Some(id) && id !in stack
    ensures id in stack ==> r == NotInit
    ensures r.NeedsInit? ==> |r.spans| >= 1
    decreases Unvisited(p, stack), 2, 0
  {
    if id in stack then NotInit
    else
      assert (stack + {id}) - {id} == stack;
      CheckInitInner(p, join, id, stack + {id})
  }

  /**
   * `check_init_inner`: the initializer is Init without looking at its body;
   * a function without MIR is NotInit; any other function is scanned block
   * by block against its "seen init" facts, and is NotInit if no block
   * violates.
   */
  function CheckInitInner(p: Program, join: Dataflow.Join, id: FnId, stack: set<FnId>): (r: InitState)
    requires id in stack
    ensures r.Init? <==> p.init == Some(id)
    ensures p.init != Some(id) && !MirAvailable(p, id) ==> r == NotInit
    ensures r.NeedsInit? ==> |r.spans| >= 1
    decreases |p.fns.Keys - (stack - {id})|, 1, 0
  {
    if p.init == Some(id) then Init
    else if !MirAvailable(p, id) then NotInit
    else
      var body := p.fns[id].value;
      EnterShrinks(p, id, stack);
      Scan(p, join, body, SeenInit(p, join, body, stack), stack, 0)
  }

  /**
   * `terminator_effect`: a direct call gens the bit when the walker, run on
   * a copy of the stack, finds the callee to be Init. Other terminators,
   * indirect calls included, never gen.
   */
  function TerminatorEffect(p: Program, join: Dataflow.Join, t: Terminator, stack: set<FnId>): (gen: bool)
    ensures gen <==> CallsInitializer(p, t, stack)
    decreases Unvisited(p, stack), 3, 0
  {
    match t
    case Call(Known(c), _, _) => CheckInit(p, join, c, stack).Init?
    case _ => false
  }

  /** The gen bit of every block from `from` on. */
  function Gens(p: Program, join: Dataflow.Join, body: Body, stack: set<FnId>, from: nat): (g: seq<bool>)
    requires from <= |body.blocks|
    ensures |g| == |body.blocks| - from
    ensures forall k | 0 <= k < |g| :: g[k] <==> CallsInitializer(p, body.blocks[from + k].terminator, stack)
    decreases Unvisited(p, stack), 3, |body.blocks| - from
  {
    if from == |body.blocks| then []
    else [TerminatorEffect(p, join, body.blocks[from].terminator, stack)] + Gens(p, join, body, stack, from + 1)
  }

  /** The `SeenInit` analysis of one body: the fact on entry to every block. */
  function SeenInit(p: Program, join: Dataflow.Join, body: Body, stack: set<FnId>): (entry: seq<bool>)
    ensures |entry| == |body.blocks|
    decreases Unvisited(p, stack), 3, |body.blocks| + 1
  {
    Dataflow.Fixpoint(join, Cfg(body), Gens(p, join, body, stack, 0))
  }

  /**
   * The facts of `SeenInit` solve the dataflow equations over the body's
   * control-flow graph, with the gen bits of its terminators.
   */
  lemma SeenInitSolves(p: Program, join: Dataflow.Join, body: Body, stack: set<FnId>)
    ensures Dataflow.Solution(join, Cfg(body), Gens(p, join, body, stack, 0), SeenInit(p, join, body, stack))
  {
    var gens := Gens(p, join, body, stack, 0);
    assert SeenInit(p, join, body, stack) == Dataflow.Fixpoint(join, Cfg(body), gens);
  }

  /** `statement_effect`: statements never change the fact. */
  function StatementEffect(fact: bool, s: Statement): (after: bool)
    ensures after == fact
  {
    fact
  }

  function ApplyStatements(fact: bool, statements: seq<Statement>): bool {
    if statements == [] then fact else ApplyStatements(StatementEffect(fact, statements[0]), statements[1..])
  }

  /** What the results cursor reports after `seek(loc)`: the block's entry fact moved over the statements before `loc`. */
  function Seek(entry: seq<bool>, body: Body, loc: Location): (fact: bool)
    requires |entry| == |body.blocks| && loc.block < |body.blocks|
    requires loc.statementIndex <= |body.blocks[loc.block].statements|
    ensures fact == entry[loc.block]
  {
    var before := body.blocks[loc.block].statements[..loc.statementIndex];
    StatementsAreIdentity(entry[loc.block], before);
    ApplyStatements(entry[loc.block], before)
  }

  /** The location of the terminator of block `b`, after all its statements. */
  function TerminatorLocation(body: Body, b: BlockId): Location
    requires b < |body.blocks|
  {
    Location(b, |body.blocks[b].statements|)
  }

  lemma {:induction false} StatementsAreIdentity(fact: bool, statements: seq<Statement>)
    ensures ApplyStatements(fact, statements) == fact
    decreases |statements|
  {
    if statements != [] {
      StatementsAreIdentity(StatementEffect(fact, statements[0]), statements[1..]);
    }
  }

  /** The fact just before a terminator is the block's entry fact. */
  lemma SeekBeforeTerminator(entry: seq<bool>, body: Body, b: BlockId)
    requires |entry| == |body.blocks| && b < |body.blocks|
    ensures Seek(entry, body, TerminatorLocation(body, b)) == entry[b]
  {
    var statements := body.blocks[b].statements;
    assert statements[..|statements|] == statements;
    StatementsAreIdentity(entry[b], statements);
  }

  /**
   * One iteration of the block loop of `check_init_inner`: the violation
   * block `b` reports, if any. An indirect call reports itself; a call of
   * `foo` where init is not yet certain reports itself; any other direct
   * call reports its callee's chain followed by its own span.
   */
  function BlockCheck(p: Program, join: Dataflow.Join, body: Body, entry: seq<bool>, stack: set<FnId>, b: BlockId): (v: Option<seq<Span>>)
    requires |entry| == |body.blocks| && b < |body.blocks|
    ensures v.Some? ==> body.blocks[b].terminator.Call?
    ensures v.Some? ==> |v.value| >= 1 && v.value[|v.value| - 1] == body.blocks[b].terminator.span
    decreases Unvisited(p, stack), 4, 0
  {
    var bb := body.blocks[b];
    match bb.terminator
    case Call(Indirect, span, _) => Some([span])
    case Call(Known(c), span, _) =>
      if !Seek(entry, body, TerminatorLocation(body, b)) && p.foo == Some(c) then Some([span])
      else (
        match CheckInit(p, join, c, stack)
        case NeedsInit(spans) => Some(spans + [span])
        case _ => None)
    case _ => None
  }

  /** The block loop of `check_init_inner` from block `from` on, in declaration order. */
  function Scan(p: Program, join: Dataflow.Join, body: Body, entry: seq<bool>, stack: set<FnId>, from: nat): (r: InitState)
    requires |entry| == |body.blocks| && from <= |body.blocks|
    ensures !r.Init?
    ensures r.NeedsInit? ==> |r.spans| >= 1
    decreases Unvisited(p, stack), 5, |body.blocks| - from
  {
    if from == |body.blocks| then NotInit
    else
      match BlockCheck(p, join, body, entry, stack, from)
      case Some(spans) => NeedsInit(spans)
      case None => Scan(p, join, body, entry, stack, from + 1)
  }

  /** `check_crate`: one walk from the entry function with an empty stack; a violation becomes one diagnostic. */
  function CheckCrate(p: Program, join: Dataflow.Join, mainFn: Option<FnId>): (diagnostic: Option<seq<Span>>)
    ensures mainFn.None? ==> diagnostic.None?
    ensures diagnostic.Some? ==> |diagnostic.value| >= 1
  {
    match mainFn
    case None => None
    case Some(m) =>
      match CheckInit(p, join, m, {})
      case NeedsInit(spans) => Some(spans)
      case _ => None
  }
}
