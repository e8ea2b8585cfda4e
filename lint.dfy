/**
 * The lint's imperative form: a mutable call stack (an `FxHashSet<DefId>`)
 * that `check_init` pushes to and pops from, a block loop with early returns
 * in `check_init_inner`, and the `SeenInit` dataflow run on a copy of the
 * stack. The driver `CheckCrate` uses the intended intersecting join.
 *
 * The walker methods (`CheckInit`, `CheckInitInner`, `CheckBlock`) are
 * proved to compute what `InitAnalysis` specifies and to leave the caller's
 * stack as they found it; `TerminatorEffect`, `SeenInit` and `CheckCrate`
 * are proved equal to their functions; `CallStack.Insert` and
 * `CallStack.Remove` state the new set.
 */
module InitBeforeFoo {
  import opened Mir
  import Dataflow
  import A = InitAnalysis

  /** The set of functions currently being analysed on the walker's path. */
  class CallStack {
    var ids: set<FnId>

    constructor (ids: set<FnId>)
      ensures this.ids == ids
    {
      this.ids := ids;
    }

    /** `FxHashSet::insert`: true when `id` was not yet present. */
    method Insert(id: FnId) returns (inserted: bool)
      modifies this
      ensures inserted <==> id !in old(ids)
      ensures ids == old(ids) + {id}
    {
      inserted := id !in ids;
      ids := ids + {id};
    }

    method Remove(id: FnId)
      modifies this
      ensures ids == old(ids) - {id}
    {
      ids := ids - {id};
    }
  }

  /** `check_init`: bail out on recursion, otherwise push, analyse, pop. */
  method CheckInit(p: Program, join: Dataflow.Join, id: FnId, stack: CallStack) returns (r: A.InitState)
    modifies stack
    ensures r == A.CheckInit(p, join, id, old(stack.ids))
    ensures stack.ids == old(stack.ids)
    decreases A.Unvisited(p, stack.ids), 2, 0
  {
    var inserted := stack.Insert(id);
    if !inserted {
      return A.NotInit;
    }
    assert stack.ids - {id} == old(stack.ids);
    r := CheckInitInner(p, join, id, stack);
    stack.Remove(id);
  }

  /** `check_init_inner`: the initializer, missing MIR, then the scan of every block in order. */
  method CheckInitInner(p: Program, join: Dataflow.Join, id: FnId, stack: CallStack) returns (r: A.InitState)
    requires id in stack.ids
    modifies stack
    ensures r == A.CheckInitInner(p, join, id, old(stack.ids))
    ensures stack.ids == old(stack.ids)
    decreases |p.fns.Keys - (stack.ids - {id})|, 1, 0
  {
    if p.init == Some(id) {
      return A.Init;
    }
    if !MirAvailable(p, id) {
      return A.NotInit;
    }
    var body := p.fns[id].value;
    ghost var ids := stack.ids;
    A.EnterShrinks(p, id, ids);
    var entry := SeenInit(p, join, body, stack.ids);
    for b := 0 to |body.blocks|
      invariant stack.ids == ids
      invariant A.Scan(p, join, body, entry, ids, b) == A.Scan(p, join, body, entry, ids, 0)
    {
      var v := CheckBlock(p, join, body, entry, stack, b);
      if v.Some? {
        return A.NeedsInit(v.value);
      }
    }
    return A.NotInit;
  }

  /**
   * One iteration of the block loop of `check_init_inner`: an indirect call
   * or a call of `foo` before init is certain reports itself; any other
   * direct call reports a violation of its callee, extended by its own span.
   */
  method CheckBlock(p: Program, join: Dataflow.Join, body: Body, entry: seq<bool>, stack: CallStack, b: BlockId)
    returns (v: Option<seq<Span>>)
    requires |entry| == |body.blocks| && b < |body.blocks|
    modifies stack
    ensures v == A.BlockCheck(p, join, body, entry, old(stack.ids), b)
    ensures stack.ids == old(stack.ids)
    decreases A.Unvisited(p, stack.ids), 4, 0
  {
    v := None;
    match body.blocks[b].terminator {
      case Call(callee, span, _) =>
        match callee {
          case Indirect =>
            v := Some([span]);
          case Known(c) =>
            var seen := A.Seek(entry, body, A.TerminatorLocation(body, b));
            if !seen && p.foo == Some(c) {
              v := Some([span]);
            } else {
              var r := CheckInit(p, join, c, stack);
              if r.NeedsInit? {
                v := Some(r.spans + [span]);
              }
            }
        }
      case _ =>
    }
  }

  /** `terminator_effect`: a direct call gens when the callee, checked on a copy of the stack, is Init. */
  method TerminatorEffect(p: Program, join: Dataflow.Join, t: Terminator, callStack: set<FnId>) returns (gen: bool)
    ensures gen == A.TerminatorEffect(p, join, t, callStack)
    decreases A.Unvisited(p, callStack), 3, 0
  {
    gen := false;
    match t {
      case Call(Known(c), _, _) =>
        var copy := new CallStack(callStack);
        var v := CheckInit(p, join, c, copy);
        gen := v.Init?;
      case _ =>
    }
  }

  /** The `SeenInit` analysis: gen bits block by block, then the fixpoint. */
  method SeenInit(p: Program, join: Dataflow.Join, body: Body, callStack: set<FnId>) returns (entry: seq<bool>)
    ensures entry == A.SeenInit(p, join, body, callStack)
    decreases A.Unvisited(p, callStack), 3, |body.blocks| + 1
  {
    var gens: seq<bool> := [];
    for b := 0 to |body.blocks|
      invariant A.Gens(p, join, body, callStack, 0) == gens + A.Gens(p, join, body, callStack, b)
    {
      var g := TerminatorEffect(p, join, body.blocks[b].terminator, callStack);
      assert A.Gens(p, join, body, callStack, b) == [g] + A.Gens(p, join, body, callStack, b + 1);
      gens := gens + [g];
    }
    assert gens == A.Gens(p, join, body, callStack, 0);
    entry := Dataflow.DoDataflow(join, Cfg(body), gens);
  }

  /**
   * `check_crate` with the lint's intended must-join: walk from the entry
   * function with an empty stack; a violation becomes the diagnostic's spans.
   */
  method CheckCrate(p: Program, mainFn: Option<FnId>) returns (diagnostic: Option<seq<Span>>)
    ensures diagnostic == A.CheckCrate(p, Dataflow.Intersect, mainFn)
  {
    diagnostic := None;
    if mainFn.Some? {
      var stack := new CallStack({});
      var v := CheckInit(p, Dataflow.Intersect, mainFn.value, stack);
      if v.NeedsInit? {
        diagnostic := Some(v.spans);
      }
    }
  }
}
