/**
 * A forward, gen-only dataflow analysis with one bit per program point,
 * solved by an explicit fixpoint over a control-flow graph.
 *
 * The graph is given as `cfg[b]`, the successors of block `b`; block 0 is
 * the entry. `gens[b]` says whether the terminator of block `b` gens the bit.
 * Facts are kept per block ENTRY; statements do not change the bit, so the
 * entry fact of a block is also the fact just before its terminator.
 */
module Dataflow {

  /** How the facts of several predecessors are combined where paths meet. */
  datatype Join =
    | Intersect  // must-analysis: true only if true on every incoming edge
    | Union      // may-analysis: true if true on some incoming edge

  /** The identity of the join: the value a block with no predecessors gets. */
  function Top(join: Join): bool {
    join == Intersect
  }

  function JoinTwo(join: Join, a: bool, b: bool): (r: bool)
    ensures r == Top(join) <==> a == Top(join) && b == Top(join)
  {
    match join
    case Intersect => a && b
    case Union => a || b
  }

  /** The bit on entry to the function, before any predecessor is joined in. */
  function StartBlockEffect(): (fact: bool)
    ensures !fact
    ensures forall gen: bool :: BlockTransfer(fact, gen) == gen
  {
    false
  }

  /** The effect of one block: its terminator may gen the bit; nothing kills it. */
  function BlockTransfer(entry: bool, gen: bool): (exit: bool)
    ensures entry ==> exit
    ensures gen ==> exit
    ensures exit ==> entry || gen
  {
    entry || gen
  }

  function Exits(gens: seq<bool>, entry: seq<bool>): (exits: seq<bool>)
    requires |gens| == |entry|
    ensures |exits| == |entry|
    ensures forall b | 0 <= b < |entry| :: exits[b] == BlockTransfer(entry[b], gens[b])
  {
    seq(|entry|, b requires 0 <= b < |entry| => BlockTransfer(entry[b], gens[b]))
  }

  /** The join of the exit facts of every predecessor of block `b`. */
  function JoinPreds(join: Join, cfg: seq<seq<nat>>, exits: seq<bool>, b: nat): bool
    requires |exits| == |cfg|
  {
    match join
    case Intersect => forall q | 0 <= q < |cfg| && b in cfg[q] :: exits[q]
    case Union => exists q | 0 <= q < |cfg| && b in cfg[q] :: exits[q]
  }

  /**
   * `JoinPreds` is `JoinTwo` taken over all predecessors at once: like
   * `JoinTwo`, it yields the identity `Top(join)` exactly when every fact
   * joined is `Top(join)`, and with no predecessor it yields `Top(join)`.
   */
  lemma JoinPredsTop(join: Join, cfg: seq<seq<nat>>, exits: seq<bool>, b: nat)
    requires |exits| == |cfg|
    ensures JoinPreds(join, cfg, exits, b) == Top(join) <==>
              forall q | 0 <= q < |cfg| && b in cfg[q] :: exits[q] == Top(join)
  {
  }

  /** One round of the equations for block `b`; the entry block also joins in the start fact. */
  function StepAt(join: Join, cfg: seq<seq<nat>>, gens: seq<bool>, entry: seq<bool>, b: nat): bool
    requires |cfg| == |gens| == |entry|
  {
    var joined := JoinPreds(join, cfg, Exits(gens, entry), b);
    if b == 0 then JoinTwo(join, StartBlockEffect(), joined) else joined
  }

  /**
   * The dataflow equation of block `b`: with Intersect, init is seen on entry
   * to a block other than the entry block when every predecessor has seen it
   * or calls it; with Union, when some predecessor has or does.
   */
  lemma StepAtEquation(join: Join, cfg: seq<seq<nat>>, gens: seq<bool>, entry: seq<bool>, b: nat)
    requires |cfg| == |gens| == |entry|
    ensures join == Intersect ==>
              (StepAt(join, cfg, gens, entry, b) <==>
                 b != 0 && forall q | 0 <= q < |cfg| && b in cfg[q] :: entry[q] || gens[q])
    ensures join == Union ==>
              (StepAt(join, cfg, gens, entry, b) <==>
                 exists q | 0 <= q < |cfg| && b in cfg[q] :: entry[q] || gens[q])
  {
    var ex := Exits(gens, entry);
    if join == Union && StepAt(join, cfg, gens, entry, b) {
      var q :| 0 <= q < |cfg| && b in cfg[q] && ex[q];
      assert entry[q] || gens[q];
    }
  }

  function Step(join: Join, cfg: seq<seq<nat>>, gens: seq<bool>, entry: seq<bool>): (next: seq<bool>)
    requires |cfg| == |gens| == |entry|
    ensures |next| == |entry|
    ensures forall b | 0 <= b < |entry| :: next[b] == StepAt(join, cfg, gens, entry, b)
  {
    seq(|entry|, b requires 0 <= b < |entry| => StepAt(join, cfg, gens, entry, b))
  }

  /** The entry facts the iteration starts from: the start fact at block 0, the join's identity elsewhere. */
  function Seed(join: Join, n: nat): (s: seq<bool>)
    ensures |s| == n
    ensures forall b | 0 <= b < n :: s[b] == (b != 0 && Top(join))
  {
    seq(n, b => b != 0 && Top(join))
  }

  /**
   * `x` lies below `y` in the direction the iteration moves: every block
   * where `x` still holds the join's identity holds it in `y` too. For
   * Intersect this is "x implies y" pointwise; for Union, "y implies x".
   */
  ghost predicate Below(join: Join, x: seq<bool>, y: seq<bool>) {
    |x| == |y| && forall b | 0 <= b < |x| :: x[b] == Top(join) ==> y[b] == Top(join)
  }

  /** The entry facts `x` satisfy the dataflow equations. */
  ghost predicate Solution(join: Join, cfg: seq<seq<nat>>, gens: seq<bool>, x: seq<bool>) {
    |cfg| == |gens| == |x| && Step(join, cfg, gens, x) == x
  }

  function Count(x: seq<bool>, v: bool): nat {
    if x == [] then 0 else (if x[0] == v then 1 else 0) + Count(x[1..], v)
  }

  lemma {:induction false} CountShrinks(x: seq<bool>, y: seq<bool>, v: bool)
    requires |x| == |y|
    requires forall b | 0 <= b < |y| :: y[b] == v ==> x[b] == v
    ensures Count(y, v) <= Count(x, v)
    ensures x != y ==> Count(y, v) < Count(x, v)
  {
    if x != [] {
      CountShrinks(x[1..], y[1..], v);
      if x[1..] == y[1..] && x != y {
        assert x[0] != y[0] by {
          assert x == [x[0]] + x[1..] && y == [y[0]] + y[1..];
        }
      }
    }
  }

  lemma BelowTransitive(join: Join, x: seq<bool>, y: seq<bool>, z: seq<bool>)
    requires Below(join, x, y) && Below(join, y, z)
    ensures Below(join, x, z)
  {
  }

  /** The equations are monotone in the iteration order. */
  lemma StepMonotone(join: Join, cfg: seq<seq<nat>>, gens: seq<bool>, x: seq<bool>, y: seq<bool>)
    requires |cfg| == |gens| == |x|
    requires Below(join, x, y)
    ensures Below(join, Step(join, cfg, gens, x), Step(join, cfg, gens, y))
  {
    var ex, ey := Exits(gens, x), Exits(gens, y);
    match join
    case Intersect =>
      forall b | 0 <= b < |x| && StepAt(join, cfg, gens, x, b)
        ensures StepAt(join, cfg, gens, y, b)
      {
        forall q | 0 <= q < |cfg| && b in cfg[q] ensures ey[q] {
          assert ex[q];
        }
      }
    case Union =>
      forall b | 0 <= b < |x| && StepAt(join, cfg, gens, y, b)
        ensures StepAt(join, cfg, gens, x, b)
      {
        var q :| 0 <= q < |cfg| && b in cfg[q] && ey[q];
        assert ex[q];
      }
  }

  lemma SeedStarts(join: Join, cfg: seq<seq<nat>>, gens: seq<bool>)
    requires |cfg| == |gens|
    ensures Below(join, Step(join, cfg, gens, Seed(join, |cfg|)), Seed(join, |cfg|))
  {
  }

  /**
   * Repeated rounds from `x` until nothing changes. Every round that changes
   * something moves at least one block away from the join's identity and no
   * block back, so at most `|x|` rounds change anything.
   */
  function Iterate(join: Join, cfg: seq<seq<nat>>, gens: seq<bool>, x: seq<bool>): (r: seq<bool>)
    requires |cfg| == |gens| == |x|
    requires Below(join, Step(join, cfg, gens, x), x)
    ensures Solution(join, cfg, gens, r)
    ensures Below(join, r, x)
    decreases Count(x, Top(join))
  {
    var y := Step(join, cfg, gens, x);
    if y == x then x
    else
      StepMonotone(join, cfg, gens, y, x);
      CountShrinks(x, y, Top(join));
      var r := Iterate(join, cfg, gens, y);
      BelowTransitive(join, r, y, x);
      r
  }

  /** The solution `do_dataflow` computes, as a fixpoint iteration from the seed. */
  function Fixpoint(join: Join, cfg: seq<seq<nat>>, gens: seq<bool>): (entry: seq<bool>)
    requires |cfg| == |gens|
    ensures Solution(join, cfg, gens, entry)
  {
    SeedStarts(join, cfg, gens);
    Iterate(join, cfg, gens, Seed(join, |cfg|))
  }

  lemma {:induction false} IterateAbove(join: Join, cfg: seq<seq<nat>>, gens: seq<bool>, x: seq<bool>, s: seq<bool>)
    requires |cfg| == |gens| == |x|
    requires Below(join, Step(join, cfg, gens, x), x)
    requires Below(join, s, x) && Below(join, s, Step(join, cfg, gens, s))
    ensures Below(join, s, Iterate(join, cfg, gens, x))
    decreases Count(x, Top(join))
  {
    var y := Step(join, cfg, gens, x);
    if y != x {
      StepMonotone(join, cfg, gens, s, x);
      BelowTransitive(join, s, Step(join, cfg, gens, s), y);
      StepMonotone(join, cfg, gens, y, x);
      CountShrinks(x, y, Top(join));
      IterateAbove(join, cfg, gens, y, s);
    }
  }

  /**
   * Every solution lies below the computed one: under Intersect the fixpoint
   * is the greatest solution, under Union the least.
   */
  lemma FixpointExtremal(join: Join, cfg: seq<seq<nat>>, gens: seq<bool>, s: seq<bool>)
    requires Solution(join, cfg, gens, s)
    ensures Below(join, s, Fixpoint(join, cfg, gens))
  {
    var n := |cfg|;
    if n > 0 && join == Intersect {
      assert s[0] == StepAt(join, cfg, gens, s, 0);
    }
    SeedStarts(join, cfg, gens);
    IterateAbove(join, cfg, gens, Seed(join, n), s);
  }

  /**
   * The entry block's fact is false: always with the intersecting join, and
   * with the union join when no edge leads back into the entry block.
   */
  lemma EntryFactFalse(join: Join, cfg: seq<seq<nat>>, gens: seq<bool>)
    requires |cfg| == |gens| && |cfg| > 0
    requires join == Intersect || forall q | 0 <= q < |cfg| :: 0 !in cfg[q]
    ensures !Fixpoint(join, cfg, gens)[0]
  {
    var f := Fixpoint(join, cfg, gens);
    assert f[0] == StepAt(join, cfg, gens, f, 0);
  }

  // ---------------------------------------------------------------------------
  // Meet over paths for the must-analysis

  /** `path` is a walk through the graph from the entry block to block `b`. */
  ghost predicate IsPathTo(cfg: seq<seq<nat>>, path: seq<nat>, b: nat) {
    && |path| >= 1
    && path[0] == 0
    && path[|path| - 1] == b
    && (forall i | 0 <= i < |path| :: path[i] < |cfg|)
    && (forall i | 0 <= i < |path| - 1 :: path[i + 1] in cfg[path[i]])
  }

  /** Some block of `path` before its last one gens the bit. */
  ghost predicate GenOnPath(gens: seq<bool>, path: seq<nat>) {
    exists i | 0 <= i < |path| - 1 :: path[i] < |gens| && gens[path[i]]
  }

  /** Every walk from the entry to `b` passes a genning block before reaching `b`. */
  ghost predicate AllPathsGen(cfg: seq<seq<nat>>, gens: seq<bool>, b: nat) {
    forall path | IsPathTo(cfg, path, b) :: GenOnPath(gens, path)
  }

  lemma {:induction false} MustSolutionSound(cfg: seq<seq<nat>>, gens: seq<bool>, x: seq<bool>, path: seq<nat>, b: nat)
    requires Solution(Intersect, cfg, gens, x)
    requires IsPathTo(cfg, path, b)
    ensures x[b] ==> GenOnPath(gens, path)
    decreases |path|
  {
    var n := |path|;
    assert x[b] == StepAt(Intersect, cfg, gens, x, b);
    if n > 1 && b != 0 {
      var q := path[n - 2];
      var prefix := path[..n - 1];
      assert IsPathTo(cfg, prefix, q);
      MustSolutionSound(cfg, gens, x, prefix, q);
      assert b in cfg[q];
      if x[b] {
        assert Exits(gens, x)[q];
        if gens[q] {
          assert path[n - 2] < |gens| && gens[path[n - 2]];
        } else {
          var i :| 0 <= i < |prefix| - 1 && prefix[i] < |gens| && gens[prefix[i]];
          assert path[i] == prefix[i];
        }
      }
    }
  }

  /** The meet-over-paths facts form a post-fixpoint of the must equations. */
  lemma MustPathsPostFixpoint(cfg: seq<seq<nat>>, gens: seq<bool>, m: seq<bool>)
    requires |cfg| == |gens| == |m|
    requires forall b | 0 <= b < |m| :: m[b] == AllPathsGen(cfg, gens, b)
    ensures Below(Intersect, m, Step(Intersect, cfg, gens, m))
    ensures Below(Intersect, m, Seed(Intersect, |m|))
  {
    var n := |m|;
    if n > 0 {
      assert IsPathTo(cfg, [0], 0);
      assert !GenOnPath(gens, [0]);
    }
    var ex := Exits(gens, m);
    forall b | 0 < b < n && m[b]
      ensures StepAt(Intersect, cfg, gens, m, b)
    {
      forall q | 0 <= q < n && b in cfg[q] ensures ex[q] {
        if !gens[q] {
          forall path: seq<nat> | IsPathTo(cfg, path, q) ensures GenOnPath(gens, path) {
            var longer := path + [b];
            assert IsPathTo(cfg, longer, b);
            var i :| 0 <= i < |longer| - 1 && longer[i] < |gens| && gens[longer[i]];
            assert i < |path| - 1;
            assert path[i] == longer[i];
          }
        }
      }
    }
  }

  /**
   * Under Intersect the computed entry fact of `b` is true exactly when every
   * walk from the entry block to `b` passes a genning block first.
   * Unreachable blocks are vacuously true.
   */
  lemma MustMeetOverPaths(cfg: seq<seq<nat>>, gens: seq<bool>, b: nat)
    requires |cfg| == |gens| && b < |cfg|
    ensures Fixpoint(Intersect, cfg, gens)[b] <==> AllPathsGen(cfg, gens, b)
  {
    var f := Fixpoint(Intersect, cfg, gens);
    if f[b] {
      forall path: seq<nat> | IsPathTo(cfg, path, b) ensures GenOnPath(gens, path) {
        MustSolutionSound(cfg, gens, f, path, b);
      }
    }
    var m := seq(|cfg|, k requires 0 <= k < |cfg| => AllPathsGen(cfg, gens, k));
    MustPathsPostFixpoint(cfg, gens, m);
    SeedStarts(Intersect, cfg, gens);
    IterateAbove(Intersect, cfg, gens, Seed(Intersect, |cfg|), m);
  }

  // ---------------------------------------------------------------------------
  // The fixpoint loop

  /**
   * One round: every block's entry fact is recomputed from the facts the
   * previous round left; `changed` tells whether any of them moved.
   */
  method Round(join: Join, cfg: seq<seq<nat>>, gens: seq<bool>, sets: array<bool>) returns (changed: bool)
    requires |cfg| == |gens| == sets.Length
    modifies sets
    ensures sets[..] == Step(join, cfg, gens, old(sets[..]))
    ensures changed <==> sets[..] != old(sets[..])
  {
    var n := sets.Length;
    var before := sets[..];
    changed := false;
    for b := 0 to n
      invariant forall k | 0 <= k < b :: sets[k] == StepAt(join, cfg, gens, before, k)
      invariant forall k | b <= k < n :: sets[k] == before[k]
      invariant changed <==> exists k | 0 <= k < b :: sets[k] != before[k]
    {
      var v := StepAt(join, cfg, gens, before, b);
      if v != sets[b] {
        sets[b] := v;
        changed := true;
      }
    }
    if changed {
      var k :| 0 <= k < n && sets[k] != before[k];
      assert sets[..][k] != before[k];
    }
    assert sets[..] == Step(join, cfg, gens, before);
  }

  /**
   * The iterative solver that replaces `do_dataflow`: seed the entry facts,
   * then run rounds until one changes nothing.
   */
  method DoDataflow(join: Join, cfg: seq<seq<nat>>, gens: seq<bool>) returns (entry: seq<bool>)
    requires |cfg| == |gens|
    ensures entry == Fixpoint(join, cfg, gens)
  {
    var n := |cfg|;
    var sets := new bool[n](b => b != 0 && Top(join));
    assert sets[..] == Seed(join, n);
    SeedStarts(join, cfg, gens);
    var changed := true;
    while changed
      invariant sets.Length == n
      invariant Below(join, Step(join, cfg, gens, sets[..]), sets[..])
      invariant Iterate(join, cfg, gens, sets[..]) == Fixpoint(join, cfg, gens)
      invariant !changed ==> Step(join, cfg, gens, sets[..]) == sets[..]
      decreases Count(sets[..], Top(join)), if changed then 1 else 0
    {
      ghost var before := sets[..];
      changed := Round(join, cfg, gens, sets);
      if changed {
        StepMonotone(join, cfg, gens, sets[..], before);
        CountShrinks(before, sets[..], Top(join));
      }
    }
    entry := sets[..];
  }
}
