/**
 * The slice of a compiled program that the init-before-foo lint reads:
 * functions identified by id, each either without available MIR or with a
 * body made of basic blocks, each ending in one terminator.
 */
module Mir {

  datatype Option<+T> = None | Some(value: T)

  /** A function's identity (a `DefId`). */
  type FnId = nat

  /** Index of a basic block inside one body; block 0 is the entry block. */
  type BlockId = nat

  /**
   * A source location. The analysis never inspects one: it only collects
   * the spans of call terminators into the reported chain.
   */
  datatype Span = Span(line: nat, column: nat)

  /** The callee of a call terminator, as resolved from the type of `func`. */
  datatype Callee =
    | Known(id: FnId)  // the function operand has a `FnDef` type
    | Indirect         // a function pointer, closure or other dynamic call

  /**
   * The terminators the lint distinguishes. `targets` of a call holds every
   * successor (the return destination and the unwind block, if any).
   */
  datatype Terminator =
    | Call(callee: Callee, span: Span, targets: seq<BlockId>)
    | Branch(targets: seq<BlockId>)
    | Goto(target: BlockId)
    | Return

  /** A statement; its contents are irrelevant to the lint. */
  datatype Statement = Statement(span: Span)

  datatype BasicBlock = BasicBlock(statements: seq<Statement>, terminator: Terminator)

  datatype Body = Body(blocks: seq<BasicBlock>)

  /**
   * The whole crate as the lint sees it. `fns[id] == None` (or `id !in fns`)
   * means `is_mir_available(id)` is false. `init` and `foo` are the functions
   * carrying the diagnostic items "init" and "foo", when present.
   */
  datatype Program = Program(fns: map<FnId, Option<Body>>, init: Option<FnId>, foo: Option<FnId>)

  /** A program point: before statement `statementIndex` of `block`. */
  datatype Location = Location(block: BlockId, statementIndex: nat)

  predicate MirAvailable(p: Program, id: FnId) {
    id in p.fns && p.fns[id].Some?
  }

  function Successors(t: Terminator): seq<BlockId> {
    match t
    case Call(_, _, targets) => targets
    case Branch(targets) => targets
    case Goto(target) => [target]
    case Return => []
  }

  /** The control-flow graph of a body: the successors of every block. */
  function Cfg(body: Body): (cfg: seq<seq<BlockId>>)
    ensures |cfg| == |body.blocks|
    ensures forall b | 0 <= b < |body.blocks| :: cfg[b] == Successors(body.blocks[b].terminator)
  {
    seq(|body.blocks|, b requires 0 <= b < |body.blocks| => Successors(body.blocks[b].terminator))
  }
}
