/** Handles into the compiler's append-only stores, constant values, and the
    instruction-block store shared by the region stack and the instance store. */
module Ids {

  /** An index into one of the semantic IR's stores, or the `Invalid`
      sentinel. Every id kind of the IR (instructions, blocks, types,
      generics, instances, bind indices) is such a handle. */
  datatype Handle = Id(index: nat) | Invalid
  {
    predicate IsValid() { Id? }
  }

  type InstId = Handle
  type InstBlockId = Handle
  type TypeId = Handle
  type TypeBlockId = Handle
  type GenericId = Handle
  type GenericInstanceId = Handle
  type FunctionId = Handle
  type ClassId = Handle
  type InterfaceId = Handle
  /** Position of a compile-time binding in its generic's binding list. */
  type CompileTimeBindIndex = Handle

  /** The integer a handle carries; the invalid sentinel carries -1. */
  function Index(h: Handle): (i: int)
    ensures i >= -1
    ensures i == -1 <==> !h.IsValid()
  {
    match h
    case Id(n) => n
    case Invalid => -1
  }

  /** Two handles are the same exactly when their integers are. */
  lemma IndexInjective(a: Handle, b: Handle)
    ensures Index(a) == Index(b) <==> a == b
  {
  }

  /** The constant value of an instruction: not known, not a constant at all,
      a concrete (template) constant, or a symbolic constant that depends on
      a compile-time binding. The constant's own instruction is carried. */
  datatype ConstantId =
    | InvalidConstant
    | NotConstant
    | Template(templateInst: InstId)
    | Symbolic(symbolicInst: InstId)
  {
    predicate IsValid() { !InvalidConstant? }
    predicate IsSymbolic() { Symbolic? }

    /** The instruction defining the constant, or `Invalid` when there is none. */
    function InstIdOf(): InstId
    {
      match this
      case Template(i) => i
      case Symbolic(i) => i
      case _ => Invalid
    }
  }

  /** What the checking code distinguishes about an instruction here: a
      reference to a compile-time binding (with the binding's index, which
      may be invalid), or anything else. */
  datatype InstKind = BindSymbolicName(bindIndex: CompileTimeBindIndex) | OtherInst

  /** A growable vector's `resize(n, fill)`: keeps the first `n` elements and
      pads with `fill` up to length `n`. */
  function Resize<T>(s: seq<T>, n: nat, fill: T): (r: seq<T>)
    ensures |r| == n
    ensures forall k :: 0 <= k < n && k < |s| ==> r[k] == s[k]
    ensures forall k :: |s| <= k < n ==> r[k] == fill
  {
    if n <= |s| then s[..n] else s + seq(n - |s|, _ => fill)
  }

  /** Storage for instruction blocks: an append-only list of blocks, each a
      sequence of instruction ids. A block's id is its position. */
  class InstBlockStore {
    var blocks: seq<seq<InstId>>

    constructor ()
      ensures blocks == []
    {
      blocks := [];
    }

    predicate Contains(id: InstBlockId)
      reads this
    {
      id.IsValid() && id.index < |blocks|
    }

    /** The block with the given id. */
    function Get(id: InstBlockId): (block: seq<InstId>)
      reads this
      requires Contains(id)
      ensures block in blocks
    {
      blocks[id.index]
    }

    /** Appends a block and returns its fresh id. */
    method Add(block: seq<InstId>) returns (id: InstBlockId)
      modifies this
      ensures blocks == old(blocks) + [block]
      ensures id == Id(|old(blocks)|) && Contains(id) && Get(id) == block
    {
      id := Id(|blocks|);
      blocks := blocks + [block];
    }
  }
}
