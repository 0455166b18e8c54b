/** Deduction of a generic callee's arguments from a call's arguments, and
    call dispatch (toolchain/check/call.cpp). The IR is read through an
    abstract view; argument conversion, return-type lookup and callee
    resolution are collaborators passed in as functions. */
module Call {
  import opened Ids
  import opened SemIR
  import opened Subst

  // ---------------------------------------------------------------------------
  // The IR as deduction reads it
  // ---------------------------------------------------------------------------

  /** Read-only view of the instruction, constant and type stores:
      each instruction's type, constant value and kind; whether a type is a
      substituted (symbolic) type and the instruction that defines a type.
      `depth` ranks instructions so that a type's instruction ranks below
      the instructions of that type: it measures the deduction worklist. */
  datatype Ir = Ir(
    typeOf: InstId -> TypeId,
    constantValue: InstId -> ConstantId,
    kindOf: InstId -> InstKind,
    isSubstituted: TypeId -> bool,
    typeInstId: TypeId -> InstId,
    depth: InstId -> nat)

  /** The instruction of a substituted type ranks below every instruction of
      that type, so following types of types always ends. */
  ghost predicate TypesBelow(ir: Ir)
  {
    forall i: InstId :: ir.isSubstituted(ir.typeOf(i)) ==> ir.depth(ir.typeInstId(ir.typeOf(i))) < ir.depth(i)
  }

  /** `constant_values().GetConstantInstId(id)`: the instruction of the
      constant value of `id`, `Invalid` when `id` is not a constant. */
  function GetConstantInstId(ir: Ir, id: InstId): InstId
  {
    ir.constantValue(id).InstIdOf()
  }

  // ---------------------------------------------------------------------------
  // The worklist
  // ---------------------------------------------------------------------------

  /** A parameter to deduce against the corresponding argument. */
  datatype PendingDeduction = PendingDeduction(param: InstId, arg: InstId)

  /** The pairs of parameters and arguments at equal positions, in order. */
  function Pairs(params: seq<InstId>, args: seq<InstId>): (pairs: seq<PendingDeduction>)
    requires |params| == |args|
    ensures |pairs| == |params|
    ensures forall k :: 0 <= k < |pairs| ==> pairs[k] == PendingDeduction(params[k], args[k])
  {
    seq(|params|, k requires 0 <= k < |params| => PendingDeduction(params[k], args[k]))
  }

  /** `DeductionWorklist`: the pending deductions and whether deduction has
      failed. */
  class DeductionWorklist {
    var deductions: seq<PendingDeduction>
    var failed: bool

    constructor ()
      ensures deductions == [] && !failed
    {
      deductions := [];
      failed := false;
    }

    method Add(param: InstId, arg: InstId)
      modifies this
      ensures deductions == old(deductions) + [PendingDeduction(param, arg)]
      ensures failed == old(failed)
    {
      deductions := deductions + [PendingDeduction(param, arg)];
    }

    /** Adds one pending deduction per position; a block of parameters and
        a block of arguments of different lengths fail the deduction and add
        nothing. */
    method AddBlock(params: seq<InstId>, args: seq<InstId>)
      modifies this
      ensures failed == (old(failed) || |params| != |args|)
      ensures |params| != |args| ==> deductions == old(deductions)
      ensures |params| == |args| ==> deductions == old(deductions) + Pairs(params, args)
    {
      if |params| != |args| {
        failed := true;
        return;
      }
      var k := 0;
      while k < |params|
        invariant 0 <= k <= |params|
        invariant failed == old(failed)
        invariant deductions == old(deductions) + Pairs(params[..k], args[..k])
      {
        Add(params[k], args[k]);
        k := k + 1;
      }
      assert params[..k] == params && args[..k] == args;
    }
  }

  // ---------------------------------------------------------------------------
  // Deduction, as a function of the worklist and the results
  // ---------------------------------------------------------------------------

  /** The worklist's measure: each entry weighs one more than its
      parameter's depth. */
  function Weight(ir: Ir, worklist: seq<PendingDeduction>): nat
  {
    if worklist == [] then 0
    else Weight(ir, worklist[..|worklist| - 1]) + ir.depth(worklist[|worklist| - 1].param) + 1
  }

  lemma WeightOfPush(ir: Ir, rest: seq<PendingDeduction>, p: PendingDeduction)
    ensures Weight(ir, rest + [p]) == Weight(ir, rest) + ir.depth(p.param) + 1
  {
    assert (rest + [p])[..|rest|] == rest;
  }

  /** The worklist after the entry `p` was popped off `rest + [p]`: when the
      parameter's type is substituted, the pair of the parameter's type and
      the argument's type is pushed. Either way the worklist weighs less. */
  function Expand(ir: Ir, rest: seq<PendingDeduction>, p: PendingDeduction): (worklist: seq<PendingDeduction>)
    ensures |worklist| == |rest| + (if ir.isSubstituted(ir.typeOf(p.param)) then 1 else 0)
    ensures worklist[..|rest|] == rest
    ensures ir.isSubstituted(ir.typeOf(p.param)) ==>
      worklist[|rest|] == PendingDeduction(ir.typeInstId(ir.typeOf(p.param)), ir.typeInstId(ir.typeOf(p.arg)))
    ensures TypesBelow(ir) ==> Weight(ir, worklist) < Weight(ir, rest + [p])
  {
    WeightOfPush(ir, rest, p);
    if ir.isSubstituted(ir.typeOf(p.param)) then
      var q := PendingDeduction(ir.typeInstId(ir.typeOf(p.param)), ir.typeInstId(ir.typeOf(p.arg)));
      WeightOfPush(ir, rest, q);
      rest + [q]
    else rest
  }

  /** The outcome of deduction: the filled-in results, or `Aborted` when a
      binding index past the results is deduced (a fatal check). */
  datatype Deduction = Completed(results: seq<InstId>) | Aborted

  /** The binding a parameter refers to once `table` is substituted into
      its constant: `Invalid` when the parameter's constant is not symbolic,
      stops being symbolic, or is not a reference to a binding. */
  function DeducedBinding(ir: Ir, subst: SubstConstantFn, table: Substitutions, param: InstId): CompileTimeBindIndex
  {
    var paramConst := ir.constantValue(param);
    if !paramConst.IsValid() || !paramConst.IsSymbolic() then Invalid
    else
      var substituted := subst(paramConst, table);
      if !substituted.IsValid() || !substituted.IsSymbolic() then Invalid
      else
        match ir.kindOf(substituted.InstIdOf())
        case BindSymbolicName(index) => index
        case OtherInst => Invalid
  }

  /** What one pending deduction writes into the results, using `table` to
      substitute the enclosing instance's arguments: only a parameter whose
      constant is still a reference to a binding at or after `first` after
      the substitution is deduced, and only from an argument that has a
      constant value. */
  function Record(ir: Ir, subst: SubstConstantFn, table: Substitutions, first: nat,
                  results: seq<InstId>, p: PendingDeduction): (d: Deduction)
    ensures !(ir.constantValue(p.param).IsValid() && ir.constantValue(p.param).IsSymbolic()) ==>
      d == Completed(results)
    ensures ir.constantValue(p.param).IsValid() && ir.constantValue(p.param).IsSymbolic() &&
            !(subst(ir.constantValue(p.param), table).IsValid() && subst(ir.constantValue(p.param), table).IsSymbolic()) ==>
      d == Completed(results)
    // The fatal check: a binding index at or after `first` must be within the results.
    ensures d.Aborted? <==>
      var i := DeducedBinding(ir, subst, table, p.param); i.IsValid() && i.index >= first && i.index >= |results|
    // The recording step: a binding in range takes the argument's constant, when it has one.
    ensures var i := DeducedBinding(ir, subst, table, p.param);
      i.IsValid() && first <= i.index < |results| ==>
        d == Completed(if GetConstantInstId(ir, p.arg).IsValid() then results[i.index := GetConstantInstId(ir, p.arg)]
                       else results)
    // Anything else records nothing.
    ensures var i := DeducedBinding(ir, subst, table, p.param);
      !(i.IsValid() && i.index >= first) ==> d == Completed(results)
    ensures d.Completed? ==> |d.results| == |results|
    ensures d.Completed? ==> forall k :: 0 <= k < |results| ==>
      d.results[k] == results[k] ||
      (first <= k && d.results[k] == GetConstantInstId(ir, p.arg) && d.results[k].IsValid())
  {
    var paramConst := ir.constantValue(p.param);
    if !paramConst.IsValid() || !paramConst.IsSymbolic() then Completed(results)
    else
      var substituted := subst(paramConst, table);
      if !substituted.IsValid() || !substituted.IsSymbolic() then Completed(results)
      else
        match ir.kindOf(substituted.InstIdOf())
        case BindSymbolicName(index) =>
          if index.IsValid() && index.index >= first then
            if index.index >= |results| then Aborted
            else
              var argConstInstId := GetConstantInstId(ir, p.arg);
              if argConstInstId.IsValid() then Completed(results[index.index := argConstInstId])
              else Completed(results)
          else Completed(results)
        case OtherInst => Completed(results)
  }

  /** Runs the worklist to the end, last entry first. The substitution table
      is the first `first` results, as in the source, where it is a view of
      the results array. The enclosing instance's arguments (the first
      `first` results) are never overwritten, the number of results never
      changes, and every result that changes becomes a valid instruction. */
  function Deduce(ir: Ir, subst: SubstConstantFn, first: nat,
                  worklist: seq<PendingDeduction>, results: seq<InstId>): (d: Deduction)
    requires TypesBelow(ir)
    requires first <= |results|
    ensures d.Completed? ==> |d.results| == |results|
    ensures d.Completed? ==> d.results[..first] == results[..first]
    ensures d.Completed? ==> forall k :: first <= k < |results| ==>
      d.results[k] == results[k] || d.results[k].IsValid()
    decreases Weight(ir, worklist)
  {
    if worklist == [] then Completed(results)
    else
      var p := worklist[|worklist| - 1];
      var rest := worklist[..|worklist| - 1];
      assert worklist == rest + [p];
      match Record(ir, subst, results[..first], first, results, p)
      case Aborted => Aborted
      case Completed(next) =>
        assert next[..first] == results[..first];
        Deduce(ir, subst, first, Expand(ir, rest, p), next)
  }

  /** Deduction with a fixed substitution table. */
  function DeduceWith(ir: Ir, subst: SubstConstantFn, table: Substitutions, first: nat,
                      worklist: seq<PendingDeduction>, results: seq<InstId>): Deduction
    requires TypesBelow(ir)
    decreases Weight(ir, worklist)
  {
    if worklist == [] then Completed(results)
    else
      var p := worklist[|worklist| - 1];
      var rest := worklist[..|worklist| - 1];
      assert worklist == rest + [p];
      match Record(ir, subst, table, first, results, p)
      case Aborted => Aborted
      case Completed(next) => DeduceWith(ir, subst, table, first, Expand(ir, rest, p), next)
  }

  /** The table deduction substitutes with is, throughout the run, exactly
      the results' prefix it started with: the enclosing instance's
      arguments. */
  lemma {:induction false} DeduceUsesOuterPrefix(ir: Ir, subst: SubstConstantFn, first: nat,
                                                 worklist: seq<PendingDeduction>, results: seq<InstId>)
    requires TypesBelow(ir)
    requires first <= |results|
    ensures Deduce(ir, subst, first, worklist, results) ==
            DeduceWith(ir, subst, results[..first], first, worklist, results)
    decreases Weight(ir, worklist)
  {
    if worklist != [] {
      var p := worklist[|worklist| - 1];
      var rest := worklist[..|worklist| - 1];
      assert worklist == rest + [p];
      match Record(ir, subst, results[..first], first, results, p)
      case Aborted =>
      case Completed(next) =>
        assert next[..first] == results[..first];
        DeduceUsesOuterPrefix(ir, subst, first, Expand(ir, rest, p), next);
    }
  }

  /** Entry `k` of the worklist is a parameter that is itself a reference to
      binding `indices[k]` (at or after `first`, within the results) and
      whose type is not substituted. */
  ghost predicate DirectBindings(ir: Ir, first: nat, worklist: seq<PendingDeduction>,
                                 indices: seq<nat>, results: seq<InstId>)
  {
    && |indices| == |worklist|
    && (forall k :: 0 <= k < |worklist| ==>
          && ir.constantValue(worklist[k].param).IsSymbolic()
          && ir.kindOf(ir.constantValue(worklist[k].param).InstIdOf()) == BindSymbolicName(Id(indices[k]))
          && first <= indices[k] < |results|
          && !ir.isSubstituted(ir.typeOf(worklist[k].param)))
    && (forall j, k :: 0 <= j < k < |indices| ==> indices[j] != indices[k])
  }

  /** When every pending parameter is a direct reference to its own binding
      after the enclosing instance's, and `SubstConstant` keeps to its
      documented contract, deduction gives each of those bindings its
      argument's constant (when the argument has one) and leaves every
      other result as it was. */
  lemma {:induction false} DeduceDirectBindings(ir: Ir, subst: SubstConstantFn, first: nat,
                                                worklist: seq<PendingDeduction>, indices: seq<nat>,
                                                results: seq<InstId>)
    requires TypesBelow(ir) && ReplacesBindings(subst, ir.kindOf)
    requires first <= |results|
    requires DirectBindings(ir, first, worklist, indices, results)
    ensures Deduce(ir, subst, first, worklist, results).Completed?
    ensures forall k :: 0 <= k < |worklist| ==>
      Deduce(ir, subst, first, worklist, results).results[indices[k]] ==
        if GetConstantInstId(ir, worklist[k].arg).IsValid() then GetConstantInstId(ir, worklist[k].arg)
        else results[indices[k]]
    ensures forall j :: 0 <= j < |results| && j !in indices ==>
      Deduce(ir, subst, first, worklist, results).results[j] == results[j]
    decreases |worklist|
  {
    if worklist != [] {
      var n := |worklist| - 1;
      var p, rest := worklist[n], worklist[..n];
      var i := indices[n];
      var table := results[..first];
      assert worklist == rest + [p];
      var c := ir.constantValue(p.param);
      assert !Substitutes(table, i);
      assert subst(c, table) == c;
      assert DeducedBinding(ir, subst, table, p.param) == Id(i);
      var v := GetConstantInstId(ir, p.arg);
      var next := if v.IsValid() then results[i := v] else results;
      assert Record(ir, subst, table, first, results, p) == Completed(next);
      assert Expand(ir, rest, p) == rest;
      DeduceOfPop(ir, subst, first, rest, p, results);
      assert DirectBindings(ir, first, rest, indices[..n], next);
      DeduceDirectBindings(ir, subst, first, rest, indices[..n], next);
      var r := Deduce(ir, subst, first, worklist, results).results;
      assert i !in indices[..n];
      forall k | 0 <= k < |worklist|
        ensures r[indices[k]] == if GetConstantInstId(ir, worklist[k].arg).IsValid() then GetConstantInstId(ir, worklist[k].arg)
                                 else results[indices[k]]
      {
        if k < n {
          assert indices[k] == indices[..n][k] && indices[k] != i;
        }
      }
      forall j | 0 <= j < |results| && j !in indices
        ensures r[j] == results[j]
      {
        assert j !in indices[..n] && j != i;
      }
    }
  }

  /** For a one-binding generic `F(x: T)` called with an argument whose type
      is a concrete type, when `SubstConstant` keeps to its documented
      contract, deduction yields the tuple holding that type's
      instruction. */
  lemma {:induction false} DeduceFromParameterType(ir: Ir, subst: SubstConstantFn,
                                                   x: InstId, arg: InstId, t: InstId)
    requires TypesBelow(ir) && ReplacesBindings(subst, ir.kindOf)
    // `x` is a runtime parameter whose type is the substituted type `T`.
    requires !ir.constantValue(x).IsSymbolic()
    requires ir.isSubstituted(ir.typeOf(x))
    // `T` is defined by a reference to binding 0, a symbolic constant.
    requires ir.constantValue(t).IsSymbolic() && ir.constantValue(t).InstIdOf() == t
    requires ir.typeInstId(ir.typeOf(x)) == t && ir.kindOf(t) == BindSymbolicName(Id(0))
    requires !ir.isSubstituted(ir.typeOf(t))
    // The argument's type is concrete: defined by a template constant.
    requires ir.constantValue(ir.typeInstId(ir.typeOf(arg))).Template?
    requires ir.constantValue(ir.typeInstId(ir.typeOf(arg))).templateInst.IsValid()
    ensures Deduce(ir, subst, 0, [PendingDeduction(x, arg)], [Invalid]) ==
            Completed([ir.constantValue(ir.typeInstId(ir.typeOf(arg))).templateInst])
  {
    var argType := ir.typeInstId(ir.typeOf(arg));
    var q := PendingDeduction(t, argType);
    assert Record(ir, subst, [], 0, [Invalid], PendingDeduction(x, arg)) == Completed([Invalid]);
    assert Expand(ir, [], PendingDeduction(x, arg)) == [q];
    assert subst(ir.constantValue(t), []) == ir.constantValue(t);
    var v := ir.constantValue(argType).templateInst;
    assert Record(ir, subst, [], 0, [Invalid], q) == Completed([v]);
    assert Expand(ir, [], q) == [];
    assert Deduce(ir, subst, 0, [q], [Invalid]) == Deduce(ir, subst, 0, [], [v]);
  }

  /** Deduction of a worklist ending in `p`: record `p` against the
      results, then deduce the rest, expanded by `p`'s type. */
  lemma DeduceOfPop(ir: Ir, subst: SubstConstantFn, first: nat,
                    rest: seq<PendingDeduction>, p: PendingDeduction, results: seq<InstId>)
    requires TypesBelow(ir)
    requires first <= |results|
    ensures Deduce(ir, subst, first, rest + [p], results) ==
      match Record(ir, subst, results[..first], first, results, p)
      case Aborted => Aborted
      case Completed(next) => Deduce(ir, subst, first, Expand(ir, rest, p), next)
  {
    assert (rest + [p])[..|rest|] == rest;
  }

  /** The body of the deduction loop for one pending deduction: what
      `Record` says it writes into the results. */
  method DeduceOne(ir: Ir, subst: SubstConstantFn, first: nat, results: seq<InstId>,
                   pending: PendingDeduction) returns (next: seq<InstId>)
    requires first <= |results|
    requires Record(ir, subst, results[..first], first, results, pending).Completed?
    ensures Record(ir, subst, results[..first], first, results, pending) == Completed(next)
  {
    next := results;
    // If the parameter is a symbolic constant, deduce against it.
    var paramConstId := ir.constantValue(pending.param);
    if !paramConstId.IsValid() || !paramConstId.IsSymbolic() {
      return;
    }

    // Substitute in any parameters from an enclosing context.
    paramConstId := subst(paramConstId, results[..first]);
    if !paramConstId.IsValid() || !paramConstId.IsSymbolic() {
      return;
    }

    match ir.kindOf(paramConstId.InstIdOf()) {
      case BindSymbolicName(index) =>
        if index.IsValid() && index.index >= first {
          var argConstInstId := GetConstantInstId(ir, pending.arg);
          if argConstInstId.IsValid() {
            // Deducing a binding twice is not checked for consistency.
            next := results[index.index := argConstInstId];
          }
        }
      case OtherInst =>
    }
  }

  /** The deduction loop: pops pending deductions, last first, until none
      is left, pushing the pair of types of each parameter with a
      substituted type and recording what each one deduces. */
  method RunDeductions(worklist: DeductionWorklist, ir: Ir, subst: SubstConstantFn,
                       first: nat, results: seq<InstId>) returns (deduced: seq<InstId>)
    requires TypesBelow(ir)
    requires first <= |results|
    requires !worklist.failed
    requires Deduce(ir, subst, first, worklist.deductions, results).Completed?
    modifies worklist
    ensures !worklist.failed && worklist.deductions == []
    ensures Deduce(ir, subst, first, old(worklist.deductions), results) == Completed(deduced)
  {
    deduced := results;
    while worklist.deductions != [] && !worklist.failed
      invariant first <= |deduced| && !worklist.failed
      invariant Deduce(ir, subst, first, worklist.deductions, deduced) ==
                Deduce(ir, subst, first, old(worklist.deductions), results)
      decreases Weight(ir, worklist.deductions)
    {
      var pending := worklist.deductions[|worklist.deductions| - 1];
      worklist.deductions := worklist.deductions[..|worklist.deductions| - 1];
      DeduceOfPop(ir, subst, first, worklist.deductions, pending, deduced);

      // If the parameter has a symbolic type, deduce against that.
      var paramTypeId := ir.typeOf(pending.param);
      if ir.isSubstituted(paramTypeId) {
        worklist.Add(ir.typeInstId(paramTypeId), ir.typeInstId(ir.typeOf(pending.arg)));
      }
      deduced := DeduceOne(ir, subst, first, deduced, pending);
    }
  }

  // ---------------------------------------------------------------------------
  // The checking context
  // ---------------------------------------------------------------------------

  /** Instructions a call adds. The builtin error instruction is the first
      instruction of every file. */
  datatype Inst =
    | BuiltinErrorInst
    | Call(typeId: TypeId, calleeId: InstId, argsId: InstBlockId)
    | TemporaryStorage(storageTypeId: TypeId)

  /** `InstId::BuiltinError`. */
  const BuiltinError: InstId := Id(0)
  /** `TypeId::TypeType`, the type of types. */
  const TypeType: TypeId := Id(0)
  /** `TypeId::Error`. */
  const ErrorType: TypeId := Id(1)

  /** Diagnostics emitted here. */
  datatype Diagnostic = CallToNonCallable(calleeTypeId: TypeId)

  /** A function's return slot category. */
  datatype ReturnSlot = Present | Absent | Error | NotComputed

  /** The parts of a function the call reads. `declaredReturnType` gives
      the declared return type within an instance (`Invalid` when the
      function declares none). */
  datatype Function = Function(
    genericId: GenericId,
    declId: InstId,
    implicitParamRefsId: InstBlockId,
    paramRefsId: InstBlockId,
    returnSlot: ReturnSlot,
    declaredReturnType: GenericInstanceId -> TypeId)

  /** The parts of a generic class or interface a call reads. */
  datatype EntityParams = EntityParams(declId: InstId, implicitParamRefsId: InstBlockId, paramRefsId: InstBlockId)

  /** `GetCalleeFunction`'s answer: the function called (or `Invalid`), the
      enclosing instance and `self` it is called with, and whether the
      callee is an error. */
  datatype CalleeFunction = CalleeFunction(
    functionId: FunctionId, instanceId: GenericInstanceId, selfId: InstId, isError: bool)

  /** The kind of a callee's type when it is not a function. */
  datatype TypeInst = GenericClassType(classId: ClassId) | GenericInterfaceType(interfaceId: InterfaceId) | OtherTypeInst

  /** `ConvertCallArgs(self, args, return storage, decl, implicit params,
      params)`: the converted argument block. */
  type ConvertCallArgsFn = (InstId, seq<InstId>, InstId, InstId, InstBlockId, InstBlockId) -> InstBlockId

  /** The read-only stores and the collaborators a call uses. */
  datatype SemIRView = SemIRView(
    ir: Ir,
    substConstant: SubstConstantFn,
    generics: GenericId -> Generic,
    functions: FunctionId -> Function,
    classes: ClassId -> EntityParams,
    interfaces: InterfaceId -> EntityParams,
    typeAsInst: TypeId -> TypeInst,
    calleeFunction: InstId -> CalleeFunction,
    emptyTupleType: TypeId,
    convertCallArgs: ConvertCallArgsFn)

  /** The mutable part of the checking context a call touches: the
      instruction arena, the diagnostics emitted, and the instance store
      (whose block store is the file's instruction-block store). */
  class Context {
    var insts: seq<Inst>
    var diagnostics: seq<Diagnostic>
    const genericInstances: GenericInstanceStore

    /** The builtin error instruction comes first. */
    ghost predicate Valid()
      reads this
    {
      |insts| > 0 && insts[0] == BuiltinErrorInst
    }

    constructor (genericInstances: GenericInstanceStore)
      ensures Valid()
      ensures this.genericInstances == genericInstances
      ensures insts == [BuiltinErrorInst] && diagnostics == []
    {
      insts := [BuiltinErrorInst];
      diagnostics := [];
      this.genericInstances := genericInstances;
    }

    /** Appends an instruction and returns its id. */
    method AddInst(inst: Inst) returns (id: InstId)
      requires Valid()
      modifies this
      ensures Valid()
      ensures insts == old(insts) + [inst] && id == Id(|old(insts)|)
      ensures diagnostics == old(diagnostics)
    {
      id := Id(|insts|);
      insts := insts + [inst];
    }

    /** Emits a diagnostic. */
    method Emit(diagnostic: Diagnostic)
      requires Valid()
      modifies this
      ensures Valid()
      ensures diagnostics == old(diagnostics) + [diagnostic] && insts == old(insts)
    {
      diagnostics := diagnostics + [diagnostic];
    }
  }

  // ---------------------------------------------------------------------------
  // Deduction against the stores
  // ---------------------------------------------------------------------------

  /** The arguments of the enclosing instance (none when it is `Invalid`). */
  ghost function OuterArgs(store: GenericInstanceStore, instanceId: GenericInstanceId): (args: seq<InstId>)
    reads store, store.instBlockStore
    requires store.Valid()
    requires instanceId.IsValid() ==> store.Contains(instanceId)
    ensures instanceId.IsValid() ==>
      args == store.instBlockStore.blocks[store.genericInstances[instanceId.index].argsId.index]
    ensures !instanceId.IsValid() ==> args == []
  {
    if instanceId.IsValid() then store.Args(instanceId) else []
  }

  /** What deduction needs from the stores: the parameter and binding blocks
      exist, so does the enclosing instance, its arguments do not outnumber
      the generic's bindings, and no deduced binding lies past them. */
  ghost predicate DeductionChecks(context: Context, view: SemIRView, genericId: GenericId,
                                  instanceId: GenericInstanceId, paramsId: InstBlockId, argIds: seq<InstId>)
    reads context, context.genericInstances, context.genericInstances.instBlockStore
  {
    var store := context.genericInstances;
    var blocks := store.instBlockStore;
    && store.Valid()
    && TypesBelow(view.ir)
    && blocks.Contains(paramsId)
    && blocks.Contains(view.generics(genericId).bindingsId)
    && (instanceId.IsValid() ==> store.Contains(instanceId))
    && |OuterArgs(store, instanceId)| <= |blocks.Get(view.generics(genericId).bindingsId)|
    && (|blocks.Get(paramsId)| == |argIds| ==>
          DeductionOf(context, view, genericId, instanceId, paramsId, argIds).Completed?)
  }

  /** The deduction a call performs: the explicit parameters against the
      arguments, starting from the enclosing instance's arguments padded
      with `Invalid` to one result per binding. */
  ghost function DeductionOf(context: Context, view: SemIRView, genericId: GenericId,
                             instanceId: GenericInstanceId, paramsId: InstBlockId, argIds: seq<InstId>): (d: Deduction)
    reads context, context.genericInstances, context.genericInstances.instBlockStore
    requires context.genericInstances.Valid() && TypesBelow(view.ir)
    requires context.genericInstances.instBlockStore.Contains(paramsId)
    requires context.genericInstances.instBlockStore.Contains(view.generics(genericId).bindingsId)
    requires instanceId.IsValid() ==> context.genericInstances.Contains(instanceId)
    requires |OuterArgs(context.genericInstances, instanceId)| <= |context.genericInstances.instBlockStore.Get(view.generics(genericId).bindingsId)|
    requires |context.genericInstances.instBlockStore.Get(paramsId)| == |argIds|
    // One result per binding, the first ones the enclosing instance's arguments.
    ensures d.Completed? ==>
      |d.results| == |context.genericInstances.instBlockStore.Get(view.generics(genericId).bindingsId)| &&
      d.results[..|OuterArgs(context.genericInstances, instanceId)|] == OuterArgs(context.genericInstances, instanceId)
  {
    var blocks := context.genericInstances.instBlockStore;
    var outer := OuterArgs(context.genericInstances, instanceId);
    var initial := Resize(outer, |blocks.Get(view.generics(genericId).bindingsId)|, Invalid);
    assert initial[..|outer|] == outer;
    Deduce(view.ir, view.substConstant, |outer|,
           Pairs(blocks.Get(paramsId), argIds), initial)
  }

  /** `DeduceGenericCallArguments`: deduces the callee's arguments and gets
      or creates the instance. Deduction fails, returning `Invalid` and
      creating nothing, exactly when the numbers of explicit parameters and
      arguments differ. */
  method DeduceGenericCallArguments(context: Context, view: SemIRView, genericId: GenericId,
                                    instanceId: GenericInstanceId, paramsId: InstBlockId,
                                    argIds: seq<InstId>)
    returns (deduced: GenericInstanceId)
    requires DeductionChecks(context, view, genericId, instanceId, paramsId, argIds)
    modifies context.genericInstances, context.genericInstances.instBlockStore
    ensures context.genericInstances.Valid()
    ensures !deduced.IsValid() <==> |old(context.genericInstances.instBlockStore.Get(paramsId))| != |argIds|
    ensures !deduced.IsValid() ==>
      context.genericInstances.genericInstances == old(context.genericInstances.genericInstances) &&
      context.genericInstances.lookupTable == old(context.genericInstances.lookupTable) &&
      context.genericInstances.instBlockStore.blocks == old(context.genericInstances.instBlockStore.blocks)
    ensures deduced.IsValid() ==>
      context.genericInstances.Contains(deduced) &&
      context.genericInstances.Get(deduced).genericId == genericId &&
      context.genericInstances.Args(deduced) == old(DeductionOf(context, view, genericId, instanceId, paramsId, argIds)).results
  {
    var store := context.genericInstances;
    var ir := view.ir;
    var worklist := new DeductionWorklist();
    var params := store.instBlockStore.Get(paramsId);
    worklist.AddBlock(params, argIds);

    // Copy any outer generic arguments from the specified instance.
    var results: seq<InstId> := [];
    if instanceId.IsValid() {
      results := store.instBlockStore.Get(store.Get(instanceId).argsId);
    }
    var first := |results|;
    results := Resize(results, |store.instBlockStore.Get(view.generics(genericId).bindingsId)|, Invalid);

    if !worklist.failed {
      assert worklist.deductions == Pairs(params, argIds);
      assert first == |OuterArgs(store, instanceId)|;
      assert results == Resize(OuterArgs(store, instanceId), |store.instBlockStore.Get(view.generics(genericId).bindingsId)|, Invalid);
      results := RunDeductions(worklist, ir, view.substConstant, first, results);
    }

    if worklist.failed {
      return Invalid;
    }

    // Deduction does not check that every binding was deduced.
    deduced := store.GetOrAdd(genericId, results);
  }

  // ---------------------------------------------------------------------------
  // Calls
  // ---------------------------------------------------------------------------

  /** A call to a generic class, such as `Vector(i32)`: the arguments are
      converted against the class's parameters, with no `self` and no return
      storage, and the call's type is the type of types. */
  method PerformCallToGenericClass(context: Context, view: SemIRView, calleeId: InstId,
                                   classId: ClassId, argIds: seq<InstId>)
    returns (callId: InstId)
    requires context.Valid()
    modifies context
    ensures context.Valid()
    ensures callId == Id(|old(context.insts)|) && callId != BuiltinError
    ensures context.insts == old(context.insts) +
      [Call(TypeType, calleeId, view.convertCallArgs(Invalid, argIds, Invalid, view.classes(classId).declId,
                                                     view.classes(classId).implicitParamRefsId,
                                                     view.classes(classId).paramRefsId))]
    ensures context.diagnostics == old(context.diagnostics)
  {
    var classInfo := view.classes(classId);
    var convertedArgsId := view.convertCallArgs(Invalid, argIds, Invalid, classInfo.declId,
                                                classInfo.implicitParamRefsId, classInfo.paramRefsId);
    callId := context.AddInst(Call(TypeType, calleeId, convertedArgsId));
  }

  /** A call to a generic interface, such as `AddWith(i32)`, handled as a
      call to a generic class is. */
  method PerformCallToGenericInterface(context: Context, view: SemIRView, calleeId: InstId,
                                       interfaceId: InterfaceId, argIds: seq<InstId>)
    returns (callId: InstId)
    requires context.Valid()
    modifies context
    ensures context.Valid()
    ensures callId == Id(|old(context.insts)|) && callId != BuiltinError
    ensures context.insts == old(context.insts) +
      [Call(TypeType, calleeId, view.convertCallArgs(Invalid, argIds, Invalid, view.interfaces(interfaceId).declId,
                                                     view.interfaces(interfaceId).implicitParamRefsId,
                                                     view.interfaces(interfaceId).paramRefsId))]
    ensures context.diagnostics == old(context.diagnostics)
  {
    var interfaceInfo := view.interfaces(interfaceId);
    var convertedArgsId := view.convertCallArgs(Invalid, argIds, Invalid, interfaceInfo.declId,
                                                interfaceInfo.implicitParamRefsId, interfaceInfo.paramRefsId);
    callId := context.AddInst(Call(TypeType, calleeId, convertedArgsId));
  }

  /** The type of a call to `callable` in `instanceId`: the error type when
      the return slot is in error, otherwise the declared return type, or
      the empty tuple type when none is declared. */
  function CallType(view: SemIRView, callable: Function, instanceId: GenericInstanceId): (t: TypeId)
    ensures callable.returnSlot.Error? ==> t == ErrorType
    ensures !callable.returnSlot.Error? && callable.declaredReturnType(instanceId).IsValid() ==>
      t == callable.declaredReturnType(instanceId)
    ensures !callable.returnSlot.Error? && !callable.declaredReturnType(instanceId).IsValid() ==>
      t == view.emptyTupleType
    ensures view.emptyTupleType.IsValid() ==> t.IsValid()
  {
    if callable.returnSlot.Error? then ErrorType
    else if callable.declaredReturnType(instanceId).IsValid() then callable.declaredReturnType(instanceId)
    else view.emptyTupleType
  }

  /** The instructions a call to the function `callee` adds after `count`
      existing ones: storage for the result, of the call's type, when the
      function has a return slot, then the call itself, whose arguments are
      converted with that storage as the return slot argument. */
  function FunctionCallInsts(view: SemIRView, calleeId: InstId, callee: CalleeFunction,
                             instanceId: GenericInstanceId, argIds: seq<InstId>, count: nat): seq<Inst>
  {
    var callable := view.functions(callee.functionId);
    var t := CallType(view, callable, instanceId);
    if callable.returnSlot.Present? then
      [TemporaryStorage(t),
       Call(t, calleeId, view.convertCallArgs(callee.selfId, argIds, Id(count), callable.declId,
                                              callable.implicitParamRefsId, callable.paramRefsId))]
    else
      [Call(t, calleeId, view.convertCallArgs(callee.selfId, argIds, Invalid, callable.declId,
                                              callable.implicitParamRefsId, callable.paramRefsId))]
  }

  /** The instructions a call to a generic class or interface adds: the
      call, of the type of types, with its arguments converted with no
      `self` and no return slot. */
  function TypeCallInsts(view: SemIRView, calleeId: InstId, info: EntityParams, argIds: seq<InstId>): seq<Inst>
  {
    [Call(TypeType, calleeId, view.convertCallArgs(Invalid, argIds, Invalid, info.declId,
                                                   info.implicitParamRefsId, info.paramRefsId))]
  }

  /** The tail of a call to a function in `instanceId`: builds storage for
      the result when there is a return slot, converts the arguments and
      adds the call. */
  method AddFunctionCall(context: Context, view: SemIRView, calleeId: InstId, callee: CalleeFunction,
                         instanceId: GenericInstanceId, argIds: seq<InstId>)
    returns (callId: InstId)
    requires context.Valid()
    requires !view.functions(callee.functionId).returnSlot.NotComputed?
    modifies context
    ensures context.Valid()
    ensures context.insts == old(context.insts) +
      FunctionCallInsts(view, calleeId, callee, instanceId, argIds, |old(context.insts)|)
    ensures callId == Id(|context.insts| - 1) && callId != BuiltinError
    ensures context.diagnostics == old(context.diagnostics)
  {
    var callable := view.functions(callee.functionId);
    // A function with no declared return type returns the empty tuple.
    var typeId := callable.declaredReturnType(instanceId);
    if !typeId.IsValid() {
      typeId := view.emptyTupleType;
    }

    // If there is a return slot, build storage for the result.
    var returnStorageId: InstId := Invalid;
    match callable.returnSlot {
      case Present =>
        returnStorageId := context.AddInst(TemporaryStorage(typeId));
      case Absent =>
      case Error =>
        // Don't form an initializing expression with an incomplete type.
        typeId := ErrorType;
    }

    // Convert the arguments to match the parameters.
    var convertedArgsId := view.convertCallArgs(callee.selfId, argIds, returnStorageId, callable.declId,
                                                callable.implicitParamRefsId, callable.paramRefsId);
    callId := context.AddInst(Call(typeId, calleeId, convertedArgsId));
  }

  /** The outcome of a call whose callee is not a function, from the
      instructions and diagnostics before the call to those after it: a
      generic class or interface is called as a type; anything else is not
      callable, which is diagnosed unless the callee is already an error. */
  predicate NonFunctionCallOutcome(view: SemIRView, calleeId: InstId, isError: bool, argIds: seq<InstId>,
                                   insts: seq<Inst>, diagnostics: seq<Diagnostic>,
                                   insts': seq<Inst>, diagnostics': seq<Diagnostic>, callId: InstId)
  {
    match view.typeAsInst(view.ir.typeOf(calleeId))
    case GenericClassType(classId) =>
      callId == Id(|insts|) && diagnostics' == diagnostics &&
      insts' == insts + TypeCallInsts(view, calleeId, view.classes(classId), argIds)
    case GenericInterfaceType(interfaceId) =>
      callId == Id(|insts|) && diagnostics' == diagnostics &&
      insts' == insts + TypeCallInsts(view, calleeId, view.interfaces(interfaceId), argIds)
    case OtherTypeInst =>
      callId == BuiltinError && insts' == insts &&
      diagnostics' == diagnostics + (if isError then [] else [CallToNonCallable(view.ir.typeOf(calleeId))])
  }

  /** The part of `PerformCall` for a callee that is not a function. */
  method PerformNonFunctionCall(context: Context, view: SemIRView, calleeId: InstId, isError: bool,
                                argIds: seq<InstId>)
    returns (callId: InstId)
    requires context.Valid()
    modifies context
    ensures context.Valid()
    ensures NonFunctionCallOutcome(view, calleeId, isError, argIds, old(context.insts), old(context.diagnostics),
                                   context.insts, context.diagnostics, callId)
    ensures callId == BuiltinError <==> view.typeAsInst(view.ir.typeOf(calleeId)).OtherTypeInst?
    ensures callId == BuiltinError ==> context.insts == old(context.insts)
    ensures callId != BuiltinError ==> callId == Id(|context.insts| - 1)
  {
    match view.typeAsInst(view.ir.typeOf(calleeId)) {
      case GenericClassType(classId) =>
        callId := PerformCallToGenericClass(context, view, calleeId, classId, argIds);
      case GenericInterfaceType(interfaceId) =>
        callId := PerformCallToGenericInterface(context, view, calleeId, interfaceId, argIds);
      case OtherTypeInst =>
        if !isError {
          context.Emit(CallToNonCallable(view.ir.typeOf(calleeId)));
        }
        callId := BuiltinError;
    }
  }

  /** What a call demands of its callee: a function's return slot category
      has been computed, and a generic function's deduction can run. */
  ghost predicate CallChecks(context: Context, view: SemIRView, calleeId: InstId, argIds: seq<InstId>)
    reads context, context.genericInstances, context.genericInstances.instBlockStore
  {
    && context.Valid()
    && context.genericInstances.Valid()
    && var callee := view.calleeFunction(calleeId);
       callee.functionId.IsValid() ==>
         var callable := view.functions(callee.functionId);
         && !callable.returnSlot.NotComputed?
         && (callable.genericId.IsValid() ==>
               DeductionChecks(context, view, callable.genericId, callee.instanceId, callable.paramRefsId, argIds))
  }

  /** Whether a call of `calleeId` with `argIds` fails: a callee that is
      neither a function nor a generic class or interface, or a generic
      function whose deduction fails because its explicit parameters and the
      arguments differ in number. */
  ghost predicate CallFails(context: Context, view: SemIRView, calleeId: InstId, argIds: seq<InstId>)
    reads context, context.genericInstances, context.genericInstances.instBlockStore
    requires CallChecks(context, view, calleeId, argIds)
  {
    var callee := view.calleeFunction(calleeId);
    if callee.functionId.IsValid() then
      var callable := view.functions(callee.functionId);
      callable.genericId.IsValid() &&
      |context.genericInstances.instBlockStore.Get(callable.paramRefsId)| != |argIds|
    else view.typeAsInst(view.ir.typeOf(calleeId)).OtherTypeInst?
  }

  /** `PerformCall`: checks a call of `calleeId` with `argIds` and returns
      the call instruction, or `BuiltinError` exactly when the call fails.
      `instanceId` is the instance of a generic function the call is
      made in. */
  method PerformCall(context: Context, view: SemIRView, calleeId: InstId, argIds: seq<InstId>)
    returns (callId: InstId, ghost instanceId: GenericInstanceId)
    requires CallChecks(context, view, calleeId, argIds)
    modifies context, context.genericInstances, context.genericInstances.instBlockStore
    ensures context.Valid() && context.genericInstances.Valid()
    ensures callId == BuiltinError <==> old(CallFails(context, view, calleeId, argIds))
    ensures callId == BuiltinError ==> context.insts == old(context.insts)
    // A callee that is not a function: a generic class or interface, or an error.
    ensures !view.calleeFunction(calleeId).functionId.IsValid() ==>
      context.genericInstances.genericInstances == old(context.genericInstances.genericInstances) &&
      context.genericInstances.lookupTable == old(context.genericInstances.lookupTable) &&
      context.genericInstances.instBlockStore.blocks == old(context.genericInstances.instBlockStore.blocks)
    ensures !view.calleeFunction(calleeId).functionId.IsValid() ==>
      NonFunctionCallOutcome(view, calleeId, view.calleeFunction(calleeId).isError, argIds,
                             old(context.insts), old(context.diagnostics), context.insts, context.diagnostics, callId)
    // A function callee: no diagnostics; a failed deduction adds nothing anywhere.
    ensures view.calleeFunction(calleeId).functionId.IsValid() ==>
      context.diagnostics == old(context.diagnostics)
    ensures view.calleeFunction(calleeId).functionId.IsValid() && callId == BuiltinError ==>
      context.genericInstances.genericInstances == old(context.genericInstances.genericInstances) &&
      context.genericInstances.lookupTable == old(context.genericInstances.lookupTable) &&
      context.genericInstances.instBlockStore.blocks == old(context.genericInstances.instBlockStore.blocks)
    ensures view.calleeFunction(calleeId).functionId.IsValid() && callId != BuiltinError ==>
      context.insts == old(context.insts) +
        FunctionCallInsts(view, calleeId, view.calleeFunction(calleeId), instanceId, argIds, |old(context.insts)|)
    // The instance called: the one of the deduced arguments, or none for a
    // function that is not generic.
    ensures view.calleeFunction(calleeId).functionId.IsValid() && callId != BuiltinError &&
            view.functions(view.calleeFunction(calleeId).functionId).genericId.IsValid() ==>
      context.genericInstances.Contains(instanceId) &&
      context.genericInstances.Get(instanceId).genericId == view.functions(view.calleeFunction(calleeId).functionId).genericId &&
      context.genericInstances.Args(instanceId) ==
        old(DeductionOf(context, view, view.functions(view.calleeFunction(calleeId).functionId).genericId,
                        view.calleeFunction(calleeId).instanceId,
                        view.functions(view.calleeFunction(calleeId).functionId).paramRefsId, argIds)).results
    ensures view.calleeFunction(calleeId).functionId.IsValid() &&
            !view.functions(view.calleeFunction(calleeId).functionId).genericId.IsValid() ==>
      instanceId == Invalid
  {
    // Identify the function we're calling.
    var callee := view.calleeFunction(calleeId);
    if !callee.functionId.IsValid() {
      instanceId := Invalid;
      callId := PerformNonFunctionCall(context, view, calleeId, callee.isError, argIds);
      return;
    }
    var callable := view.functions(callee.functionId);

    // Determine the generic arguments in the call.
    var calleeInstanceId: GenericInstanceId := Invalid;
    if callable.genericId.IsValid() {
      calleeInstanceId := DeduceGenericCallArguments(context, view, callable.genericId, callee.instanceId,
                                                     callable.paramRefsId, argIds);
      if !calleeInstanceId.IsValid() {
        return BuiltinError, calleeInstanceId;
      }
    }
    instanceId := calleeInstanceId;
    callId := AddFunctionCall(context, view, calleeId, callee, calleeInstanceId, argIds);
  }
}
