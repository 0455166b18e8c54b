# Carbon generic checking: region stack, instance store, deduction and calls

This project models, in Dafny, three sequential pieces of the Carbon
toolchain's checking of generics, and proves properties of them.

- **The generic region stack** (`toolchain/check/generic_region_stack.{h,cpp}`).
  While a declaration that might be generic is checked, a region is pushed.
  Two append-only lists are shared by all enclosing regions: instructions
  with symbolic constant values, and instructions with symbolic types. Each
  region records the lengths of both lists when it was pushed.
  - `PopGeneric` freezes the slices above those baselines into two new
    instruction blocks.
  - `PopAndDiscard` truncates the lists back to the baselines.
  - `PopNotGeneric` requires that nothing was registered.

  The model is the class `RegionStack.GenericRegionStack`. Each method is
  proved against a pure function on the abstract `StackState`. Lemmas then
  show stack discipline over arbitrary nested runs of operations (`Event`s):
  - a pushed, filled and popped region leaves no trace;
  - a popped region's slices are exactly what was registered directly in it.
- **Generics, their instances and the instance store**
  (`toolchain/sem_ir/generic.{h,cpp}`).
  - `Generic` and `GenericInstance` are records whose regions start out
    `Invalid`.
  - `GenericInstanceStore.GetOrAdd` hash-conses instances. The lookup table
    is a map from the profile (the generic's index followed by every
    argument's index) to the instance id.
  - The store invariant `StoreConsistent` makes the table find exactly the
    stored instance with the same generic and element-wise equal arguments.
    So equal keys give the same id, and distinct keys give distinct ids.
  - `GetTypeInstance` decodes the signed region index of a substituted type.
    A non-negative `i` is position `i` of the declaration region. A negative
    `i` is position `-i-1` of the definition region.
- **Substitution tables, deduction and call dispatch**
  (`toolchain/check/subst.h`, `toolchain/check/call.cpp`).
  - `BuildSingleSubstitution` builds a one-entry table.
  - `DeductionWorklist` collects (parameter, argument) pairs; `AddBlock`
    fails on an arity mismatch.
  - `DeduceGenericCallArguments` runs the LIFO worklist loop that fills one
    result per binding of the generic. It is proved against the recursive
    specification function `Call.Deduce`.
  - `PerformCall` dispatches on the callee:
    - a generic class or interface is called as a type;
    - any other non-function callee is a diagnosed error;
    - a function's arguments are deduced when it is generic, storage is
      made for its return slot, and the call instruction is added.

Handles are `Ids.Handle = Id(index) | Invalid`; the integer a handle carries
is `Ids.Index`, with `-1` for `Invalid`. A `CARBON_CHECK` or `CARBON_FATAL`
in the source becomes a precondition. The one exception is the index check
inside the deduction loop: it depends on what deduction computes, so it
becomes the `Aborted` outcome of `Call.Deduce`, and callers require that it
is not reached.

The code is followed wherever the header and the implementation disagree:
- The region stack keeps two lists with `..._index` baselines, as in
  `generic_region_stack.cpp`. The header declares one list and a
  `first_symbolic_constant_id` field.
- `AddSymbolicType` is the type-list counterpart of `AddSymbolicConstant`.
  The .cpp uses that list, but the header does not declare it.
- `PeekSymbolicConstantInsts`/`PeekSymbolicTypeInsts` are modelled
  abstractly, as the slice of each list from the innermost region's baseline
  to its end.
- `GetOrAdd` takes the argument values and keys on them, as in `generic.cpp`.
  The header's signature takes a canonical block id. Since canonical blocks
  are equal exactly when their contents are, value keying covers it.
- An arity mismatch in deduction only sets `failed`: no diagnostic is
  issued for it (the source leaves that as a TODO), and the model issues
  none.

## Model

| member | source | states |
|---|---|---|
| Ids.Resize | toolchain/check/subst.h:24 | `resize(n, fill)`: length `n`, the kept prefix unchanged, every new slot `fill` |
| Ids.InstBlockStore.Add | toolchain/check/generic_region_stack.cpp:17-19 | appends exactly the block and returns its fresh id, under which `Get` gives the block back |
| SemIR.NewGeneric | toolchain/sem_ir/generic.h:37-51 | a new generic has the given `decl_id`/`bindings_id`; all four region blocks are `Invalid` until completed |
| SemIR.CompleteGenericRegion | toolchain/sem_ir/generic.h:37-51 | completing a region never changes `decl_id` or `bindings_id`, and sets only the chosen region |
| SemIR.NewGenericInstance | toolchain/sem_ir/generic.h:60-79 | a new instance has the given generic and arguments; both value regions are `Invalid` |
| SemIR.CompleteInstanceRegion | toolchain/sem_ir/generic.h:74-79 | completing an instance region keeps its key (generic, arguments) and its other region |
| SemIR.AsKey | toolchain/sem_ir/generic.h:114-118 | a stored instance's key is read back from its `generic_id`/`args_id`; a key stands for itself |
| SemIR.KeyEq | toolchain/sem_ir/generic.h:103-108 | two operands are key-equal exactly when both their generics and their argument blocks are equal |
| SemIR.ProfileArgs | toolchain/sem_ir/generic.cpp:16-18 | the loop appends one integer per argument, its index, in order |
| SemIR.Profile | toolchain/sem_ir/generic.cpp:12-19 | the profile is the generic's index followed by the arguments' indices |
| SemIR.ProfileInjective | toolchain/sem_ir/generic.cpp:12-19 | two profiles are equal iff the generics are equal and the argument lists are element-wise equal |
| SemIR.StoredInstancesDistinct | toolchain/sem_ir/generic.h:82-89 | in a consistent store, two instances with the same generic and arguments are the same instance |
| SemIR.TableFindsExactly | toolchain/sem_ir/generic.cpp:31-39 | the lookup finds a profile exactly when a stored instance has that generic and those arguments, and it names that instance |
| SemIR.InstanceProfile | toolchain/sem_ir/generic.cpp:21-27 | a created instance's profile is computed from its generic and the contents of its argument block: one integer more than it has arguments, the generic's index first |
| SemIR.ProfileKeptByNewBlock | toolchain/sem_ir/generic.cpp:21-27 | adding a block does not change the profile of an already created instance |
| SemIR.AddKeepsInstancesRegistered | toolchain/sem_ir/generic.cpp:41-52 | after the three appends, every instance (old and new) is in the table under its own profile, when the new profile was absent |
| SemIR.AddKeepsEntriesValid | toolchain/sem_ir/generic.cpp:41-52 | after the three appends, every table entry names a stored instance with that profile |
| SemIR.AddKeepsConsistent | toolchain/sem_ir/generic.cpp:41-52 | appending the instance, its argument block and its table entry keeps the store consistent |
| SemIR.CopyArgs | toolchain/sem_ir/generic.cpp:42-46 | the copy loop produces exactly the argument list |
| SemIR.GenericInstanceStore.Get | toolchain/sem_ir/generic.h:91-99 | returns the instance stored under that id |
| SemIR.GenericInstanceStore.GetOrAdd | toolchain/sem_ir/generic.cpp:29-54 | the result has the given generic and arguments; an existing match is returned with nothing created; otherwise exactly one instance, one block holding a copy of the arguments, and one table entry are added; the store stays consistent |
| SemIR.GetOrAddTwice | toolchain/sem_ir/generic.h:82-89 | two calls with the same generic and arguments return the same id |
| SemIR.EncodeRegionIndex | toolchain/sem_ir/generic.cpp:73-79 | declaration positions encode as non-negative indices, definition positions as negative ones |
| SemIR.DecodeRegionIndex | toolchain/sem_ir/generic.cpp:73-79 | the sign selects the region, and decoding is inverted by encoding |
| SemIR.RegionIndexRoundTrip | toolchain/sem_ir/generic.cpp:73-79 | decoding an encoded region position gives it back |
| SemIR.GetTypeInstance | toolchain/sem_ir/generic.cpp:58-80 | a non-substituted type is returned unchanged; with no instance the pattern type is returned; otherwise the type at the decoded position of the instance's region, or `Invalid` while that region is unpopulated; the generic must match (fatal check) |
| SemIR.GetTypeInstanceResolvesEncoded | toolchain/sem_ir/generic.cpp:69-79 | a type whose index encodes declaration (definition) position `p` resolves to the `p`-th type of the instance's declaration (definition) region |
| RegionStack.Pushed | toolchain/check/generic_region_stack.cpp:9-14 | one more region, whose baselines are the current list lengths; the lists and outer regions are unchanged; well-formedness is kept |
| RegionStack.Discarded | toolchain/check/generic_region_stack.cpp:25-29 | the top region is removed and each list is truncated to its baseline; well-formedness is kept |
| RegionStack.WithConstant | toolchain/check/generic_region_stack.h:40-45 | appends exactly the instruction, keeps earlier entries, regions and the type list, and the entry lies in every enclosing region's slice |
| RegionStack.WithType | toolchain/check/generic_region_stack.cpp:12-13 | the type-list counterpart of `WithConstant` |
| RegionStack.Run | toolchain/check/generic_region_stack.cpp:9-29 | a run of operations inside a region keeps the regions and only lengthens the lists |
| RegionStack.Step | toolchain/check/generic_region_stack.cpp:9-29 | one registration, or a whole nested push/run/pop, keeps the regions and only lengthens the lists |
| RegionStack.RunRegistersConstants | toolchain/check/generic_region_stack.cpp:25-29 | a run appends to the constant list exactly the constants it registers directly, in order; nested regions leave nothing |
| RegionStack.RunRegistersTypes | toolchain/check/generic_region_stack.cpp:25-29 | the same for the type list |
| RegionStack.StepRegisters | toolchain/check/generic_region_stack.cpp:25-29 | one event appends exactly what it registers directly |
| RegionStack.PushRunPopRestores | toolchain/check/generic_region_stack.cpp:9-29 | `Push`, any operations, then `PopAndDiscard` restore the whole previous state, on any stack, including an empty one |
| RegionStack.PoppedSlicesAreRegistered | toolchain/check/generic_region_stack.cpp:16-23 | on any stack, including an empty one, the slices a region exposes when popped are exactly the instructions registered directly in it, in order |
| RegionStack.GenericRegionStack.constructor | toolchain/check/generic_region_stack.h:21-22 | a new stack has no regions and empty lists |
| RegionStack.GenericRegionStack.Push | toolchain/check/generic_region_stack.cpp:9-14 | the new state is `Pushed` of the old |
| RegionStack.GenericRegionStack.PopGeneric | toolchain/check/generic_region_stack.cpp:16-23 | exactly two blocks are added, the constant slice first and then the type slice; their ids are returned; the stack ends as `PopAndDiscard` leaves it |
| RegionStack.GenericRegionStack.PopAndDiscard | toolchain/check/generic_region_stack.cpp:25-29 | requires a region; the new state is `Discarded` of the old |
| RegionStack.GenericRegionStack.PopNotGeneric | toolchain/check/generic_region_stack.cpp:31-43 | requires both lists at their baselines (fatal checks); only the top region is removed |
| RegionStack.GenericRegionStack.AddSymbolicConstant | toolchain/check/generic_region_stack.h:40-45 | requires a region and a symbolic constant (fatal checks); the new state is `WithConstant` of the old with the constant's instruction |
| RegionStack.GenericRegionStack.AddSymbolicType | toolchain/check/generic_region_stack.cpp:12-13 | requires a region; the new state is `WithType` of the old |
| RegionStack.DiscardedRegionLeavesNoTrace | toolchain/check/generic_region_stack.h:30-33 | push, register, discard leaves a stack exactly as it was |
| Subst.BuildSingleSubstitution | toolchain/check/subst.h:19-27 | a table of length `i+1` with `r` at `i` and `Invalid` before, which substitutes exactly index `i` when `r` is valid |
| Subst.SingleSubstitution | toolchain/check/subst.h:29-32 | under the documented contract of `SubstConstant`, a single-entry table replaces a reference to binding `i` by `r` and leaves other bindings and non-symbolic constants alone |
| Call.Pairs | toolchain/check/call.cpp:74-76 | one pair per position, with the parameter and argument at that position, in order |
| Call.DeductionWorklist.Add | toolchain/check/call.cpp:63-65 | appends exactly the pair |
| Call.DeductionWorklist.AddBlock | toolchain/check/call.cpp:67-77 | with different lengths it sets `failed` and adds nothing; with equal lengths it appends one pair per position, in order |
| Call.Expand | toolchain/check/call.cpp:134-140 | a parameter with a substituted type pushes exactly the pair (instruction of the parameter's type, instruction of the argument's type); otherwise nothing is pushed; earlier entries are kept; the worklist's weight decreases |
| Call.Record | toolchain/check/call.cpp:142-176 | a parameter whose constant is not symbolic, before or after substitution, records nothing; one referring to binding `i >= first` aborts exactly when `i` is past the results (the fatal check), and otherwise sets result `i` to the argument's constant when it has one; nothing else is recorded, and only results at `>= first` ever change |
| Call.Deduce | toolchain/check/call.cpp:131-177 | deduction keeps the number of results and the enclosing instance's arguments, and only writes valid instructions |
| Call.DeduceDirectBindings | toolchain/check/call.cpp:131-177 | with pending parameters that are direct references to distinct bindings after the enclosing ones, deduction sets each binding to its argument's constant (when it has one) and leaves every other result unchanged |
| Call.DeduceUsesOuterPrefix | toolchain/check/call.cpp:128-149 | the substitution table used throughout is exactly the enclosing instance's arguments |
| Call.DeduceFromParameterType | toolchain/check/call.cpp:131-177 | for `F(x: T)` called with an argument of a concrete type, deduction yields that type for `T` |
| Call.DeduceOne | toolchain/check/call.cpp:142-176 | one pass of the loop body records what `Record` specifies |
| Call.RunDeductions | toolchain/check/call.cpp:131-177 | the loop empties the worklist and its results are those of `Deduce` |
| Call.Context.AddInst | toolchain/check/call.cpp:274-277 | appends exactly the instruction and returns its id |
| Call.Context.Emit | toolchain/check/call.cpp:208-212 | appends exactly the diagnostic |
| Call.OuterArgs | toolchain/check/call.cpp:115-121 | the arguments of the enclosing instance's stored block, or none when there is no enclosing instance |
| Call.DeductionOf | toolchain/check/call.cpp:113-177 | the results start as the enclosing arguments padded with `Invalid`; a completed deduction has one result per binding of the generic, and its first results are the enclosing arguments, unchanged |
| Call.DeduceGenericCallArguments | toolchain/check/call.cpp:97-186 | returns `Invalid`, creating nothing, exactly when the parameter and argument counts differ; otherwise an instance of the generic whose arguments are the `Deduce` results (enclosing arguments padded with `Invalid` to one per binding) |
| Call.PerformCallToGenericClass | toolchain/check/call.cpp:20-38 | adds exactly one `Call` of type `TypeType` with the converted arguments, no `self` and no return storage, and no diagnostic |
| Call.PerformCallToGenericInterface | toolchain/check/call.cpp:40-60 | the same for a generic interface |
| Call.CallType | toolchain/check/call.cpp:232-263 | an `Error` return slot makes the call's type `Error`; otherwise it is the declared return type, or the empty tuple type when that is `Invalid`; it is valid when the empty tuple type is |
| Call.AddFunctionCall | toolchain/check/call.cpp:232-279 | a `Present` slot adds a `TemporaryStorage` of the call's type and passes it as return storage; `Absent` adds nothing; `Error` makes the call's type `Error`; an `Invalid` return type becomes the empty tuple type; the call is added last |
| Call.PerformNonFunctionCall | toolchain/check/call.cpp:193-216 | a generic class or interface is called as a type; anything else returns `BuiltinError`, adds no instruction and emits one diagnostic unless the callee is an error |
| Call.PerformCall | toolchain/check/call.cpp:188-280 | returns `BuiltinError` exactly when the callee is not callable or generic deduction fails, and then adds no instruction; otherwise adds the instructions of the callee's case, with the deduced instance for a generic function |

## Left out

- `Print` methods are left out: they only format text.
- Hashing and allocation are left out (`KeyContext::HashKey`, `Carbon::Set`, `llvm::FoldingSet` internals, placement `new` of nodes). The lookup table is a map from profile to id.
- The `int32_t` casts of list lengths in `Push` are not modelled: lengths are unbounded naturals, so overflow is not modelled.
- `SubstConstant` and `SubstType` are modelled abstractly. `SubstConstant` is a function parameter, constrained only by the documented contract in `Subst.ReplacesBindings`. `SubstType` is not used by the modelled code.
- `MakeGenericInstance` and `InstBlockStore::AddCanonical` are modelled abstractly: their combination is `GetOrAdd` on the deduced argument values.
- `GetCalleeFunction`, `ConvertCallArgs`, `declared_return_type`, `GetTupleType({})` and the type store's lookups are modelled abstractly, as fields of `Call.SemIRView` that are functions of their inputs. Their own effects on the context are not modelled: `ConvertCallArgs` adds conversion instructions and an argument block and can emit diagnostics, and `GetTupleType` can create the empty tuple type.
- Call.PerformCallToGenericClass, Call.PerformCallToGenericInterface, Call.AddFunctionCall, Call.PerformNonFunctionCall and Call.PerformCall: the instructions and diagnostics their contracts list are only those `call.cpp` adds itself; the ones `ConvertCallArgs` and `GetTupleType` add are not counted.
- `CheckFunctionReturnType` is not modelled. It receives the function by mutable reference and computes its return slot category; the model assumes that was already done, so a precondition excludes `NotComputed`, which is fatal at the switch after that call.
- The `DiagnosticAnnotationScope` note attached while the return type is checked is not modelled. Neither is the `Parse::NodeId` location of instructions and diagnostics.
- Deduction ignores `decl_id`, `implicit_params_id` and `self_id`, as the source does (a TODO); the model does not pass them.
- The source does not check that every binding was deduced, nor that a binding deduced twice is deduced consistently (TODOs). The model does neither: the last write wins, and undeduced results stay `Invalid`.
- Call.Deduce: termination rests on an assumed ranking `Ir.depth` under which a substituted type's instruction ranks below every instruction of that type (`TypesBelow`). The source relies on the IR being well-founded in the same way.
- Call.DeduceGenericCallArguments: the fatal index check inside the loop is required away (the deduction must not be `Aborted`), rather than modelled as a crash.
- Call.PerformCall: for a function callee it does not state the returned id, only the instructions added; `Call.AddFunctionCall` states that the call is the last instruction added.
- RegionStack.GenericRegionStack.PeekSymbolicConstantInsts and RegionStack.GenericRegionStack.PeekSymbolicTypeInsts are modelled abstractly, as slices, with no contract of their own.
- Generic::Region's "template-dependent instructions" and other TODO fields are not modelled.
