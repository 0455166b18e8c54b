/** The stack of regions that might be declaring or defining a generic
    (toolchain/check/generic_region_stack.h and .cpp). Two append-only lists,
    of instructions with symbolic constant values and of instructions with
    symbolic types, are shared by all enclosing regions; each region records
    where the lists ended when it was pushed. */
module RegionStack {
  import opened Ids
  import opened SemIR

  /** The lengths of the two lists when a region was pushed. */
  datatype RegionInfo = RegionInfo(firstSymbolicConstantIndex: nat, firstSymbolicTypeIndex: nat)

  /** The abstract state of the stack: its regions (innermost last) and the
      two shared lists. */
  datatype StackState = StackState(
    regions: seq<RegionInfo>,
    symbolicConstantInsts: seq<InstId>,
    symbolicTypeInsts: seq<InstId>)

  /** Baselines never decrease going up the stack and never exceed the
      current length of their list. */
  predicate Wf(s: StackState)
  {
    && (forall k :: 0 <= k < |s.regions| ==>
          s.regions[k].firstSymbolicConstantIndex <= |s.symbolicConstantInsts| &&
          s.regions[k].firstSymbolicTypeIndex <= |s.symbolicTypeInsts|)
    && (forall j, k :: 0 <= j < k < |s.regions| ==>
          s.regions[j].firstSymbolicConstantIndex <= s.regions[k].firstSymbolicConstantIndex &&
          s.regions[j].firstSymbolicTypeIndex <= s.regions[k].firstSymbolicTypeIndex)
  }

  /** The innermost region's baselines are within the lists. */
  predicate TopInRange(s: StackState)
  {
    |s.regions| > 0 &&
    s.regions[|s.regions| - 1].firstSymbolicConstantIndex <= |s.symbolicConstantInsts| &&
    s.regions[|s.regions| - 1].firstSymbolicTypeIndex <= |s.symbolicTypeInsts|
  }

  /** The state after `Push`: one more region, whose baselines are the
      current lengths of the lists, which are unchanged. */
  function Pushed(s: StackState): (r: StackState)
    ensures Wf(s) ==> Wf(r)
    ensures |r.regions| == |s.regions| + 1 && TopInRange(r) && r.regions[..|s.regions|] == s.regions
    ensures r.symbolicConstantInsts == s.symbolicConstantInsts && r.symbolicTypeInsts == s.symbolicTypeInsts
  {
    StackState(
      s.regions + [RegionInfo(|s.symbolicConstantInsts|, |s.symbolicTypeInsts|)],
      s.symbolicConstantInsts, s.symbolicTypeInsts)
  }

  /** The state after `PopAndDiscard`: the innermost region is gone and each
      list is cut back to that region's baseline. Outer regions' entries
      are kept. */
  function Discarded(s: StackState): (r: StackState)
    requires TopInRange(s)
    ensures Wf(s) ==> Wf(r)
    ensures |r.regions| == |s.regions| - 1 && r.regions == s.regions[..|s.regions| - 1]
    ensures r.symbolicConstantInsts == s.symbolicConstantInsts[..s.regions[|s.regions| - 1].firstSymbolicConstantIndex]
    ensures r.symbolicTypeInsts == s.symbolicTypeInsts[..s.regions[|s.regions| - 1].firstSymbolicTypeIndex]
  {
    var top := s.regions[|s.regions| - 1];
    StackState(
      s.regions[..|s.regions| - 1],
      s.symbolicConstantInsts[..top.firstSymbolicConstantIndex],
      s.symbolicTypeInsts[..top.firstSymbolicTypeIndex])
  }

  /** The state after adding a symbolic constant instruction: it is appended
      to the constant list, and so lies in the slice of every enclosing
      region; the regions and the type list are unchanged. */
  function WithConstant(s: StackState, inst: InstId): (r: StackState)
    ensures Wf(s) ==> Wf(r)
    ensures r.regions == s.regions && r.symbolicTypeInsts == s.symbolicTypeInsts
    ensures |r.symbolicConstantInsts| == |s.symbolicConstantInsts| + 1 && r.symbolicConstantInsts[|s.symbolicConstantInsts|] == inst
    ensures r.symbolicConstantInsts[..|s.symbolicConstantInsts|] == s.symbolicConstantInsts
    ensures Wf(s) ==> forall k :: 0 <= k < |s.regions| ==>
      r.symbolicConstantInsts[s.regions[k].firstSymbolicConstantIndex..] ==
      s.symbolicConstantInsts[s.regions[k].firstSymbolicConstantIndex..] + [inst]
  {
    s.(symbolicConstantInsts := s.symbolicConstantInsts + [inst])
  }

  /** The state after adding a symbolic type instruction, mirroring
      `WithConstant` for the type list. */
  function WithType(s: StackState, inst: InstId): (r: StackState)
    ensures Wf(s) ==> Wf(r)
    ensures r.regions == s.regions && r.symbolicConstantInsts == s.symbolicConstantInsts
    ensures |r.symbolicTypeInsts| == |s.symbolicTypeInsts| + 1 && r.symbolicTypeInsts[|s.symbolicTypeInsts|] == inst
    ensures r.symbolicTypeInsts[..|s.symbolicTypeInsts|] == s.symbolicTypeInsts
    ensures Wf(s) ==> forall k :: 0 <= k < |s.regions| ==>
      r.symbolicTypeInsts[s.regions[k].firstSymbolicTypeIndex..] ==
      s.symbolicTypeInsts[s.regions[k].firstSymbolicTypeIndex..] + [inst]
  {
    s.(symbolicTypeInsts := s.symbolicTypeInsts + [inst])
  }

  /** The innermost region's symbolic constant instructions: the constant
      list from that region's baseline to its end. */
  function TopConstantSlice(s: StackState): seq<InstId>
    requires TopInRange(s)
  {
    s.symbolicConstantInsts[s.regions[|s.regions| - 1].firstSymbolicConstantIndex..]
  }

  /** The innermost region's symbolic type instructions. */
  function TopTypeSlice(s: StackState): seq<InstId>
    requires TopInRange(s)
  {
    s.symbolicTypeInsts[s.regions[|s.regions| - 1].firstSymbolicTypeIndex..]
  }

  // ---------------------------------------------------------------------------
  // Runs of region-stack operations
  // ---------------------------------------------------------------------------

  /** What checking code does inside a region: register a symbolic constant
      or type, or check a nested region, which is pushed, filled and popped
      (`PopGeneric` and `PopAndDiscard` leave the same state). */
  datatype Event =
    | AddConstant(constInst: InstId)
    | AddType(typeInst: InstId)
    | Nested(body: seq<Event>)

  /** The constant instruction an event registers directly, if any. */
  function ConstantOf(e: Event): seq<InstId>
  {
    if e.AddConstant? then [e.constInst] else []
  }

  /** The type instruction an event registers directly, if any. */
  function TypeOf(e: Event): seq<InstId>
  {
    if e.AddType? then [e.typeInst] else []
  }

  /** The constant instructions a run registers directly, in order; those
      registered inside nested regions are not included. */
  function ConstantsOf(events: seq<Event>): seq<InstId>
  {
    if events == [] then [] else ConstantOf(events[0]) + ConstantsOf(events[1..])
  }

  /** The type instructions a run registers directly, in order. */
  function TypesOf(events: seq<Event>): seq<InstId>
  {
    if events == [] then [] else TypeOf(events[0]) + TypesOf(events[1..])
  }

  /** Runs events inside the innermost region of `s`. A run leaves the
      regions as they were and only appends to the lists. */
  function Run(s: StackState, events: seq<Event>): (r: StackState)
    requires TopInRange(s)
    ensures r.regions == s.regions
    ensures |r.symbolicConstantInsts| >= |s.symbolicConstantInsts| && |r.symbolicTypeInsts| >= |s.symbolicTypeInsts|
    decreases events
  {
    if events == [] then s
    else Run(Step(s, events[0]), events[1..])
  }

  /** Runs one event inside the innermost region of `s`. */
  function Step(s: StackState, e: Event): (r: StackState)
    requires TopInRange(s)
    ensures r.regions == s.regions
    ensures |r.symbolicConstantInsts| >= |s.symbolicConstantInsts| && |r.symbolicTypeInsts| >= |s.symbolicTypeInsts|
    decreases e
  {
    match e
    case AddConstant(i) => WithConstant(s, i)
    case AddType(i) => WithType(s, i)
    case Nested(body) => Discarded(Run(Pushed(s), body))
  }

  /** Concatenation regroups. Stated apart so that the solver proves it
      outside the larger contexts of the run lemmas. */
  lemma ConcatAssociates(a: seq<InstId>, b: seq<InstId>, c: seq<InstId>)
    ensures (a + b) + c == a + (b + c)
  {
  }

  /** A run appends to the constant list exactly the constant instructions
      it registers directly, in order: everything a nested region registers
      is removed again when that region is popped. */
  lemma {:induction false} RunRegistersConstants(s: StackState, events: seq<Event>)
    requires TopInRange(s)
    ensures Run(s, events).symbolicConstantInsts == s.symbolicConstantInsts + ConstantsOf(events)
    decreases events
  {
    if events != [] {
      var e, rest := events[0], events[1..];
      var next := Step(s, e);
      assert Run(s, events) == Run(next, rest);
      StepRegisters(s, e);
      RunRegistersConstants(next, rest);
      ConcatAssociates(s.symbolicConstantInsts, ConstantOf(e), ConstantsOf(rest));
    }
  }

  /** A run appends to the type list exactly the type instructions it
      registers directly, in order. */
  lemma {:induction false} RunRegistersTypes(s: StackState, events: seq<Event>)
    requires TopInRange(s)
    ensures Run(s, events).symbolicTypeInsts == s.symbolicTypeInsts + TypesOf(events)
    decreases events
  {
    if events != [] {
      var e, rest := events[0], events[1..];
      var next := Step(s, e);
      assert Run(s, events) == Run(next, rest);
      StepRegisters(s, e);
      RunRegistersTypes(next, rest);
      ConcatAssociates(s.symbolicTypeInsts, TypeOf(e), TypesOf(rest));
    }
  }

  /** One event appends what it registers directly; a nested region leaves
      the lists as they were. */
  lemma {:induction false} StepRegisters(s: StackState, e: Event)
    requires TopInRange(s)
    ensures Step(s, e).symbolicConstantInsts == s.symbolicConstantInsts + ConstantOf(e)
    ensures Step(s, e).symbolicTypeInsts == s.symbolicTypeInsts + TypeOf(e)
    decreases e
  {
    match e
    case AddConstant(i) =>
    case AddType(i) =>
    case Nested(body) =>
      PushRunPopRestores(s, body);
  }

  /** Stack discipline: pushing a region, running anything in it, and
      popping it restores the lists to exactly their contents before the
      push, whatever the region registered, also for the outermost region
      of an empty stack. */
  lemma {:induction false} PushRunPopRestores(s: StackState, body: seq<Event>)
    ensures Discarded(Run(Pushed(s), body)) == s
    decreases Nested(body), 0
  {
    var inner := Run(Pushed(s), body);
    RunRegistersConstants(Pushed(s), body);
    RunRegistersTypes(Pushed(s), body);
    assert inner.symbolicConstantInsts[..|s.symbolicConstantInsts|] == s.symbolicConstantInsts;
    assert inner.symbolicTypeInsts[..|s.symbolicTypeInsts|] == s.symbolicTypeInsts;
  }

  /** The slices a region exposes when it is popped are exactly the
      instructions registered directly in it since its push, in order. */
  lemma {:induction false} PoppedSlicesAreRegistered(s: StackState, body: seq<Event>)
    ensures TopInRange(Run(Pushed(s), body))
    ensures TopConstantSlice(Run(Pushed(s), body)) == ConstantsOf(body)
    ensures TopTypeSlice(Run(Pushed(s), body)) == TypesOf(body)
  {
    var inner := Run(Pushed(s), body);
    RunRegistersConstants(Pushed(s), body);
    RunRegistersTypes(Pushed(s), body);
    assert inner.regions[|inner.regions| - 1] == RegionInfo(|s.symbolicConstantInsts|, |s.symbolicTypeInsts|);
  }

  // ---------------------------------------------------------------------------
  // The stack itself
  // ---------------------------------------------------------------------------

  /** `GenericRegionStack`: the enclosing regions and the two shared lists;
      popped generic regions are frozen into blocks of the block store. */
  class GenericRegionStack {
    const instBlockStore: InstBlockStore
    var regions: seq<RegionInfo>
    var symbolicConstantInsts: seq<InstId>
    var symbolicTypeInsts: seq<InstId>

    function State(): StackState
      reads this
    {
      StackState(regions, symbolicConstantInsts, symbolicTypeInsts)
    }

    ghost predicate Valid()
      reads this
    {
      Wf(State())
    }

    /** A new stack has no regions and empty lists. */
    constructor (instBlockStore: InstBlockStore)
      ensures Valid()
      ensures this.instBlockStore == instBlockStore
      ensures regions == [] && symbolicConstantInsts == [] && symbolicTypeInsts == []
    {
      this.instBlockStore := instBlockStore;
      regions := [];
      symbolicConstantInsts := [];
      symbolicTypeInsts := [];
    }

    /** Pushes a region that might be declaring or defining a generic. */
    method Push()
      requires Valid()
      modifies this
      ensures Valid()
      ensures State() == Pushed(old(State()))
    {
      regions := regions + [RegionInfo(|symbolicConstantInsts|, |symbolicTypeInsts|)];
    }

    /** The innermost region's symbolic constant instructions. */
    function PeekSymbolicConstantInsts(): seq<InstId>
      reads this
      requires Valid() && regions != []
    {
      TopConstantSlice(State())
    }

    /** The innermost region's symbolic type instructions. */
    function PeekSymbolicTypeInsts(): seq<InstId>
      reads this
      requires Valid() && regions != []
    {
      TopTypeSlice(State())
    }

    /** Pops a generic region: its two slices become two new blocks, the
        constant block first, and the stack is left as `PopAndDiscard`
        leaves it. */
    method PopGeneric() returns (region: GenericRegion)
      requires Valid() && regions != []
      modifies this, instBlockStore
      ensures Valid()
      ensures State() == Discarded(old(State()))
      ensures instBlockStore.blocks ==
        old(instBlockStore.blocks) + [old(PeekSymbolicConstantInsts()), old(PeekSymbolicTypeInsts())]
      ensures region == GenericRegion(Id(|old(instBlockStore.blocks)|), Id(|old(instBlockStore.blocks)| + 1))
    {
      var symbolicConstantInstsId := instBlockStore.Add(PeekSymbolicConstantInsts());
      var symbolicTypeInstsId := instBlockStore.Add(PeekSymbolicTypeInsts());
      PopAndDiscard();
      region := GenericRegion(symbolicConstantInstsId, symbolicTypeInstsId);
    }

    /** Pops a region and discards what it registered. */
    method PopAndDiscard()
      requires Valid() && regions != []
      modifies this
      ensures Valid()
      ensures State() == Discarded(old(State()))
    {
      var region := regions[|regions| - 1];
      regions := regions[..|regions| - 1];
      symbolicConstantInsts := symbolicConstantInsts[..region.firstSymbolicConstantIndex];
      symbolicTypeInsts := symbolicTypeInsts[..region.firstSymbolicTypeIndex];
    }

    /** Pops a region that turned out not to be generic. It is a fatal error
        for such a region to have registered anything. */
    method PopNotGeneric()
      requires Valid() && regions != []
      requires regions[|regions| - 1].firstSymbolicConstantIndex == |symbolicConstantInsts|
      requires regions[|regions| - 1].firstSymbolicTypeIndex == |symbolicTypeInsts|
      modifies this
      ensures Valid()
      ensures State() == Discarded(old(State()))
      ensures symbolicConstantInsts == old(symbolicConstantInsts) && symbolicTypeInsts == old(symbolicTypeInsts)
    {
      regions := regions[..|regions| - 1];
    }

    /** Registers a symbolic constant in the current region. It is fatal to
        do so outside every region, or with a constant that is not
        symbolic. */
    method AddSymbolicConstant(constantId: ConstantId)
      requires Valid()
      requires regions != []
      requires constantId.IsSymbolic()
      modifies this
      ensures Valid()
      ensures State() == WithConstant(old(State()), constantId.InstIdOf())
    {
      symbolicConstantInsts := symbolicConstantInsts + [constantId.InstIdOf()];
    }

    /** Registers an instruction with a symbolic type in the current region. */
    method AddSymbolicType(instId: InstId)
      requires Valid()
      requires regions != []
      modifies this
      ensures Valid()
      ensures State() == WithType(old(State()), instId)
    {
      symbolicTypeInsts := symbolicTypeInsts + [instId];
    }
  }

  /** A caller's view: pushing, registering and discarding leaves an
      existing stack's lists as they were, and the regions too. */
  method DiscardedRegionLeavesNoTrace(stack: GenericRegionStack, c: ConstantId, t: InstId)
    requires stack.Valid() && c.IsSymbolic()
    modifies stack
    ensures stack.Valid() && stack.State() == old(stack.State())
  {
    stack.Push();
    stack.AddSymbolicConstant(c);
    stack.AddSymbolicType(t);
    stack.PopAndDiscard();
  }
}
