/** The semantic IR's records for generic entities and their instances, the
    deduplicating instance store, and the lookup of a substituted type in an
    instance (toolchain/sem_ir/generic.h and generic.cpp). */
module SemIR {
  import opened Ids

  // ---------------------------------------------------------------------------
  // Records
  // ---------------------------------------------------------------------------

  /** `Generic::Region`: the blocks of instructions with symbolic constant
      values and with substituted types, used in the declaration or in the
      definition of a generic. Both are `Invalid` until the region is
      completed. */
  datatype GenericRegion = GenericRegion(
    symbolicConstantInstsId: InstBlockId,
    substitutedTypeInstsId: InstBlockId)
  {
    predicate IsCompleted() { symbolicConstantInstsId.IsValid() && substitutedTypeInstsId.IsValid() }
  }

  /** A generic class, interface or function. `declId` and `bindingsId` are
      fixed at creation; `decl` and `definition` are filled in later. */
  datatype Generic = Generic(
    declId: InstId,
    bindingsId: InstBlockId,
    decl: GenericRegion,
    definition: GenericRegion)

  /** `GenericInstance::Region`: the values of a region of the generic,
      substituted for one instance. */
  datatype GenericInstanceRegion = GenericInstanceRegion(
    symbolicConstantValuesId: InstBlockId,
    substitutedTypesId: TypeBlockId)

  /** An instance of a generic for one list of argument values. */
  datatype GenericInstance = GenericInstance(
    genericId: GenericId,
    argsId: InstBlockId,
    decl: GenericInstanceRegion,
    definition: GenericInstanceRegion)

  /** Which of the two regions a generic (or one of its instances) is being
      completed. */
  datatype RegionKind = DeclKind | DefinitionKind

  /** A freshly created generic: the identity fields as given, both regions
      not yet completed. */
  function NewGeneric(declId: InstId, bindingsId: InstBlockId): (g: Generic)
    ensures g.declId == declId && g.bindingsId == bindingsId
    ensures !g.decl.symbolicConstantInstsId.IsValid() && !g.decl.substitutedTypeInstsId.IsValid()
    ensures !g.definition.symbolicConstantInstsId.IsValid() && !g.definition.substitutedTypeInstsId.IsValid()
  {
    Generic(declId, bindingsId, GenericRegion(Invalid, Invalid), GenericRegion(Invalid, Invalid))
  }

  /** Records a completed region of a generic. The identity fields and the
      other region are left as they were. */
  function CompleteGenericRegion(g: Generic, kind: RegionKind, region: GenericRegion): (r: Generic)
    ensures r.declId == g.declId && r.bindingsId == g.bindingsId
    ensures kind.DeclKind? ==> r.decl == region && r.definition == g.definition
    ensures kind.DefinitionKind? ==> r.definition == region && r.decl == g.decl
  {
    match kind
    case DeclKind => g.(decl := region)
    case DefinitionKind => g.(definition := region)
  }

  /** A freshly created instance: both value regions not yet populated. */
  function NewGenericInstance(genericId: GenericId, argsId: InstBlockId): (i: GenericInstance)
    ensures i.genericId == genericId && i.argsId == argsId
    ensures !i.decl.symbolicConstantValuesId.IsValid() && !i.decl.substitutedTypesId.IsValid()
    ensures !i.definition.symbolicConstantValuesId.IsValid() && !i.definition.substitutedTypesId.IsValid()
  {
    GenericInstance(genericId, argsId,
      GenericInstanceRegion(Invalid, Invalid), GenericInstanceRegion(Invalid, Invalid))
  }

  /** Records a populated region of an instance; the instance's key (generic
      and arguments) and its other region are left as they were. */
  function CompleteInstanceRegion(i: GenericInstance, kind: RegionKind, region: GenericInstanceRegion): (r: GenericInstance)
    ensures r.genericId == i.genericId && r.argsId == i.argsId
    ensures kind.DeclKind? ==> r.decl == region && r.definition == i.definition
    ensures kind.DefinitionKind? ==> r.definition == region && r.decl == i.decl
  {
    match kind
    case DeclKind => i.(decl := region)
    case DefinitionKind => i.(definition := region)
  }

  // ---------------------------------------------------------------------------
  // Keys (the header's handle-keyed view of the lookup table)
  // ---------------------------------------------------------------------------

  /** A lookup key for an instance: its generic and its argument block. */
  datatype Key = Key(genericId: GenericId, argsId: InstBlockId)

  /** Either side of a key comparison: a stored instance's id, or a key. */
  datatype KeyOperand = StoredInstance(id: GenericInstanceId) | LookupKey(key: Key)

  predicate IsStored(instances: seq<GenericInstance>, k: KeyOperand)
  {
    k.StoredInstance? ==> k.id.IsValid() && k.id.index < |instances|
  }

  /** `KeyContext::AsKey`: a stored instance's key is read back from its
      fields; a key stands for itself. */
  function AsKey(instances: seq<GenericInstance>, k: KeyOperand): (key: Key)
    requires IsStored(instances, k)
    ensures k.StoredInstance? ==>
      key.genericId == instances[k.id.index].genericId && key.argsId == instances[k.id.index].argsId
    ensures k.LookupKey? ==> key == k.key
  {
    match k
    case StoredInstance(id) => Key(instances[id.index].genericId, instances[id.index].argsId)
    case LookupKey(key) => key
  }

  /** `KeyContext::KeyEq`: two operands are equal exactly when their generics
      and their argument blocks are. */
  function KeyEq(instances: seq<GenericInstance>, lhs: KeyOperand, rhs: KeyOperand): (eq: bool)
    requires IsStored(instances, lhs) && IsStored(instances, rhs)
    ensures eq <==> (AsKey(instances, lhs).genericId == AsKey(instances, rhs).genericId &&
                     AsKey(instances, lhs).argsId == AsKey(instances, rhs).argsId)
  {
    AsKey(instances, lhs) == AsKey(instances, rhs)
  }

  // ---------------------------------------------------------------------------
  // Profiles (the .cpp's value-keyed view of the lookup table)
  // ---------------------------------------------------------------------------

  /** The integers the profile loop appends for an argument list, one per
      argument, in order. */
  function ProfileArgs(argIds: seq<InstId>): (p: seq<int>)
    ensures |p| == |argIds|
    ensures forall k :: 0 <= k < |argIds| ==> p[k] == Index(argIds[k])
  {
    if argIds == [] then []
    else ProfileArgs(argIds[..|argIds| - 1]) + [Index(argIds[|argIds| - 1])]
  }

  /** `ProfileGenericInstance`: the generic's index followed by every
      argument's index. */
  function Profile(genericId: GenericId, argIds: seq<InstId>): (p: seq<int>)
    ensures |p| == |argIds| + 1 && p[0] == Index(genericId)
  {
    [Index(genericId)] + ProfileArgs(argIds)
  }

  /** Two profiles are equal exactly when the generics are the same and the
      argument lists are element-wise equal: keying the table by profile is
      keying it by (generic, argument values). */
  lemma {:induction false} ProfileInjective(g1: GenericId, a1: seq<InstId>, g2: GenericId, a2: seq<InstId>)
    ensures Profile(g1, a1) == Profile(g2, a2) <==> g1 == g2 && a1 == a2
  {
    if Profile(g1, a1) == Profile(g2, a2) {
      var p1, p2 := Profile(g1, a1), Profile(g2, a2);
      IndexInjective(g1, g2);
      assert |a1| == |a2|;
      forall k | 0 <= k < |a1| ensures a1[k] == a2[k] {
        assert p1[k + 1] == p2[k + 1];
        IndexInjective(a1[k], a2[k]);
      }
    }
  }

  // ---------------------------------------------------------------------------
  // The instance store
  // ---------------------------------------------------------------------------

  /** The instance's argument block is in the block store. */
  predicate ArgsStored(instance: GenericInstance, blocks: seq<seq<InstId>>)
  {
    instance.argsId.IsValid() && instance.argsId.index < |blocks|
  }

  /** `Node::Profile`: the profile of an instance already created, computed
      from its generic and the contents of its argument block. */
  function InstanceProfile(instance: GenericInstance, blocks: seq<seq<InstId>>): (p: seq<int>)
    requires ArgsStored(instance, blocks)
    ensures |p| == |blocks[instance.argsId.index]| + 1 && p[0] == Index(instance.genericId)
  {
    Profile(instance.genericId, blocks[instance.argsId.index])
  }

  /** The store's invariant: every instance's arguments are stored, every
      instance is registered in the table under its own profile, and every
      table entry names a stored instance with that profile. */
  predicate StoreConsistent(instances: seq<GenericInstance>, blocks: seq<seq<InstId>>,
                            table: map<seq<int>, GenericInstanceId>)
  {
    && (forall i :: 0 <= i < |instances| ==> ArgsStored(instances[i], blocks))
    && (forall i :: 0 <= i < |instances| ==>
          InstanceProfile(instances[i], blocks) in table && table[InstanceProfile(instances[i], blocks)] == Id(i))
    && (forall p :: p in table ==>
          table[p].IsValid() && table[p].index < |instances| &&
          ArgsStored(instances[table[p].index], blocks) &&
          InstanceProfile(instances[table[p].index], blocks) == p)
  }

  /** Instance `i` of the store has generic `genericId` and arguments `argIds`. */
  predicate HasKey(instances: seq<GenericInstance>, blocks: seq<seq<InstId>>, i: int,
                   genericId: GenericId, argIds: seq<InstId>)
  {
    && 0 <= i < |instances|
    && ArgsStored(instances[i], blocks)
    && instances[i].genericId == genericId
    && blocks[instances[i].argsId.index] == argIds
  }

  /** In a consistent store no two instances share a generic and an argument
      list: the store deduplicates. */
  lemma StoredInstancesDistinct(instances: seq<GenericInstance>, blocks: seq<seq<InstId>>,
                                table: map<seq<int>, GenericInstanceId>, i: int, j: int,
                                genericId: GenericId, argIds: seq<InstId>)
    requires StoreConsistent(instances, blocks, table)
    requires HasKey(instances, blocks, i, genericId, argIds) && HasKey(instances, blocks, j, genericId, argIds)
    ensures i == j
  {
    assert InstanceProfile(instances[i], blocks) == InstanceProfile(instances[j], blocks);
  }

  /** A consistent store has the profile of (g, args) in its table exactly
      when some instance has generic g and arguments args, and then the table
      names that instance. */
  lemma {:induction false} TableFindsExactly(instances: seq<GenericInstance>, blocks: seq<seq<InstId>>,
                                             table: map<seq<int>, GenericInstanceId>,
                                             genericId: GenericId, argIds: seq<InstId>)
    requires StoreConsistent(instances, blocks, table)
    ensures Profile(genericId, argIds) in table ==>
      HasKey(instances, blocks, table[Profile(genericId, argIds)].index, genericId, argIds)
    ensures (exists i :: HasKey(instances, blocks, i, genericId, argIds)) ==> Profile(genericId, argIds) in table
  {
    var p := Profile(genericId, argIds);
    if p in table {
      var i := table[p].index;
      ProfileInjective(genericId, argIds, instances[i].genericId, blocks[instances[i].argsId.index]);
    }
    if exists i :: HasKey(instances, blocks, i, genericId, argIds) {
      var i :| HasKey(instances, blocks, i, genericId, argIds);
      assert InstanceProfile(instances[i], blocks) == p;
    }
  }

  /** Appending a block leaves the profile of every stored instance as it
      was. */
  lemma ProfileKeptByNewBlock(instance: GenericInstance, blocks: seq<seq<InstId>>, block: seq<InstId>)
    requires ArgsStored(instance, blocks)
    ensures ArgsStored(instance, blocks + [block])
    ensures InstanceProfile(instance, blocks + [block]) == InstanceProfile(instance, blocks)
  {
    assert (blocks + [block])[instance.argsId.index] == blocks[instance.argsId.index];
  }

  /** After the append, every instance is registered under its own profile,
      when the new profile was not in the table before. */
  lemma AddKeepsInstancesRegistered(instances: seq<GenericInstance>, blocks: seq<seq<InstId>>,
                                    table: map<seq<int>, GenericInstanceId>,
                                    genericId: GenericId, argIds: seq<InstId>)
    requires StoreConsistent(instances, blocks, table)
    requires Profile(genericId, argIds) !in table
    ensures var instances', blocks' := instances + [NewGenericInstance(genericId, Id(|blocks|))], blocks + [argIds];
      var table' := table[Profile(genericId, argIds) := Id(|instances|)];
      forall i :: 0 <= i < |instances'| ==>
        ArgsStored(instances'[i], blocks') &&
        InstanceProfile(instances'[i], blocks') in table' && table'[InstanceProfile(instances'[i], blocks')] == Id(i)
  {
    var added := NewGenericInstance(genericId, Id(|blocks|));
    var instances', blocks' := instances + [added], blocks + [argIds];
    var key := Profile(genericId, argIds);
    var table' := table[key := Id(|instances|)];
    forall i | 0 <= i < |instances'|
      ensures ArgsStored(instances'[i], blocks')
      ensures InstanceProfile(instances'[i], blocks') in table'
      ensures table'[InstanceProfile(instances'[i], blocks')] == Id(i)
    {
      if i < |instances| {
        assert instances'[i] == instances[i];
        ProfileKeptByNewBlock(instances[i], blocks, argIds);
        assert InstanceProfile(instances[i], blocks) in table;
      } else {
        assert InstanceProfile(added, blocks') == key;
      }
    }
  }

  /** After the append, every table entry names an instance with that
      profile. */
  lemma AddKeepsEntriesValid(instances: seq<GenericInstance>, blocks: seq<seq<InstId>>,
                             table: map<seq<int>, GenericInstanceId>,
                             genericId: GenericId, argIds: seq<InstId>)
    requires StoreConsistent(instances, blocks, table)
    ensures var instances', blocks' := instances + [NewGenericInstance(genericId, Id(|blocks|))], blocks + [argIds];
      var table' := table[Profile(genericId, argIds) := Id(|instances|)];
      forall p :: p in table' ==>
        table'[p].IsValid() && table'[p].index < |instances'| &&
        ArgsStored(instances'[table'[p].index], blocks') &&
        InstanceProfile(instances'[table'[p].index], blocks') == p
  {
    var added := NewGenericInstance(genericId, Id(|blocks|));
    var instances', blocks' := instances + [added], blocks + [argIds];
    var key := Profile(genericId, argIds);
    var table' := table[key := Id(|instances|)];
    forall p | p in table'
      ensures table'[p].IsValid() && table'[p].index < |instances'|
      ensures ArgsStored(instances'[table'[p].index], blocks')
      ensures InstanceProfile(instances'[table'[p].index], blocks') == p
    {
      if p != key {
        var i := table[p].index;
        assert instances'[i] == instances[i];
        ProfileKeptByNewBlock(instances[i], blocks, argIds);
      } else {
        assert InstanceProfile(added, blocks') == key;
      }
    }
  }

  /** Appending a new instance, with its arguments in a new block, registered
      under a profile the table did not hold, keeps the store consistent. */
  lemma AddKeepsConsistent(instances: seq<GenericInstance>, blocks: seq<seq<InstId>>,
                           table: map<seq<int>, GenericInstanceId>,
                           genericId: GenericId, argIds: seq<InstId>)
    requires StoreConsistent(instances, blocks, table)
    requires Profile(genericId, argIds) !in table
    ensures StoreConsistent(instances + [NewGenericInstance(genericId, Id(|blocks|))], blocks + [argIds],
                            table[Profile(genericId, argIds) := Id(|instances|)])
  {
    AddKeepsInstancesRegistered(instances, blocks, table, genericId, argIds);
    AddKeepsEntriesValid(instances, blocks, table, genericId, argIds);
  }

  /** The argument list copied element by element into a fresh list. */
  method CopyArgs(argIds: seq<InstId>) returns (argInstIds: seq<InstId>)
    ensures argInstIds == argIds
  {
    argInstIds := [];
    var k := 0;
    while k < |argIds|
      invariant 0 <= k <= |argIds|
      invariant argInstIds == argIds[..k]
    {
      argInstIds := argInstIds + [argIds[k]];
      k := k + 1;
    }
  }

  /** Storage for deduplicated instances of generics. The argument blocks live
      in the shared instruction-block store. */
  class GenericInstanceStore {
    const instBlockStore: InstBlockStore
    var genericInstances: seq<GenericInstance>
    var lookupTable: map<seq<int>, GenericInstanceId>

    ghost predicate Valid()
      reads this, instBlockStore
    {
      StoreConsistent(genericInstances, instBlockStore.blocks, lookupTable)
    }

    constructor (instBlockStore: InstBlockStore)
      ensures Valid()
      ensures this.instBlockStore == instBlockStore
      ensures genericInstances == [] && lookupTable == map[]
    {
      this.instBlockStore := instBlockStore;
      genericInstances := [];
      lookupTable := map[];
    }

    predicate Contains(id: GenericInstanceId)
      reads this
    {
      id.IsValid() && id.index < |genericInstances|
    }

    /** The instance with the given id. */
    function Get(id: GenericInstanceId): (instance: GenericInstance)
      reads this
      requires Contains(id)
      ensures instance == genericInstances[id.index]
    {
      genericInstances[id.index]
    }

    /** The argument values of a stored instance. */
    function Args(id: GenericInstanceId): (args: seq<InstId>)
      reads this, instBlockStore
      requires Valid() && Contains(id)
    {
      instBlockStore.blocks[Get(id).argsId.index]
    }

    /** Returns the instance for `genericId` and `argIds`, creating it (with a
        fresh copy of the arguments in a new block) only when no stored
        instance has that generic and element-wise equal arguments. */
    method GetOrAdd(genericId: GenericId, argIds: seq<InstId>) returns (id: GenericInstanceId)
      requires Valid()
      modifies this, instBlockStore
      ensures Valid()
      ensures Contains(id) && Get(id).genericId == genericId && Args(id) == argIds
      ensures forall i :: HasKey(old(genericInstances), old(instBlockStore.blocks), i, genericId, argIds) ==>
                id == Id(i)
      ensures (exists i :: HasKey(old(genericInstances), old(instBlockStore.blocks), i, genericId, argIds)) ==>
                genericInstances == old(genericInstances) && lookupTable == old(lookupTable) &&
                instBlockStore.blocks == old(instBlockStore.blocks)
      ensures (forall i :: !HasKey(old(genericInstances), old(instBlockStore.blocks), i, genericId, argIds)) ==>
                id == Id(|old(genericInstances)|) &&
                genericInstances == old(genericInstances) + [NewGenericInstance(genericId, Id(|old(instBlockStore.blocks)|))] &&
                instBlockStore.blocks == old(instBlockStore.blocks) + [argIds] &&
                lookupTable == old(lookupTable)[Profile(genericId, argIds) := id]
    {
      var profile := Profile(genericId, argIds);
      TableFindsExactly(genericInstances, instBlockStore.blocks, lookupTable, genericId, argIds);
      if profile in lookupTable {
        id := lookupTable[profile];
        assert HasKey(genericInstances, instBlockStore.blocks, id.index, genericId, argIds);
        return;
      }

      // Copy the arguments into the new instance's own block.
      var argInstIds := CopyArgs(argIds);

      AddKeepsConsistent(genericInstances, instBlockStore.blocks, lookupTable, genericId, argIds);
      var argsId := instBlockStore.Add(argInstIds);
      id := Id(|genericInstances|);
      genericInstances := genericInstances + [NewGenericInstance(genericId, argsId)];
      lookupTable := lookupTable[profile := id];
      assert Get(id) == NewGenericInstance(genericId, argsId);
      assert Args(id) == argIds;
    }
  }

  /** Calling `GetOrAdd` twice with the same generic and arguments yields the
      same instance. */
  method GetOrAddTwice(store: GenericInstanceStore, genericId: GenericId, argIds: seq<InstId>)
    returns (first: GenericInstanceId, second: GenericInstanceId)
    requires store.Valid()
    modifies store, store.instBlockStore
    ensures store.Valid()
    ensures first == second
  {
    first := store.GetOrAdd(genericId, argIds);
    assert HasKey(store.genericInstances, store.instBlockStore.blocks, first.index, genericId, argIds);
    second := store.GetOrAdd(genericId, argIds);
  }

  // ---------------------------------------------------------------------------
  // Substituted types and region indexes
  // ---------------------------------------------------------------------------

  /** A position in one of the two regions of a generic. */
  datatype RegionRef = DeclRegion(position: nat) | DefinitionRegion(position: nat)

  /** The signed encoding of a region position: the declaration region's
      positions are the non-negative integers, the definition region's are
      the negative ones, position `p` being `-p - 1`. */
  function EncodeRegionIndex(r: RegionRef): (index: int)
    ensures index >= 0 <==> r.DeclRegion?
  {
    match r
    case DeclRegion(p) => p
    case DefinitionRegion(p) => -(p as int) - 1
  }

  /** Decodes a signed region index: its sign selects the region. */
  function DecodeRegionIndex(index: int): (r: RegionRef)
    ensures r.DeclRegion? <==> index >= 0
    ensures EncodeRegionIndex(r) == index
  {
    if index >= 0 then DeclRegion(index) else DefinitionRegion(-index - 1)
  }

  /** Decoding inverts encoding, so declaration and definition references
      never collide. */
  lemma RegionIndexRoundTrip(r: RegionRef)
    ensures DecodeRegionIndex(EncodeRegionIndex(r)) == r
  {
  }

  /** What the type store records of a substituted type: the generic it
      belongs to, its signed region index, and the type as written in the
      generic. */
  datatype SubstitutedTypeInfo = SubstitutedTypeInfo(genericId: GenericId, index: int, patternId: TypeId)

  /** The parts of the IR file that `GetTypeInstance` reads. A type is
      substituted exactly when the type store has substituted-type
      information for it. */
  datatype File = File(
    substitutedTypes: map<TypeId, SubstitutedTypeInfo>,
    genericInstances: seq<GenericInstance>,
    typeBlocks: seq<seq<TypeId>>)

  function InstanceRegion(instance: GenericInstance, r: RegionRef): GenericInstanceRegion
  {
    if r.DeclRegion? then instance.decl else instance.definition
  }

  /** The substituted type at a position of an instance's region, `Invalid`
      while the region has not been populated. */
  function TypeInRegion(file: File, region: GenericInstanceRegion, position: nat): TypeId
    requires region.substitutedTypesId.IsValid() ==>
      region.substitutedTypesId.index < |file.typeBlocks| &&
      position < |file.typeBlocks[region.substitutedTypesId.index]|
  {
    if region.substitutedTypesId.IsValid()
    then file.typeBlocks[region.substitutedTypesId.index][position]
    else Invalid
  }

  /** The fatal checks of `GetTypeInstance`: the instance exists, belongs to
      the type's generic, and a populated region has the position. */
  predicate TypeInstanceChecks(file: File, instanceId: GenericInstanceId, typeId: TypeId)
  {
    typeId in file.substitutedTypes && instanceId.IsValid() ==>
      var info := file.substitutedTypes[typeId];
      var ref := DecodeRegionIndex(info.index);
      && instanceId.index < |file.genericInstances|
      && file.genericInstances[instanceId.index].genericId == info.genericId
      && var region := InstanceRegion(file.genericInstances[instanceId.index], ref);
         region.substitutedTypesId.IsValid() ==>
           region.substitutedTypesId.index < |file.typeBlocks| &&
           ref.position < |file.typeBlocks[region.substitutedTypesId.index]|
  }

  /** `GetTypeInstance`: the type an instance substitutes for `typeId`.
      Does not substitute anything itself. */
  function GetTypeInstance(file: File, instanceId: GenericInstanceId, typeId: TypeId): (r: TypeId)
    requires TypeInstanceChecks(file, instanceId, typeId)
    ensures typeId !in file.substitutedTypes ==> r == typeId
    ensures typeId in file.substitutedTypes && !instanceId.IsValid() ==>
      r == file.substitutedTypes[typeId].patternId
    ensures typeId in file.substitutedTypes && instanceId.IsValid() ==>
      var ref := DecodeRegionIndex(file.substitutedTypes[typeId].index);
      r == TypeInRegion(file, InstanceRegion(file.genericInstances[instanceId.index], ref), ref.position)
  {
    if typeId !in file.substitutedTypes then typeId
    else
      var info := file.substitutedTypes[typeId];
      if !instanceId.IsValid() then info.patternId
      else
        var instance := file.genericInstances[instanceId.index];
        var region := if info.index >= 0 then instance.decl else instance.definition;
        if !region.substitutedTypesId.IsValid() then Invalid
        else
          var types := file.typeBlocks[region.substitutedTypesId.index];
          types[if info.index >= 0 then info.index else -info.index - 1]
  }

  /** A substituted type whose index encodes position `p` of the declaration
      (definition) region resolves, in an instance, to the `p`-th type of
      that instance's declaration (definition) region, or to `Invalid` while
      that region is not populated. */
  lemma GetTypeInstanceResolvesEncoded(file: File, instanceId: GenericInstanceId, typeId: TypeId, ref: RegionRef)
    requires TypeInstanceChecks(file, instanceId, typeId)
    requires typeId in file.substitutedTypes && instanceId.IsValid()
    requires file.substitutedTypes[typeId].index == EncodeRegionIndex(ref)
    ensures ref.DeclRegion? ==>
      GetTypeInstance(file, instanceId, typeId) == TypeInRegion(file, file.genericInstances[instanceId.index].decl, ref.position)
    ensures ref.DefinitionRegion? ==>
      GetTypeInstance(file, instanceId, typeId) == TypeInRegion(file, file.genericInstances[instanceId.index].definition, ref.position)
  {
    RegionIndexRoundTrip(ref);
  }
}
