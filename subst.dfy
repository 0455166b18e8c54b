/** Substitution tables (toolchain/check/subst.h). The substitution itself is
    performed by `SubstConstant` and `SubstType`, which are modelled
    abstractly: `SubstConstant` is passed around as a function, and only the
    contract its documentation states is written down. */
module Subst {
  import opened Ids

  /** A table indexed by compile-time bind index. An `Invalid` entry means
      that index is not substituted. */
  type Substitutions = seq<InstId>

  /** Whether the table replaces the binding with the given index. */
  predicate Substitutes(table: Substitutions, index: nat)
  {
    index < |table| && table[index].IsValid()
  }

  /** A table that performs a single replacement: as long as needed to hold
      `index`, holding `replacement` there and `Invalid` everywhere before,
      so it substitutes exactly that index (when the replacement is valid). */
  function BuildSingleSubstitution(index: nat, replacement: InstId): (table: Substitutions)
    ensures |table| == index + 1
    ensures table[index] == replacement
    ensures forall k :: 0 <= k < index ==> table[k] == Invalid
    ensures forall k: nat :: Substitutes(table, k) <==> k == index && replacement.IsValid()
  {
    Resize([], index + 1, Invalid)[index := replacement]
  }

  /** `SubstConstant(const_id, substitutions)`. */
  type SubstConstantFn = (ConstantId, Substitutions) -> ConstantId

  /** The documented contract of `SubstConstant` on the two shapes of
      constant where it is determined: a constant with no symbolic content is
      returned as it is, and a constant that is itself a reference to
      binding `i` becomes the table's entry for `i` when the table
      substitutes `i`, and stays as it is otherwise. */
  ghost predicate ReplacesBindings(subst: SubstConstantFn, kindOf: InstId -> InstKind)
  {
    && (forall c: ConstantId, table: Substitutions :: !c.IsSymbolic() ==> subst(c, table) == c)
    && (forall c: ConstantId, table: Substitutions ::
          c.IsSymbolic() && kindOf(c.InstIdOf()).BindSymbolicName? &&
          kindOf(c.InstIdOf()).bindIndex.IsValid() ==>
            var i := kindOf(c.InstIdOf()).bindIndex.index;
            if Substitutes(table, i) then subst(c, table).InstIdOf() == table[i]
            else subst(c, table) == c)
  }

  /** Substituting a single-entry table for binding `i` into the bare
      reference to binding `i` yields the replacement; into a reference to
      any other binding, or into a non-symbolic constant, it changes
      nothing. */
  lemma SingleSubstitution(subst: SubstConstantFn, kindOf: InstId -> InstKind,
                           c: ConstantId, index: nat, replacement: InstId)
    requires ReplacesBindings(subst, kindOf)
    requires replacement.IsValid()
    ensures c.IsSymbolic() && kindOf(c.InstIdOf()) == BindSymbolicName(Id(index)) ==>
      subst(c, BuildSingleSubstitution(index, replacement)).InstIdOf() == replacement
    ensures c.IsSymbolic() && kindOf(c.InstIdOf()).BindSymbolicName? &&
            kindOf(c.InstIdOf()).bindIndex.IsValid() && kindOf(c.InstIdOf()).bindIndex.index != index ==>
      subst(c, BuildSingleSubstitution(index, replacement)) == c
    ensures !c.IsSymbolic() ==> subst(c, BuildSingleSubstitution(index, replacement)) == c
  {
    var table := BuildSingleSubstitution(index, replacement);
    if c.IsSymbolic() && kindOf(c.InstIdOf()).BindSymbolicName? && kindOf(c.InstIdOf()).bindIndex.IsValid() {
      var i := kindOf(c.InstIdOf()).bindIndex.index;
      assert Substitutes(table, i) <==> i == index;
    }
  }
}
