/** Collecting, merging and judging the methods of a class and its roles in one go. */
module ClassComposition {
  import opened BitMasks
  import opened OriginSets
  import opened SlotTables
  import opened SlotMerge
  import opened ObjectLayout
  import opened Participants
  import opened Composition
  import opened Resolution
  import opened Verdicts

  lemma {:induction false} TablesAt(all: seq<ProtoRole>, p: nat)
    requires p < |all| && forall pr :: pr in all ==> pr.methods.Valid()
    ensures |MethodTables(all)| == |all| && all[p] in all && MethodTables(all)[p] == all[p].methods.Contents()
  {
    var n := |all| - 1;
    assert all[n] in all;
    if n > 0 {
      TablesAt(all[..n], if p < n then p else 0);
      assert p < n ==> all[..n][p] == all[p];
    } else {
      assert all[..0] == [];
    }
  }

  lemma StampedTables(all: seq<ProtoRole>, before: seq<seq<MethodSlot>>)
    requires all != [] && |all| == |before| <= MAX_BITS && forall pr :: pr in all ==> pr.methods.Valid()
    requires forall p: nat :: p < |all| ==> all[p].methods.Contents() == WithBit(before[p], Bit(p)) && RequirementsEmpty(before[p])
    ensures Assigned(MethodTables(all), before)
  {
    hide Bit, WithBit, MethodTables, RequirementsEmpty;
    TablesAt(all, 0);
    forall p: nat | p < |all| ensures RequirementsEmpty(before[p]) && MethodTables(all)[p] == WithBit(before[p], Bit(p)) {
      TablesAt(all, p);
    }
  }

  lemma AllStamped(all: seq<ProtoRole>, before: seq<seq<MethodSlot>>)
    requires all != [] && |all| == |before| <= MAX_BITS
    requires forall p: nat :: p < |all| ==> all[p].methods.Valid() && all[p].methods.Contents() == WithBit(before[p], Bit(p)) && RequirementsEmpty(before[p])
    ensures forall pr :: pr in all ==> pr.methods.Valid()
    ensures Assigned(MethodTables(all), before) && MethodTables(all)[0] == all[0].methods.Contents()
  {
    hide Bit, WithBit, MethodTables, RequirementsEmpty, Assigned;
    forall pr | pr in all ensures pr.methods.Valid() {
      var p: nat :| p < |all| && all[p] == pr;
    }
    StampedTables(all, before);
    TablesAt(all, 0);
  }

  /** Gives out the bits and merges all tables. */
  method StampAndMerge(all: seq<ProtoRole>, ghost before: seq<seq<MethodSlot>>)
    returns (ok: bool, stashes: seq<Stash>, slots: array<MethodSlot>, count: nat, ghost tables: seq<seq<MethodSlot>>)
    requires all != [] && Separate(all) && |before| == |all|
    requires forall p: nat :: p < |all| ==> all[p].methods.Valid() && all[p].methods.Contents() == before[p] && RequirementsEmpty(before[p])
    modifies set pr | pr in all :: pr.methods.slots
    modifies set pr | pr in all :: pr.fields.slots
    ensures ok <==> |all| <= MAX_BITS
    ensures ok ==> |stashes| == |all| && forall p: nat :: p < |all| ==> stashes[p] == all[p].stash
    ensures ok ==> Assigned(tables, before) && tables != [] && all[0].methods.Valid() && all[0].methods.Contents() == tables[0]
    ensures ok ==> count <= slots.Length && slots[..count] == ComposeAll(tables, CombineMethods)
  {
    hide WithBit, Bit, FieldsWithBit, RequirementsEmpty, ComposeAll, MethodTables, Assigned;
    ok, stashes := AssignIds(all);
    tables, count := [], 0;
    slots := new MethodSlot[0];
    if !ok { return; }
    forall p: nat | p < |all| ensures all[p].methods.Valid() && all[p].methods.Contents() == WithBit(before[p], Bit(p)) {
      assert Stamped(all[p], Bit(p));
    }
    hide Stamped, Separate;
    AllStamped(all, before);
    TablesAt(all, 0);
    tables := MethodTables(all);
    slots, count := ComposeMethods(all);
  }

  /** The methods of a class and its roles, from the tables to the verdict: more than
      31 roles are refused; otherwise no error is reported exactly when the
      declarations are in order and no requirement was lost behind a greater name in a
      table, unless the class inherits the method or wrote it itself. */
  method CheckClass(all: seq<ProtoRole>, inherited: set<Name>, ghost before: seq<seq<MethodSlot>>)
    returns (r: Option<seq<CompositionError>>)
    requires all != [] && Separate(all) && |before| == |all| && Composable(before)
    requires forall p: nat :: p < |all| ==> (all[p].stash == all[0].stash <==> p == 0)
    requires forall p: nat :: p < |all| ==> all[p].methods.Valid() && all[p].methods.Contents() == before[p]
    modifies set pr | pr in all :: pr.methods.slots
    modifies set pr | pr in all :: pr.fields.slots
    ensures r.None? <==> |all| > MAX_BITS
    ensures r.Some? ==> (r.value == [] <==> Acceptable(before, inherited))
    ensures r.Some? ==> forall n :: ImplementationRequired(n) in r.value <==> CountsAsMissing(before, inherited, n)
  {
    hide Acceptable, CountsAsMissing, Composable, Assigned, ComposeAll, AllMethodErrors, Separate;
    ComposableEmpty(before);
    var ok, stashes, slots, count, tables := StampAndMerge(all, before);
    if !ok { return None; }
    ClassResolves(tables, before, inherited, stashes, all[0].stash);
    forall n
      ensures ImplementationRequired(n) in AllMethodErrors(ComposeAll(tables, CombineMethods), tables[0], inherited, stashes, all[0].stash, false)
              <==> CountsAsMissing(before, inherited, n)
    {
      MissingReported(tables, before, inherited, stashes, all[0].stash, n);
    }
    FirstIsStrict(tables, before);
    var errors := ResolveMethods(slots, count, all[0].methods, inherited, stashes, all[0].stash, false, []);
    return Some(errors);
  }
}
