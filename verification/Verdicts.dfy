/** What a class is told about its methods.

    The tables of the participants are sorted when they are recorded, but a role
    that passes requirements on appends them behind and does not sort again.  A
    requirement that is overtaken there never meets the slots of its name. */
module Verdicts {
  import opened BitMasks
  import opened OriginSets
  import opened SlotTables
  import opened SlotMerge
  import opened AheadSlots
  import opened ObjectLayout
  import opened Participants
  import opened Composition
  import opened Resolution

  // ----- the declarations

  /** Some participant has a slot for the name. */
  ghost predicate Mentioned(before: seq<seq<MethodSlot>>, n: Name) {
    exists p: nat :: p < |before| && Names(before[p], n)
  }

  /** In some table a slot of the name stands behind a slot whose name is not smaller. */
  ghost predicate Lost(before: seq<seq<MethodSlot>>, n: Name) {
    exists p: nat :: p < |before| && Overtaken(before[p], n)
  }

  /** Tables that can be composed into a class: the class's own table as it was
      recorded, and in any number of roles requirements behind what was recorded. */
  ghost predicate Composable(before: seq<seq<MethodSlot>>) {
    && before != [] && Finalized(before[0])
    && forall p: nat {:trigger before[p]} :: p < |before| ==> RequirementsEmpty(before[p]) && CodeAhead(before[p])
  }

  /** Every name that nobody defines is inherited, and every name that two or more
      roles define is a method the consumer wrote itself. */
  ghost predicate InOrder(before: seq<seq<MethodSlot>>, inherited: set<Name>) {
    before != [] && forall n :: Mentioned(before, n) ==>
      (Definers(before, n) == {} ==> n in inherited) && (|RoleDefiners(before, n)| >= 2 ==> HasExplicit(before[0], n))
  }

  /** What a class must meet to be told of no method error. */
  ghost predicate Acceptable(before: seq<seq<MethodSlot>>, inherited: set<Name>) {
    InOrder(before, inherited) && forall n :: Lost(before, n) ==> n in inherited || HasExplicit(before[0], n)
  }

  /** What makes a name missing in the eyes of the class. */
  ghost predicate CountsAsMissing(before: seq<seq<MethodSlot>>, inherited: set<Name>, n: Name)
    requires before != []
  {
    && n !in inherited && !HasExplicit(before[0], n)
    && ((Mentioned(before, n) && Definers(before, n) == {}) || Lost(before, n))
  }

  lemma ComposableEmpty(before: seq<seq<MethodSlot>>)
    requires Composable(before)
    ensures forall p: nat :: p < |before| ==> RequirementsEmpty(before[p])
    ensures forall p: nat :: p < |before| ==> CodeAhead(before[p])
  {}

  lemma FirstIsStrict(tables: seq<seq<MethodSlot>>, before: seq<seq<MethodSlot>>)
    requires Assigned(tables, before) && Composable(before)
    ensures Strict(tables[0])
  {
    assert Finalized(before[0]) && tables[0] == WithBit(before[0], Bit(0));
    BitKeepsNames(before[0], Bit(0), 0);
  }

  // ----- the bits

  function Stamp(before: seq<seq<MethodSlot>>): seq<seq<MethodSlot>>
    requires |before| <= MAX_BITS
  {
    seq(|before|, p requires 0 <= p < |before| => WithBit(before[p], Bit(p)))
  }

  lemma StampAssigns(tables: seq<seq<MethodSlot>>, before: seq<seq<MethodSlot>>)
    requires 0 < |before| <= MAX_BITS && forall p: nat :: p < |before| ==> RequirementsEmpty(before[p])
    ensures Assigned(Stamp(before), before)
    ensures Assigned(tables, before) ==> tables == Stamp(before)
  {
    hide Bit, WithBit, RequirementsEmpty;
  }

  lemma BitKeepsNames(s: seq<MethodSlot>, bit: OriginSet, n: Name)
    ensures Names(WithBit(s, bit), n) <==> Names(s, n)
    ensures HasExplicit(WithBit(s, bit), n) <==> HasExplicit(s, n)
    ensures Strict(s) ==> Strict(WithBit(s, bit))
  {
    var b := WithBit(s, bit);
    assert forall i :: 0 <= i < |s| ==> b[i].name == s[i].name && b[i].payload == s[i].payload;
    if Names(s, n) {
      var i :| 0 <= i < |s| && s[i].name == n;
      assert b[i].name == n;
    }
    if HasExplicit(s, n) {
      var i :| 0 <= i < |s| && s[i].name == n && IsExplicit(s[i]);
      assert b[i].name == n && IsExplicit(b[i]);
    }
  }

  lemma StampedNames(before: seq<seq<MethodSlot>>, n: Name)
    requires |before| <= MAX_BITS
    ensures Mentioned(before, n) <==> exists p: nat :: p < |before| && Names(Stamp(before)[p], n)
  {
    hide Bit, WithBit, Names;
    forall p: nat | p < |before| ensures Names(Stamp(before)[p], n) <==> Names(before[p], n) {
      BitKeepsNames(before[p], Bit(p), n);
    }
    if Mentioned(before, n) {
      var p: nat :| p < |before| && Names(before[p], n);
      assert Names(Stamp(before)[p], n);
    }
  }

  lemma StampedLost(before: seq<seq<MethodSlot>>, n: Name)
    requires |before| <= MAX_BITS
    ensures Lost(before, n) <==> exists p: nat :: p < |before| && Overtaken(Stamp(before)[p], n)
  {
    hide Bit, Overtaken, WithBit;
    forall p: nat | p < |before| ensures Overtaken(Stamp(before)[p], n) <==> Overtaken(before[p], n) {
      BitKeepsOvertaken(before[p], Bit(p), n);
    }
  }

  lemma BitKeepsOvertaken(s: seq<MethodSlot>, bit: OriginSet, n: Name)
    ensures Overtaken(WithBit(s, bit), n) <==> Overtaken(s, n)
  {
    var b := WithBit(s, bit);
    forall j: nat | j < |s| ensures (OvertakenAt(b, j) <==> OvertakenAt(s, j)) && b[j].name == s[j].name { BitOvertakes(s, bit, j); }
    hide OvertakenAt;
    if j: nat :| OvertakenAt(s, j) && s[j].name == n { OvertakenWithin(s, j); assert OvertakenAt(b, j); }
    if j: nat :| OvertakenAt(b, j) && b[j].name == n { OvertakenWithin(b, j); assert OvertakenAt(s, j); }
  }

  lemma OvertakenWithin(s: seq<MethodSlot>, j: nat)
    requires OvertakenAt(s, j)
    ensures j < |s|
  {}

  // ----- the slots of the composition

  ghost predicate SlotAt(s: seq<MethodSlot>, i: nat, n: Name, definers: set<nat>) {
    i < |s| && s[i].name == n && Members(s[i].origins) == definers
  }

  /** What the slots of the composed table say about a name: a slot has the definers
      of the name as origins, and if there are any it is the only one; a lost
      requirement has another slot, with no origin; and there are no other slots. */
  ghost predicate SlotsOf(s: seq<MethodSlot>, before: seq<seq<MethodSlot>>, n: Name) {
    && (Mentioned(before, n) ==> exists i: nat :: SlotAt(s, i, n, Definers(before, n)))
    && (forall i: nat, j: nat :: Definers(before, n) != {} && SlotAt(s, i, n, Definers(before, n)) && SlotAt(s, j, n, Definers(before, n)) ==> i == j)
    && (Lost(before, n) ==> exists i: nat :: SlotAt(s, i, n, {}))
    && (forall i: nat {:trigger s[i]} :: i < |s| && s[i].name == n ==>
          Mentioned(before, n) && (SlotAt(s, i, n, Definers(before, n)) || (Lost(before, n) && SlotAt(s, i, n, {}))))
  }

  /** One slot of the composition. */
  lemma SlotKnown(before: seq<seq<MethodSlot>>, i: nat, n: Name)
    requires Composable(before) && |before| <= MAX_BITS
    requires i < |ComposeAll(Stamp(before), CombineMethods)| && ComposeAll(Stamp(before), CombineMethods)[i].name == n
    ensures var s := ComposeAll(Stamp(before), CombineMethods);
            SlotAt(s, i, n, if OvertakenAt(s, i) then {} else Definers(before, n)) && Mentioned(before, n)
  {
    hide ComposeAll, CodeAhead, RequirementsEmpty, Defines, Members, OvertakenAt, Bit, WithBit;
    ComposableEmpty(before);
    StampAssigns([], before);
    SlotOrigins(Stamp(before), before, i);
    ComposeAllNames(Stamp(before), CombineMethods, n);
    StampedNames(before, n);
  }

  lemma MentionedHasSlot(before: seq<seq<MethodSlot>>, n: Name) returns (i: nat)
    requires Composable(before) && |before| <= MAX_BITS && Mentioned(before, n)
    ensures SlotAt(ComposeAll(Stamp(before), CombineMethods), i, n, Definers(before, n))
  {
    var s := ComposeAll(Stamp(before), CombineMethods);
    hide ComposeAll, CodeAhead, RequirementsEmpty, Defines, Members, Bit, WithBit, Stamp, Providers;
    ComposableEmpty(before);
    StampAssigns([], before);
    if Definers(before, n) != {} {
      ProvidersAreDefiners(Stamp(before), before, n);
      assert Providers(s, n) == Definers(before, n);
      i := SomeProviderOf(s, n);
      SlotKnown(before, i, n);
    } else {
      ComposeAllNames(Stamp(before), CombineMethods, n);
      StampedNames(before, n);
      assert Names(s, n);
      i :| i < |s| && s[i].name == n;
      SlotKnown(before, i, n);
    }
  }

  /** The slots of one name, if each of them is known. */
  ghost predicate KnownSlots(s: seq<MethodSlot>, n: Name, definers: set<nat>) {
    forall i: nat {:trigger s[i]} :: i < |s| && s[i].name == n ==> SlotAt(s, i, n, if OvertakenAt(s, i) then {} else definers)
  }

  lemma OneSlot(s: seq<MethodSlot>, n: Name, definers: set<nat>, i: nat, j: nat)
    requires KnownSlots(s, n, definers) && definers != {} && SlotAt(s, i, n, definers) && SlotAt(s, j, n, definers)
    ensures i == j
  {
    hide Members;
    OneAhead(s, i, j);
  }

  lemma OvertakenSlot(s: seq<MethodSlot>, n: Name, definers: set<nat>) returns (j: nat)
    requires KnownSlots(s, n, definers) && Overtaken(s, n)
    ensures SlotAt(s, j, n, {})
  {
    j :| OvertakenAt(s, j) && s[j].name == n;
    OvertakenWithin(s, j);
  }

  lemma SlotsKnown(before: seq<seq<MethodSlot>>, n: Name)
    requires Composable(before) && |before| <= MAX_BITS
    ensures KnownSlots(ComposeAll(Stamp(before), CombineMethods), n, Definers(before, n))
    ensures Names(ComposeAll(Stamp(before), CombineMethods), n) ==> Mentioned(before, n)
    ensures Overtaken(ComposeAll(Stamp(before), CombineMethods), n) <==> Lost(before, n)
  {
    var s := ComposeAll(Stamp(before), CombineMethods);
    StampedLost(before, n);
    OvertakenCompose(Stamp(before), CombineMethods, n);
    hide ComposeAll, Stamp, Composable, Definers, Members, Mentioned, Lost, OvertakenAt;
    forall i: nat | i < |s| && s[i].name == n
      ensures Mentioned(before, n) && SlotAt(s, i, n, if OvertakenAt(s, i) then {} else Definers(before, n))
    {
      SlotKnown(before, i, n);
    }
  }

  /** Every slot that the composition of a class has for a name. */
  lemma SlotsOfName(before: seq<seq<MethodSlot>>, n: Name)
    requires Composable(before) && |before| <= MAX_BITS
    ensures SlotsOf(ComposeAll(Stamp(before), CombineMethods), before, n)
  {
    var s := ComposeAll(Stamp(before), CombineMethods);
    SlotsKnown(before, n);
    hide ComposeAll, Stamp, Composable, Definers, Members, Mentioned, Lost, Overtaken;
    if Mentioned(before, n) { var i := MentionedHasSlot(before, n); }
    if Lost(before, n) { var j := OvertakenSlot(s, n, Definers(before, n)); }
    forall i: nat, j: nat | Definers(before, n) != {} && SlotAt(s, i, n, Definers(before, n)) && SlotAt(s, j, n, Definers(before, n)) ensures i == j {
      OneSlot(s, n, Definers(before, n), i, j);
    }
    forall i: nat | i < |s| && s[i].name == n
      ensures Mentioned(before, n) && (SlotAt(s, i, n, Definers(before, n)) || (Lost(before, n) && SlotAt(s, i, n, {})))
    {
      assert OvertakenAt(s, i) ==> Overtaken(s, n) by { OvertakenNamed(s, i); }
    }
  }

  lemma OvertakenNamed(s: seq<MethodSlot>, i: nat)
    requires i < |s|
    ensures OvertakenAt(s, i) ==> Overtaken(s, s[i].name)
  {}

  // ----- the verdict

  /** What the class is told about one name, over all its slots. */
  lemma NameVerdict(s: seq<MethodSlot>, before: seq<seq<MethodSlot>>, n: Name, own: seq<MethodSlot>,
                    inherited: set<Name>, stashes: seq<Stash>, stash: Stash)
    requires Participating(stashes, before, stash) && SlotsOf(s, before, n) && (HasExplicit(own, n) ==> 0 in Definers(before, n))
    ensures (forall i :: 0 <= i < |s| && s[i].name == n ==> MethodErrors(s[i], HasExplicit(own, n), n in inherited, stashes, stash, false) == [])
            <==> (Mentioned(before, n) ==> (Definers(before, n) == {} ==> n in inherited) &&
                                            (|RoleDefiners(before, n)| >= 2 ==> HasExplicit(own, n)))
                 && (Lost(before, n) ==> n in inherited || HasExplicit(own, n))
  {
    hide MethodErrors, HasExplicit, Mentioned, Lost, Defines, Members;
    forall i: nat | i < |s| && s[i].name == n && SlotAt(s, i, n, Definers(before, n))
      ensures MethodErrors(s[i], HasExplicit(own, n), n in inherited, stashes, stash, false) == [] <==>
              ((Definers(before, n) == {} ==> n in inherited) && (|RoleDefiners(before, n)| >= 2 ==> HasExplicit(own, n)))
    {
      SlotInOrder(s[i], own, inherited, stashes, before, stash);
    }
    forall i: nat | i < |s| && s[i].name == n && SlotAt(s, i, n, {})
      ensures MethodErrors(s[i], HasExplicit(own, n), n in inherited, stashes, stash, false) == [] <==> n in inherited || HasExplicit(own, n)
    {
      RequiredSlot(s[i], own, inherited, stashes, stash);
    }
    hide Definers, RoleDefiners;
  }

  lemma RequiredSlot(slot: MethodSlot, own: seq<MethodSlot>, inherited: set<Name>, stashes: seq<Stash>, stash: Stash)
    requires |stashes| <= MAX_BITS && Members(slot.origins) == {}
    ensures MethodErrors(slot, HasExplicit(own, slot.name), slot.name in inherited, stashes, stash, false) == [] <==>
            slot.name in inherited || HasExplicit(own, slot.name)
  {
    StatusBySize(slot.origins);
    hide Members, IsRequired, IsConflicted, Pairs, HasExplicit;
  }

  /** The whole composition of a class reports no method error exactly when every name
      that nobody defines is inherited, every name that two or more roles define is a
      method the consumer wrote itself, and every lost requirement is inherited or
      written by the consumer, even if another role defines it. */
  lemma ClassResolves(tables: seq<seq<MethodSlot>>, before: seq<seq<MethodSlot>>, inherited: set<Name>, stashes: seq<Stash>, stash: Stash)
    requires Assigned(tables, before) && Composable(before) && Participating(stashes, before, stash)
    ensures AllMethodErrors(ComposeAll(tables, CombineMethods), tables[0], inherited, stashes, stash, false) == [] <==>
            Acceptable(before, inherited)
  {
    ComposableEmpty(before);
    StampAssigns(tables, before);
    var s, own := ComposeAll(tables, CombineMethods), tables[0];
    ErrorsBySlot(s, own, inherited, stashes, stash, false);
    hide Composable, ComposeAll, Stamp, AllMethodErrors, MethodErrors, Definers, RoleDefiners, Mentioned, HasExplicit, SlotsOf, WithBit, Lost;
    forall n
      ensures HasExplicit(own, n) <==> HasExplicit(before[0], n)
      ensures (forall i :: 0 <= i < |s| && s[i].name == n ==> MethodErrors(s[i], HasExplicit(own, n), n in inherited, stashes, stash, false) == [])
            <==> (Mentioned(before, n) ==> (Definers(before, n) == {} ==> n in inherited) &&
                                            (|RoleDefiners(before, n)| >= 2 ==> HasExplicit(before[0], n)))
                 && (Lost(before, n) ==> n in inherited || HasExplicit(before[0], n))
    {
      BitKeepsNames(before[0], Bit(0), n);
      ExplicitDefines(tables, before, n);
      SlotsOfName(before, n);
      NameVerdict(s, before, n, own, inherited, stashes, stash);
    }
    hide Assigned, Participating;
  }

  // ----- which names are reported missing

  lemma {:induction false} RowReportsConflicts(side: Side, name: Name, o: OriginSet, stashes: seq<Stash>, except: Option<Stash>, bit: nat, other: nat, n: Name)
    requires bit < |stashes| <= MAX_BITS && other <= |stashes|
    ensures ImplementationRequired(n) !in Row(side, name, o, stashes, except, bit, other)
    decreases |stashes| - other
  {
    if other < |stashes| { RowReportsConflicts(side, name, o, stashes, except, bit, other + 1, n); }
  }

  lemma {:induction false} PairsReportConflicts(side: Side, name: Name, o: OriginSet, stashes: seq<Stash>, except: Option<Stash>, bit: nat, n: Name)
    requires bit <= |stashes| <= MAX_BITS
    ensures ImplementationRequired(n) !in Pairs(side, name, o, stashes, except, bit)
    decreases |stashes| - bit
  {
    if bit < |stashes| {
      PairsReportConflicts(side, name, o, stashes, except, bit + 1, n);
      RowReportsConflicts(side, name, o, stashes, except, bit, bit + 1, n);
    }
  }

  lemma SlotReports(slot: MethodSlot, explicit: bool, inherited: bool, stashes: seq<Stash>, stash: Stash, n: Name)
    requires |stashes| <= MAX_BITS
    ensures ImplementationRequired(n) in MethodErrors(slot, explicit, inherited, stashes, stash, false) <==>
            slot.name == n && !explicit && !inherited && Members(slot.origins) == {}
  {
    StatusBySize(slot.origins);
    hide Members, IsRequired, IsConflicted, Pairs;
    PairsReportConflicts(Methods, slot.name, slot.origins, stashes, Some(stash), 0, n);
  }

  /** One slot of the table reports the error. */
  ghost predicate ReportedAt(s: seq<MethodSlot>, i: nat, own: seq<MethodSlot>, inherited: set<Name>, stashes: seq<Stash>, stash: Stash, e: CompositionError)
    requires |stashes| <= MAX_BITS
  {
    i < |s| && e in MethodErrors(s[i], HasExplicit(own, s[i].name), s[i].name in inherited, stashes, stash, false)
  }

  lemma ErrorsOfLast(s: seq<MethodSlot>, own: seq<MethodSlot>, inherited: set<Name>, stashes: seq<Stash>, stash: Stash, e: CompositionError)
    requires |stashes| <= MAX_BITS && s != []
    ensures e in AllMethodErrors(s, own, inherited, stashes, stash, false) <==>
            e in AllMethodErrors(s[..|s| - 1], own, inherited, stashes, stash, false) ||
            ReportedAt(s, |s| - 1, own, inherited, stashes, stash, e)
  {
    hide MethodErrors, HasExplicit;
  }

  lemma ReportedInFront(s: seq<MethodSlot>, i: nat, own: seq<MethodSlot>, inherited: set<Name>, stashes: seq<Stash>, stash: Stash, e: CompositionError)
    requires |stashes| <= MAX_BITS && i < |s| - 1
    ensures ReportedAt(s[..|s| - 1], i, own, inherited, stashes, stash, e) <==> ReportedAt(s, i, own, inherited, stashes, stash, e)
  {}

  lemma {:induction false} ReportedSomewhere(s: seq<MethodSlot>, own: seq<MethodSlot>, inherited: set<Name>, stashes: seq<Stash>, stash: Stash, e: CompositionError)
    requires |stashes| <= MAX_BITS
    ensures e in AllMethodErrors(s, own, inherited, stashes, stash, false) <==>
            exists i: nat :: ReportedAt(s, i, own, inherited, stashes, stash, e)
  {
    if s != [] {
      var n := |s| - 1;
      ErrorsOfLast(s, own, inherited, stashes, stash, e);
      ReportedSomewhere(s[..n], own, inherited, stashes, stash, e);
      hide AllMethodErrors, MethodErrors, HasExplicit;
      forall i: nat ensures ReportedAt(s, i, own, inherited, stashes, stash, e) <==>
        ReportedAt(s[..n], i, own, inherited, stashes, stash, e) || (i == n && ReportedAt(s, n, own, inherited, stashes, stash, e))
      {
        if i < n { ReportedInFront(s, i, own, inherited, stashes, stash, e); }
      }
    }
  }

  lemma NameReported(s: seq<MethodSlot>, before: seq<seq<MethodSlot>>, n: Name, own: seq<MethodSlot>,
                     inherited: set<Name>, stashes: seq<Stash>, stash: Stash)
    requires |stashes| <= MAX_BITS && SlotsOf(s, before, n)
    ensures ImplementationRequired(n) in AllMethodErrors(s, own, inherited, stashes, stash, false) <==>
            n !in inherited && !HasExplicit(own, n) && ((Mentioned(before, n) && Definers(before, n) == {}) || Lost(before, n))
  {
    var e := ImplementationRequired(n);
    ReportedSomewhere(s, own, inherited, stashes, stash, e);
    forall i: nat | i < |s|
      ensures ReportedAt(s, i, own, inherited, stashes, stash, e) <==>
              s[i].name == n && n !in inherited && !HasExplicit(own, n) && Members(s[i].origins) == {}
    {
      SlotReports(s[i], HasExplicit(own, s[i].name), s[i].name in inherited, stashes, stash, n);
    }
    hide AllMethodErrors, ReportedAt, HasExplicit, Mentioned, Lost, Definers, Members;
  }

  /** A name is reported missing exactly when the consumer neither inherits nor wrote
      the method, and either it is required and no participant's table defines it, or a
      requirement for it was lost: then it is reported even if a role defines it. */
  lemma MissingReported(tables: seq<seq<MethodSlot>>, before: seq<seq<MethodSlot>>,
                        inherited: set<Name>, stashes: seq<Stash>, stash: Stash, n: Name)
    requires Assigned(tables, before) && Composable(before) && |stashes| <= MAX_BITS
    ensures ImplementationRequired(n) in AllMethodErrors(ComposeAll(tables, CombineMethods), tables[0], inherited, stashes, stash, false) <==>
            CountsAsMissing(before, inherited, n)
  {
    ComposableEmpty(before);
    StampAssigns(tables, before);
    BitKeepsNames(before[0], Bit(0), n);
    SlotsOfName(before, n);
    hide Composable, ComposeAll, AllMethodErrors, Definers, Mentioned, HasExplicit, SlotsOf, Lost;
    NameReported(ComposeAll(tables, CombineMethods), before, n, tables[0], inherited, stashes, stash);
  }
}
