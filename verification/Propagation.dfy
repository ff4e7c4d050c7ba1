/** What passing requirements on does to the tables that later compositions merge. */
module Propagation {
  import opened BitMasks
  import opened OriginSets
  import opened SlotTables
  import opened SlotMerge
  import opened AheadSlots
  import opened ObjectLayout
  import opened Participants
  import opened Composition
  import opened Resolution
  import opened Verdicts

  lemma {:induction false} NewRequirementsFrom(composed: seq<MethodSlot>, stored: seq<MethodSlot>)
    ensures forall r :: r in NewRequirements(composed, stored) ==>
      exists i :: 0 <= i < |composed| && composed[i].name == r.name
    ensures forall r :: r in NewRequirements(composed, stored) ==> !(exists j :: 0 <= j < |stored| && stored[j].name == r.name)
  {
    if composed != [] {
      var n := |composed| - 1;
      NewRequirementsFrom(composed[..n], stored);
      forall r | r in NewRequirements(composed, stored)
        ensures exists i :: 0 <= i < |composed| && composed[i].name == r.name
      {
        if r in NewRequirements(composed[..n], stored) {
          var i :| 0 <= i < n && composed[..n][i].name == r.name;
          assert composed[i].name == r.name;
        } else {
          assert composed[n].name == r.name;
        }
      }
    }
  }

  lemma {:induction false} NewRequirementsStrict(composed: seq<MethodSlot>, stored: seq<MethodSlot>)
    requires Strict(composed)
    ensures Strict(NewRequirements(composed, stored))
  {
    if composed != [] {
      var n := |composed| - 1;
      NewRequirementsStrict(composed[..n], stored);
      NewRequirementsFrom(composed[..n], stored);
      var front := NewRequirements(composed[..n], stored);
      forall i | 0 <= i < |front| ensures front[i].name < composed[n].name {
        assert front[i] in front;
        var k :| 0 <= k < n && composed[..n][k].name == front[i].name;
      }
    }
  }

  lemma StrictJoin(a: seq<MethodSlot>, b: seq<MethodSlot>)
    requires Strict(a) && Strict(b) && a != [] && b != []
    ensures Strict(a + b) <==> a[|a| - 1].name < b[0].name
  {
    var all := a + b;
    assert all[|a| - 1] == a[|a| - 1] && all[|a|] == b[0];
    if a[|a| - 1].name < b[0].name {
      forall i, j | 0 <= i < j < |all| ensures all[i].name < all[j].name {
        assert i < |a| ==> all[i].name <= a[|a| - 1].name;
        assert j >= |a| ==> b[0].name <= all[j].name;
      }
    }
  }

  lemma StrictParts(a: seq<MethodSlot>, b: seq<MethodSlot>)
    requires Strict(a + b)
    ensures Strict(b)
  {
    assert forall i :: 0 <= i < |b| ==> (a + b)[|a| + i] == b[i];
  }

  /** The role's table stays sorted, as the merge of a later composition expects it to
      be, exactly when the appended requirements are sorted and begin beyond the last
      stored name: the table is not sorted again. */
  lemma StaysSortedIff(composed: seq<MethodSlot>, stored: seq<MethodSlot>)
    requires Strict(stored)
    ensures var added := NewRequirements(composed, stored);
            Strict(stored + added) <==> Strict(added) && (added == [] || stored == [] || stored[|stored| - 1].name < added[0].name)
    ensures Strict(composed) ==> Strict(NewRequirements(composed, stored))
  {
    if Strict(composed) { NewRequirementsStrict(composed, stored); }
    var added := NewRequirements(composed, stored);
    hide NewRequirements, Strict;
    if Strict(stored + added) { StrictParts(stored, added); }
    if added == [] {
      assert stored + added == stored;
    } else if stored == [] {
      assert stored + added == added;
    } else if Strict(added) {
      StrictJoin(stored, added);
    }
  }

  lemma {:induction false} NewRequirementsEmpty(composed: seq<MethodSlot>, stored: seq<MethodSlot>)
    ensures forall i :: 0 <= i < |NewRequirements(composed, stored)| ==>
      NewRequirements(composed, stored)[i].payload.cv == None && NewRequirements(composed, stored)[i].origins == 0
  {
    if composed != [] { NewRequirementsEmpty(composed[..|composed| - 1], stored); }
  }

  lemma JoinOvertakes(stored: seq<MethodSlot>, added: seq<MethodSlot>, j: nat)
    requires Strict(stored) && (forall x :: Names(added, x) ==> !Names(stored, x)) && j < |stored + added|
    ensures var all, k := stored + added, |stored|;
            OvertakenAt(all, j) <==> j >= k && ((stored != [] && all[j].name < stored[k - 1].name) || OvertakenAt(added, j - k))
  {
    var all, k := stored + added, |stored|;
    if j >= k {
      assert added[j - k].name == all[j].name;
      assert Names(added, all[j].name);
      if stored != [] { assert all[k - 1] == stored[k - 1] && stored[k - 1].name != all[j].name; }
      if OvertakenAt(all, j) {
        var i :| 0 <= i < j && all[i].name >= all[j].name;
        if i >= k { assert added[i - k] == all[i]; } else { assert all[i].name <= stored[k - 1].name; }
      }
      if OvertakenAt(added, j - k) {
        var i :| 0 <= i < j - k && added[i].name >= added[j - k].name;
        assert all[k + i] == added[i];
      }
    }
  }

  lemma LostThen(stored: seq<MethodSlot>, added: seq<MethodSlot>, n: Name)
    requires Strict(stored) && (forall x :: Names(added, x) ==> !Names(stored, x)) && Overtaken(stored + added, n)
    ensures (Names(added, n) && stored != [] && n < stored[|stored| - 1].name) || Overtaken(added, n)
  {
    var all, k := stored + added, |stored|;
    var j: nat :| OvertakenAt(all, j) && all[j].name == n;
    OvertakenWithin(all, j);
    JoinOvertakes(stored, added, j);
    hide OvertakenAt, Strict;
    assert added[j - k].name == n;
  }

  lemma LostAdded(stored: seq<MethodSlot>, added: seq<MethodSlot>, i: nat)
    requires Strict(stored) && (forall x :: Names(added, x) ==> !Names(stored, x)) && i < |added|
    requires OvertakenAt(added, i) || (stored != [] && added[i].name < stored[|stored| - 1].name)
    ensures Overtaken(stored + added, added[i].name)
  {
    var all, k := stored + added, |stored|;
    assert all[k + i] == added[i];
    JoinOvertakes(stored, added, k + i);
    hide OvertakenAt, Strict;
  }

  /** A requirement is lost behind a stored name that is greater, or behind one that was
      appended before it. */
  lemma LostBehind(stored: seq<MethodSlot>, added: seq<MethodSlot>, n: Name)
    requires Strict(stored) && forall x :: Names(added, x) ==> !Names(stored, x)
    ensures Overtaken(stored + added, n) <==>
            (Names(added, n) && stored != [] && n < stored[|stored| - 1].name) || Overtaken(added, n)
  {
    hide Strict;
    if Overtaken(stored + added, n) { LostThen(stored, added, n); }
    if Names(added, n) && stored != [] && n < stored[|stored| - 1].name {
      var i: nat :| i < |added| && added[i].name == n;
      LostAdded(stored, added, i);
    }
    if Overtaken(added, n) {
      var i: nat :| OvertakenAt(added, i) && added[i].name == n;
      OvertakenWithin(added, i);
      LostAdded(stored, added, i);
    }
  }

  /** What a role passes on, whatever it composed, is what a later composition reckons
      with: only requirements can be overtaken, and those are the ones for a name
      smaller than the last stored one and the ones overtaken among the appended. */
  lemma PassingOnGrows(composed: seq<MethodSlot>, stored: seq<MethodSlot>, n: Name)
    requires Finalized(stored)
    ensures var added := NewRequirements(composed, stored);
            && RequirementsEmpty(stored + added) && CodeAhead(stored + added)
            && (Overtaken(stored + added, n) <==> (Names(added, n) && stored != [] && n < stored[|stored| - 1].name) || Overtaken(added, n))
  {
    var added := NewRequirements(composed, stored);
    NewRequirementsFrom(composed, stored);
    NewRequirementsEmpty(composed, stored);
    hide NewRequirements;
    forall x | Names(added, x) ensures !Names(stored, x) {
      var i :| 0 <= i < |added| && added[i].name == x;
      assert added[i] in added;
    }
    LostBehind(stored, added, n);
    var all := stored + added;
    forall j: nat | OvertakenAt(all, j) ensures all[j].payload.cv == None {
      JoinOvertakes(stored, added, j);
    }
    assert forall i :: 0 <= i < |all| ==> all[i] == if i < |stored| then stored[i] else added[i - |stored|];
  }

  function Body(provider: Stash): Method {
    Method(Some(Cv(provider, Some(0), true, 0)), None)
  }

  /** Role 1 defines the name 7 and passes on a requirement for the name 3. */
  function PassedOn(): seq<MethodSlot> {
    var stored := [Slot(7, 0, Body(1))];
    stored + NewRequirements([Slot(3, 0, Method(None, None)), Slot(7, 0, Body(1))], stored)
  }

  /** A class without methods of its own composes that role and role 2, which defines 3. */
  function Misreported(): seq<seq<MethodSlot>> {
    [[], PassedOn(), [Slot(3, 0, Body(2))]]
  }

  lemma PassedOnIs()
    ensures PassedOn() == [Slot(7, 0, Body(1)), Slot(3, 0, Method(None, None))]
  {
    var stored := [Slot(7, 0, Body(1))];
    var req: MethodSlot := Slot(3, 0, Method(None, None));
    var composed := [req, Slot(7, 0, Body(1))];
    assert composed[..1] == [req] && [req][..0] == [];
    assert stored[0].name == 7;
    assert NewRequirements([req], stored) == [req];
  }

  lemma MergedMisreport(x: OriginSet, y: OriginSet)
    ensures var req: MethodSlot := Slot(3, 0, Method(None, None));
            ComposeAll([[], [Slot(7, x, Body(1)), req], [Slot(3, y, Body(2))]], CombineMethods)
            == [Slot(3, y, Body(2)), Slot(7, x, Body(1)), req]
  {
    var req: MethodSlot := Slot(3, 0, Method(None, None));
    var a: seq<MethodSlot> := [Slot(7, x, Body(1)), req];
    var b: seq<MethodSlot> := [Slot(3, y, Body(2))];
    var tables: seq<seq<MethodSlot>> := [[], a, b];
    assert tables[..2] == [[], a] && [[], a][..1] == [[]];
    assert Merge([], a, CombineMethods) == a;
    assert b[1..] == [] && Merge(a, [], CombineMethods) == a;
    assert Merge(a, b, CombineMethods) == [b[0]] + a;
    hide Merge;
    var t2: seq<seq<MethodSlot>> := [[], a];
    var t1: seq<seq<MethodSlot>> := [[]];
    assert ComposeAll(t1, CombineMethods) == [];
    assert ComposeAll(t2, CombineMethods) == a;
    assert ComposeAll(tables, CombineMethods) == [b[0]] + a;
  }

  /** Although role 2 defines the name, the class is told that it is missing: the
      requirement stands behind a greater name and is never merged with the definition. */
  lemma RequirementMisreported()
    ensures var before := Misreported();
            && !Strict(before[1])
            && Definers(before, 3) == {2}
            && AllMethodErrors(ComposeAll(Stamp(before), CombineMethods), [], {}, [0, 1, 2], 0, false)
               == [ImplementationRequired(3)]
  {
    PassedOnIs();
    var before: seq<seq<MethodSlot>> := Misreported();
    MisreportedDefiners();
    var req: MethodSlot := Slot(3, 0, Method(None, None));
    var tables := Stamp(before);
    MisreportedTables();
    MergedMisreport(Bit(1), Bit(2));
    MisreportedErrors();
    hide ComposeAll, Stamp, Misreported, Definers, Strict, Bit, AllMethodErrors;
  }

  lemma MisreportedErrors()
    ensures var req: MethodSlot := Slot(3, 0, Method(None, None));
            AllMethodErrors([Slot(3, Bit(2), Body(2)), Slot(7, Bit(1), Body(1)), req], [], {}, [0, 1, 2], 0, false)
            == [ImplementationRequired(3)]
  {
    var req: MethodSlot := Slot(3, 0, Method(None, None));
    var s: seq<MethodSlot> := [Slot(3, Bit(2), Body(2)), Slot(7, Bit(1), Body(1)), req];
    SingleNotConflicted(1);
    SingleNotConflicted(2);
    hide Bit, IsConflicted;
    var s1: seq<MethodSlot>, s2: seq<MethodSlot> := [s[0]], [s[0], s[1]];
    assert s[..2] == s2 && s2[..1] == s1 && s1[..0] == [];
    assert MethodErrors(s[0], false, false, [0, 1, 2], 0, false) == [];
    assert MethodErrors(s[1], false, false, [0, 1, 2], 0, false) == [];
    assert AllMethodErrors(s1, [], {}, [0, 1, 2], 0, false) == [];
    assert AllMethodErrors(s2, [], {}, [0, 1, 2], 0, false) == [];
  }

  lemma MisreportedDefiners()
    ensures Definers(Misreported(), 3) == {2} && !Strict(Misreported()[1])
  {
    PassedOnIs();
    hide NewRequirements;
    var before: seq<seq<MethodSlot>> := Misreported();
    var passed: seq<MethodSlot>, provided: seq<MethodSlot> := before[1], before[2];
    assert passed[0].name == 7 && passed[1].name == 3;
    assert provided[0].name == 3 && provided[0].payload.cv.Some?;
    assert Defines(before[2], 3) && !Defines(before[1], 3) && !Defines(before[0], 3);
  }

  lemma MisreportedTables()
    ensures Stamp(Misreported()) ==
            [[], [Slot(7, Bit(1), Body(1)), Slot(3, 0, Method(None, None))], [Slot(3, Bit(2), Body(2))]]
  {
    PassedOnIs();
    hide Bit;
    var before: seq<seq<MethodSlot>> := Misreported();
    assert WithBit(before[0], Bit(0)) == [];
    assert WithBit(before[1], Bit(1)) == [Slot(7, Bit(1), Body(1)), Slot(3, 0, Method(None, None))];
    assert WithBit(before[2], Bit(2)) == [Slot(3, Bit(2), Body(2))];
  }

  lemma SingleNotConflicted(p: nat)
    requires p < MAX_BITS
    ensures !IsRequired(Bit(p)) && !IsConflicted(Bit(p))
  {
    StatusBySize(Bit(p));
    BitMembers(p);
    hide Bit, Members, IsRequired, IsConflicted;
  }
}
