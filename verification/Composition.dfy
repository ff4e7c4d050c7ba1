/** What the composed table says about every name. */
module Composition {
  import opened BitMasks
  import opened OriginSets
  import opened SlotTables
  import opened SlotMerge
  import opened AheadSlots
  import opened ObjectLayout
  import opened Participants

  /** The table defines the name: some slot with it carries code. */
  predicate Defines(s: seq<MethodSlot>, n: Name) {
    exists i :: 0 <= i < |s| && s[i].name == n && s[i].payload.cv.Some?
  }

  /** A requirement has no origin. */
  ghost predicate RequirementsEmpty(s: seq<MethodSlot>) {
    forall i :: 0 <= i < |s| && s[i].payload.cv == None ==> s[i].origins == 0
  }

  /** The slots carry code exactly when they have an origin. */
  ghost predicate CodeMatchesOrigin(s: seq<MethodSlot>) {
    forall i :: 0 <= i < |s| ==> (s[i].payload.cv.Some? <==> s[i].origins != 0)
  }

  lemma {:induction false} ProvidersWithBit(s: seq<MethodSlot>, p: nat, n: Name)
    requires p < MAX_BITS && RequirementsEmpty(s)
    ensures Providers(WithBit(s, Bit(p)), n) == if Defines(s, n) then {p} else {}
  {
    hide Members, Bit;
    if s != [] {
      var b := WithBit(s, Bit(p));
      assert b[1..] == WithBit(s[1..], Bit(p));
      ProvidersWithBit(s[1..], p, n);
      BitMembers(p);
      ZeroHasNone();
      DefinesHead(s, n);
    }
  }

  lemma DefinesHead(s: seq<MethodSlot>, n: Name)
    requires s != []
    ensures Defines(s, n) <==> (s[0].name == n && s[0].payload.cv.Some?) || Defines(s[1..], n)
  {
    if Defines(s, n) && !(s[0].name == n && s[0].payload.cv.Some?) {
      var i :| 0 <= i < |s| && s[i].name == n && s[i].payload.cv.Some?;
      assert s[1..][i - 1] == s[i];
    }
    if Defines(s[1..], n) {
      var i :| 0 <= i < |s[1..]| && s[1..][i].name == n && s[1..][i].payload.cv.Some?;
      assert s[i + 1] == s[1..][i];
    }
  }

  /** The tables of all participants after the bits were assigned. */
  ghost predicate Assigned(tables: seq<seq<MethodSlot>>, before: seq<seq<MethodSlot>>) {
    |tables| == |before| && 0 < |before| <= MAX_BITS &&
    forall p: nat :: p < |before| ==> RequirementsEmpty(before[p]) && tables[p] == WithBit(before[p], Bit(p))
  }

  /** The origins of a name are exactly the participants that define it. */
  lemma ProvidersAreDefiners(tables: seq<seq<MethodSlot>>, before: seq<seq<MethodSlot>>, n: Name)
    requires Assigned(tables, before)
    ensures Providers(ComposeAll(tables, CombineMethods), n) == set p: nat | p < |before| && Defines(before[p], n)
  {
    hide ComposeAll, Providers, Defines, WithBit, Bit;
    ComposeAllProviders(tables, CombineMethods, n);
    forall k: nat | k < |tables| ensures Providers(tables[k], n) == if Defines(before[k], n) then {k} else {} {
      ProvidersWithBit(before[k], k, n);
    }
    var all := set p: nat | p < |before| && Defines(before[p], n);
    forall i ensures i in Providers(ComposeAll(tables, CombineMethods), n) <==> i in all {
      if i in all { assert i in Providers(tables[i], n); }
    }
  }

  /** In a table without duplicates one slot speaks for a name. */
  lemma {:induction false} ProvidersOfSlot<P>(s: seq<Slot<P>>, i: nat)
    requires Strict(s) && i < |s|
    ensures Providers(s, s[i].name) == Members(s[i].origins)
  {
    hide Members;
    if i == 0 {
      ProvidersNone(s[1..], s[0].name);
    } else {
      ProvidersOfSlot(s[1..], i - 1);
    }
  }

  lemma {:induction false} ProvidersNone<P>(s: seq<Slot<P>>, n: Name)
    requires forall i :: 0 <= i < |s| ==> s[i].name != n
    ensures Providers(s, n) == {}
  {
    if s != [] { ProvidersNone(s[1..], n); }
  }

  lemma SortedOrigins(tables: seq<seq<MethodSlot>>, before: seq<seq<MethodSlot>>, i: nat)
    requires Assigned(tables, before) && (forall t :: t in tables ==> Strict(t))
    requires i < |ComposeAll(tables, CombineMethods)|
    ensures var slot := ComposeAll(tables, CombineMethods)[i];
            Members(slot.origins) == set p: nat | p < |before| && Defines(before[p], slot.name)
  {
    ComposeAllStrict(tables, CombineMethods);
    ProvidersOfSlot(ComposeAll(tables, CombineMethods), i);
    ProvidersAreDefiners(tables, before, ComposeAll(tables, CombineMethods)[i].name);
  }

  // ----- tables that are not sorted throughout

  /** A table as it is recorded: sorted without duplicates, requirements without origin. */
  ghost predicate Finalized(s: seq<MethodSlot>) {
    Strict(s) && RequirementsEmpty(s)
  }

  /** The accessors of fields are recorded first, with their code. */
  ghost predicate Accessors(s: seq<MethodSlot>) {
    forall i :: 0 <= i < |s| ==> s[i].payload.cv.Some? && s[i].origins == 0
  }

  lemma {:induction false} EntriesAppend(s: seq<MethodSlot>, entries: seq<StashEntry>)
    ensures s <= WithEntries(s, entries)
    ensures forall x :: x in WithEntries(s, entries) ==> x in s || x.origins == 0
    decreases |entries|
  {
    if entries != [] {
      var e := entries[0];
      var found := exists i :: 0 <= i < |s| && s[i].name == e.name;
      EntriesAppend(if e.cv.Some? && e.cv.value.isMethod && !found then s + [SlotFor(e)] else s, entries[1..]);
    }
  }

  lemma SortKeepsEmpty(s: seq<MethodSlot>)
    requires forall x :: x in s ==> x.origins == 0
    ensures RequirementsEmpty(SortSlots(s))
  {
    SortSlotsSorts(s);
    var r := SortSlots(s);
    forall i | 0 <= i < |r| ensures r[i].origins == 0 {
      assert r[i] in multiset(r) && r[i] in multiset(s);
    }
  }

  lemma SortedTwice(s: seq<MethodSlot>, i: nat, j: nat)
    requires i < j < |s| && s[i].name == s[j].name
    ensures !Strict(SortSlots(s))
  {
    NamedTwo(s, i, j);
    SortSlotsStable(s, s[i].name);
    if Strict(SortSlots(s)) { NamedOnce(SortSlots(s), s[i].name); }
  }

  /** Whatever the symbol table holds, what is recorded for a stash is a sorted table
      without duplicates exactly when no two accessors have the same name. */
  lemma FinalizedIffDistinct(accessors: seq<MethodSlot>, entries: seq<StashEntry>)
    requires Accessors(accessors)
    ensures Finalized(SortSlots(WithEntries(accessors, entries))) <==> DistinctNames(accessors)
  {
    var all := WithEntries(accessors, entries);
    EntriesAppend(accessors, entries);
    hide WithEntries, Strict;
    if DistinctNames(accessors) {
      WithEntriesDistinct(accessors, entries);
      SortedDistinctIsStrict(all);
      SortKeepsEmpty(all);
    } else {
      var i, j :| 0 <= i < j < |accessors| && accessors[i].name == accessors[j].name;
      assert all[i] == accessors[i] && all[j] == accessors[j];
      SortedTwice(all, i, j);
    }
  }

  /** `field $x :reader; field @x :reader;` records the accessor x twice. */
  lemma TwoReaders(scalar: Cv, list: Cv, x: Name, fromScalar: Name, fromList: Name, entries: seq<StashEntry>)
    ensures var accessors := [Slot(x, 0, Method(Some(scalar), Some(fromScalar))), Slot(x, 0, Method(Some(list), Some(fromList)))];
            !Finalized(SortSlots(WithEntries(accessors, entries)))
  {
    var accessors := [Slot(x, 0, Method(Some(scalar), Some(fromScalar))), Slot(x, 0, Method(Some(list), Some(fromList)))];
    FinalizedIffDistinct(accessors, entries);
    assert accessors[0].name == accessors[1].name;
  }

  /** What has code is not overtaken: only requirements stand behind. */
  ghost predicate CodeAhead(s: seq<MethodSlot>) {
    forall j: nat {:trigger OvertakenAt(s, j)} :: OvertakenAt(s, j) ==> s[j].payload.cv == None
  }

  lemma LateFromNone(s: seq<MethodSlot>, j: nat)
    ensures Late(s, NONE_SEEN, j) <==> OvertakenAt(s, j)
  {}

  lemma {:induction false} AheadWithBit(s: seq<MethodSlot>, bit: OriginSet, m: int)
    ensures Ahead(WithBit(s, bit), m) == WithBit(Ahead(s, m), bit)
  {
    if s != [] {
      assert WithBit(s, bit)[1..] == WithBit(s[1..], bit);
      AheadWithBit(s[1..], bit, Max(m, s[0].name));
    }
  }

  lemma BitOvertakes(s: seq<MethodSlot>, bit: OriginSet, j: nat)
    ensures OvertakenAt(WithBit(s, bit), j) <==> OvertakenAt(s, j)
  {
    assert forall i :: 0 <= i < |s| ==> WithBit(s, bit)[i].name == s[i].name;
  }

  lemma BehindWithBit(s: seq<MethodSlot>, bit: OriginSet)
    requires CodeAhead(s) && RequirementsEmpty(s)
    ensures Bare(Behind(WithBit(s, bit), NONE_SEEN))
  {
    var b := WithBit(s, bit);
    var behind := Behind(b, NONE_SEEN);
    forall i | 0 <= i < |behind| ensures behind[i].origins == 0 {
      PlaceIn(b, NONE_SEEN, behind[i]);
      assert behind[i] in behind;
      var j: nat :| Late(b, NONE_SEEN, j) && b[j] == behind[i];
      LateFromNone(b, j);
      BitOvertakes(s, bit, j);
    }
  }

  lemma RequirementsAhead(s: seq<MethodSlot>)
    requires RequirementsEmpty(s)
    ensures RequirementsEmpty(Ahead(s, NONE_SEEN))
  {
    var ahead := Ahead(s, NONE_SEEN);
    forall i | 0 <= i < |ahead| && ahead[i].payload.cv == None ensures ahead[i].origins == 0 {
      PlaceIn(s, NONE_SEEN, ahead[i]);
      assert ahead[i] in ahead;
    }
  }

  lemma DefinesAhead(s: seq<MethodSlot>, n: Name)
    requires CodeAhead(s)
    ensures Defines(Ahead(s, NONE_SEEN), n) <==> Defines(s, n)
  {
    hide Ahead;
    var ahead := Ahead(s, NONE_SEEN);
    if Defines(s, n) {
      var j: nat :| j < |s| && s[j].name == n && s[j].payload.cv.Some?;
      LateFromNone(s, j);
      PlaceOf(s, NONE_SEEN, j);
    }
    if Defines(ahead, n) {
      var i :| 0 <= i < |ahead| && ahead[i].name == n && ahead[i].payload.cv.Some?;
      PlaceIn(s, NONE_SEEN, ahead[i]);
    }
  }

  lemma AheadAssigned(tables: seq<seq<MethodSlot>>, before: seq<seq<MethodSlot>>)
    requires Assigned(tables, before)
    ensures Assigned(AllAhead(tables), AllAhead(before)) && forall t :: t in AllAhead(tables) ==> Strict(t)
  {
    hide Ahead, WithBit, RequirementsEmpty, Strict, Bit;
    forall p: nat | p < |before|
      ensures RequirementsEmpty(AllAhead(before)[p]) && AllAhead(tables)[p] == WithBit(AllAhead(before)[p], Bit(p))
      ensures Strict(AllAhead(tables)[p])
    {
      RequirementsAhead(before[p]);
      AheadWithBit(before[p], Bit(p), NONE_SEEN);
      AheadStrict(tables[p], NONE_SEEN);
    }
  }

  lemma BehindAssigned(tables: seq<seq<MethodSlot>>, before: seq<seq<MethodSlot>>)
    requires Assigned(tables, before) && forall p: nat :: p < |before| ==> CodeAhead(before[p])
    ensures Bare(Behind(ComposeAll(tables, CombineMethods), NONE_SEEN))
  {
    hide WithBit, RequirementsEmpty, CodeAhead, Bit, Bare, Behind, ComposeAll;
    forall t | t in tables ensures Bare(Behind(t, NONE_SEEN)) {
      var p: nat :| p < |tables| && tables[p] == t;
      BehindWithBit(before[p], Bit(p));
    }
    BareCompose(tables, CombineMethods);
  }

  /** Every slot of the composed table that is not overtaken has as origins the
      participants that define its name: none for a requirement nobody meets, several
      for a conflict.  An overtaken slot has none, whoever defines the name. */
  lemma SlotOrigins(tables: seq<seq<MethodSlot>>, before: seq<seq<MethodSlot>>, i: nat)
    requires Assigned(tables, before) && (forall p: nat :: p < |before| ==> CodeAhead(before[p]))
    requires i < |ComposeAll(tables, CombineMethods)|
    ensures var s := ComposeAll(tables, CombineMethods);
            Members(s[i].origins) == if OvertakenAt(s, i) then {} else set p: nat | p < |before| && Defines(before[p], s[i].name)
  {
    var s := ComposeAll(tables, CombineMethods);
    hide ComposeAll, Defines, Members, CodeAhead, Ahead, Behind;
    LateFromNone(s, i);
    PlaceOf(s, NONE_SEEN, i);
    if OvertakenAt(s, i) {
      BehindAssigned(tables, before);
      ZeroHasNone();
    } else {
      AheadOfCompose(tables, CombineMethods);
      AheadAssigned(tables, before);
      var k: nat :| k < |Ahead(s, NONE_SEEN)| && Ahead(s, NONE_SEEN)[k] == s[i];
      SortedOrigins(AllAhead(tables), AllAhead(before), k);
      forall p: nat | p < |before| ensures Defines(AllAhead(before)[p], s[i].name) <==> Defines(before[p], s[i].name) {
        DefinesAhead(before[p], s[i].name);
      }
    }
  }

  // ----- the representative

  lemma {:induction false} MergeCode(a: seq<MethodSlot>, b: seq<MethodSlot>)
    requires CodeMatchesOrigin(a) && CodeMatchesOrigin(b)
    ensures CodeMatchesOrigin(Merge(a, b, CombineMethods))
    decreases |a| + |b|
  {
    if a != [] && b != [] {
      OrZero(a[0].origins, b[0].origins);
      hide Compose;
      if a[0].name < b[0].name {
        MergeCode(a[1..], b);
      } else if a[0].name > b[0].name {
        MergeCode(a, b[1..]);
      } else {
        MergeCode(a[1..], b[1..]);
      }
    }
  }

  lemma OrZero(x: OriginSet, y: OriginSet)
    ensures Compose(x, y) == 0 <==> x == 0 && y == 0
  {
    EmptyMembers(x);
    EmptyMembers(y);
    EmptyMembers(Compose(x, y));
    ComposeIsUnion(x, y);
    hide Compose, Members;
  }

  lemma {:induction false} ComposeAllCode(tables: seq<seq<MethodSlot>>)
    requires tables != [] && forall t :: t in tables ==> CodeMatchesOrigin(t)
    ensures CodeMatchesOrigin(ComposeAll(tables, CombineMethods))
  {
    var n := |tables| - 1;
    assert tables[n] in tables;
    if n > 0 {
      ComposeAllCode(tables[..n]);
      MergeCode(ComposeAll(tables[..n], CombineMethods), tables[n]);
    }
  }

  /** Sorted or not, a composed slot has representative code exactly when it has an origin. */
  lemma RepresentativeIffOrigin(tables: seq<seq<MethodSlot>>, before: seq<seq<MethodSlot>>, i: nat)
    requires Assigned(tables, before) && i < |ComposeAll(tables, CombineMethods)|
    ensures var slot := ComposeAll(tables, CombineMethods)[i];
            slot.payload.cv.Some? <==> Members(slot.origins) != {}
  {
    forall t | t in tables ensures CodeMatchesOrigin(t) {
      var p: nat :| p < |tables| && tables[p] == t;
      BitMembers(p);
      EmptyMembers(Bit(p));
    }
    hide Members, Bit;
    ComposeAllCode(tables);
    EmptyMembers(ComposeAll(tables, CombineMethods)[i].origins);
  }

  /** That is when the slot is not overtaken and somebody defines the name. */
  lemma RepresentativeIffDefined(tables: seq<seq<MethodSlot>>, before: seq<seq<MethodSlot>>, i: nat)
    requires Assigned(tables, before) && (forall p: nat :: p < |before| ==> CodeAhead(before[p]))
    requires i < |ComposeAll(tables, CombineMethods)|
    ensures var s := ComposeAll(tables, CombineMethods);
            s[i].payload.cv.Some? <==> !OvertakenAt(s, i) && exists p: nat :: p < |before| && Defines(before[p], s[i].name)
  {
    RepresentativeIffOrigin(tables, before, i);
    SlotOrigins(tables, before, i);
    var slot := ComposeAll(tables, CombineMethods)[i];
    hide Members, Bit, ComposeAll, Defines, CodeAhead;
    var all := set p: nat | p < |before| && Defines(before[p], slot.name);
    if exists p: nat :: p < |before| && Defines(before[p], slot.name) {
      var p: nat :| p < |before| && Defines(before[p], slot.name);
      assert p in all;
    }
  }

  /** What the first slot of a name carries. */
  ghost predicate Carries(s: seq<MethodSlot>, n: Name, m: Method) {
    exists i :: 0 <= i < |s| && s[i].name == n && s[i].payload == m && forall j :: 0 <= j < i ==> s[j].name != n
  }

  lemma CarriesHead(s: seq<MethodSlot>, n: Name, m: Method)
    requires s != []
    ensures Carries(s, n, m) <==> if s[0].name == n then m == s[0].payload else Carries(s[1..], n, m)
  {
    if s[0].name != n {
      if Carries(s, n, m) {
        var i :| 0 <= i < |s| && s[i].name == n && s[i].payload == m && forall j :: 0 <= j < i ==> s[j].name != n;
        assert s[1..][i - 1] == s[i] && forall j :: 0 <= j < i - 1 ==> s[1..][j] == s[j + 1];
      }
      if Carries(s[1..], n, m) {
        var i :| 0 <= i < |s| - 1 && s[1..][i].name == n && s[1..][i].payload == m && forall j :: 0 <= j < i ==> s[1..][j].name != n;
        assert s[i + 1] == s[1..][i] && forall j :: 0 < j < i + 1 ==> s[j] == s[1..][j - 1];
      }
    }
  }

  lemma AboveLacks(s: seq<MethodSlot>, n: Name)
    requires forall i :: 0 <= i < |s| ==> s[i].name != n
    ensures forall m :: !Carries(s, n, m)
  {}

  /** What the merged slot of a name carries: the code and the field of the left slot,
      and of the right one what the left one lacks. */
  ghost predicate Represents(m: Method, x: Method, y: Method) {
    && (x.cv.Some? ==> m.cv == x.cv) && (x.cv.None? ==> m.cv == y.cv)
    && (x.fromField.Some? ==> m.fromField == x.fromField) && (x.fromField.None? ==> m.fromField == y.fromField)
  }

  lemma {:induction false} MergeCarries(a: seq<MethodSlot>, b: seq<MethodSlot>, n: Name, m: Method)
    requires Strict(a) && Strict(b) && Carries(Merge(a, b, CombineMethods), n, m)
    ensures Carries(a, n, m) || Carries(b, n, m) || exists x, y :: Carries(a, n, x) && Carries(b, n, y) && Represents(m, x, y)
    ensures (exists x :: Carries(a, n, x)) && (exists y :: Carries(b, n, y)) ==>
              exists x, y :: Carries(a, n, x) && Carries(b, n, y) && Represents(m, x, y)
    decreases |a| + |b|
  {
    if a == [] || b == [] {
      AboveLacks([], n);
      return;
    }
    var r := Merge(a, b, CombineMethods);
    CarriesHead(r, n, m);
    forall x ensures Carries(a, n, x) <==> if a[0].name == n then x == a[0].payload else Carries(a[1..], n, x) { CarriesHead(a, n, x); }
    forall y ensures Carries(b, n, y) <==> if b[0].name == n then y == b[0].payload else Carries(b[1..], n, y) { CarriesHead(b, n, y); }
    hide Carries;
    if a[0].name < b[0].name {
      assert r[1..] == Merge(a[1..], b, CombineMethods);
      if a[0].name == n { AboveLacks(b, n); } else { MergeCarries(a[1..], b, n, m); }
    } else if a[0].name > b[0].name {
      assert r[1..] == Merge(a, b[1..], CombineMethods);
      if b[0].name == n { AboveLacks(a, n); } else { MergeCarries(a, b[1..], n, m); }
    } else {
      assert r[1..] == Merge(a[1..], b[1..], CombineMethods);
      if a[0].name == n {
        assert Represents(m, a[0].payload, b[0].payload);
      } else {
        MergeCarries(a[1..], b[1..], n, m);
      }
    }
  }

  // ----- the fold, over the tables themselves

  ghost function MethodTables(all: seq<ProtoRole>): seq<seq<MethodSlot>>
    requires forall pr :: pr in all ==> pr.methods.Valid()
    reads set pr | pr in all :: pr.methods, set pr | pr in all :: pr.methods.slots
  {
    if all == [] then []
    else
      var n := |all| - 1;
      MethodTables(all[..n]) + (assert all[n] in all; [all[n].methods.Contents()])
  }

  lemma ComposeAllNext<P>(tables: seq<seq<Slot<P>>>, t: seq<Slot<P>>, c: Combine<P>)
    requires tables != []
    ensures ComposeAll(tables + [t], c) == Merge(ComposeAll(tables, c), t, c)
  {
    assert (tables + [t])[..|tables|] == tables;
  }

  lemma ComposeAllOne<P>(t: seq<Slot<P>>, c: Combine<P>)
    ensures ComposeAll([t], c) == t
  {}

  lemma MethodTablesNext(all: seq<ProtoRole>, i: nat)
    requires i < |all| && forall pr :: pr in all ==> pr.methods.Valid()
    ensures all[i] in all && MethodTables(all[..i + 1]) == MethodTables(all[..i]) + [all[i].methods.Contents()]
  {
    assert all[..i + 1][..i] == all[..i] && all[..i + 1][i] == all[i];
  }

  lemma FirstTable(all: seq<ProtoRole>)
    requires all != [] && forall pr :: pr in all ==> pr.methods.Valid()
    ensures all[0] in all && MethodTables(all[..1]) != []
    ensures ComposeAll(MethodTables(all[..1]), CombineMethods) == all[0].methods.Contents()
  {
    MethodTablesNext(all, 0);
    assert MethodTables(all[..0]) == [];
    ComposeAllOne(all[0].methods.Contents(), CombineMethods);
  }

  lemma NextTable(all: seq<ProtoRole>, i: nat)
    requires 0 < i < |all| && forall pr :: pr in all ==> pr.methods.Valid()
    ensures all[i] in all && MethodTables(all[..i]) != [] && MethodTables(all[..i + 1]) != []
    ensures ComposeAll(MethodTables(all[..i + 1]), CombineMethods)
            == Merge(ComposeAll(MethodTables(all[..i]), CombineMethods), all[i].methods.Contents(), CombineMethods)
  {
    MethodTablesNext(all, i - 1);
    MethodTablesNext(all, i);
    hide MethodTables, ComposeAll, Merge;
    ComposeAllNext(MethodTables(all[..i]), all[i].methods.Contents(), CombineMethods);
  }

  /** Folds the method tables of the participants by repeated merging. */
  method ComposeMethods(all: seq<ProtoRole>) returns (slots: array<MethodSlot>, count: nat)
    requires all != [] && forall pr :: pr in all ==> pr.methods.Valid()
    ensures count <= slots.Length
    ensures slots[..count] == ComposeAll(MethodTables(all), CombineMethods)
  {
    slots, count := all[0].methods.slots, all[0].methods.count;
    FirstTable(all);
    hide ComposeAll, Merge, MethodTables;
    for i := 1 to |all|
      invariant count <= slots.Length && MethodTables(all[..i]) != []
      invariant slots[..count] == ComposeAll(MethodTables(all[..i]), CombineMethods)
    {
      NextTable(all, i);
      var right := all[i].methods;
      slots, count := MergeSlots(slots, count, right.slots, right.count, CombineMethods);
    }
    assert all[..|all|] == all;
  }
}
