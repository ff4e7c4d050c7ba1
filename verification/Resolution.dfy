/** Judging the composed table: what is missing, what conflicts. */
module Resolution {
  import opened BitMasks
  import opened OriginSets
  import opened SlotTables
  import opened SlotMerge
  import opened AheadSlots
  import opened ObjectLayout
  import opened Participants
  import opened Composition

  datatype CompositionError =
    | ImplementationRequired(name: Name)
    | MethodConflict(name: Name, left: Stash, right: Stash)
    | FieldConflict(name: Name, left: Stash, right: Stash)

  // ----- explicit methods of the consumer

  /** A method the consumer wrote itself, not an accessor made for a field. */
  predicate IsExplicit(slot: MethodSlot) {
    slot.payload.fromField == None && slot.payload.cv.Some?
  }

  ghost predicate HasExplicit(s: seq<MethodSlot>, n: Name) {
    exists i :: 0 <= i < |s| && s[i].name == n && IsExplicit(s[i])
  }

  /** The binary search finds what a scan of the whole table would find. */
  method ConsumerHasExplicit(slots: array<MethodSlot>, count: nat, name: Name) returns (found: bool)
    requires count <= slots.Length && Strict(slots[..count])
    ensures found <==> HasExplicit(slots[..count], name)
  {
    ghost var s := slots[..count];
    var lo, hi := 0, count;
    while lo < hi
      invariant lo <= hi <= count
      invariant forall k :: 0 <= k < lo ==> s[k].name < name
      invariant forall k :: hi <= k < count ==> name < s[k].name
    {
      var mid := (lo + hi) / 2;
      assert slots[mid] == s[mid];
      if slots[mid].name == name {
        return slots[mid].payload.fromField == None && slots[mid].payload.cv != None;
      }
      if slots[mid].name < name { lo := mid + 1; } else { hi := mid; }
    }
    return false;
  }

  // ----- the pairs of a conflict

  /** Participant `bit` is named in the conflict messages about `o`. */
  predicate Blamed(o: OriginSet, stashes: seq<Stash>, except: Option<Stash>, bit: nat)
    requires bit < |stashes| <= MAX_BITS
  {
    Has(o, bit) && except != Some(stashes[bit])
  }

  datatype Side = Methods | Fields

  function Conflict(side: Side, name: Name, left: Stash, right: Stash): CompositionError {
    if side == Methods then MethodConflict(name, left, right) else FieldConflict(name, left, right)
  }

  /** The pairs of `bit` with the participants from `other` on. */
  function Row(side: Side, name: Name, o: OriginSet, stashes: seq<Stash>, except: Option<Stash>, bit: nat, other: nat): seq<CompositionError>
    requires bit < |stashes| <= MAX_BITS && other <= |stashes|
    decreases |stashes| - other
  {
    if other == |stashes| then []
    else (if Blamed(o, stashes, except, other) then [Conflict(side, name, stashes[bit], stashes[other])] else [])
         + Row(side, name, o, stashes, except, bit, other + 1)
  }

  /** All pairs among the participants from `bit` on. */
  function Pairs(side: Side, name: Name, o: OriginSet, stashes: seq<Stash>, except: Option<Stash>, bit: nat): seq<CompositionError>
    requires bit <= |stashes| <= MAX_BITS
    decreases |stashes| - bit
  {
    if bit == |stashes| then []
    else (if Blamed(o, stashes, except, bit) then Row(side, name, o, stashes, except, bit, bit + 1) else [])
         + Pairs(side, name, o, stashes, except, bit + 1)
  }

  /** How many participants from `bit` on are named. */
  function BlamedCount(o: OriginSet, stashes: seq<Stash>, except: Option<Stash>, bit: nat): nat
    requires bit <= |stashes| <= MAX_BITS
    decreases |stashes| - bit
  {
    if bit == |stashes| then 0
    else (if Blamed(o, stashes, except, bit) then 1 else 0) + BlamedCount(o, stashes, except, bit + 1)
  }

  lemma {:induction false} RowLength(side: Side, name: Name, o: OriginSet, stashes: seq<Stash>, except: Option<Stash>, bit: nat, other: nat)
    requires bit < |stashes| <= MAX_BITS && other <= |stashes|
    ensures |Row(side, name, o, stashes, except, bit, other)| == BlamedCount(o, stashes, except, other)
    decreases |stashes| - other
  {
    if other < |stashes| { RowLength(side, name, o, stashes, except, bit, other + 1); }
  }

  /** k named participants give one error for each of their k(k-1)/2 pairs. */
  lemma {:induction false} PairsLength(side: Side, name: Name, o: OriginSet, stashes: seq<Stash>, except: Option<Stash>, bit: nat)
    requires bit <= |stashes| <= MAX_BITS
    ensures var k := BlamedCount(o, stashes, except, bit);
            |Pairs(side, name, o, stashes, except, bit)| == k * (k - 1) / 2
    decreases |stashes| - bit
  {
    if bit < |stashes| {
      PairsLength(side, name, o, stashes, except, bit + 1);
      RowLength(side, name, o, stashes, except, bit, bit + 1);
      if Blamed(o, stashes, except, bit) {
        Triangle(BlamedCount(o, stashes, except, bit + 1));
      }
    }
  }

  lemma Triangle(k: nat)
    ensures k + k * (k - 1) / 2 == (k + 1) * k / 2
  {
    assert (k + 1) * k == k * (k - 1) + 2 * k;
  }

  /** The named participants from `bit` on. */
  function BlamedFrom(o: OriginSet, stashes: seq<Stash>, except: Option<Stash>, bit: nat): set<nat>
    requires bit <= |stashes| <= MAX_BITS
  {
    set p: nat | bit <= p < |stashes| && Blamed(o, stashes, except, p)
  }

  lemma BlamedFromNext(o: OriginSet, stashes: seq<Stash>, except: Option<Stash>, bit: nat)
    requires bit < |stashes| <= MAX_BITS
    ensures BlamedFrom(o, stashes, except, bit)
            == (if Blamed(o, stashes, except, bit) then {bit} else {}) + BlamedFrom(o, stashes, except, bit + 1)
    ensures bit !in BlamedFrom(o, stashes, except, bit + 1)
  {
    hide Blamed;
  }

  lemma {:induction false} BlamedCountIsSize(o: OriginSet, stashes: seq<Stash>, except: Option<Stash>, bit: nat)
    requires bit <= |stashes| <= MAX_BITS
    ensures BlamedCount(o, stashes, except, bit) == |BlamedFrom(o, stashes, except, bit)|
    decreases |stashes| - bit
  {
    if bit < |stashes| {
      hide Blamed, BlamedFrom;
      BlamedCountIsSize(o, stashes, except, bit + 1);
      BlamedFromNext(o, stashes, except, bit);
    } else {
      assert BlamedFrom(o, stashes, except, bit) == {};
    }
  }

  /** Two different participants that are both named, in the order of their numbers. */
  ghost predicate IsPair(o: OriginSet, stashes: seq<Stash>, except: Option<Stash>, place: (nat, nat))
    requires |stashes| <= MAX_BITS
  {
    && place.0 < place.1 < |stashes|
    && Has(o, place.0) && except != Some(stashes[place.0]) && Has(o, place.1) && except != Some(stashes[place.1])
  }

  predicate Sooner(a: (nat, nat), b: (nat, nat)) {
    a.0 < b.0 || (a.0 == b.0 && a.1 < b.1)
  }

  /** Each error names the two participants of its place, the earlier one first. */
  ghost predicate ErrorsOf(side: Side, name: Name, stashes: seq<Stash>, places: seq<(nat, nat)>, errors: seq<CompositionError>) {
    |errors| == |places| && forall k :: 0 <= k < |places| ==> ErrorOf(side, name, stashes, places[k], errors[k])
  }

  ghost predicate ErrorOf(side: Side, name: Name, stashes: seq<Stash>, place: (nat, nat), error: CompositionError) {
    && place.0 < |stashes| && place.1 < |stashes|
    && match side
       case Methods => error == MethodConflict(name, stashes[place.0], stashes[place.1])
       case Fields => error == FieldConflict(name, stashes[place.0], stashes[place.1])
  }

  ghost predicate InOrder(places: seq<(nat, nat)>) {
    forall i, j :: 0 <= i < j < |places| ==> Sooner(places[i], places[j])
  }

  ghost predicate InRow(o: OriginSet, stashes: seq<Stash>, except: Option<Stash>, bit: nat, other: nat, place: (nat, nat))
    requires |stashes| <= MAX_BITS
  {
    place.0 == bit && other <= place.1 && IsPair(o, stashes, except, place)
  }

  lemma InRowNext(o: OriginSet, stashes: seq<Stash>, except: Option<Stash>, bit: nat, other: nat, place: (nat, nat))
    requires bit < other < |stashes| <= MAX_BITS && Blamed(o, stashes, except, bit)
    ensures InRow(o, stashes, except, bit, other, place) <==>
            InRow(o, stashes, except, bit, other + 1, place) || (Blamed(o, stashes, except, other) && place == (bit, other))
  {
    hide Has;
  }

  lemma PlacesFront(head: (nat, nat), rest: seq<(nat, nat)>)
    requires InOrder(rest) && forall place :: place in rest ==> Sooner(head, place)
    ensures InOrder([head] + rest)
  {
    assert forall k :: 0 <= k < |rest| ==> rest[k] in rest;
  }

  lemma {:induction false} RowPlaces(side: Side, name: Name, o: OriginSet, stashes: seq<Stash>, except: Option<Stash>, bit: nat, other: nat)
    returns (places: seq<(nat, nat)>)
    requires bit < other <= |stashes| <= MAX_BITS && Blamed(o, stashes, except, bit)
    ensures ErrorsOf(side, name, stashes, places, Row(side, name, o, stashes, except, bit, other)) && InOrder(places)
    ensures forall place :: place in places <==> InRow(o, stashes, except, bit, other, place)
    decreases |stashes| - other
  {
    if other == |stashes| {
      places := [];
    } else {
      places := RowPlaces(side, name, o, stashes, except, bit, other + 1);
      forall place ensures InRow(o, stashes, except, bit, other, place) <==>
        InRow(o, stashes, except, bit, other + 1, place) || (Blamed(o, stashes, except, other) && place == (bit, other)) {
        InRowNext(o, stashes, except, bit, other, place);
      }
      if Blamed(o, stashes, except, other) {
        assert forall place :: place in places ==> Sooner((bit, other), place);
        hide Blamed, InRow;
        PlacesFront((bit, other), places);
        ErrorsJoin(side, name, stashes, [(bit, other)], places, [Conflict(side, name, stashes[bit], stashes[other])],
                   Row(side, name, o, stashes, except, bit, other + 1));
        places := [(bit, other)] + places;
      }
    }
  }

  lemma {:induction false} PairsPlaces(side: Side, name: Name, o: OriginSet, stashes: seq<Stash>, except: Option<Stash>, bit: nat)
    returns (places: seq<(nat, nat)>)
    requires bit <= |stashes| <= MAX_BITS
    ensures ErrorsOf(side, name, stashes, places, Pairs(side, name, o, stashes, except, bit)) && InOrder(places)
    ensures forall place :: place in places <==> bit <= place.0 && IsPair(o, stashes, except, place)
    decreases |stashes| - bit
  {
    if bit == |stashes| {
      places := [];
    } else {
      var rest := PairsPlaces(side, name, o, stashes, except, bit + 1);
      var row: seq<(nat, nat)> := [];
      if Blamed(o, stashes, except, bit) { row := RowPlaces(side, name, o, stashes, except, bit, bit + 1); }
      places := row + rest;
      assert Blamed(o, stashes, except, bit) <==> Has(o, bit) && except != Some(stashes[bit]);
      PlacesJoin(row, rest, bit);
      hide Row, Blamed;
      ErrorsJoin(side, name, stashes, row, rest, if Blamed(o, stashes, except, bit) then Row(side, name, o, stashes, except, bit, bit + 1) else [],
                 Pairs(side, name, o, stashes, except, bit + 1));
    }
  }

  lemma PlacesJoin(row: seq<(nat, nat)>, rest: seq<(nat, nat)>, bit: nat)
    requires InOrder(row) && InOrder(rest)
    requires (forall place :: place in row ==> place.0 == bit) && forall place :: place in rest ==> bit < place.0
    ensures InOrder(row + rest)
  {
    forall i, j | 0 <= i < j < |row + rest| ensures Sooner((row + rest)[i], (row + rest)[j]) {
      if i < |row| <= j { assert row[i] in row && rest[j - |row|] in rest; }
    }
  }

  lemma ErrorsJoin(side: Side, name: Name, stashes: seq<Stash>, row: seq<(nat, nat)>, rest: seq<(nat, nat)>,
                   first: seq<CompositionError>, more: seq<CompositionError>)
    requires ErrorsOf(side, name, stashes, row, first) && ErrorsOf(side, name, stashes, rest, more)
    ensures ErrorsOf(side, name, stashes, row + rest, first + more)
  {}

  /** The errors of a conflicted name are exactly the pairs of the participants named in it,
      each once, by the first and then by the second of them. */
  lemma PairErrors(side: Side, name: Name, o: OriginSet, stashes: seq<Stash>, except: Option<Stash>) returns (places: seq<(nat, nat)>)
    requires |stashes| <= MAX_BITS
    ensures ErrorsOf(side, name, stashes, places, Pairs(side, name, o, stashes, except, 0)) && InOrder(places)
    ensures forall place :: place in places <==> IsPair(o, stashes, except, place)
  {
    places := PairsPlaces(side, name, o, stashes, except, 0);
  }

  method AppendRow(side: Side, name: Name, o: OriginSet, stashes: seq<Stash>, except: Option<Stash>, bit: nat, errors: seq<CompositionError>)
    returns (r: seq<CompositionError>)
    requires bit < |stashes| <= MAX_BITS
    ensures r == errors + Row(side, name, o, stashes, except, bit, bit + 1)
  {
    r := errors;
    hide Blamed;
    for other := bit + 1 to |stashes|
      invariant r + Row(side, name, o, stashes, except, bit, other) == errors + Row(side, name, o, stashes, except, bit, bit + 1)
    {
      if Blamed(o, stashes, except, other) {
        r := r + [Conflict(side, name, stashes[bit], stashes[other])];
      }
    }
  }

  /** Appends the pair errors of one slot: the nested loop over bits. */
  method AppendPairs(side: Side, name: Name, o: OriginSet, stashes: seq<Stash>, except: Option<Stash>, errors: seq<CompositionError>)
    returns (r: seq<CompositionError>)
    requires |stashes| <= MAX_BITS
    ensures r == errors + Pairs(side, name, o, stashes, except, 0)
  {
    r := errors;
    hide Blamed, Row;
    for bit := 0 to |stashes|
      invariant r + Pairs(side, name, o, stashes, except, bit) == errors + Pairs(side, name, o, stashes, except, 0)
    {
      if Blamed(o, stashes, except, bit) {
        r := AppendRow(side, name, o, stashes, except, bit, r);
      }
    }
  }

  // ----- judging the slots

  /** What a class is told about one method slot. */
  function MethodErrors(slot: MethodSlot, explicit: bool, inherited: bool, stashes: seq<Stash>, stash: Stash, isRole: bool): seq<CompositionError>
    requires |stashes| <= MAX_BITS
  {
    if explicit || isRole then []
    else if IsRequired(slot.origins) then (if inherited then [] else [ImplementationRequired(slot.name)])
    else if IsConflicted(slot.origins) then Pairs(Methods, slot.name, slot.origins, stashes, Some(stash), 0)
    else []
  }

  function FieldErrors(slot: FieldSlot, stashes: seq<Stash>): seq<CompositionError>
    requires |stashes| <= MAX_BITS
  {
    if IsConflicted(slot.origins) then Pairs(Fields, slot.name, slot.origins, stashes, None, 0) else []
  }

  ghost function AllMethodErrors(s: seq<MethodSlot>, consumer: seq<MethodSlot>, inherited: set<Name>, stashes: seq<Stash>, stash: Stash, isRole: bool): seq<CompositionError>
    requires |stashes| <= MAX_BITS
  {
    if s == [] then []
    else
      var n := |s| - 1;
      AllMethodErrors(s[..n], consumer, inherited, stashes, stash, isRole)
      + MethodErrors(s[n], HasExplicit(consumer, s[n].name), s[n].name in inherited, stashes, stash, isRole)
  }

  function AllFieldErrors(s: seq<FieldSlot>, stashes: seq<Stash>): seq<CompositionError>
    requires |stashes| <= MAX_BITS
  {
    if s == [] then []
    else AllFieldErrors(s[..|s| - 1], stashes) + FieldErrors(s[|s| - 1], stashes)
  }

  /** Walks the composed tables and appends what it finds.  `inherited` are the
      names with a body somewhere up the superclass chain. */
  method Resolve(methods: array<MethodSlot>, methodCount: nat, fields: array<FieldSlot>, fieldCount: nat,
                 consumer: SlotTable<Method>, inherited: set<Name>, stashes: seq<Stash>, stash: Stash, isRole: bool,
                 errors: seq<CompositionError>)
    returns (r: seq<CompositionError>)
    requires methodCount <= methods.Length && fieldCount <= fields.Length && |stashes| <= MAX_BITS
    requires consumer.Valid() && Strict(consumer.Contents())
    ensures r == errors + AllMethodErrors(methods[..methodCount], consumer.Contents(), inherited, stashes, stash, isRole)
                        + AllFieldErrors(fields[..fieldCount], stashes)
  {
    hide IsRequired, IsConflicted, Pairs;
    ghost var own := consumer.Contents();
    r := ResolveMethods(methods, methodCount, consumer, inherited, stashes, stash, isRole, errors);
    ghost var before := r;
    for i := 0 to fieldCount
      invariant r == before + AllFieldErrors(fields[..i], stashes)
    {
      var slot := fields[i];
      assert fields[..i + 1][..i] == fields[..i] && fields[..i + 1][i] == slot;
      ghost var sofar := r;
      if IsConflicted(slot.origins) {
        r := AppendPairs(Fields, slot.name, slot.origins, stashes, None, r);
      }
      assert r == sofar + FieldErrors(slot, stashes);
      assert AllFieldErrors(fields[..i + 1], stashes) == AllFieldErrors(fields[..i], stashes) + FieldErrors(slot, stashes);
    }
  }

  method ResolveMethods(methods: array<MethodSlot>, methodCount: nat, consumer: SlotTable<Method>, inherited: set<Name>,
                        stashes: seq<Stash>, stash: Stash, isRole: bool, errors: seq<CompositionError>)
    returns (r: seq<CompositionError>)
    requires methodCount <= methods.Length && |stashes| <= MAX_BITS
    requires consumer.Valid() && Strict(consumer.Contents())
    ensures r == errors + AllMethodErrors(methods[..methodCount], consumer.Contents(), inherited, stashes, stash, isRole)
  {
    ghost var own := consumer.Contents();
    r := errors;
    for i := 0 to methodCount
      invariant r == errors + AllMethodErrors(methods[..i], own, inherited, stashes, stash, isRole)
    {
      assert methods[..i + 1][..i] == methods[..i] && methods[..i + 1][i] == methods[i];
      ghost var sofar := r;
      r := ResolveMethod(methods[i], consumer, inherited, stashes, stash, isRole, r);
    }
  }

  method ResolveMethod(slot: MethodSlot, consumer: SlotTable<Method>, inherited: set<Name>,
                       stashes: seq<Stash>, stash: Stash, isRole: bool, errors: seq<CompositionError>)
    returns (r: seq<CompositionError>)
    requires |stashes| <= MAX_BITS && consumer.Valid() && Strict(consumer.Contents())
    ensures r == errors + MethodErrors(slot, HasExplicit(consumer.Contents(), slot.name), slot.name in inherited, stashes, stash, isRole)
  {
    r := errors;
    if IsRequired(slot.origins) {
      var explicit := ConsumerHasExplicit(consumer.slots, consumer.count, slot.name);
      if explicit { return; }
      if !isRole && slot.name in inherited { return; }
      if isRole { return; }
      r := r + [ImplementationRequired(slot.name)];
    } else if IsConflicted(slot.origins) {
      var explicit := ConsumerHasExplicit(consumer.slots, consumer.count, slot.name);
      if explicit { return; }
      if isRole { return; }
      r := AppendPairs(Methods, slot.name, slot.origins, stashes, Some(stash), r);
    }
  }

  // ----- when a class resolves

  /** The participants that define a name, the consumer being number 0. */
  function Definers(before: seq<seq<MethodSlot>>, n: Name): set<nat> {
    set p: nat | p < |before| && Defines(before[p], n)
  }

  function RoleDefiners(before: seq<seq<MethodSlot>>, n: Name): set<nat> {
    Definers(before, n) - {0}
  }

  /** One stash for each participant; only the first one is the consumer's. */
  ghost predicate Participating(stashes: seq<Stash>, before: seq<seq<MethodSlot>>, stash: Stash) {
    |stashes| == |before| <= MAX_BITS && 0 < |stashes| &&
    forall p :: 0 <= p < |stashes| ==> (stashes[p] == stash <==> p == 0)
  }

  lemma NamedAreRoles(o: OriginSet, stashes: seq<Stash>, before: seq<seq<MethodSlot>>, stash: Stash, n: Name)
    requires Participating(stashes, before, stash) && Members(o) == Definers(before, n)
    ensures BlamedFrom(o, stashes, Some(stash), 0) == RoleDefiners(before, n)
  {
    hide Has, Defines;
    forall p: nat ensures p in BlamedFrom(o, stashes, Some(stash), 0) <==> p in RoleDefiners(before, n) {
      assert p in Members(o) <==> p in Definers(before, n);
    }
  }

  /** A name that k roles define, and that stays unresolved, gives k(k-1)/2 errors. */
  lemma ConflictPairs(o: OriginSet, stashes: seq<Stash>, before: seq<seq<MethodSlot>>, stash: Stash, n: Name)
    requires Participating(stashes, before, stash) && Members(o) == Definers(before, n)
    ensures var k := |RoleDefiners(before, n)|;
            |Pairs(Methods, n, o, stashes, Some(stash), 0)| == k * (k - 1) / 2
  {
    hide Pairs, BlamedFrom, Definers, Members, Has;
    PairsLength(Methods, n, o, stashes, Some(stash), 0);
    BlamedCountIsSize(o, stashes, Some(stash), 0);
    NamedAreRoles(o, stashes, before, stash, n);
  }

  lemma NoTriangle(k: nat)
    ensures k * (k - 1) / 2 == 0 <==> k <= 1
  {
    if k > 1 { assert k * (k - 1) >= 2 * 1; }
  }

  /** One slot of a class is in order exactly when the consumer wrote the method, or
      somebody defines it or it is inherited, and at most one role defines it. */
  lemma SlotInOrder(slot: MethodSlot, own: seq<MethodSlot>, inherited: set<Name>, stashes: seq<Stash>,
                    before: seq<seq<MethodSlot>>, stash: Stash)
    requires Participating(stashes, before, stash) && Members(slot.origins) == Definers(before, slot.name)
    ensures MethodErrors(slot, HasExplicit(own, slot.name), slot.name in inherited, stashes, stash, false) == [] <==>
            (HasExplicit(own, slot.name) ||
             ((Definers(before, slot.name) == {} ==> slot.name in inherited) && |RoleDefiners(before, slot.name)| <= 1))
  {
    StatusBySize(slot.origins);
    ConflictPairs(slot.origins, stashes, before, stash, slot.name);
    hide Members, Pairs, IsRequired, IsConflicted, Defines;
    var all, roles := Definers(before, slot.name), RoleDefiners(before, slot.name);
    NoTriangle(|roles|);
    RolesAmong(all);
  }

  lemma RolesAmong(all: set<nat>)
    ensures |all - {0}| <= |all| && (all == {} ==> |all - {0}| == 0)
  {
    if 0 in all {
      assert all == (all - {0}) + {0};
    } else {
      assert all == all - {0};
    }
  }

  lemma {:induction false} ErrorsBySlot(s: seq<MethodSlot>, own: seq<MethodSlot>, inherited: set<Name>, stashes: seq<Stash>, stash: Stash, isRole: bool)
    requires |stashes| <= MAX_BITS
    ensures AllMethodErrors(s, own, inherited, stashes, stash, isRole) == [] <==>
            forall i :: 0 <= i < |s| ==>
              MethodErrors(s[i], HasExplicit(own, s[i].name), s[i].name in inherited, stashes, stash, isRole) == []
  {
    hide MethodErrors;
    if s != [] { ErrorsBySlot(s[..|s| - 1], own, inherited, stashes, stash, isRole); }
  }

  /** A method the consumer wrote is one it defines. */
  lemma ExplicitDefines(tables: seq<seq<MethodSlot>>, before: seq<seq<MethodSlot>>, n: Name)
    requires Assigned(tables, before)
    ensures HasExplicit(tables[0], n) ==> 0 in Definers(before, n)
  {
    assert tables[0] == WithBit(before[0], Bit(0));
    if HasExplicit(tables[0], n) {
      var i :| 0 <= i < |tables[0]| && tables[0][i].name == n && IsExplicit(tables[0][i]);
      assert before[0][i].name == n && before[0][i].payload.cv.Some?;
    }
  }

  // ----- fields

  ghost predicate FieldsAssigned(tables: seq<seq<FieldSlot>>, before: seq<seq<FieldSlot>>) {
    |tables| == |before| && 0 < |before| <= MAX_BITS &&
    forall p: nat :: p < |before| ==> tables[p] == FieldsWithBit(before[p], Bit(p))
  }

  lemma {:induction false} FieldProviders(s: seq<FieldSlot>, p: nat, n: Name)
    requires p < MAX_BITS
    ensures Providers(FieldsWithBit(s, Bit(p)), n) == if Names(s, n) then {p} else {}
  {
    hide Members, Bit;
    if s != [] {
      var b := FieldsWithBit(s, Bit(p));
      assert b[1..] == FieldsWithBit(s[1..], Bit(p));
      FieldProviders(s[1..], p, n);
      BitMembers(p);
      NamesHead(s, n);
    }
  }

  /** The participants that declare a field. */
  ghost function Declarers(before: seq<seq<FieldSlot>>, n: Name): set<nat> {
    set p: nat | p < |before| && Names(before[p], n)
  }

  /** The origins of a name are the participants that declare it. */
  lemma FieldProvidersAre(tables: seq<seq<FieldSlot>>, before: seq<seq<FieldSlot>>, n: Name)
    requires FieldsAssigned(tables, before)
    ensures Providers(ComposeAll(tables, KeepLeft), n) == Declarers(before, n)
  {
    var s := ComposeAll(tables, KeepLeft);
    ComposeAllProviders(tables, KeepLeft, n);
    hide ComposeAll, Providers, Names, FieldsWithBit, Bit;
    forall k: nat | k < |tables| ensures Providers(tables[k], n) == if Names(before[k], n) then {k} else {} {
      FieldProviders(before[k], k, n);
    }
    forall p ensures p in Providers(s, n) <==> p in Declarers(before, n) {
      if p in Declarers(before, n) { assert p in Providers(tables[p], n); }
    }
  }

  /** Each slot has some of the origins of its name. */
  lemma {:induction false} SlotAmongProviders<P>(s: seq<Slot<P>>, i: nat)
    requires i < |s|
    ensures Members(s[i].origins) <= Providers(s, s[i].name)
  {
    hide Members;
    if i > 0 { SlotAmongProviders(s[1..], i - 1); }
  }

  lemma {:induction false} AheadFields(s: seq<FieldSlot>, bit: OriginSet, m: int)
    ensures Ahead(FieldsWithBit(s, bit), m) == FieldsWithBit(Ahead(s, m), bit)
  {
    if s != [] {
      assert FieldsWithBit(s, bit)[1..] == FieldsWithBit(s[1..], bit);
      AheadFields(s[1..], bit, Max(m, s[0].name));
    }
  }

  /** A field that is declared has a slot with all its declarers, even if somebody
      declares it twice. */
  lemma SlotOfField(tables: seq<seq<FieldSlot>>, before: seq<seq<FieldSlot>>, n: Name) returns (i: nat)
    requires FieldsAssigned(tables, before) && (forall p: nat :: p < |before| ==> Sorted(before[p]))
    requires Names(ComposeAll(tables, KeepLeft), n)
    ensures i < |ComposeAll(tables, KeepLeft)| && ComposeAll(tables, KeepLeft)[i].name == n
    ensures Members(ComposeAll(tables, KeepLeft)[i].origins) == Declarers(before, n)
  {
    hide Ahead, Names, Members, Sorted, Strict, ComposeAll, FieldsWithBit, Bit, Providers;
    var ahead := Ahead(ComposeAll(tables, KeepLeft), NONE_SEEN);
    forall p: nat | p < |before|
      ensures Names(AllAhead(before)[p], n) <==> Names(before[p], n)
      ensures AllAhead(tables)[p] == FieldsWithBit(AllAhead(before)[p], Bit(p))
    {
      SortedNamesAhead(before[p], n);
      AheadFields(before[p], Bit(p), NONE_SEEN);
    }
    assert Declarers(AllAhead(before), n) == Declarers(before, n);
    AheadOfCompose(tables, KeepLeft);
    FieldProvidersAre(AllAhead(tables), AllAhead(before), n);
    FieldProvidersAre(tables, before, n);
    NamedSomewhere(tables, before, n);
    AheadStrict(ComposeAll(tables, KeepLeft), NONE_SEEN);
    var k := SomeProviderOf(ahead, n);
    ProvidersOfSlot(ahead, k);
    PlaceIn(ComposeAll(tables, KeepLeft), NONE_SEEN, ahead[k]);
    i :| i < |ComposeAll(tables, KeepLeft)| && ComposeAll(tables, KeepLeft)[i] == ahead[k];
  }

  lemma NamedSomewhere(tables: seq<seq<FieldSlot>>, before: seq<seq<FieldSlot>>, n: Name)
    requires FieldsAssigned(tables, before) && Names(ComposeAll(tables, KeepLeft), n)
    ensures Declarers(before, n) != {}
  {
    ComposeAllNames(tables, KeepLeft, n);
    hide ComposeAll;
    var p: nat :| p < |tables| && Names(tables[p], n);
    var j :| 0 <= j < |tables[p]| && tables[p][j].name == n;
    assert before[p][j].name == n;
    assert p in Declarers(before, n);
  }

  lemma {:induction false} SomeProviderOf<P>(s: seq<Slot<P>>, n: Name) returns (i: nat)
    requires Providers(s, n) != {}
    ensures i < |s| && s[i].name == n && Members(s[i].origins) != {}
    decreases |s|
  {
    hide Members;
    if s[0].name == n && Members(s[0].origins) != {} {
      i := 0;
    } else {
      i := SomeProviderOf(s[1..], n);
      i := i + 1;
    }
  }

  lemma {:induction false} FieldErrorsBySlot(s: seq<FieldSlot>, stashes: seq<Stash>)
    requires |stashes| <= MAX_BITS
    ensures AllFieldErrors(s, stashes) == [] <==> forall i :: 0 <= i < |s| ==> FieldErrors(s[i], stashes) == []
  {
    hide FieldErrors;
    if s != [] { FieldErrorsBySlot(s[..|s| - 1], stashes); }
  }

  lemma FieldInOrder(slot: FieldSlot, stashes: seq<Stash>, before: seq<seq<FieldSlot>>)
    requires |stashes| == |before| <= MAX_BITS && Members(slot.origins) == Declarers(before, slot.name)
    ensures FieldErrors(slot, stashes) == [] <==> |Declarers(before, slot.name)| <= 1
  {
    StatusBySize(slot.origins);
    PairsLength(Fields, slot.name, slot.origins, stashes, None, 0);
    BlamedCountIsSize(slot.origins, stashes, None, 0);
    forall p: nat ensures p in BlamedFrom(slot.origins, stashes, None, 0) <==> p in Members(slot.origins) {}
    assert BlamedFrom(slot.origins, stashes, None, 0) == Members(slot.origins);
    hide Members, Pairs, Declarers, IsConflicted;
    NoTriangle(|Declarers(before, slot.name)|);
  }

  lemma FewOrigins(slot: FieldSlot, stashes: seq<Stash>, declarers: set<nat>)
    requires |stashes| <= MAX_BITS && Members(slot.origins) <= declarers && |declarers| <= 1
    ensures FieldErrors(slot, stashes) == []
  {
    hide Members, IsConflicted;
    StatusBySize(slot.origins);
    SubsetSize(Members(slot.origins), declarers);
  }

  lemma SubsetSize(a: set<nat>, b: set<nat>)
    requires a <= b
    ensures |a| <= |b|
  {
    assert b == a + (b - a);
  }

  /** Fields conflict exactly when two participants, the consumer among them, declare one
      name.  A name that one participant declares twice is no conflict by itself. */
  lemma FieldsResolve(tables: seq<seq<FieldSlot>>, before: seq<seq<FieldSlot>>, stashes: seq<Stash>)
    requires FieldsAssigned(tables, before) && (forall p: nat :: p < |before| ==> Sorted(before[p])) && |stashes| == |before|
    ensures AllFieldErrors(ComposeAll(tables, KeepLeft), stashes) == [] <==>
            forall n :: Names(ComposeAll(tables, KeepLeft), n) ==> |Declarers(before, n)| <= 1
  {
    var s := ComposeAll(tables, KeepLeft);
    FieldErrorsBySlot(s, stashes);
    hide ComposeAll, FieldErrors, AllFieldErrors, Declarers, Members, Sorted, Providers;
    forall i: nat | i < |s| ensures |Declarers(before, s[i].name)| <= 1 ==> FieldErrors(s[i], stashes) == [] {
      FieldProvidersAre(tables, before, s[i].name);
      SlotAmongProviders(s, i);
      if |Declarers(before, s[i].name)| <= 1 { FewOrigins(s[i], stashes, Declarers(before, s[i].name)); }
    }
    forall n | Names(s, n) && AllFieldErrors(s, stashes) == [] ensures |Declarers(before, n)| <= 1 {
      var i := SlotOfField(tables, before, n);
      FieldInOrder(s[i], stashes, before);
    }
    forall i: nat | i < |s| ensures Names(s, s[i].name) {}
  }

  // ----- requirements that a role passes on

  /** The requirements of the composed table that the role does not record yet. */
  function NewRequirements(composed: seq<MethodSlot>, stored: seq<MethodSlot>): seq<MethodSlot> {
    if composed == [] then []
    else
      var n := |composed| - 1;
      NewRequirements(composed[..n], stored)
      + if IsRequired(composed[n].origins) && !(exists j :: 0 <= j < |stored| && stored[j].name == composed[n].name)
        then [Slot(composed[n].name, 0, Method(None, None))] else []
  }

  /** After composing, a role appends its open requirements behind its sorted slots. */
  method PropagateRequired(composed: array<MethodSlot>, count: nat, stored: SlotTable<Method>)
    requires count <= composed.Length && stored.Valid() && composed != stored.slots
    modifies stored, stored.slots
    ensures stored.Valid()
    ensures stored.Contents() == old(stored.Contents()) + NewRequirements(composed[..count], old(stored.Contents()))
  {
    ghost var was := stored.Contents();
    var oldCount := stored.count;
    for i := 0 to count
      invariant stored.Valid() && oldCount <= stored.count
      invariant stored.slots == old(stored.slots) || fresh(stored.slots)
      invariant composed[..] == old(composed[..])
      invariant stored.Contents() == was + NewRequirements(composed[..i], was)
    {
      var slot := composed[i];
      assert composed[..i + 1][..i] == composed[..i] && composed[..i + 1][i] == slot;
      if IsRequired(slot.origins) {
        var found := false;
        for j := 0 to oldCount
          invariant found <==> exists k :: 0 <= k < j && was[k].name == slot.name
        {
          assert stored.slots[j] == stored.Contents()[j] == was[j];
          if stored.slots[j].name == slot.name { found := true; }
        }
        if !found {
          stored.Add(Slot(slot.name, 0, Method(None, None)));
        }
      }
    }
  }
}
