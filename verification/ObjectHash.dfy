/** An object as a hash of its fields, by owner and then by name, and back. */
module ObjectHash {
  import opened RoleClosure
  import opened ObjectLayout
  import opened LayoutFacts
  import opened InstanceLayout
  import opened Instances
  import opened Sealing
  import opened FieldWalks

  /** A value.  Array and hash fields hold the container itself; in the hash form
      they are replaced by references to it. */
  datatype Sv = Undef | Plain(id: nat) | Av(id: nat) | Hv(id: nat) | Rv(target: Sv)

  /** A slot of the field vector; None before the field is initialised. */
  type Slot = Option<Sv>

  datatype ConversionError = OwnerBucketRequired(owner: Stash) | ReferenceRequired(name: Name) | TypeMismatch(name: Name)

  type Bucket = map<Name, Sv>

  // ----- one field

  function Export(f: Field, v: Slot): Sv {
    var value := if v.Some? then v.value else Undef;
    if f.sigil == ScalarSigil then value else Rv(value)
  }

  function Import(bucket: Bucket, f: Field): Result<Sv, ConversionError> {
    var value := if f.name in bucket then bucket[f.name] else Undef;
    if f.sigil == ScalarSigil then Ok(value)
    else if !value.Rv? then Error(ReferenceRequired(f.name))
    else if f.sigil == ArraySigil && !value.target.Av? then Error(TypeMismatch(f.name))
    else if f.sigil == HashSigil && !value.target.Hv? then Error(TypeMismatch(f.name))
    else Ok(value.target)
  }

  /** The container that an array or hash field must hold is there. */
  predicate Restorable(f: Field, v: Slot) {
    match f.sigil
    case ScalarSigil => true
    case ArraySigil => v.Some? && v.value.Av?
    case HashSigil => v.Some? && v.value.Hv?
  }

  /** The entry of a scalar field is its value, that of an array or hash field a reference
      to its container; what was never initialised counts as undef. */
  predicate Exported(f: Field, v: Slot, entry: Sv) {
    match f.sigil
    case ScalarSigil => (v.Some? ==> entry == v.value) && (v.None? ==> entry == Undef)
    case ArraySigil => (v.Some? ==> entry == Rv(v.value)) && (v.None? ==> entry == Rv(Undef))
    case HashSigil => (v.Some? ==> entry == Rv(v.value)) && (v.None? ==> entry == Rv(Undef))
  }

  /** An array or hash field needs a reference to a container of its kind. */
  predicate Supplies(bucket: Bucket, f: Field) {
    match f.sigil
    case ScalarSigil => true
    case ArraySigil => f.name in bucket && bucket[f.name].Rv? && bucket[f.name].target.Av?
    case HashSigil => f.name in bucket && bucket[f.name].Rv? && bucket[f.name].target.Hv?
  }

  /** A scalar takes its entry, or undef; an array or hash what its entry refers to. */
  predicate Imported(bucket: Bucket, f: Field, v: Slot) {
    match f.sigil
    case ScalarSigil => if f.name in bucket then v == Some(bucket[f.name]) else v == Some(Undef)
    case ArraySigil => Supplies(bucket, f) && v == Some(bucket[f.name].target)
    case HashSigil => Supplies(bucket, f) && v == Some(bucket[f.name].target)
  }

  /** What is wrong with the entry of a field. */
  predicate Refused(bucket: Bucket, f: Field, error: ConversionError) {
    match error
    case OwnerBucketRequired(_) => false
    case ReferenceRequired(n) => n == f.name && f.sigil != ScalarSigil && (n in bucket ==> !bucket[n].Rv?)
    case TypeMismatch(n) =>
      && n == f.name && n in bucket && bucket[n].Rv?
      && ((f.sigil == ArraySigil && !bucket[n].target.Av?) || (f.sigil == HashSigil && !bucket[n].target.Hv?))
  }

  lemma ExportIs(f: Field, v: Slot)
    ensures Exported(f, v, Export(f, v))
  {}

  lemma ImportIs(bucket: Bucket, f: Field)
    ensures Import(bucket, f).Ok? <==> Supplies(bucket, f)
    ensures Import(bucket, f).Ok? ==> Imported(bucket, f, Some(Import(bucket, f).value))
    ensures Import(bucket, f).Error? ==> Refused(bucket, f, Import(bucket, f).error)
  {}

  lemma ExportImport(bucket: Bucket, f: Field, v: Slot)
    requires f.name in bucket && Exported(f, v, bucket[f.name])
    ensures Supplies(bucket, f) <==> Restorable(f, v)
    ensures forall w :: Imported(bucket, f, w) ==> w == if v.Some? then v else Some(Undef)
  {}

  // ----- a bucket, as a list of entries in the order they are stored

  ghost predicate RefOk(t: Table, e: SlotRef) {
    e.decl in t && e.index < |t[e.decl].fields|
  }

  function FieldOf(t: Table, e: SlotRef): Field
    requires e.decl in t && e.index < |t[e.decl].fields|
  {
    t[e.decl].fields[e.index]
  }

  ghost predicate RefsOk(t: Table, refs: seq<SlotRef>) {
    forall e :: e in refs ==> RefOk(t, e)
  }

  /** Later entries overwrite earlier ones. */
  function Fill(entries: seq<(Name, Sv)>): Bucket {
    if entries == [] then map[]
    else
      var n := |entries| - 1;
      Fill(entries[..n])[entries[n].0 := entries[n].1]
  }

  ghost predicate DistinctKeys(entries: seq<(Name, Sv)>) {
    forall i, j :: 0 <= i < j < |entries| ==> entries[i].0 != entries[j].0
  }

  lemma {:induction false} FillHolds(entries: seq<(Name, Sv)>, i: nat)
    requires DistinctKeys(entries) && i < |entries|
    ensures entries[i].0 in Fill(entries) && Fill(entries)[entries[i].0] == entries[i].1
  {
    var n := |entries| - 1;
    if i < n { FillHolds(entries[..n], i); }
  }

  /** The slot of the instance that holds a field. */
  ghost function PositionOf(t: Table, l: Layout, e: SlotRef): (q: nat)
    requires LayoutOk(t, l) && e in InstanceSlots(t, l.classes)
    ensures Holds(t, l, q, e)
  {
    assert exists q: nat :: Holds(t, l, q, e) by {
      var j: nat :| j < |InstanceSlots(t, l.classes)| && InstanceSlots(t, l.classes)[j] == e;
      assert Holds(t, l, j, e);
    }
    var q: nat :| Holds(t, l, q, e);
    q
  }

  lemma PositionIs(t: Table, l: Layout, q: int, e: SlotRef)
    requires LayoutOk(t, l) && Holds(t, l, q, e)
    ensures e in InstanceSlots(t, l.classes) && PositionOf(t, l, e) == q
  {
    HoldsUnique(t, l, q, PositionOf(t, l, e), e);
  }

  ghost predicate Stored(t: Table, l: Layout, refs: seq<SlotRef>)
    requires LayoutOk(t, l)
  {
    RefsOk(t, refs) && forall e :: e in refs ==> e in InstanceSlots(t, l.classes)
  }

  /** What the fields export, in order. */
  ghost function Entries(t: Table, l: Layout, slots: seq<Slot>, refs: seq<SlotRef>): seq<(Name, Sv)>
    requires LayoutOk(t, l) && Stored(t, l, refs) && |slots| == |InstanceSlots(t, l.classes)|
  {
    seq(|refs|, i requires 0 <= i < |refs| =>
      assert refs[i] in refs;
      (FieldOf(t, refs[i]).name, Export(FieldOf(t, refs[i]), slots[PositionOf(t, l, refs[i])])))
  }

  /** The order in which the fields of one owner are visited: its own, then those of its roles. */
  function Visited(t: Table, c: Stash): seq<SlotRef>
    requires c in t && ObjectLayout.Within(t, t[c].roles)
  {
    Block(t, c, c) + RoleBlocks(t, c, t[c].roles)
  }

  // ----- enumerating the fields of an owner with their slots

  lemma BlockNext(owner: Stash, decl: Stash, t: Table, i: nat, done: seq<SlotRef>)
    requires decl in t && i < |t[decl].fields|
    requires done == RefsUpTo(t, owner, decl, i)
    ensures RefsUpTo(t, owner, decl, i + 1)
            == if t[decl].fields[i].inherited then done else done + [SlotRef(owner, decl, i)]
  {
    var fs := t[decl].fields;
    assert fs[..i + 1][..i] == fs[..i];
  }

  /** The block of a declaration, as far as its first `i` fields. */
  function RefsUpTo(t: Table, owner: Stash, decl: Stash, i: nat): seq<SlotRef>
    requires decl in t && i <= |t[decl].fields|
  {
    var own := OwnIndexes(t[decl].fields[..i]);
    seq(|own|, j requires 0 <= j < |own| => SlotRef(owner, decl, own[j]))
  }

  lemma BlockEnds(t: Table, owner: Stash, decl: Stash)
    requires decl in t
    ensures RefsUpTo(t, owner, decl, 0) == []
    ensures RefsUpTo(t, owner, decl, |t[decl].fields|) == Block(t, owner, decl)
  {
    assert t[decl].fields[..|t[decl].fields|] == t[decl].fields;
  }

  lemma RoleBlocksNext(t: Table, o: Stash, roles: seq<Stash>, k: nat)
    requires ObjectLayout.Within(t, roles) && k < |roles|
    ensures ObjectLayout.Within(t, roles[..k]) && ObjectLayout.Within(t, roles[..k + 1])
    ensures RoleBlocks(t, o, roles[..k + 1]) == RoleBlocks(t, o, roles[..k]) + Block(t, o, roles[k])
  {
    assert roles[..k + 1][..k] == roles[..k];
  }

  ghost predicate Located(t: Table, l: Layout, refs: seq<SlotRef>, slots: seq<nat>)
    requires LayoutOk(t, l)
  {
    |slots| == |refs| && forall j :: 0 <= j < |refs| ==> Holds(t, l, slots[j], refs[j]) && RefOk(t, refs[j])
  }

  lemma LocatedAppend(t: Table, l: Layout, refs: seq<SlotRef>, slots: seq<nat>, refs': seq<SlotRef>, slots': seq<nat>)
    requires LayoutOk(t, l) && Located(t, l, refs, slots) && Located(t, l, refs', slots')
    ensures Located(t, l, refs + refs', slots + slots')
  {
    hide Holds, LayoutOk;
  }

  lemma LocatedNone(t: Table, l: Layout)
    requires LayoutOk(t, l)
    ensures Located(t, l, [], [])
  {}

  lemma LocatedNext(t: Table, l: Layout, refs: seq<SlotRef>, slots: seq<nat>, e: SlotRef, q: nat)
    requires LayoutOk(t, l) && Located(t, l, refs, slots) && Holds(t, l, q, e) && RefOk(t, e)
    ensures Located(t, l, refs + [e], slots + [q])
  {
    hide Holds, LayoutOk;
  }

  /** The first `i` fields of a declaration, as stored for `owner`, each with its slot. */
  ghost predicate Gathered(t: Table, l: Layout, owner: Stash, decl: Stash, i: nat, refs: seq<SlotRef>, slots: seq<nat>)
    requires LayoutOk(t, l)
  {
    decl in t && i <= |t[decl].fields| && refs == RefsUpTo(t, owner, decl, i) && Located(t, l, refs, slots)
  }

  lemma GatheredNone(t: Table, l: Layout, owner: Stash, decl: Stash)
    requires LayoutOk(t, l) && decl in t
    ensures Gathered(t, l, owner, decl, 0, [], [])
  {
    hide LayoutOk;
    BlockEnds(t, owner, decl);
  }

  lemma GatheredAll(t: Table, l: Layout, owner: Stash, decl: Stash, refs: seq<SlotRef>, slots: seq<nat>)
    requires LayoutOk(t, l) && decl in t && Gathered(t, l, owner, decl, |t[decl].fields|, refs, slots)
    ensures refs == Block(t, owner, decl) && Located(t, l, refs, slots)
  {
    hide LayoutOk, Located;
    BlockEnds(t, owner, decl);
  }

  lemma GatheredNext(t: Table, l: Layout, owner: Stash, decl: Stash, i: nat, refs: seq<SlotRef>, slots: seq<nat>, q: nat)
    requires LayoutOk(t, l) && Gathered(t, l, owner, decl, i, refs, slots) && i < |t[decl].fields|
    requires !t[decl].fields[i].inherited ==> Holds(t, l, q, SlotRef(owner, decl, i))
    ensures if t[decl].fields[i].inherited then Gathered(t, l, owner, decl, i + 1, refs, slots)
            else Gathered(t, l, owner, decl, i + 1, refs + [SlotRef(owner, decl, i)], slots + [q])
  {
    hide LayoutOk, Located, Holds, RefsUpTo;
    BlockNext(owner, decl, t, i, refs);
    if !t[decl].fields[i].inherited {
      LocatedNext(t, l, refs, slots, SlotRef(owner, decl, i), q);
    }
  }

  method OwnFields(table: SymbolTable, l: Layout, ci: nat) returns (refs: seq<SlotRef>, slots: seq<nat>)
    requires TableOk(table.stashes) && LayoutOk(table.stashes, l) && ci < |l.classes|
    ensures ClassReady(table.stashes, l.classes[ci])
    ensures refs == Block(table.stashes, l.classes[ci], l.classes[ci])
    ensures Located(table.stashes, l, refs, slots)
  {
    ghost var t := table.stashes;
    ClassBase(t, l, ci);
    var c := l.classes[ci];
    GatheredNone(t, l, c, c);
    hide TableOk, LayoutOk, SealedOk, Prefix, WindowStart, RoleWidth, OwnCount, Holds, Gathered, Block, Located;
    refs, slots := [], [];
    var fields := table.stashes[c].fields;
    for i := 0 to |fields|
      invariant Gathered(t, l, c, c, i, refs, slots)
    {
      if fields[i].inherited {
        GatheredNext(t, l, c, c, i, refs, slots, 0);
      } else {
        FoundOwn(t, l, ci, i);
        var q := l.shifts[c] + fields[i].fieldix.value;
        GatheredNext(t, l, c, c, i, refs, slots, q);
        refs, slots := refs + [SlotRef(c, c, i)], slots + [q];
      }
    }
    GatheredAll(t, l, c, c, refs, slots);
  }

  method RoleFields(table: SymbolTable, l: Layout, ci: nat, k: nat, base: nat) returns (refs: seq<SlotRef>, slots: seq<nat>)
    requires TableOk(table.stashes) && LayoutOk(table.stashes, l) && ci < |l.classes|
    requires ClassReady(table.stashes, l.classes[ci]) && k < |table.stashes[l.classes[ci]].roles|
    requires l.classes[ci] in l.shifts
    requires base == l.shifts[l.classes[ci]] + RoleBase(table.stashes, l.classes[ci], k)
    ensures table.stashes[l.classes[ci]].roles[k] in table.stashes
    ensures refs == Block(table.stashes, l.classes[ci], table.stashes[l.classes[ci]].roles[k])
    ensures Located(table.stashes, l, refs, slots)
  {
    ghost var t := table.stashes;
    var c := l.classes[ci];
    RoleReady(t, c, k);
    var role := table.stashes[c].roles[k];
    RoleOwnsItsFields(t, role);
    GatheredNone(t, l, c, role);
    hide TableOk, LayoutOk, SealedOk, ClassReady, RoleBase, OwnCount, Holds, Gathered, Block, Located;
    refs, slots := [], [];
    var fields := table.stashes[role].fields;
    for i := 0 to |fields|
      invariant Gathered(t, l, c, role, i, refs, slots)
    {
      assert OwnField(t, role, i);
      FoundInRole(t, l, ci, k, i);
      var q := base + fields[i].rel;
      GatheredNext(t, l, c, role, i, refs, slots, q);
      refs, slots := refs + [SlotRef(c, role, i)], slots + [q];
    }
    GatheredAll(t, l, c, role, refs, slots);
  }

  method AllRoleFields(table: SymbolTable, l: Layout, ci: nat) returns (refs: seq<SlotRef>, slots: seq<nat>)
    requires TableOk(table.stashes) && LayoutOk(table.stashes, l) && ci < |l.classes|
    ensures ClassReady(table.stashes, l.classes[ci])
    ensures refs == RoleBlocks(table.stashes, l.classes[ci], table.stashes[l.classes[ci]].roles)
    ensures Located(table.stashes, l, refs, slots)
  {
    ghost var t := table.stashes;
    var c := l.classes[ci];
    ClassBase(t, l, ci);
    hide WindowStart, ClassSlots, InstanceSlots, OwnCount, Holds, TableOk, LayoutOk, Block;
    var aux := table.stashes[c];
    var base := l.shifts[c] + if aux.superclass.Some? then table.stashes[aux.superclass.value].nextFieldix else 0;
    RoleWidthEnds(t, aux.roles);
    assert aux.roles[..|aux.roles|] == aux.roles;
    hide RoleWidth, RolesOrdered, FieldsPlaced, FlattenedFrom;
    refs, slots := [], [];
    LocatedNone(t, l);
    hide Located;
    for k := 0 to |aux.roles|
      invariant base == l.shifts[c] + RoleBase(t, c, k)
      invariant ObjectLayout.Within(t, aux.roles[..k])
      invariant refs == RoleBlocks(t, c, aux.roles[..k]) && Located(t, l, refs, slots)
    {
      var more, where := RoleFields(table, l, ci, k, base);
      RoleBlocksNext(t, c, aux.roles, k);
      LocatedAppend(t, l, refs, slots, more, where);
      refs, slots := refs + more, slots + where;
      var count := table.OwnFieldCount(aux.roles[k]);
      TakeNext(aux.roles, k);
      RoleWidthAppend(t, aux.roles[..k], aux.roles[k]);
      base := base + count;
    }
  }

  /** The fields stored for class number `ci`, each with the slot that holds it. */
  method OwnerFields(table: SymbolTable, l: Layout, ci: nat) returns (refs: seq<SlotRef>, slots: seq<nat>)
    requires TableOk(table.stashes) && LayoutOk(table.stashes, l) && ci < |l.classes|
    ensures ClassReady(table.stashes, l.classes[ci])
    ensures refs == Visited(table.stashes, l.classes[ci]) && Located(table.stashes, l, refs, slots)
  {
    hide TableOk, LayoutOk, Block, RoleBlocks, Located, SealedOk;
    var own, ownSlots := OwnFields(table, l, ci);
    var roles, roleSlots := AllRoleFields(table, l, ci);
    LocatedAppend(table.stashes, l, own, ownSlots, roles, roleSlots);
    return own + roles, ownSlots + roleSlots;
  }

  // ----- names and parameters

  function FieldsOf(t: Table, refs: seq<SlotRef>): (fs: seq<Field>)
    requires forall e :: e in refs ==> e.decl in t && e.index < |t[e.decl].fields|
  {
    seq(|refs|, i requires 0 <= i < |refs| => assert refs[i] in refs; FieldOf(t, refs[i]))
  }

  ghost predicate DistinctNames(fs: seq<Field>) {
    forall i, j :: 0 <= i < j < |fs| ==> fs[i].name != fs[j].name
  }

  function ParamSet(fs: seq<Field>): set<Name> {
    set f | f in fs && f.param.Some? :: f.param.value
  }

  /** No constructor parameter initialises two of the fields, or one seen before. */
  ghost predicate DistinctParams(fs: seq<Field>, seen: set<Name>) {
    forall i :: 0 <= i < |fs| && fs[i].param.Some? ==> fs[i].param.value !in seen + ParamSet(fs[..i])
  }

  /** What is wrong with one field, after those in front of it. */
  function ClashAt(fs: seq<Field>, seen: set<Name>, i: nat): Option<FieldClash>
    requires i < |fs|
  {
    if fs[i].name in NameSet(fs[..i]) then Some(NameClash(fs[i].name))
    else if fs[i].param.Some? && fs[i].param.value in seen + ParamSet(fs[..i]) then Some(ParameterClash(fs[i].param.value, fs[i].name))
    else None
  }

  /** The first clash in the order of the fields. */
  ghost predicate FirstClash(fs: seq<Field>, seen: set<Name>, clash: FieldClash) {
    exists i: nat :: i < |fs| && ClashAt(fs, seen, i) == Some(clash) && forall j: nat :: j < i ==> ClashAt(fs, seen, j) == None
  }

  lemma NamedBefore(fs: seq<Field>, i: nat)
    requires i < |fs|
    ensures fs[i].name in NameSet(fs[..i]) <==> exists j :: 0 <= j < i && fs[j].name == fs[i].name
  {
    if fs[i].name in NameSet(fs[..i]) {
      var f :| f in fs[..i] && f.name == fs[i].name;
      var j :| 0 <= j < i && fs[j] == f;
    }
    if j :| 0 <= j < i && fs[j].name == fs[i].name { assert fs[j] in fs[..i]; }
  }

  /** No field clashes with those in front of it exactly when names and parameters are unique. */
  lemma ClashesDecide(fs: seq<Field>, seen: set<Name>)
    ensures (forall i: nat :: i < |fs| ==> ClashAt(fs, seen, i) == None) <==> DistinctNames(fs) && DistinctParams(fs, seen)
  {
    forall i: nat | i < |fs| ensures fs[i].name in NameSet(fs[..i]) <==> exists j :: 0 <= j < i && fs[j].name == fs[i].name {
      NamedBefore(fs, i);
    }
    hide NameSet, ParamSet;
    if forall i: nat :: i < |fs| ==> ClashAt(fs, seen, i) == None {
      forall i, j | 0 <= i < j < |fs| ensures fs[i].name != fs[j].name { assert ClashAt(fs, seen, j) == None; }
      forall i | 0 <= i < |fs| && fs[i].param.Some? ensures fs[i].param.value !in seen + ParamSet(fs[..i]) {
        assert ClashAt(fs, seen, i) == None;
      }
    }
  }

  lemma ClashIsFirst(fs: seq<Field>, seen: set<Name>, i: nat)
    requires i < |fs| && ClashAt(fs, seen, i).Some? && forall j: nat :: j < i ==> ClashAt(fs, seen, j) == None
    ensures FirstClash(fs, seen, ClashAt(fs, seen, i).value) && !(DistinctNames(fs) && DistinctParams(fs, seen))
  {
    ClashesDecide(fs, seen);
  }

  /** The check of one owner. */
  method ValidateOwner(fs: seq<Field>, seen: set<Name>) returns (clash: Option<FieldClash>, params: set<Name>)
    ensures clash.None? <==> DistinctNames(fs) && DistinctParams(fs, seen)
    ensures clash.Some? ==> FirstClash(fs, seen, clash.value)
    ensures clash.None? ==> params == seen + ParamSet(fs)
  {
    var names: set<Name> := {};
    params := seen;
    ClashesDecide(fs, seen);
    for i := 0 to |fs|
      invariant names == NameSet(fs[..i]) && params == seen + ParamSet(fs[..i])
      invariant forall j: nat :: j < i ==> ClashAt(fs, seen, j) == None
    {
      hide NameSet, ParamSet, DistinctNames, DistinctParams, FirstClash;
      var f := fs[i];
      if f.name in names {
        ClashIsFirst(fs, seen, i);
        return Some(NameClash(f.name)), params;
      }
      NameSetNext(fs, i);
      names := names + {f.name};
      ParamSetNext(fs, i);
      if f.param.Some? {
        if f.param.value in params {
          ClashIsFirst(fs, seen, i);
          return Some(ParameterClash(f.param.value, f.name)), params;
        }
        params := params + {f.param.value};
      }
    }
    assert fs[..|fs|] == fs;
    return None, params;
  }

  function NameSet(fs: seq<Field>): set<Name> {
    set f | f in fs :: f.name
  }

  lemma NameSetNext(fs: seq<Field>, i: nat)
    requires i < |fs|
    ensures NameSet(fs[..i + 1]) == NameSet(fs[..i]) + {fs[i].name}
  {
    TakeNext(fs, i);
  }

  lemma ParamSetNext(fs: seq<Field>, i: nat)
    requires i < |fs|
    ensures ParamSet(fs[..i + 1]) == ParamSet(fs[..i]) + if fs[i].param.Some? then {fs[i].param.value} else {}
  {
    TakeNext(fs, i);
  }

  /** Names, with their sigils, are unique within one storage owner. */
  ghost predicate OwnerNamesDistinct(t: Table, c: Stash) {
    ClassReady(t, c) && RefsOk(t, Visited(t, c)) && DistinctNames(FieldsOf(t, Visited(t, c)))
  }

  /** The fields of all owners, in the order in which they are visited. */
  ghost function AllVisited(t: Table, classes: seq<Stash>): seq<SlotRef>
    requires AllReady(t, classes)
  {
    if classes == [] then []
    else
      var n := |classes| - 1;
      assert classes[n] in classes && ClassReady(t, classes[n]);
      AllVisited(t, classes[..n]) + Visited(t, classes[n])
  }

  lemma AllVisitedNext(t: Table, classes: seq<Stash>, i: nat)
    requires AllReady(t, classes) && i < |classes|
    ensures AllReady(t, classes[..i]) && AllReady(t, classes[..i + 1]) && ClassReady(t, classes[i])
    ensures AllVisited(t, classes[..i + 1]) == AllVisited(t, classes[..i]) + Visited(t, classes[i])
  {
    hide ClassReady;
    assert classes[i] in classes && ClassReady(t, classes[i]);
    assert classes[..i + 1][..i] == classes[..i];
  }

  lemma {:induction false} AllVisitedPrefix(t: Table, classes: seq<Stash>, i: nat)
    requires AllReady(t, classes) && i <= |classes|
    ensures AllReady(t, classes[..i]) && AllVisited(t, classes[..i]) <= AllVisited(t, classes)
  {
    hide ClassReady;
    if i < |classes| {
      var n := |classes| - 1;
      AllVisitedPrefix(t, classes[..n], i);
      assert classes[..n][..i] == classes[..i];
      AllVisitedNext(t, classes, n);
      assert classes[..n + 1] == classes;
    } else {
      assert classes[..i] == classes;
    }
  }

  /** No constructor parameter initialises two fields of the whole object. */
  ghost predicate ParametersDistinct(t: Table, classes: seq<Stash>)
    requires AllReady(t, classes)
  {
    RefsOk(t, AllVisited(t, classes)) && DistinctParams(FieldsOf(t, AllVisited(t, classes)), {})
  }

  lemma ParamsAppend(a: seq<Field>, b: seq<Field>)
    ensures DistinctParams(a + b, {}) <==> DistinctParams(a, {}) && DistinctParams(b, ParamSet(a))
    ensures ParamSet(a + b) == ParamSet(a) + ParamSet(b)
  {
    forall i | 0 <= i <= |a| ensures (a + b)[..i] == a[..i] {}
    forall i | 0 <= i <= |b| ensures ParamSet((a + b)[..|a| + i]) == ParamSet(a) + ParamSet(b[..i]) {
      assert (a + b)[..|a| + i] == a + b[..i];
    }
    if DistinctParams(a + b, {}) {
      forall i | 0 <= i < |b| && b[i].param.Some? ensures b[i].param.value !in ParamSet(a) + ParamSet(b[..i]) {
        assert (a + b)[|a| + i] == b[i];
      }
      forall i | 0 <= i < |a| && a[i].param.Some? ensures a[i].param.value !in ParamSet(a[..i]) {
        assert (a + b)[i] == a[i];
      }
    }
    if DistinctParams(a, {}) && DistinctParams(b, ParamSet(a)) {
      forall i | 0 <= i < |a + b| && (a + b)[i].param.Some? ensures (a + b)[i].param.value !in {} + ParamSet((a + b)[..i]) {
        if i >= |a| { assert (a + b)[i] == b[i - |a|]; }
      }
    }
  }

  lemma FieldsOfAppend(t: Table, a: seq<SlotRef>, b: seq<SlotRef>)
    requires RefsOk(t, a) && RefsOk(t, b)
    ensures RefsOk(t, a + b) && FieldsOf(t, a + b) == FieldsOf(t, a) + FieldsOf(t, b)
  {}

  /** Fewer fields clash no more. */
  lemma ParametersOfFront(t: Table, classes: seq<Stash>, i: nat)
    requires AllReady(t, classes) && i <= |classes| && ParametersDistinct(t, classes)
    ensures AllReady(t, classes[..i]) && ParametersDistinct(t, classes[..i])
  {
    hide ClassReady, DistinctParams, ParamSet;
    AllVisitedPrefix(t, classes, i);
    var all, front := AllVisited(t, classes), AllVisited(t, classes[..i]);
    var rest := all[|front|..];
    assert all == front + rest;
    assert forall e :: e in front ==> e in all;
    assert forall e :: e in rest ==> e in all;
    FieldsOfAppend(t, front, rest);
    ParamsAppend(FieldsOf(t, front), FieldsOf(t, rest));
  }

  /** What one more owner adds to the check. */
  lemma ParametersNext(t: Table, classes: seq<Stash>, i: nat)
    requires AllReady(t, classes) && i < |classes|
    requires ClassReady(t, classes[i]) && RefsOk(t, Visited(t, classes[i]))
    ensures AllReady(t, classes[..i]) && AllReady(t, classes[..i + 1])
    ensures ParametersDistinct(t, classes[..i]) ==>
              var before, now := FieldsOf(t, AllVisited(t, classes[..i])), FieldsOf(t, Visited(t, classes[i]));
              && (ParametersDistinct(t, classes[..i + 1]) <==> DistinctParams(now, ParamSet(before)))
              && RefsOk(t, AllVisited(t, classes[..i + 1]))
              && ParamSet(FieldsOf(t, AllVisited(t, classes[..i + 1]))) == ParamSet(before) + ParamSet(now)
  {
    hide DistinctParams, ParamSet, Visited;
    AllVisitedNext(t, classes, i);
    if ParametersDistinct(t, classes[..i]) {
      FieldsOfAppend(t, AllVisited(t, classes[..i]), Visited(t, classes[i]));
      ParamsAppend(FieldsOf(t, AllVisited(t, classes[..i])), FieldsOf(t, Visited(t, classes[i])));
    }
  }

  /** Owner number `ci` has the first clash of the whole object. */
  ghost predicate FirstClashOf(t: Table, classes: seq<Stash>, ci: nat, clash: FieldClash) {
    && ci < |classes| && AllReady(t, classes[..ci]) && ParametersDistinct(t, classes[..ci])
    && (forall k :: 0 <= k < ci ==> OwnerNamesDistinct(t, classes[k]))
    && ClassReady(t, classes[ci]) && RefsOk(t, Visited(t, classes[ci]))
    && FirstClash(FieldsOf(t, Visited(t, classes[ci])), ParamSet(FieldsOf(t, AllVisited(t, classes[..ci]))), clash)
  }

  /** The first `n` owners pass, with these parameters. */
  ghost predicate ValidatedUpTo(t: Table, classes: seq<Stash>, n: nat, params: set<Name>) {
    && n <= |classes| && AllReady(t, classes[..n]) && ParametersDistinct(t, classes[..n])
    && params == ParamSet(FieldsOf(t, AllVisited(t, classes[..n])))
    && (forall k :: 0 <= k < n ==> OwnerNamesDistinct(t, classes[k]))
  }

  /** All names are unique per owner, and the parameters over all owners. */
  ghost predicate Validated(t: Table, classes: seq<Stash>)
    requires AllReady(t, classes)
  {
    (forall c :: c in classes ==> OwnerNamesDistinct(t, c)) && ParametersDistinct(t, classes)
  }

  /** One more owner. */
  method ValidateNext(table: SymbolTable, l: Layout, ci: nat, seen: set<Name>) returns (clash: Option<FieldClash>, params: set<Name>)
    requires TableOk(table.stashes) && LayoutOk(table.stashes, l) && ci < |l.classes|
    requires ValidatedUpTo(table.stashes, l.classes, ci, seen)
    ensures clash.None? ==> ValidatedUpTo(table.stashes, l.classes, ci + 1, params)
    ensures clash.Some? ==> FirstClashOf(table.stashes, l.classes, ci, clash.value)
    ensures AllReady(table.stashes, l.classes) && (clash.Some? ==> !Validated(table.stashes, l.classes))
  {
    ghost var t := table.stashes;
    ReadyClasses(t, l);
    hide LayoutOk, TableOk, ClassReady, Visited, Located, DistinctNames, DistinctParams, ParamSet, AllVisited, FirstClash, Validated;
    var refs, slots := OwnerFields(table, l, ci);
    LocatedStored(t, l, refs, slots);
    ParametersNext(t, l.classes, ci);
    clash, params := ValidateOwner(FieldsOf(table.stashes, refs), seen);
    if Validated(t, l.classes) { ValidatedFront(t, l.classes, ci); }
  }

  lemma ValidatedFront(t: Table, classes: seq<Stash>, ci: nat)
    requires AllReady(t, classes) && ci < |classes| && Validated(t, classes)
    ensures OwnerNamesDistinct(t, classes[ci]) && AllReady(t, classes[..ci + 1]) && ParametersDistinct(t, classes[..ci + 1])
  {
    hide ClassReady, OwnerNamesDistinct, ParametersDistinct;
    assert classes[ci] in classes;
    ParametersOfFront(t, classes, ci + 1);
  }

  lemma ValidatedAll(t: Table, classes: seq<Stash>, params: set<Name>)
    requires AllReady(t, classes) && ValidatedUpTo(t, classes, |classes|, params)
    ensures Validated(t, classes)
  {
    hide ClassReady, OwnerNamesDistinct, ParamSet, AllVisited;
    assert classes[..|classes|] == classes;
  }

  lemma NothingValidated(t: Table, classes: seq<Stash>)
    ensures ValidatedUpTo(t, classes, 0, {})
  {
    NoParametersYet(t, classes);
  }

  /** The check over all owners: names are unique per owner, parameters over the whole
      construction call; otherwise the first clash in the order of the walk. */
  method ValidateFields(table: SymbolTable, l: Layout) returns (error: Option<LayoutError>)
    requires TableOk(table.stashes) && LayoutOk(table.stashes, l)
    ensures error.None? <==> (forall c :: c in l.classes ==> OwnerNamesDistinct(table.stashes, c)) &&
                             ParametersDistinct(table.stashes, l.classes)
    ensures error.Some? ==>
      error.value.FieldsClash? && exists ci: nat ::
        FirstClashOf(table.stashes, l.classes, ci, error.value.clash) && error.value.owner == l.classes[ci]
  {
    ghost var t := table.stashes;
    ReadyClasses(t, l);
    var params: set<Name> := {};
    NothingValidated(t, l.classes);
    hide LayoutOk, TableOk, ClassReady, OwnerNamesDistinct, ParametersDistinct, ValidatedUpTo, FirstClashOf;
    for ci := 0 to |l.classes|
      invariant ValidatedUpTo(t, l.classes, ci, params)
    {
      var clash: Option<FieldClash>;
      clash, params := ValidateNext(table, l, ci, params);
      if clash.Some? { return Some(FieldsClash(l.classes[ci], clash.value)); }
    }
    ValidatedAll(t, l.classes, params);
    return None;
  }

  lemma ReadyClasses(t: Table, l: Layout)
    requires LayoutOk(t, l)
    ensures AllReady(t, l.classes)
  {}

  lemma NoParametersYet(t: Table, classes: seq<Stash>)
    ensures AllReady(t, classes[..0]) && ParametersDistinct(t, classes[..0])
    ensures AllVisited(t, classes[..0]) == [] && ParamSet(FieldsOf(t, [])) == {}
  {
    assert classes[..0] == [];
  }

  /** The error of a class that cannot be instantiated, which is the first in the order of the checks. */
  ghost predicate StorageError(t: Table, classes: seq<Stash>, e: LayoutError) {
    match e
    case ModernAncestorRequired => classes == []
    case ClassIncomplete(c) => exists k: nat :: FirstUnsealed(t, classes, k) && c == classes[k]
    case FieldsClash(owner, clash) =>
      AllReady(t, classes) && exists ci: nat :: FirstClashOf(t, classes, ci, clash) && owner == classes[ci]
  }

  lemma ReadyIsSealed(t: Table, classes: seq<Stash>)
    requires AllReady(t, classes)
    ensures forall c :: c in classes ==> c in t && t[c].sealed
  {
    forall c | c in classes ensures c in t && t[c].sealed { assert ClassReady(t, c); }
  }

  /** A layout of these classes, if all are sealed and no fields clash, and otherwise the error. */
  ghost predicate StorageMade(t: Table, classes: seq<Stash>, r: Result<Layout, LayoutError>, total: nat) {
    && (r.Ok? <==> classes != [] && AllReady(t, classes) && ParametersDistinct(t, classes) &&
                   forall c :: c in classes ==> OwnerNamesDistinct(t, c))
    && (r.Ok? ==> r.value.classes == classes && LayoutOk(t, r.value) && total == |InstanceSlots(t, classes)|)
    && (r.Error? ==> StorageError(t, classes, r.error))
  }

  lemma LayoutFails(t: Table, classes: seq<Stash>, e: LayoutError)
    requires classes == [] || exists c :: c in classes && !(c in t && t[c].sealed)
    requires if classes == [] then e == ModernAncestorRequired
             else exists k: nat :: FirstUnsealed(t, classes, k) && e == ClassIncomplete(classes[k])
    ensures StorageMade(t, classes, Error(e), 0)
  {
    hide ParametersDistinct, OwnerNamesDistinct, FirstUnsealed, ClassReady;
    if AllReady(t, classes) { ReadyIsSealed(t, classes); }
  }

  /** Validates what was laid out. */
  method ValidateLayout(table: SymbolTable, l: Layout, fields: nat) returns (r: Result<Layout, LayoutError>, total: nat)
    requires TableOk(table.stashes) && LayoutOk(table.stashes, l) && l.classes != []
    requires AllReady(table.stashes, l.classes) && fields == |InstanceSlots(table.stashes, l.classes)|
    ensures StorageMade(table.stashes, l.classes, r, total)
  {
    hide LayoutOk, TableOk, InstanceSlots, ParametersDistinct, OwnerNamesDistinct, FirstClashOf;
    var error := ValidateFields(table, l);
    if error.Some? { return Error(error.value), 0; }
    return Ok(l), fields;
  }

  /** The storage of a fresh instance: its layout, if the fields of its classes do not clash. */
  method NewStorage(table: SymbolTable, stash: Stash) returns (r: Result<Layout, LayoutError>, total: nat)
    requires TableOk(table.stashes) && stash in table.stashes && Acyclic(IsaGraph(table.stashes), [stash])
    ensures Closed(IsaGraph(table.stashes)) && ObjectLayout.Within(table.stashes, Closure(IsaGraph(table.stashes), [stash]))
    ensures StorageMade(table.stashes, ClassesOf(table.stashes, Closure(IsaGraph(table.stashes), [stash])), r, total)
  {
    ghost var t := table.stashes;
    r, total := NewLayout(table, stash);
    ghost var classes := ClassesOf(t, Closure(IsaGraph(t), [stash]));
    hide Closure, ClassesOf, InstanceSlots, TableOk, StorageMade, Acyclic;
    if r.Ok? {
      ReadyClasses(t, r.value);
      r, total := ValidateLayout(table, r.value, total);
    } else {
      LayoutFails(t, classes, r.error);
      total := 0;
    }
  }

  lemma LocatedStored(t: Table, l: Layout, refs: seq<SlotRef>, slots: seq<nat>)
    requires LayoutOk(t, l) && Located(t, l, refs, slots)
    ensures Stored(t, l, refs)
    ensures forall i :: 0 <= i < |refs| ==> slots[i] < |InstanceSlots(t, l.classes)| && PositionOf(t, l, refs[i]) == slots[i]
  {
    forall e | e in refs ensures RefOk(t, e) && e in InstanceSlots(t, l.classes) {
      var i :| 0 <= i < |refs| && refs[i] == e;
      PositionIs(t, l, slots[i], refs[i]);
    }
    forall i | 0 <= i < |refs| ensures slots[i] < |InstanceSlots(t, l.classes)| && PositionOf(t, l, refs[i]) == slots[i] {
      PositionIs(t, l, slots[i], refs[i]);
    }
  }

  // ----- to a hash

  ghost predicate OwnerBucket(t: Table, l: Layout, slots: seq<Slot>, c: Stash, b: Bucket)
    requires LayoutOk(t, l) && |slots| == |InstanceSlots(t, l.classes)|
  {
    ClassReady(t, c) && Stored(t, l, Visited(t, c)) && b == Fill(Entries(t, l, slots, Visited(t, c)))
  }

  lemma EntriesNext(t: Table, l: Layout, slots: seq<Slot>, refs: seq<SlotRef>, i: nat)
    requires LayoutOk(t, l) && Stored(t, l, refs) && |slots| == |InstanceSlots(t, l.classes)| && i < |refs|
    ensures Stored(t, l, refs[..i]) && Stored(t, l, refs[..i + 1]) && RefOk(t, refs[i]) && refs[i] in InstanceSlots(t, l.classes)
    ensures var f := FieldOf(t, refs[i]);
            Fill(Entries(t, l, slots, refs[..i + 1]))
            == Fill(Entries(t, l, slots, refs[..i]))[f.name := Export(f, slots[PositionOf(t, l, refs[i])])]
  {
    hide LayoutOk, InstanceSlots;
    TakeNext(refs, i);
    assert refs[i] in refs;
    assert forall e :: e in refs[..i] ==> e in refs;
    assert Entries(t, l, slots, refs[..i + 1])[..i] == Entries(t, l, slots, refs[..i]);
  }

  method FieldsToHash(t: Table, ghost l: Layout, fields: array<Slot>, refs: seq<SlotRef>, where: seq<nat>) returns (bucket: Bucket)
    requires LayoutOk(t, l) && Located(t, l, refs, where) && fields.Length == |InstanceSlots(t, l.classes)|
    ensures Stored(t, l, refs) && bucket == Fill(Entries(t, l, fields[..], refs))
  {
    LocatedStored(t, l, refs, where);
    hide LayoutOk, Located, InstanceSlots, Holds;
    bucket := map[];
    for i := 0 to |refs|
      invariant Stored(t, l, refs[..i]) && bucket == Fill(Entries(t, l, fields[..], refs[..i]))
    {
      EntriesNext(t, l, fields[..], refs, i);
      var f := FieldOf(t, refs[i]);
      bucket := bucket[f.name := Export(f, fields[where[i]])];
    }
    assert refs[..|refs|] == refs;
  }

  /** Owners without storage are left out of the hash. */
  predicate OwnsSlots(t: Table, c: Stash)
    requires ClassReady(t, c)
  {
    t[c].nextFieldix != Prefix(t, c)
  }

  ghost predicate HashOf(t: Table, l: Layout, slots: seq<Slot>, hash: map<Stash, Bucket>)
    requires LayoutOk(t, l) && |slots| == |InstanceSlots(t, l.classes)|
  {
    && (forall c :: c in l.classes ==> ClassReady(t, c) && (c in hash <==> OwnsSlots(t, c)))
    && (forall c :: c in hash ==> c in l.classes && OwnerBucket(t, l, slots, c, hash[c]))
  }

  /** The entry of the field of slot `q` stands under its owner and its name. */
  ghost predicate EntryAtSlot(t: Table, l: Layout, slots: seq<Slot>, hash: map<Stash, Bucket>, q: nat)
    requires LayoutOk(t, l) && |slots| == |InstanceSlots(t, l.classes)| && q < |slots|
  {
    var e := InstanceSlots(t, l.classes)[q];
    && RefOk(t, e) && e.owner in hash && FieldOf(t, e).name in hash[e.owner]
    && Exported(FieldOf(t, e), slots[q], hash[e.owner][FieldOf(t, e).name])
  }

  /** Some slot of this owner holds a field of this name. */
  ghost predicate NamesField(t: Table, l: Layout, c: Stash, n: Name)
    requires LayoutOk(t, l)
  {
    exists e :: e in InstanceSlots(t, l.classes) && e.owner == c && RefOk(t, e) && FieldOf(t, e).name == n
  }

  ghost predicate OwnsField(t: Table, l: Layout, c: Stash)
    requires LayoutOk(t, l)
  {
    exists e :: e in InstanceSlots(t, l.classes) && e.owner == c
  }

  /** The hash holds one entry for each slot and nothing else. */
  ghost predicate HoldsAllFields(t: Table, l: Layout, slots: seq<Slot>, hash: map<Stash, Bucket>)
    requires LayoutOk(t, l) && |slots| == |InstanceSlots(t, l.classes)|
  {
    && (forall q: nat :: q < |slots| ==> EntryAtSlot(t, l, slots, hash, q))
    && (forall c :: c in hash ==> OwnsField(t, l, c))
    && (forall c, n :: c in hash && n in hash[c] ==> NamesField(t, l, c, n))
  }

  method OwnerToHash(table: SymbolTable, l: Layout, ci: nat, fields: array<Slot>) returns (bucket: Option<Bucket>)
    requires TableOk(table.stashes) && LayoutOk(table.stashes, l) && ci < |l.classes|
    requires fields.Length == |InstanceSlots(table.stashes, l.classes)|
    ensures ClassReady(table.stashes, l.classes[ci])
    ensures bucket.Some? <==> OwnsSlots(table.stashes, l.classes[ci])
    ensures bucket.Some? ==> OwnerBucket(table.stashes, l, fields[..], l.classes[ci], bucket.value)
  {
    ghost var t := table.stashes;
    hide LayoutOk, TableOk, ClassReady, Visited, Located, InstanceSlots, OwnerBucket;
    var c := l.classes[ci];
    var refs, where := OwnerFields(table, l, ci);
    ReadySize(t, c);
    if !OwnsSlots(table.stashes, c) { return None; }
    var b := FieldsToHash(table.stashes, l, fields, refs, where);
    BucketReady(t, l, fields[..], c, b);
    return Some(b);
  }

  /** The first `n` owners are in the hash, the others are not. */
  ghost predicate HashedUpTo(t: Table, l: Layout, slots: seq<Slot>, hash: map<Stash, Bucket>, n: nat)
    requires LayoutOk(t, l) && |slots| == |InstanceSlots(t, l.classes)| && n <= |l.classes|
  {
    && (forall k :: 0 <= k < n ==> ClassReady(t, l.classes[k]) && (l.classes[k] in hash <==> OwnsSlots(t, l.classes[k])))
    && (forall c :: c in hash ==> c in l.classes[..n] && OwnerBucket(t, l, slots, c, hash[c]))
  }

  lemma HashedNext(t: Table, l: Layout, slots: seq<Slot>, hash: map<Stash, Bucket>, n: nat, bucket: Option<Bucket>)
    requires LayoutOk(t, l) && |slots| == |InstanceSlots(t, l.classes)| && n < |l.classes|
    requires HashedUpTo(t, l, slots, hash, n) && ClassReady(t, l.classes[n])
    requires bucket.Some? <==> OwnsSlots(t, l.classes[n])
    requires bucket.Some? ==> OwnerBucket(t, l, slots, l.classes[n], bucket.value)
    ensures HashedUpTo(t, l, slots, if bucket.Some? then hash[l.classes[n] := bucket.value] else hash, n + 1)
  {
    hide LayoutOk, ClassReady, OwnsSlots, OwnerBucket, InstanceSlots;
    var c := l.classes[n];
    var hash' := if bucket.Some? then hash[c := bucket.value] else hash;
    assert forall x :: x in l.classes[..n + 1] <==> x in l.classes[..n] || x == c by { TakeNext(l.classes, n); }
    NotYetListed(t, l, n);
    assert c !in hash;
    forall k | 0 <= k < n + 1
      ensures ClassReady(t, l.classes[k]) && (l.classes[k] in hash' <==> OwnsSlots(t, l.classes[k]))
    {
      if k < n { assert l.classes[k] in l.classes[..n]; }
    }
  }

  method ToHash(table: SymbolTable, l: Layout, fields: array<Slot>) returns (hash: map<Stash, Bucket>)
    requires TableOk(table.stashes) && LayoutOk(table.stashes, l)
    requires fields.Length == |InstanceSlots(table.stashes, l.classes)|
    ensures HashOf(table.stashes, l, fields[..], hash)
    ensures (forall c :: c in l.classes ==> OwnerNamesDistinct(table.stashes, c)) ==>
              HoldsAllFields(table.stashes, l, fields[..], hash)
  {
    hide OwnerNamesDistinct, HoldsAllFields, HashOf;
    hide LayoutOk, TableOk, ClassReady, InstanceSlots, OwnerBucket, OwnsSlots;
    hash := map[];
    for ci := 0 to |l.classes|
      invariant HashedUpTo(table.stashes, l, fields[..], hash, ci)
    {
      var bucket := OwnerToHash(table, l, ci, fields);
      HashedNext(table.stashes, l, fields[..], hash, ci, bucket);
      if bucket.Some? { hash := hash[l.classes[ci] := bucket.value]; }
    }
    HashComplete(table.stashes, l, fields[..], hash);
    if forall c :: c in l.classes ==> OwnerNamesDistinct(table.stashes, c) {
      AllFieldsHeld(table.stashes, l, fields[..], hash);
    }
  }

  lemma HashComplete(t: Table, l: Layout, slots: seq<Slot>, hash: map<Stash, Bucket>)
    requires LayoutOk(t, l) && |slots| == |InstanceSlots(t, l.classes)|
    requires HashedUpTo(t, l, slots, hash, |l.classes|)
    ensures HashOf(t, l, slots, hash)
  {
    hide LayoutOk, ClassReady, InstanceSlots, OwnerBucket, OwnsSlots;
    assert l.classes[..|l.classes|] == l.classes;
  }

  lemma BucketReady(t: Table, l: Layout, slots: seq<Slot>, c: Stash, b: Bucket)
    requires LayoutOk(t, l) && |slots| == |InstanceSlots(t, l.classes)| && ClassReady(t, c)
    requires Stored(t, l, Visited(t, c)) && b == Fill(Entries(t, l, slots, Visited(t, c)))
    ensures OwnerBucket(t, l, slots, c, b)
  {}

  lemma NotYetListed(t: Table, l: Layout, n: nat)
    requires LayoutOk(t, l) && n < |l.classes|
    ensures l.classes[n] !in l.classes[..n]
  {}

  // ----- from a hash

  /** Slot `q` was filled from the bucket of its owner. */
  ghost predicate RestoredAt(t: Table, l: Layout, hash: map<Stash, Bucket>, slots: seq<Slot>, q: nat)
    requires LayoutOk(t, l) && |slots| == |InstanceSlots(t, l.classes)| && q < |slots|
  {
    var e := InstanceSlots(t, l.classes)[q];
    RefOk(t, e) && e.owner in hash && Imported(hash[e.owner], FieldOf(t, e), slots[q])
  }

  ghost predicate Importable(t: Table, hash: map<Stash, Bucket>, e: SlotRef) {
    RefOk(t, e) && e.owner in hash && Supplies(hash[e.owner], FieldOf(t, e))
  }

  /** What keeps a field from being restored. */
  ghost predicate Defect(t: Table, hash: map<Stash, Bucket>, e: SlotRef, error: ConversionError)
    requires RefOk(t, e)
  {
    if e.owner in hash then Refused(hash[e.owner], FieldOf(t, e), error) else error == OwnerBucketRequired(e.owner)
  }

  /** The first field, in the order of the walk, that cannot be restored, and why. */
  ghost predicate FirstDefect(t: Table, hash: map<Stash, Bucket>, refs: seq<SlotRef>, i: nat, error: ConversionError) {
    && i < |refs| && RefOk(t, refs[i]) && Defect(t, hash, refs[i], error)
    && forall e :: e in refs[..i] ==> Importable(t, hash, e)
  }

  lemma FirstDefectLater(t: Table, hash: map<Stash, Bucket>, before: seq<SlotRef>, refs: seq<SlotRef>, rest: seq<SlotRef>,
          i: nat, error: ConversionError)
    requires forall e :: e in before ==> Importable(t, hash, e)
    requires FirstDefect(t, hash, refs, i, error)
    ensures FirstDefect(t, hash, before + refs + rest, |before| + i, error)
  {
    hide Importable, Defect;
    var all := before + refs + rest;
    assert all[..|before| + i] == before + refs[..i];
    assert all[|before| + i] == refs[i];
  }

  lemma OneSlotEach(t: Table, l: Layout, q: nat, p: nat, e: SlotRef)
    requires LayoutOk(t, l) && Holds(t, l, q, e) && Holds(t, l, p, e)
    ensures q == p
  {
    hide InstanceSlots;
    InstanceSlotsDistinct(t, l.classes);
  }

  ghost predicate FirstFailure(t: Table, bucket: Bucket, refs: seq<SlotRef>, i: nat, error: ConversionError) {
    && i < |refs| && RefOk(t, refs[i]) && Refused(bucket, FieldOf(t, refs[i]), error)
    && forall e :: e in refs[..i] ==> RefOk(t, e) && Supplies(bucket, FieldOf(t, e))
  }

  lemma FailureIsDefect(t: Table, hash: map<Stash, Bucket>, c: Stash, refs: seq<SlotRef>, i: nat, error: ConversionError)
    requires c in hash && FirstFailure(t, hash[c], refs, i, error) && forall e :: e in refs ==> e.owner == c
    ensures FirstDefect(t, hash, refs, i, error)
  {
    hide Refused, Supplies;
    assert refs[i] in refs && forall e :: e in refs[..i] ==> e in refs;
  }

  /** Fills the slots of one owner; stops at the first field that the bucket cannot supply. */
  method FieldsFromHash(t: Table, ghost l: Layout, bucket: Bucket, refs: seq<SlotRef>, where: seq<nat>, fields: array<Slot>)
    returns (error: Option<ConversionError>)
    requires LayoutOk(t, l) && Located(t, l, refs, where) && fields.Length == |InstanceSlots(t, l.classes)|
    modifies fields
    ensures error.None? <==> forall e :: e in refs ==> RefOk(t, e) && Supplies(bucket, FieldOf(t, e))
    ensures error.Some? ==> exists i: nat :: FirstFailure(t, bucket, refs, i, error.value)
    ensures error.None? ==> forall q :: 0 <= q < fields.Length ==>
      var e := InstanceSlots(t, l.classes)[q];
      if e in refs then RefOk(t, e) && Imported(bucket, FieldOf(t, e), fields[q])
      else fields[q] == old(fields[q])
  {
    LocatedStored(t, l, refs, where);
    ghost var slots := InstanceSlots(t, l.classes);
    forall i | 0 <= i < |refs| ensures slots[where[i]] == refs[i] {}
    forall i, q | 0 <= i < |refs| && 0 <= q < |slots| && slots[q] == refs[i] ensures q == where[i] {
      OneSlotEach(t, l, q, where[i], refs[i]);
    }
    hide LayoutOk, Located, InstanceSlots, Holds, Stored, Import, PositionOf, Supplies, Imported, Refused;
    for i := 0 to |refs|
      invariant forall e :: e in refs[..i] ==> RefOk(t, e) && Supplies(bucket, FieldOf(t, e))
      invariant forall q :: 0 <= q < fields.Length ==>
        if slots[q] in refs[..i]
        then Imported(bucket, FieldOf(t, slots[q]), fields[q])
        else fields[q] == old(fields[q])
    {
      TakeNext(refs, i);
      assert refs[i] in refs;
      var f := FieldOf(t, refs[i]);
      var value := Import(bucket, f);
      ImportIs(bucket, f);
      if value.Error? {
        assert FirstFailure(t, bucket, refs, i, value.error);
        return Some(value.error);
      }
      fields[where[i]] := Some(value.value);
    }
    assert refs[..|refs|] == refs;
    return None;
  }

  /** The fields visited for an owner are exactly those stored for it. */
  lemma OwnerVisited(t: Table, l: Layout, ci: nat)
    requires LayoutOk(t, l) && ci < |l.classes|
    ensures ClassReady(t, l.classes[ci])
    ensures forall e :: e in Visited(t, l.classes[ci]) <==> e in InstanceSlots(t, l.classes) && e.owner == l.classes[ci]
    ensures OwnsSlots(t, l.classes[ci]) <==> Visited(t, l.classes[ci]) != []
  {
    var c := l.classes[ci];
    assert c in l.classes && ClassReady(t, c);
    SlotsOfOwner(t, l.classes, ci);
    VisitedIsClassSlots(t, c);
    ReadySize(t, c);
  }

  lemma VisitedIsClassSlots(t: Table, c: Stash)
    requires ClassReady(t, c)
    ensures |Visited(t, c)| == |ClassSlots(t, c)|
    ensures forall e :: e in Visited(t, c) <==> e in ClassSlots(t, c)
  {
    hide Block, RoleBlocks, SealedOk;
  }

  lemma SlotsOfOwner(t: Table, classes: seq<Stash>, ci: nat)
    requires AllReady(t, classes) && NoDup(classes) && ci < |classes|
    ensures ClassReady(t, classes[ci])
    ensures forall e :: e in ClassSlots(t, classes[ci]) <==> e in InstanceSlots(t, classes) && e.owner == classes[ci]
  {
    var c := classes[ci];
    assert c in classes && ClassReady(t, c);
    hide SealedOk, ClassSlots, Flattening.Flatten;
    var slots := InstanceSlots(t, classes);
    OwnersOf(t, classes, ci);
    forall e | e in ClassSlots(t, c) ensures e in slots && e.owner == c {
      var p: nat :| p < |ClassSlots(t, c)| && ClassSlots(t, c)[p] == e;
      ClassWindow(t, classes, ci, p);
      assert e == slots[WindowStart(t, classes, ci) + p];
    }
    forall e | e in slots && e.owner == c ensures e in ClassSlots(t, c) {
      var q: nat :| q < |slots| && slots[q] == e;
      var k, j := Flattening.FlattenSource(Windows(t, classes), q);
      OwnersOf(t, classes, k);
      assert Windows(t, classes)[k][j] in Windows(t, classes)[k];
      assert classes[k] == c && k == ci;
    }
  }

  ghost predicate OwnerImportable(t: Table, l: Layout, hash: map<Stash, Bucket>, c: Stash)
    requires LayoutOk(t, l)
  {
    forall e :: e in InstanceSlots(t, l.classes) && e.owner == c ==> Importable(t, hash, e)
  }

  lemma NoBucketIsDefect(t: Table, hash: map<Stash, Bucket>, refs: seq<SlotRef>)
    requires refs != [] && RefOk(t, refs[0]) && refs[0].owner !in hash
    ensures FirstDefect(t, hash, refs, 0, OwnerBucketRequired(refs[0].owner))
  {}

  method OwnerFromHash(table: SymbolTable, l: Layout, ci: nat, hash: map<Stash, Bucket>, fields: array<Slot>)
    returns (error: Option<ConversionError>)
    requires TableOk(table.stashes) && LayoutOk(table.stashes, l) && ci < |l.classes|
    requires fields.Length == |InstanceSlots(table.stashes, l.classes)|
    modifies fields
    ensures error.None? <==> OwnerImportable(table.stashes, l, hash, l.classes[ci])
    ensures ClassReady(table.stashes, l.classes[ci])
    ensures error.Some? ==>
      exists i: nat :: FirstDefect(table.stashes, hash, Visited(table.stashes, l.classes[ci]), i, error.value)
    ensures error.None? ==> forall q :: 0 <= q < fields.Length ==>
      if InstanceSlots(table.stashes, l.classes)[q].owner == l.classes[ci]
      then RestoredAt(table.stashes, l, hash, fields[..], q) else fields[q] == old(fields[q])
  {
    ghost var t := table.stashes;
    var c := l.classes[ci];
    OwnerVisited(t, l, ci);
    var refs, where := OwnerFields(table, l, ci);
    hide LayoutOk, TableOk, ClassReady, Visited, Located, InstanceSlots, Supplies, Imported, Refused;
    ReadySize(t, c);
    if !OwnsSlots(table.stashes, c) { return None; }
    if c !in hash {
      assert refs[0] in refs;
      NoBucketIsDefect(t, hash, refs);
      return Some(OwnerBucketRequired(c));
    }
    error := FieldsFromHash(table.stashes, l, hash[c], refs, where, fields);
    if error.Some? {
      ghost var i: nat :| FirstFailure(t, hash[c], refs, i, error.value);
      FailureIsDefect(t, hash, c, refs, i, error.value);
    }
    ghost var slots := InstanceSlots(t, l.classes);
    forall q | 0 <= q < |slots| ensures slots[q] in slots {}
  }

  /** Builds the field vector of a new object from its hash form. */
  method FromHash(table: SymbolTable, l: Layout, total: nat, hash: map<Stash, Bucket>)
    returns (r: Result<array<Slot>, ConversionError>)
    requires TableOk(table.stashes) && LayoutOk(table.stashes, l) && total == |InstanceSlots(table.stashes, l.classes)|
    ensures r.Ok? <==> forall e :: e in InstanceSlots(table.stashes, l.classes) ==> Importable(table.stashes, hash, e)
    ensures r.Ok? ==> r.value.Length == total
    ensures r.Ok? ==> forall q: nat :: q < total ==> RestoredAt(table.stashes, l, hash, r.value[..], q)
    ensures AllReady(table.stashes, l.classes)
    ensures r.Error? ==>
      exists i: nat :: FirstDefect(table.stashes, hash, AllVisited(table.stashes, l.classes), i, r.error)
  {
    ghost var t := table.stashes;
    ghost var slots := InstanceSlots(t, l.classes);
    OwnersListed(t, l);
    hide LayoutOk, TableOk, InstanceSlots, Importable, FirstDefect, Imported;
    var fields := new Slot[total](_ => None);
    for ci := 0 to |l.classes|
      invariant forall k :: 0 <= k < ci ==> OwnerImportable(t, l, hash, l.classes[k])
      invariant forall q: nat :: q < total && slots[q].owner in l.classes[..ci] ==> RestoredAt(t, l, hash, fields[..], q)
    {
      TakeNext(l.classes, ci);
      var error := OwnerFromHash(table, l, ci, hash, fields);
      if error.Some? {
        DefectOverall(t, l, hash, ci, error.value);
        return Error(error.value);
      }
    }
    assert l.classes[..|l.classes|] == l.classes;
    return Ok(fields);
  }

  lemma {:induction false} EarlierImportable(t: Table, l: Layout, hash: map<Stash, Bucket>, n: nat)
    requires LayoutOk(t, l) && n <= |l.classes| && AllReady(t, l.classes[..n])
    requires forall k :: 0 <= k < n ==> OwnerImportable(t, l, hash, l.classes[k])
    ensures forall e :: e in AllVisited(t, l.classes[..n]) ==> Importable(t, hash, e)
  {
    if n > 0 {
      hide LayoutOk, ClassReady, Visited, InstanceSlots, Importable;
      assert l.classes[..n][..n - 1] == l.classes[..n - 1];
      AllVisitedNext(t, l.classes[..n], n - 1);
      assert l.classes[..n][..n] == l.classes[..n];
      EarlierImportable(t, l, hash, n - 1);
      OwnerVisited(t, l, n - 1);
      assert OwnerImportable(t, l, hash, l.classes[n - 1]);
    } else {
      assert l.classes[..0] == [];
    }
  }

  /** The first defect of an owner is the first of all when the owners before it have none. */
  lemma DefectOverall(t: Table, l: Layout, hash: map<Stash, Bucket>, ci: nat, error: ConversionError)
    requires LayoutOk(t, l) && ci < |l.classes| && ClassReady(t, l.classes[ci])
    requires forall k :: 0 <= k < ci ==> OwnerImportable(t, l, hash, l.classes[k])
    requires exists i: nat :: FirstDefect(t, hash, Visited(t, l.classes[ci]), i, error)
    ensures AllReady(t, l.classes) && exists i: nat :: FirstDefect(t, hash, AllVisited(t, l.classes), i, error)
  {
    ReadyClasses(t, l);
    var i: nat :| FirstDefect(t, hash, Visited(t, l.classes[ci]), i, error);
    EarlierImportable(t, l, hash, ci);
    hide LayoutOk, FirstDefect, OwnerImportable, ClassReady, Importable, Visited, AllVisited;
    var rest := AllVisitedSplit(t, l.classes, ci);
    FirstDefectLater(t, hash, AllVisited(t, l.classes[..ci]), Visited(t, l.classes[ci]), rest, i, error);
  }

  lemma AllVisitedSplit(t: Table, classes: seq<Stash>, ci: nat) returns (rest: seq<SlotRef>)
    requires AllReady(t, classes) && ci < |classes| && ClassReady(t, classes[ci])
    ensures AllReady(t, classes[..ci])
    ensures AllVisited(t, classes) == AllVisited(t, classes[..ci]) + Visited(t, classes[ci]) + rest
  {
    hide AllVisited, Visited;
    AllVisitedNext(t, classes, ci);
    AllVisitedPrefix(t, classes, ci + 1);
    rest := AllVisited(t, classes)[|AllVisited(t, classes[..ci + 1])|..];
  }

  lemma OwnersListed(t: Table, l: Layout)
    requires LayoutOk(t, l)
    ensures forall e :: e in InstanceSlots(t, l.classes) ==> e.owner in l.classes
  {
    hide SealedOk, ClassSlots, Flattening.Flatten;
    forall e | e in InstanceSlots(t, l.classes) ensures e.owner in l.classes {
      var q: nat :| q < |InstanceSlots(t, l.classes)| && InstanceSlots(t, l.classes)[q] == e;
      var k, j := Flattening.FlattenSource(Windows(t, l.classes), q);
      OwnersOf(t, l.classes, k);
      assert Windows(t, l.classes)[k][j] in Windows(t, l.classes)[k];
    }
  }

  // ----- there and back

  /** Every owner's bucket holds what its fields exported, when names are unique per owner. */
  lemma ExportedAt(t: Table, l: Layout, slots: seq<Slot>, hash: map<Stash, Bucket>, q: nat)
    requires LayoutOk(t, l) && |slots| == |InstanceSlots(t, l.classes)| && q < |slots|
    requires HashOf(t, l, slots, hash)
    requires forall c :: c in l.classes ==> OwnerNamesDistinct(t, c)
    ensures var e := InstanceSlots(t, l.classes)[q];
            && RefOk(t, e) && e.owner in hash && FieldOf(t, e).name in hash[e.owner]
            && hash[e.owner][FieldOf(t, e).name] == Export(FieldOf(t, e), slots[q])
  {
    var e := InstanceSlots(t, l.classes)[q];
    SlotVisited(t, l, q);
    assert OwnerNamesDistinct(t, e.owner);
    hide LayoutOk, InstanceSlots, Visited, ClassReady, Export, PositionOf, OwnsSlots, Fill, Entries, FieldsOf, DistinctNames;
    assert OwnerBucket(t, l, slots, e.owner, hash[e.owner]);
    var refs := Visited(t, e.owner);
    var i: nat :| i < |refs| && refs[i] == e;
    EntryAt(t, l, slots, refs, i);
  }

  lemma ExportedEntry(t: Table, l: Layout, slots: seq<Slot>, hash: map<Stash, Bucket>, q: nat)
    requires LayoutOk(t, l) && |slots| == |InstanceSlots(t, l.classes)| && q < |slots|
    requires HashOf(t, l, slots, hash)
    requires forall c :: c in l.classes ==> OwnerNamesDistinct(t, c)
    ensures EntryAtSlot(t, l, slots, hash, q)
  {
    hide InstanceSlots, HashOf, Exported, Export, OwnerNamesDistinct;
    ExportedAt(t, l, slots, hash, q);
    ExportIs(FieldOf(t, InstanceSlots(t, l.classes)[q]), slots[q]);
  }

  lemma {:induction false} FillKeys(entries: seq<(Name, Sv)>, n: Name)
    requires n in Fill(entries)
    ensures exists i :: 0 <= i < |entries| && entries[i].0 == n
  {
    var k := |entries| - 1;
    if entries[k].0 != n {
      FillKeys(entries[..k], n);
      var i :| 0 <= i < k && entries[..k][i].0 == n;
      assert entries[i].0 == n;
    }
  }

  lemma OwnerInHash(t: Table, l: Layout, slots: seq<Slot>, hash: map<Stash, Bucket>, c: Stash)
    requires LayoutOk(t, l) && |slots| == |InstanceSlots(t, l.classes)| && HashOf(t, l, slots, hash) && c in hash
    ensures OwnsField(t, l, c)
    ensures forall n :: n in hash[c] ==> NamesField(t, l, c, n)
  {
    var ci: nat :| ci < |l.classes| && l.classes[ci] == c;
    hide InstanceSlots, Visited, ClassReady, OwnsSlots, PositionOf, Fill, Export;
    OwnerVisited(t, l, ci);
    var refs := Visited(t, c);
    assert refs[0] in refs;
    assert OwnerBucket(t, l, slots, c, hash[c]);
    forall n | n in hash[c] ensures NamesField(t, l, c, n) {
      var entries := Entries(t, l, slots, refs);
      FillKeys(entries, n);
      var i :| 0 <= i < |entries| && entries[i].0 == n;
      assert refs[i] in refs;
    }
  }

  /** Each owner's hash holds its fields by name. */
  lemma AllFieldsHeld(t: Table, l: Layout, slots: seq<Slot>, hash: map<Stash, Bucket>)
    requires LayoutOk(t, l) && |slots| == |InstanceSlots(t, l.classes)| && HashOf(t, l, slots, hash)
    requires forall c :: c in l.classes ==> OwnerNamesDistinct(t, c)
    ensures HoldsAllFields(t, l, slots, hash)
  {
    hide LayoutOk, InstanceSlots, HashOf, OwnerNamesDistinct, EntryAtSlot, OwnsField, NamesField;
    forall q: nat | q < |slots| ensures EntryAtSlot(t, l, slots, hash, q) { ExportedEntry(t, l, slots, hash, q); }
    forall c | c in hash ensures OwnsField(t, l, c) && forall n :: n in hash[c] ==> NamesField(t, l, c, n) {
      OwnerInHash(t, l, slots, hash, c);
    }
  }

  lemma SlotVisited(t: Table, l: Layout, q: nat)
    requires LayoutOk(t, l) && q < |InstanceSlots(t, l.classes)|
    ensures var e := InstanceSlots(t, l.classes)[q];
            && e.owner in l.classes && ClassReady(t, e.owner) && e in Visited(t, e.owner) && OwnsSlots(t, e.owner)
            && e in InstanceSlots(t, l.classes) && PositionOf(t, l, e) == q
  {
    var e := InstanceSlots(t, l.classes)[q];
    assert e in InstanceSlots(t, l.classes);
    PositionIs(t, l, q, e);
    OwnersListed(t, l);
    hide LayoutOk, InstanceSlots, Visited, ClassReady, PositionOf, OwnsSlots;
    var ci: nat :| ci < |l.classes| && l.classes[ci] == e.owner;
    OwnerVisited(t, l, ci);
  }

  lemma EntryAt(t: Table, l: Layout, slots: seq<Slot>, refs: seq<SlotRef>, i: nat)
    requires LayoutOk(t, l) && |slots| == |InstanceSlots(t, l.classes)| && Stored(t, l, refs) && i < |refs|
    requires DistinctNames(FieldsOf(t, refs))
    ensures RefOk(t, refs[i]) && refs[i] in InstanceSlots(t, l.classes)
    ensures var f := FieldOf(t, refs[i]);
            var bucket := Fill(Entries(t, l, slots, refs));
            f.name in bucket && bucket[f.name] == Export(f, slots[PositionOf(t, l, refs[i])])
  {
    hide LayoutOk, InstanceSlots, PositionOf, Export;
    assert refs[i] in refs;
    var entries := Entries(t, l, slots, refs);
    var fs := FieldsOf(t, refs);
    forall j, k | 0 <= j < k < |entries| ensures entries[j].0 != entries[k].0 {
      assert fs[j].name != fs[k].name;
    }
    FillHolds(entries, i);
  }

  lemma RoundTripAt(t: Table, l: Layout, slots: seq<Slot>, hash: map<Stash, Bucket>, q: nat)
    requires LayoutOk(t, l) && |slots| == |InstanceSlots(t, l.classes)| && q < |slots|
    requires HashOf(t, l, slots, hash)
    requires forall c :: c in l.classes ==> OwnerNamesDistinct(t, c)
    ensures var e := InstanceSlots(t, l.classes)[q];
            RefOk(t, e) && (Importable(t, hash, e) <==> Restorable(FieldOf(t, e), slots[q]))
    ensures forall slots' :: |slots'| == |slots| && RestoredAt(t, l, hash, slots', q) ==>
      slots'[q] == if slots[q].Some? then slots[q] else Some(Undef)
  {
    hide InstanceSlots, HashOf, Restorable, Exported, Imported, Supplies, OwnerNamesDistinct;
    ExportedEntry(t, l, slots, hash, q);
    var e := InstanceSlots(t, l.classes)[q];
    ExportImport(hash[e.owner], FieldOf(t, e), slots[q]);
  }

  /** Turning an object into a hash and restoring it under the same layout succeeds
      exactly when every array and hash field holds its container, and then every
      slot has its old value back; a scalar slot that was never initialised
      becomes undef. */
  lemma RoundTrip(t: Table, l: Layout, slots: seq<Slot>, hash: map<Stash, Bucket>)
    requires LayoutOk(t, l) && |slots| == |InstanceSlots(t, l.classes)|
    requires HashOf(t, l, slots, hash)
    requires forall c :: c in l.classes ==> OwnerNamesDistinct(t, c)
    ensures RefsOk(t, InstanceSlots(t, l.classes))
    ensures (forall e :: e in InstanceSlots(t, l.classes) ==> Importable(t, hash, e)) <==>
            (forall q :: 0 <= q < |slots| ==>
               RefOk(t, InstanceSlots(t, l.classes)[q]) && Restorable(FieldOf(t, InstanceSlots(t, l.classes)[q]), slots[q]))
    ensures forall slots', q: nat :: |slots'| == |slots| && q < |slots| && RestoredAt(t, l, hash, slots', q) ==>
      slots'[q] == if slots[q].Some? then slots[q] else Some(Undef)
  {
    hide LayoutOk, InstanceSlots, HashOf, Restorable, Importable, RestoredAt;
    var refs := InstanceSlots(t, l.classes);
    forall q: nat | q < |slots|
      ensures RefOk(t, refs[q]) && (Importable(t, hash, refs[q]) <==> Restorable(FieldOf(t, refs[q]), slots[q]))
      ensures forall slots' :: |slots'| == |slots| && RestoredAt(t, l, hash, slots', q) ==>
        slots'[q] == if slots[q].Some? then slots[q] else Some(Undef)
    {
      RoundTripAt(t, l, slots, hash, q);
    }
    hide OwnerNamesDistinct;
    forall e | e in refs ensures RefOk(t, e) {
      var q: nat :| q < |refs| && refs[q] == e;
    }
    if forall q :: 0 <= q < |slots| ==> Restorable(FieldOf(t, refs[q]), slots[q]) {
      forall e | e in refs ensures Importable(t, hash, e) {
        var q: nat :| q < |refs| && refs[q] == e;
      }
    }
    if forall e :: e in refs ==> Importable(t, hash, e) {
      forall q | 0 <= q < |slots| ensures Restorable(FieldOf(t, refs[q]), slots[q]) {
        assert refs[q] in refs;
      }
    }
  }

  /** Every slot holds a value, of the kind that the sigil of its field asks for. */
  ghost predicate FullyInitialised(t: Table, l: Layout, slots: seq<Slot>)
    requires LayoutOk(t, l) && |slots| == |InstanceSlots(t, l.classes)|
  {
    var refs := InstanceSlots(t, l.classes);
    forall q :: 0 <= q < |slots| ==> slots[q].Some? && RefOk(t, refs[q]) && Restorable(FieldOf(t, refs[q]), slots[q])
  }

  /** A fully initialised object comes back slot for slot. */
  method CopyThroughHash(table: SymbolTable, l: Layout, fields: array<Slot>) returns (r: Result<array<Slot>, ConversionError>)
    requires TableOk(table.stashes) && LayoutOk(table.stashes, l)
    requires fields.Length == |InstanceSlots(table.stashes, l.classes)|
    requires forall c :: c in l.classes ==> OwnerNamesDistinct(table.stashes, c)
    requires FullyInitialised(table.stashes, l, fields[..])
    ensures r.Ok? && r.value[..] == fields[..]
  {
    hide LayoutOk, TableOk, InstanceSlots, HashOf, Restorable, OwnerNamesDistinct;
    ghost var slots := fields[..];
    var hash := ToHash(table, l, fields);
    RoundTrip(table.stashes, l, slots, hash);
    r := FromHash(table, l, fields.Length, hash);
    forall q: nat | q < |slots| ensures r.value[..][q] == slots[q] {
      assert RestoredAt(table.stashes, l, hash, r.value[..], q);
    }
  }
}
