/** The walks that recompute, at run time, where a field is stored. */
module FieldWalks {
  import opened RoleClosure
  import opened ObjectLayout
  import opened LayoutFacts
  import opened InstanceLayout
  import opened Instances
  import opened Sealing

  /** `offset` relocates the `k`th role of the consumer. */
  ghost predicate OffsetAt(t: Table, c: Stash, k: nat, offset: int)
    requires c in t && SealedOk(t, c) && k < |t[c].roles|
  {
    var r := t[c].roles[k];
    r in t && SealedOk(t, r) && offset == RoleBase(t, c, k) - LocalBase(t, r)
  }

  /** The relocation of a role in a consumer, found by adding up the blocks in
      front of it.  None when the role is not composed. */
  method RoleOffset(table: SymbolTable, consumer: Stash, role: Stash) returns (offset: Option<nat>)
    requires TableOk(table.stashes) && consumer in table.stashes && SealedOk(table.stashes, consumer)
    requires table.stashes[consumer].sealed
    ensures offset.Some? <==> role in table.stashes[consumer].roles
    ensures forall k: nat :: k < |table.stashes[consumer].roles| && table.stashes[consumer].roles[k] == role ==>
      offset.Some? && OffsetAt(table.stashes, consumer, k, offset.value)
  {
    ghost var t := table.stashes;
    var aux := table.stashes[consumer];
    var base := if aux.superclass.Some? then table.stashes[aux.superclass.value].nextFieldix else 0;
    FirstBase(t, consumer);
    hide TableOk, SealedOk, RoleBase, OffsetAt;
    for i := 0 to |aux.roles|
      invariant base == RoleBase(t, consumer, i)
      invariant role !in aux.roles[..i]
    {
      var candidate := aux.roles[i];
      if candidate == role {
        RoleAtOnce(t, consumer, i);
        var found := OffsetHere(table, consumer, i, base);
        return Some(found);
      }
      NextBase(t, consumer, i);
      var count := table.OwnFieldCount(candidate);
      base := base + count;
    }
    return None;
  }

  /** The difference of the two bases, once the role is found. */
  method OffsetHere(table: SymbolTable, consumer: Stash, k: nat, base: nat) returns (offset: nat)
    requires TableOk(table.stashes) && consumer in table.stashes && SealedOk(table.stashes, consumer)
    requires table.stashes[consumer].sealed && k < |table.stashes[consumer].roles| && base == RoleBase(table.stashes, consumer, k)
    ensures OffsetAt(table.stashes, consumer, k, offset)
  {
    var role := table.stashes[consumer].roles[k];
    RelocationNonNegative(table.stashes, consumer, k);
    SealedRecord(table.stashes, role);
    hide TableOk, SealedOk, RoleBase, LocalBase;
    var local := table.OwnFieldBase(role);
    return base - local;
  }

  lemma FirstBase(t: Table, c: Stash)
    requires c in t && SealedOk(t, c)
    ensures t[c].superclass.Some? ==> t[c].superclass.value in t
    ensures RoleBase(t, c, 0) == Prefix(t, c)
  {
    assert t[c].roles[..0] == [];
  }

  lemma NextBase(t: Table, c: Stash, i: nat)
    requires c in t && SealedOk(t, c) && i < |t[c].roles|
    ensures t[c].roles[i] in t && RoleBase(t, c, i + 1) == RoleBase(t, c, i) + OwnCount(t[t[c].roles[i]].fields)
  {
    assert t[c].roles[i] in t[c].roles;
    hide RoleWidth, OwnIndexes;
    WidthNext(t, t[c].roles, i);
  }

  lemma RoleAtOnce(t: Table, c: Stash, i: nat)
    requires c in t && SealedOk(t, c) && i < |t[c].roles|
    ensures forall k: nat :: k < |t[c].roles| && t[c].roles[k] == t[c].roles[i] ==> k == i
  {}

  // ----- entering a method

  /** A method or initialiser as installed in `owner`: the fields of its original
      provider that it binds, and the relocation written into it when it was cloned. */
  datatype MethodCv = MethodCv(provider: Stash, owner: Stash, offset: Option<nat>, bound: seq<nat>)

  /** Composition left no offset in a class's own methods and, in a role's, the
      difference of the two bases. */
  ghost predicate InstalledAt(t: Table, m: MethodCv, k: nat)
    requires TableOk(t) && ClassReady(t, m.owner)
  {
    && k < |t[m.owner].roles| && t[m.owner].roles[k] == m.provider
    && m.provider in t && SealedOk(t, m.provider)
    && m.offset == Some(RoleBase(t, m.owner, k) - LocalBase(t, m.provider))
  }

  ghost predicate Installed(t: Table, m: MethodCv)
    requires TableOk(t)
  {
    && ClassReady(t, m.owner) && m.provider in t
    && (if m.provider == m.owner then m.offset == None else exists k: nat :: InstalledAt(t, m, k))
    && forall i :: i in m.bound ==> OwnField(t, m.provider, i)
  }

  lemma BoundFieldSlot(t: Table, l: Layout, m: MethodCv, i: nat)
    requires TableOk(t) && LayoutOk(t, l) && Installed(t, m) && m.owner in l.classes && i in m.bound
    ensures OwnField(t, m.provider, i) && t[m.provider].fields[i].fieldix.Some? && m.owner in l.shifts
    ensures var off := if m.offset.Some? then m.offset.value else 0;
            Holds(t, l, t[m.provider].fields[i].fieldix.value + (l.shifts[m.owner] + off), SlotRef(m.owner, m.provider, i))
  {
    hide LayoutOk, SealedOk, Holds, TableOk;
    if m.provider == m.owner {
      OwnFieldInstanceSlot(t, l, m.owner, i);
    } else {
      var k: nat :| InstalledAt(t, m, k);
      WalksAgreeOnRoleField(t, l, m.owner, k, i);
      OwnFieldPlaced(t, m.provider, i);
      ShiftKnown(t, l, m.owner);
    }
  }

  lemma ShiftKnown(t: Table, l: Layout, c: Stash)
    requires LayoutOk(t, l)
    ensures c in l.shifts <==> c in l.classes
  {}

  lemma HoldsBound(t: Table, l: Layout, q: int, e: SlotRef)
    requires LayoutOk(t, l) && Holds(t, l, q, e)
    ensures 0 <= q < |InstanceSlots(t, l.classes)|
  {}

  /** Entering a method binds each of its fields to the one slot that holds it;
      the bounds check behind the lookup never fires. */
  method BindFields(table: SymbolTable, l: Layout, fieldCount: nat, m: MethodCv) returns (slots: Option<seq<nat>>)
    requires TableOk(table.stashes) && LayoutOk(table.stashes, l) && Installed(table.stashes, m)
    requires fieldCount == |InstanceSlots(table.stashes, l.classes)|
    ensures slots.Some? <==> m.owner in l.classes
    ensures slots.Some? ==> |slots.value| == |m.bound|
    ensures slots.Some? ==> forall j :: 0 <= j < |m.bound| ==>
      Holds(table.stashes, l, slots.value[j], SlotRef(m.owner, m.provider, m.bound[j]))
  {
    ghost var t := table.stashes;
    hide LayoutOk, SealedOk, ClassSlots, InstanceSlots, InstalledAt, TableOk, Holds;
    ShiftKnown(t, l, m.owner);
    if m.owner !in l.shifts { return None; }
    var shift := l.shifts[m.owner];
    if m.offset.Some? { shift := shift + m.offset.value; }
    var bound: seq<nat> := [];
    for j := 0 to |m.bound|
      invariant |bound| == j
      invariant forall i :: 0 <= i < j ==> Holds(t, l, bound[i], SlotRef(m.owner, m.provider, m.bound[i]))
    {
      var i := m.bound[j];
      assert i in m.bound;
      BoundFieldSlot(t, l, m, i);
      var fieldix := table.stashes[m.provider].fields[i].fieldix.value + shift;
      HoldsBound(t, l, fieldix, SlotRef(m.owner, m.provider, i));
      if fieldix >= fieldCount { return None; }
      bound := bound + [fieldix];
    }
    return Some(bound);
  }

  // ----- naming a slot

  /** Class number `ci` holds `e` in the slot. */
  lemma FoundOwn(t: Table, l: Layout, ci: nat, i: nat)
    requires LayoutOk(t, l) && ci < |l.classes| && OwnField(t, l.classes[ci], i)
    ensures ClassReady(t, l.classes[ci]) && l.classes[ci] in l.shifts && t[l.classes[ci]].fields[i].fieldix.Some?
    ensures Holds(t, l, l.shifts[l.classes[ci]] + t[l.classes[ci]].fields[i].fieldix.value,
                  SlotRef(l.classes[ci], l.classes[ci], i))
  {
    hide ClassReady, Holds;
    var c := l.classes[ci];
    assert c in l.classes && ClassReady(t, c);
    OwnFieldInstanceSlot(t, l, c, i);
  }

  /** Where class number `ci` begins, in the terms of the walk. */
  lemma ClassBase(t: Table, l: Layout, ci: nat)
    requires LayoutOk(t, l) && ci < |l.classes|
    ensures var c := l.classes[ci];
            && ClassReady(t, c) && c in l.shifts && l.shifts[c] + Prefix(t, c) == WindowStart(t, l.classes, ci)
            && (t[c].superclass.Some? ==> t[c].superclass.value in t)
            && WindowStart(t, l.classes, ci + 1)
               == WindowStart(t, l.classes, ci) + RoleWidth(t, t[c].roles) + OwnCount(t[c].fields)
  {
    hide WindowStart, ClassSlots, RoleWidth, InstanceSlots;
    var c := l.classes[ci];
    assert c in l.classes && ClassReady(t, c);
    assert ShiftOk(t, l.classes, l.shifts, ci);
    WindowStartNext(t, l.classes, ci);
    ClassSlotsWidth(t, c);
  }

  /** An own field, resolved and shifted, counts from the end of the role blocks. */
  lemma OwnFieldNumber(t: Table, c: Stash, i: nat)
    requires c in t && SealedOk(t, c) && OwnField(t, c, i)
    ensures t[c].fields[i].fieldix == Some(Prefix(t, c) + RoleWidth(t, t[c].roles) + OwnCount(t[c].fields[..i]))
  {
    hide RoleWidth, Prefix, OwnCount;
    assert FieldPlaced(t[c].fields, Prefix(t, c) + RoleWidth(t, t[c].roles), i);
  }

  lemma OwnCountNext(fs: seq<Field>, i: nat)
    requires i < |fs|
    ensures OwnCount(fs[..i + 1]) == OwnCount(fs[..i]) + if fs[i].inherited then 0 else 1
  {
    assert fs[..i + 1][..i] == fs[..i];
  }

  /** Searches the own fields of class number `ci` for the slot. */
  method FindOwn(table: SymbolTable, l: Layout, ci: nat, fieldix: nat) returns (r: Option<SlotRef>)
    requires TableOk(table.stashes) && LayoutOk(table.stashes, l) && ci < |l.classes|
    ensures r.Some? ==> Holds(table.stashes, l, fieldix, r.value)
    ensures ClassReady(table.stashes, l.classes[ci])
    ensures r.None? ==>
      var first := WindowStart(table.stashes, l.classes, ci) + RoleWidth(table.stashes, table.stashes[l.classes[ci]].roles);
      !(first <= fieldix < first + OwnCount(table.stashes[l.classes[ci]].fields))
  {
    ghost var t := table.stashes;
    var c := l.classes[ci];
    ClassBase(t, l, ci);
    hide WindowStart, ClassSlots, RoleWidth, InstanceSlots, OwnCount, Holds, TableOk, LayoutOk, SealedOk;
    var fields := table.stashes[c].fields;
    ghost var first := WindowStart(t, l.classes, ci) + RoleWidth(t, t[c].roles);
    OwnCountEnds(fields);
    for i := 0 to |fields|
      invariant !(first <= fieldix < first + OwnCount(fields[..i]))
    {
      OwnCountNext(fields, i);
      if !fields[i].inherited {
        OwnFieldNumber(t, c, i);
        FoundOwn(t, l, ci, i);
        if l.shifts[c] + fields[i].fieldix.value == fieldix {
          return Some(SlotRef(c, c, i));
        }
      }
    }
    return None;
  }

  lemma OwnCountEnds(fs: seq<Field>)
    ensures OwnCount(fs[..0]) == 0 && OwnCount(fs[..|fs|]) == OwnCount(fs)
  {
    assert fs[..|fs|] == fs;
  }

  lemma FoundInRole(t: Table, l: Layout, ci: nat, k: nat, i: nat)
    requires TableOk(t) && LayoutOk(t, l) && ci < |l.classes| && ClassReady(t, l.classes[ci])
    requires k < |t[l.classes[ci]].roles| && OwnField(t, t[l.classes[ci]].roles[k], i)
    ensures var c := l.classes[ci];
            var r := t[c].roles[k];
            && t[r].fields[i].rel == OwnCount(t[r].fields[..i])
            && c in l.shifts && Holds(t, l, l.shifts[c] + RoleBase(t, c, k) + t[r].fields[i].rel, SlotRef(c, r, i))
  {
    hide Holds, RoleWidth, OwnCount, ClassSlots, LayoutOk, TableOk;
    var c := l.classes[ci];
    RoleReady(t, c, k);
    var r := t[c].roles[k];
    assert FieldPlaced(t[r].fields, Prefix(t, r) + RoleWidth(t, t[r].roles), i);
    WalksAgreeOnRoleField(t, l, c, k, i);
    ShiftKnown(t, l, c);
  }

  lemma RoleOwnsItsFields(t: Table, role: Stash)
    requires TableOk(t) && role in t && t[role].kind.IsRole()
    ensures forall i: nat :: i < |t[role].fields| ==> OwnField(t, role, i)
  {
    assert RecordOk(t, role);
    forall i: nat | i < |t[role].fields| ensures OwnField(t, role, i) { assert t[role].fields[i] in t[role].fields; }
  }

  /** Searches the block of role number `k`. */
  method FindInRole(table: SymbolTable, l: Layout, ci: nat, k: nat, base: nat, fieldix: nat) returns (r: Option<SlotRef>)
    requires TableOk(table.stashes) && LayoutOk(table.stashes, l) && ci < |l.classes|
    requires ClassReady(table.stashes, l.classes[ci]) && k < |table.stashes[l.classes[ci]].roles|
    requires l.classes[ci] in l.shifts
    requires base == l.shifts[l.classes[ci]] + RoleBase(table.stashes, l.classes[ci], k)
    ensures table.stashes[l.classes[ci]].roles[k] in table.stashes
    ensures r.Some? ==> Holds(table.stashes, l, fieldix, r.value)
    ensures r.None? ==> !(base <= fieldix < base + OwnCount(table.stashes[table.stashes[l.classes[ci]].roles[k]].fields))
  {
    ghost var t := table.stashes;
    var c := l.classes[ci];
    RoleReady(t, c, k);
    hide ClassSlots, RoleWidth, OwnCount, Holds, LayoutOk, SealedOk, RoleBase;
    var role := table.stashes[c].roles[k];
    RoleOwnsItsFields(t, role);
    hide TableOk, ClassReady;
    var fields := table.stashes[role].fields;
    OwnCountEnds(fields);
    for i := 0 to |fields|
      invariant !(base <= fieldix < base + OwnCount(fields[..i]))
    {
      OwnCountNext(fields, i);
      FoundInRole(t, l, ci, k, i);
      if base + fields[i].rel == fieldix {
        return Some(SlotRef(c, role, i));
      }
    }
    return None;
  }

  /** The name of a slot: what the reference layout says it holds. */
  method FieldName(table: SymbolTable, l: Layout, fieldix: nat) returns (r: Option<SlotRef>)
    requires TableOk(table.stashes) && LayoutOk(table.stashes, l)
    ensures var slots := InstanceSlots(table.stashes, l.classes);
            r == if fieldix < |slots| then Some(slots[fieldix]) else None
  {
    ghost var t := table.stashes;
    WindowStartZero(t, l.classes);
    WindowStartEnd(t, l.classes);
    for ci := 0 to |l.classes|
      invariant fieldix >= WindowStart(t, l.classes, ci)
    {
      hide WindowStart, ClassSlots, RoleWidth, InstanceSlots, OwnCount, TableOk, LayoutOk, SealedOk;
      var c := l.classes[ci];
      r := FindOwn(table, l, ci, fieldix);
      if r.Some? { return; }
      ClassBase(t, l, ci);
      r := FindInRoles(table, l, ci, fieldix);
      if r.Some? { return; }
    }
    return None;
  }

  method FindInRoles(table: SymbolTable, l: Layout, ci: nat, fieldix: nat) returns (r: Option<SlotRef>)
    requires TableOk(table.stashes) && LayoutOk(table.stashes, l) && ci < |l.classes|
    requires fieldix >= WindowStart(table.stashes, l.classes, ci)
    ensures ClassReady(table.stashes, l.classes[ci])
    ensures r.Some? ==> Holds(table.stashes, l, fieldix, r.value)
    ensures r.None? ==> fieldix >= WindowStart(table.stashes, l.classes, ci)
                                   + RoleWidth(table.stashes, table.stashes[l.classes[ci]].roles)
  {
    ghost var t := table.stashes;
    var c := l.classes[ci];
    ClassBase(t, l, ci);
    hide WindowStart, ClassSlots, InstanceSlots, OwnCount, Holds, TableOk, LayoutOk;
    var aux := table.stashes[c];
    var base := l.shifts[c] + if aux.superclass.Some? then table.stashes[aux.superclass.value].nextFieldix else 0;
    RoleWidthEnds(t, aux.roles);
    hide RoleWidth;
    for k := 0 to |aux.roles|
      invariant base == l.shifts[c] + RoleBase(t, c, k)
      invariant fieldix >= base
    {
      r := FindInRole(table, l, ci, k, base, fieldix);
      if r.Some? { return; }
      var count := table.OwnFieldCount(aux.roles[k]);
      TakeNext(aux.roles, k);
      RoleWidthAppend(t, aux.roles[..k], aux.roles[k]);
      base := base + count;
    }
    return None;
  }

  lemma RoleWidthEnds(t: Table, roles: seq<Stash>)
    requires ObjectLayout.Within(t, roles)
    ensures ObjectLayout.Within(t, roles[..0]) && RoleWidth(t, roles[..0]) == 0
    ensures ObjectLayout.Within(t, roles[..|roles|]) && RoleWidth(t, roles[..|roles|]) == RoleWidth(t, roles)
  {
    assert roles[..|roles|] == roles;
  }
}
