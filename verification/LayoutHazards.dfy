/** Exactly which declarations break an object layout.

    Sealing a declaration gives a sound layout if and only if the open roles it
    names have no fields.  Discipline at the time of each event is needed: an
    undisciplined event breaks a layout at once or can be continued to a broken one,
    and a disciplined run never reaches one. */
module LayoutHazards {
  import opened RoleClosure
  import opened ObjectLayout
  import opened LayoutFacts
  import opened LayoutHistories

  // ----- at the moment of sealing

  /** Each open role that the declaration names has no fields yet. */
  ghost predicate OpenRolesBare(t: Table, s: Stash)
    requires s in t
  {
    forall r :: r in t[s].pending && r in t && !t[r].sealed ==> OwnCount(t[r].fields) == 0
  }

  lemma {:induction false} OpenFieldsUnresolved(fs: seq<Field>)
    requires forall i :: 0 <= i < |fs| ==> fs[i].fieldix == None
    requires OwnCount(fs) > 0
    ensures !Resolved(fs)
  {
    OwnIndexBounds(fs);
  }

  lemma {:induction false} WidthUpTo(t: Table, roles: seq<Stash>, k: nat)
    requires ObjectLayout.Within(t, roles) && k < |roles|
    ensures RoleWidth(t, roles[..k]) + OwnCount(t[roles[k]].fields) <= RoleWidth(t, roles)
  {
    var n := |roles| - 1;
    if k < n {
      WidthUpTo(t, roles[..n], k);
      assert roles[..n][..k] == roles[..k];
    }
  }

  lemma ResolvedOwn(fs: seq<Field>, base: nat)
    requires FieldsPlaced(fs, base) && OwnCount(fs) > 0
    ensures OwnBaseWord(fs) == base
  {
    OwnBasePlaced(fs, base);
  }

  lemma SelfWraps(t: Table, s: Stash, k: nat)
    requires s in t && Tiles(t, s) && k < |t[s].roles| && t[s].roles[k] == s && OwnCount(t[s].fields) > 0
    ensures !RoleFits(t, s, k)
  {
    hide RoleWidth, FieldsPlaced, ClassSlots;
    ResolvedOwn(t[s].fields, Prefix(t, s) + RoleWidth(t, t[s].roles));
    WidthUpTo(t, t[s].roles, k);
  }

  /** An open role with a field makes the relocation wrap around, even when it is
      the declaration itself. */
  lemma OpenRoleWraps(t: Table, s: Stash, r: Stash)
    requires Shaped(t) && Enabled(t, Seal(s)) && r in t[s].pending && r in t && !t[r].sealed && OwnCount(t[r].fields) > 0
    ensures !Sound(Step(t, Seal(s)), s)
  {
    var t' := Step(t, Seal(s));
    assert ShapeOk(t, r) && ShapeOk(t, s);
    ClosureWithin(t, t[s].pending);
    var k: nat :| k < |t'[s].roles| && t'[s].roles[k] == r;
    LaidOutDeclares(t, s);
    OpenFieldsUnresolved(t[r].fields);
    hide Shaped, ShapeOk, ClassSlots, RoleWidth, FieldsPlaced, Resolved, OwnBaseWord, Flat, Placed;
    if Sound(t', s) {
      assert RoleFits(t', s, k);
      if r == s { SelfWraps(t', s, k); }
    }
  }

  lemma {:induction false} SlotsDistinct(t: Table, c: Stash)
    requires c in t && Linked(t, c) && NoDup(t[c].roles) && (c in t[c].roles ==> OwnCount(t[c].fields) == 0)
    ensures NoDup(ClassSlots(t, c))
  {
    RoleBlocksDistinct(t, c, t[c].roles);
    OwnIndexesDistinct(t[c].fields);
    var front, last := RoleBlocks(t, c, t[c].roles), Block(t, c, c);
    forall i, j | 0 <= i < j < |front + last| ensures (front + last)[i] != (front + last)[j] {
      if i < |front| <= j {
        assert front[i] in front && front[i].decl in t[c].roles;
      }
    }
  }

  /** A flattened role is sealed, or it is an open role that was named. */
  lemma FlatMember(t: Table, s: Stash, x: Stash)
    requires TableOk(t) && Shaped(t) && s in t && x in Flat(t, s)
    ensures x in t && (t[x].sealed || x in t[s].pending)
  {
    assert ShapeOk(t, s);
    ClosureOrdered(t, t[s].pending);
    assert InFlattening(t, t[s].pending, x);
    if x !in t[s].pending {
      var p :| p in t[s].pending && x in t[p].roles;
      SealedListsShrink(t, p, x);
    }
  }

  lemma SealedRoleFits(t: Table, roles: seq<Stash>, k: nat, first: nat)
    requires TableOk(t) && RolesOrdered(t, roles) && k < |roles| && t[roles[k]].sealed
    ensures NoWrap(t[roles[k]].fields, first + RoleWidth(t, roles[..k]))
  {
    var r := roles[k];
    assert r in roles && RecordOk(t, r) && AfterItsRoles(t, roles, k);
    SublistWidth(t, t[r].roles, roles[..k]);
    NoWrapPlaced(t[r].fields, Prefix(t, r) + RoleWidth(t, t[r].roles), first + RoleWidth(t, roles[..k]));
  }

  lemma FlatFits(t: Table, s: Stash, k: nat)
    requires TableOk(t) && Shaped(t) && Enabled(t, Seal(s)) && OpenRolesBare(t, s) && k < |Flat(t, s)|
    ensures Linked(Step(t, Seal(s)), s) && RoleFits(Step(t, Seal(s)), s, k)
  {
    var t' := Step(t, Seal(s));
    var roles := Flat(t, s);
    var r := roles[k];
    assert ShapeOk(t, s);
    FlatMember(t, s, r);
    WidthKept(t, s, roles[..k]);
    assert Linked(t', s);
    if t[r].sealed {
      ClosureOrdered(t, t[s].pending);
      SealedRoleFits(t, roles, k, Prefix(t', s));
    } else {
      LaidOutDeclares(t, s);
      assert OwnCount(t'[r].fields) == 0;
    }
  }

  /** Where everything sealed so far is in order, sealing one more declaration gives
      a sound layout exactly when the open roles it names have no fields. */
  lemma SoundWhenSealed(t: Table, s: Stash)
    requires TableOk(t) && Shaped(t) && Enabled(t, Seal(s)) && Shaped(Step(t, Seal(s)))
    ensures Sound(Step(t, Seal(s)), s) <==> OpenRolesBare(t, s)
  {
    var t' := Step(t, Seal(s));
    if OpenRolesBare(t, s) {
      LaidOutTiles(t, s);
      assert ShapeOk(t, s);
      ClosureWithin(t, t[s].pending);
      LaidOutDeclares(t, s);
      if s in t'[s].roles { FlatMember(t, s, s); }
      SlotsDistinct(t', s);
      forall k: nat | k < |t'[s].roles| ensures RoleFits(t', s, k) { FlatFits(t, s, k); }
    } else {
      var r :| r in t[s].pending && r in t && !t[r].sealed && OwnCount(t[r].fields) != 0;
      OpenRoleWraps(t, s, r);
    }
  }

  lemma WidthMonotone(t: Table, roles: seq<Stash>, k: nat)
    requires ObjectLayout.Within(t, roles) && k <= |roles|
    ensures RoleWidth(t, roles[..k]) <= RoleWidth(t, roles)
  {
    if k < |roles| { WidthUpTo(t, roles, k); } else { assert roles[..k] == roles; }
  }

  /** An open role with a field tells the sentinel itself. */
  lemma OpenRoleWord(t: Table, r: Stash)
    requires Shaped(t) && r in t && !t[r].sealed && t[r].kind.IsRole() && OwnCount(t[r].fields) > 0
    ensures OwnBaseWord(t[r].fields) == UNRESOLVED
  {
    assert ShapeOk(t, r);
    var fs := t[r].fields;
    assert fs != [] && fs[0] in fs;
    FirstOwn(fs);
  }

  lemma WordFits(t: Table, s: Stash, k: nat)
    requires TableOk(t) && Shaped(t) && Enabled(t, Seal(s)) && k < |Flat(t, s)| && OwnStart(t, s) < UNRESOLVED
    ensures t[s].superclass.Some? ==> t[s].superclass.value in t
    ensures var r := Flat(t, s)[k];
            OwnBaseWord(t[r].fields) <= First(t, t[s]) + RoleWidth(t, Flat(t, s)[..k]) <==>
            t[r].sealed || OwnCount(t[r].fields) == 0
  {
    var roles := Flat(t, s);
    var r := roles[k];
    assert ShapeOk(t, s);
    FlatMember(t, s, r);
    ClosureOrdered(t, t[s].pending);
    assert r in roles && t[r].kind.IsRole();
    hide Shaped, TableOk, Flat, OwnBaseWord, Resolved, RoleWidth, OwnIndexes;
    if t[r].sealed {
      SealedRoleFits(t, roles, k, First(t, t[s]));
    } else if OwnCount(t[r].fields) > 0 {
      OpenRoleWord(t, r);
      WidthMonotone(t, roles, k);
      OwnStartIs(t, s);
    } else {
      NoOwnWord(t[r].fields);
    }
  }

  lemma OwnStartIs(t: Table, s: Stash)
    requires Shaped(t) && s in t && (t[s].superclass.Some? ==> t[s].superclass.value in t)
    ensures OwnStart(t, s) == First(t, t[s]) + RoleWidth(t, Flat(t, s))
  {}

  lemma NoOwnWord(fs: seq<Field>)
    requires OwnCount(fs) == 0
    ensures OwnBaseWord(fs) == 0
  {}

  /** The inequality that the original asserts for each block holds exactly then as well. */
  lemma AssertedWhenSealed(t: Table, s: Stash)
    requires TableOk(t) && Shaped(t) && Enabled(t, Seal(s)) && OwnStart(t, s) < UNRESOLVED
    ensures BlocksFit(t, s) <==> OpenRolesBare(t, s)
  {
    assert ShapeOk(t, s);
    ClosureWithin(t, t[s].pending);
    var roles := Flat(t, s);
    hide OwnBaseWord, OwnIndexes, TableOk, Shaped, ShapeOk;
    forall k: nat | k < |roles|
      ensures OwnBaseWord(t[roles[k]].fields) <= First(t, t[s]) + RoleWidth(t, roles[..k]) <==>
              t[roles[k]].sealed || OwnCount(t[roles[k]].fields) == 0
    {
      WordFits(t, s, k);
    }
    forall k: nat | k < |roles| ensures t[roles[k]].sealed || roles[k] in t[s].pending { FlatMember(t, s, roles[k]); }
    if !OpenRolesBare(t, s) {
      var r :| r in t[s].pending && r in t && !t[r].sealed && OwnCount(t[r].fields) != 0;
      var k: nat :| k < |roles| && roles[k] == r;
    }
  }

  // ----- when a class takes over a role

  lemma WidthChanged(t: Table, t': Table, roles: seq<Stash>, r: Stash)
    requires ObjectLayout.Within(t, roles) && NoDup(roles) && r in roles && r in t && r in t'
    requires forall x :: x in t && x != r ==> x in t' && t'[x] == t[x]
    ensures ObjectLayout.Within(t', roles)
    ensures RoleWidth(t', roles) + OwnCount(t[r].fields) == RoleWidth(t, roles) + OwnCount(t'[r].fields)
  {
    var k: nat :| k < |roles| && roles[k] == r;
    RoleWidthWithout(t, roles, k);
    RoleWidthWithout(t', roles, k);
    RoleWidthFrame(t, t', Without(roles, k));
  }

  /** Changing the number of fields of a role leaves its sealed consumers with a wrong size. */
  lemma WidthChangeUnsound(t: Table, t': Table, u: Stash, r: Stash)
    requires TableOk(t) && u in t && t[u].sealed && r in t && r in t[u].roles && r in t'
    requires forall x :: x in t && x != r ==> x in t' && t'[x] == t[x]
    requires OwnCount(t'[r].fields) != OwnCount(t[r].fields)
    ensures u in t' && !Sound(t', u)
  {
    assert RecordOk(t, u);
    assert r in t && t[r].kind.IsRole() && u != r;
    ClassSlotsWidth(t, u);
    WidthChanged(t, t', t[u].roles, r);
    assert Prefix(t', u) == Prefix(t, u);
    if Tiles(t', u) { ClassSlotsWidth(t', u); }
  }

  lemma {:induction false} RoleBlocksFrame(t: Table, t': Table, o: Stash, roles: seq<Stash>)
    requires forall x :: x in roles ==> x in t && x in t' && OwnIndexes(t'[x].fields) == OwnIndexes(t[x].fields)
    ensures RoleBlocks(t', o, roles) == RoleBlocks(t, o, roles)
  {
    if roles != [] {
      assert roles[|roles| - 1] in roles;
      RoleBlocksFrame(t, t', o, roles[..|roles| - 1]);
    }
  }

  /** The records agree on what the layout of `u` depends on. */
  ghost predicate SameToConsumer(t: Table, t': Table, u: Stash, r: Stash) {
    && u in t && u != r && t[u].superclass != Some(r)
    && (forall x :: x in t && x != r ==> x in t' && t'[x] == t[x])
    && (r in t[u].roles ==> r in t && r in t' && OwnIndexes(t'[r].fields) == [] && OwnIndexes(t[r].fields) == [])
  }

  lemma TilesFrame(t: Table, t': Table, u: Stash, r: Stash)
    requires SameToConsumer(t, t', u, r) && Tiles(t, u)
    ensures Tiles(t', u) && Linked(t', u) && ClassSlots(t', u) == ClassSlots(t, u)
    ensures forall k :: 0 <= k <= |t[u].roles| ==> RoleBase(t', u, k) == RoleBase(t, u, k)
  {
    var roles := t[u].roles;
    forall x | x in roles ensures x in t' && OwnIndexes(t'[x].fields) == OwnIndexes(t[x].fields) {}
    hide OwnIndexes, FieldsPlaced;
    RoleBlocksFrame(t, t', u, roles);
    RoleWidthFrame(t, t', roles);
    forall k | 0 <= k <= |roles| ensures RoleBase(t', u, k) == RoleBase(t, u, k) {
      RoleWidthFrame(t, t', roles[..k]);
    }
  }

  /** Replacing a role without fields by another record without fields is not noticed. */
  lemma SoundFrame(t: Table, t': Table, u: Stash, r: Stash)
    requires SameToConsumer(t, t', u, r) && Sound(t, u)
    ensures Sound(t', u)
  {
    assert Linked(t, u);
    hide Tiles, ClassSlots, RoleWidth, RoleBase;
    TilesFrame(t, t', u, r);
    forall k: nat | k < |t[u].roles| ensures RoleFits(t', u, k) {
      assert RoleFits(t, u, k) && t[u].roles[k] in t[u].roles;
    }
  }

  /** A class that takes over a role leaves an existing consumer as it should be
      exactly when the role has no fields or is no part of the consumer. */
  lemma SoundWhenTakenOver(t: Table, r: Stash, kind: Kind, u: Stash)
    requires TableOk(t) && Startable(t, r, kind) && r in t && u in t && t[u].sealed && u != r
    ensures Sound(t[r := Started(t, r, kind)], u) <==> r !in t[u].roles || OwnCount(t[r].fields) == 0
  {
    var t' := t[r := Started(t, r, kind)];
    SealedOkIsSound(t, u);
    assert RecordOk(t, u);
    if r !in t[u].roles || OwnCount(t[r].fields) == 0 {
      SoundFrame(t, t', u, r);
    } else {
      WidthChangeUnsound(t, t', u, r);
    }
  }

  // ----- over every later state

  /** No later state, however the program goes on with discipline, has an unsound layout. */
  ghost predicate SafeForever(t: Table)
    requires Shaped(t)
  {
    forall t' :: CanReach(t, t') ==> Good(t')
  }

  ghost predicate NoInheritanceCycle(t: Table) {
    forall s {:trigger t[s]} :: s in t ==> Acyclic(IsaGraph(t), [s])
  }

  /** Only classes above `s` differ. */
  ghost predicate OnlyAbove(t: Table, t': Table, s: Stash)
    requires s in t
  {
    t'.Keys == t.Keys && forall x :: x in t && t'[x] != t[x] ==> t[x].kind == Class && x in Below(IsaGraph(t), s)
  }

  lemma SealKeepsParents(t: Table, p: Stash)
    requires Shaped(t) && p in t
    ensures IsaGraph(t[p := LaidOut(t, p)]) == IsaGraph(t)
  {
    hide Shaped;
    LaidOutDeclares(t, p);
  }

  lemma OnlyAboveNext(t: Table, t1: Table, s: Stash, p: Stash, a: Aux)
    requires s in t && p in t && Below(IsaGraph(t), p) <= Below(IsaGraph(t), s)
    requires p in Below(IsaGraph(t), s) && p !in Below(IsaGraph(t), p) && t[p].kind == Class
    requires OnlyAbove(t, t1, p)
    ensures OnlyAbove(t, t1[p := a], s) && t1[p] == t[p]
  {
    hide Below;
  }

  lemma AboveFacts(g: Graph<Stash>, s: Stash, p: Stash)
    requires Closed(g) && s in g && p in g && Acyclic(g, [s]) && p != s && Reaches(g, [s], p)
    ensures Acyclic(g, [p]) && Below(g, p) < Below(g, s)
    ensures p in Below(g, s) && p !in Below(g, p)
  {
    BelowShrinks(g, s, p);
    ReachesSelf(g, [p], p);
    ReachesBelow(g, s, p);
  }

  /** The superclass of a declaration can be sealed without touching the declaration or any role. */
  lemma {:induction false} Lift(t0: Table, t: Table, s: Stash) returns (t': Table)
    requires Shaped(t0) && Shaped(t) && CanReach(t0, t) && s in t && Acyclic(IsaGraph(t), [s])
    ensures Shaped(t') && CanReach(t0, t') && IsaGraph(t') == IsaGraph(t) && OnlyAbove(t, t', s)
    ensures t[s].superclass.Some? ==> t[s].superclass.value in t' && t'[t[s].superclass.value].sealed
    decreases Below(IsaGraph(t), s)
  {
    hide CanReach, LaidOut, Acyclic, Reaches;
    if t[s].superclass == None || (t[s].superclass.value in t && t[t[s].superclass.value].sealed) {
      t' := t;
    } else {
      var g := IsaGraph(t);
      var p := t[s].superclass.value;
      IsaClosed(t);
      SuperclassReached(t, s);
      assert ShapeOk(t, s) && t[p].kind == Class;
      hide Shaped;
      AboveFacts(g, s, p);
      var t1 := Lift(t0, t, p);
      OnlyAboveNext(t, t1, s, p, LaidOut(t1, p));
      Goes(t0, t1, Seal(p));
      SealKeepsParents(t1, p);
      assert LaidOut(t1, p).sealed by { LaidOutSealed(t1, p); }
      t' := Step(t1, Seal(p));
    }
  }

  lemma LaidOutSealed(t: Table, s: Stash)
    requires Shaped(t) && s in t
    ensures LaidOut(t, s).sealed
  {}

  lemma NotAboveItself(t: Table, t': Table, s: Stash)
    requires s in t && OnlyAbove(t, t', s) && Acyclic(IsaGraph(t), [s])
    ensures t'[s] == t[s]
  {
    ReachesSelf(IsaGraph(t), [s], s);
  }

  lemma UnsoundSoUnsafe(t0: Table, t: Table, s: Stash)
    requires Shaped(t0) && CanReach(t0, t) && s in t && t[s].sealed && !Sound(t, s)
    ensures !SafeForever(t0)
  {
    hide CanReach, Sound;
    assert !Good(t);
  }

  lemma SealNowHarms(t0: Table, t: Table, s: Stash, r: Stash)
    requires Shaped(t0) && Shaped(t) && CanReach(t0, t) && Enabled(t, Seal(s))
    requires IsOpen(t, r) && r in t[s].pending && OwnCount(t[r].fields) > 0
    ensures !SafeForever(t0)
  {
    OpenRoleWraps(t, s, r);
    LaidOutSealed(t, s);
    hide CanReach, Sound, SafeForever, Shaped, LaidOut, OwnIndexes;
    Goes(t0, t, Seal(s));
    UnsoundSoUnsafe(t0, Step(t, Seal(s)), s);
  }

  /** A declaration that names an open role with a field leads to an unsound layout. */
  lemma SealingHarms(t0: Table, t: Table, s: Stash, r: Stash)
    requires Shaped(t0) && Shaped(t) && CanReach(t0, t) && IsOpen(t, s) && Acyclic(IsaGraph(t), [s])
    requires IsOpen(t, r) && t[r].kind.IsRole() && r in t[s].pending && OwnCount(t[r].fields) > 0
    ensures !SafeForever(t0)
  {
    hide CanReach, SafeForever, Shaped, Acyclic, OwnIndexes;
    var t1 := Lift(t0, t, s);
    NotAboveItself(t, t1, s);
    SealNowHarms(t0, t1, s, r);
  }

  /** An open declaration can still get a field. */
  lemma GetsField(t0: Table, t: Table, r: Stash) returns (t': Table)
    requires Shaped(t0) && Shaped(t) && CanReach(t0, t) && IsOpen(t, r)
    ensures Shaped(t') && CanReach(t0, t') && IsaGraph(t') == IsaGraph(t) && t'.Keys == t.Keys
    ensures forall x :: x in t && x != r ==> t'[x] == t[x]
    ensures t'[r] == t[r].(fields := t'[r].fields, nextFieldix := t[r].nextFieldix + 1)
    ensures OwnCount(t'[r].fields) == OwnCount(t[r].fields) + 1
  {
    var e := Collect(r, 0, ScalarSigil, None, false);
    Goes(t0, t, e);
    t' := Step(t, e);
    var fs := t[r].fields;
    assert t'[r].fields[..|fs|] == fs;
  }

  /** A field that comes after the sealing has no slot, and an alias counts as one. */
  lemma LateFieldUnsound(t: Table, e: Event)
    requires TableOk(t) && Shaped(t) && NoInheritanceCycle(t) && Enabled(t, e) && e.Collect? && t[e.s].sealed
    ensures !Sound(Step(t, e), e.s)
  {
    var s, t' := e.s, Step(t, e);
    SealedOkIsSound(t, s);
    assert RecordOk(t, s);
    SuperclassIsOther(t, s);
    var fs := t[s].fields;
    assert t'[s].fields[..|fs|] == fs;
    RoleWidthFrame(t, t', t[s].roles);
    ClassSlotsWidth(t, s);
    if Tiles(t', s) {
      ClassSlotsWidth(t', s);
      LateFieldPlaced(t'[s].fields, Prefix(t', s) + RoleWidth(t', t'[s].roles));
    }
  }

  lemma LateFieldPlaced(fs: seq<Field>, base: nat)
    requires FieldsPlaced(fs, base) && fs != []
    ensures fs[|fs| - 1].inherited || fs[|fs| - 1].fieldix.Some?
  {
    assert FieldPlaced(fs, base, |fs| - 1);
  }

  lemma SuperclassIsOther(t: Table, s: Stash)
    requires Shaped(t) && s in t && Acyclic(IsaGraph(t), [s])
    ensures t[s].superclass != Some(s)
  {
    assert ShapeOk(t, s);
    NotOwnSuccessor(IsaGraph(t), s);
  }

  /** And every consumer or subclass of the declaration is left with a wrong size. */
  lemma LateFieldHarms(t: Table, e: Event)
    requires TableOk(t) && Shaped(t) && NoInheritanceCycle(t) && Enabled(t, e) && e.Collect? && t[e.s].sealed
    ensures Shaped(Step(t, e)) && !SafeForever(Step(t, e))
  {
    LateFieldUnsound(t, e);
    StepKeepsShaped(t, e);
    hide Sound, SafeForever, TableOk, CanReach;
    Stays(Step(t, e));
    UnsoundSoUnsafe(Step(t, e), Step(t, e), e.s);
  }

  /** A sealed class that gets a superclass with slots has been laid out too low. */
  lemma LateParentUnsound(t: Table, t': Table, s: Stash, p: Stash)
    requires TableOk(t) && s in t && t[s].sealed && t[s].isa == [] && t[s].kind == Class
    requires p in t && t[p].kind == Class && s in t' && p in t' && t'[s] == WithParent(t, s, p) && t'[p].nextFieldix > 0
    requires forall x :: x in t && x != s && x != p ==> x in t' && t'[x] == t[x]
    ensures !Sound(t', s)
  {
    assert RecordOk(t, s);
    RoleWidthFrame(t, t', t[s].roles);
    ClassSlotsWidth(t, s);
    if Tiles(t', s) { ClassSlotsWidth(t', s); }
  }

  lemma LateParentHarms(t: Table, s: Stash, p: Stash)
    requires TableOk(t) && Shaped(t) && Enabled(t, Inherit(s, p)) && !HarmlessParent(t, s, p)
    ensures Shaped(Step(t, Inherit(s, p))) && !SafeForever(Step(t, Inherit(s, p)))
  {
    StepKeepsShaped(t, Inherit(s, p));
    var t0 := Step(t, Inherit(s, p));
    assert ShapeOk(t, s) && ShapeOk(t, p);
    Stays(t0);
    if t[p].nextFieldix > 0 {
      LateParentUnsound(t, t0, s, p);
      hide Sound, SafeForever, CanReach;
      UnsoundSoUnsafe(t0, t0, s);
    } else {
      var t1 := GetsField(t0, t0, p);
      LateParentUnsound(t, t1, s, p);
      hide Sound, SafeForever, CanReach;
      UnsoundSoUnsafe(t0, t1, s);
    }
  }

  /** Naming an open role, itself included, is harmful for a declaration that is open. */
  lemma OpenNameHarms(t: Table, s: Stash, r: Stash)
    requires Shaped(t) && NoInheritanceCycle(t) && Enabled(t, Implement(s, r)) && !t[s].sealed && !t[r].sealed
    ensures Shaped(Step(t, Implement(s, r))) && !SafeForever(Step(t, Implement(s, r)))
  {
    StepKeepsShaped(t, Implement(s, r));
    var t0 := Step(t, Implement(s, r));
    assert IsaGraph(t0) == IsaGraph(t) && t[s] == t[s];
    hide Shaped, SafeForever, CanReach, OwnIndexes, Acyclic;
    Stays(t0);
    var t1 := GetsField(t0, t0, r);
    SealingHarms(t0, t1, s, r);
  }

  lemma ConsumerFacts(t: Table, r: Stash, u: Stash)
    requires Shaped(t) && Clean(t) && u in Consumers(t, r)
    ensures r in t && t[r].kind.IsRole() && u != r
    ensures if t[u].sealed then r in t[u].roles else IsOpen(t, u) && r in t[u].pending
  {
    assert RecordOk(t, u) && (!t[u].sealed ==> NamesSealed(t, u));
  }

  /** Taking over a role that some declaration names or is made of is harmful. */
  lemma TakeOverHarms(t: Table, r: Stash, kind: Kind, u: Stash)
    requires Shaped(t) && Clean(t) && NoInheritanceCycle(t) && Startable(t, r, kind) && u in Consumers(t, r)
    ensures Shaped(Step(t, SetUp(r, kind))) && !SafeForever(Step(t, SetUp(r, kind)))
  {
    ConsumerFacts(t, r, u);
    StepKeepsShaped(t, SetUp(r, kind));
    var t0 := Step(t, SetUp(r, kind));
    assert t[u] == t[u] && IsaGraph(t0) == IsaGraph(t);
    hide CanReach, SafeForever, Shaped, NamesSealed, OwnIndexes, Acyclic, Sound, TableOk, ShapeOk;
    Stays(t0);
    var t1 := GetsField(t0, t0, r);
    if !t[u].sealed {
      SealingHarms(t0, t1, u, r);
    } else if OwnCount(t[r].fields) == 0 {
      WidthChangeUnsound(t, t1, u, r);
      UnsoundSoUnsafe(t0, t1, u);
    } else {
      WidthChangeUnsound(t, t0, u, r);
      UnsoundSoUnsafe(t0, t0, u);
    }
  }

  // ----- a class that takes over a role inside the role's scope

  lemma FlatIsOne(t: Table, s: Stash, r: Stash)
    requires Shaped(t) && s in t && r in t && t[s].pending == [r] && (t[r].roles == [] || t[r].roles == [r])
    ensures Flat(t, s) == [r]
  {
    var g := RoleGraph(t);
    assert ShapeOk(t, s);
    ClosureWithin(t, t[s].pending);
    ClosureIsReachableSet(g, [r]);
    var xs := Flat(t, s);
    forall x | x in xs ensures x == r {
      var p :| IsPath(g, p) && p[0] in [r] && p[|p| - 1] == x;
      ClosedSetHoldsReachable(g, {r}, p);
    }
    assert r in xs;
    NoDupFits(xs, {r});
  }

  lemma FlatIsNone(t: Table, s: Stash)
    requires Shaped(t) && s in t && t[s].pending == []
    ensures Flat(t, s) == []
  {
    assert ShapeOk(t, s);
    RolesClosed(t);
    CollectNone(RoleGraph(t), Walk([], []));
  }

  lemma {:induction false} Bound(s: set<Stash>) returns (b: nat)
    ensures forall x :: x in s ==> x < b
    decreases s
  {
    if s == {} {
      b := 0;
    } else {
      var x :| x in s;
      b := Bound(s - {x});
      assert forall y :: y in s ==> y == x || y in s - {x};
      b := if x < b then b else x + 1;
    }
  }

  lemma NotConsumed(t: Table, p: Stash)
    requires Shaped(t) && p !in t
    ensures Consumers(t, p) == {} && !IsOpenRole(t, p)
  {
    forall x | x in t ensures x !in Consumers(t, p) { assert ShapeOk(t, x); }
  }

  lemma SealBare(t0: Table, t: Table, p: Stash) returns (t': Table)
    requires Shaped(t0) && Shaped(t) && CanReach(t0, t) && p in t && t[p].kind == Role && !t[p].sealed
    requires t[p].pending == [] && t[p].superclass == None
    ensures Shaped(t') && CanReach(t0, t') && t'.Keys == t.Keys && forall x :: x in t && x != p ==> t'[x] == t[x]
    ensures t'[p].kind == Role && t'[p].sealed && t'[p].roles == [] && OwnCount(t'[p].fields) == OwnCount(t[p].fields)
  {
    FlatIsNone(t, p);
    LaidOutDeclares(t, p);
    t' := Step(t, Seal(p));
    hide CanReach, Shaped, Placed, OwnIndexes;
    Goes(t0, t, Seal(p));
  }

  /** A sealed role with one field can always be declared under a new name. */
  lemma NewRole(t0: Table, t: Table) returns (t': Table, p: Stash)
    requires Shaped(t0) && Shaped(t) && CanReach(t0, t)
    ensures Shaped(t') && CanReach(t0, t') && p !in t && p in t'
    ensures t'[p].kind == Role && t'[p].sealed && t'[p].roles == [] && OwnCount(t'[p].fields) == 1
    ensures forall x :: x in t ==> x in t' && t'[x] == t[x]
  {
    p := Bound(t.Keys);
    assert p !in t;
    NotConsumed(t, p);
    Goes(t0, t, SetUp(p, Role));
    var t1 := Step(t, SetUp(p, Role));
    assert OwnCount(t1[p].fields) == 0;
    hide CanReach, Shaped, OwnIndexes;
    var t2 := GetsField(t0, t1, p);
    t' := SealBare(t0, t2, p);
  }

  /** The second sealing lists the roles twice but counts their slots once. */
  lemma ResealedUnsound(t: Table, r: Stash, p: Stash)
    requires Shaped(t) && r in t && t[r].kind == ClassOverRole && t[r].sealed && t[r].fields == [] && t[r].roles == [p] && t[r].pending == [p]
    requires p in t && p != r && t[p].roles == [] && OwnCount(t[p].fields) == 1
    ensures var t' := t[r := Resealed(t, r)]; t'[r].roles == [p, p] && !Sound(t', r)
  {
    FlatIsOne(t, r, p);
    var t' := t[r := Resealed(t, r)];
    assert ShapeOk(t, r);
    assert t[r].roles + [p] == [p, p];
    RoleWidthAppend(t, [], p);
    RoleWidthAppend(t', [], p);
    RoleWidthAppend(t', [p], p);
    assert [] + [p] == [p] && [p] + [p] == [p, p];
    if Tiles(t', r) { ClassSlotsWidth(t', r); }
  }

  /** The taken-over record composes the role and is sealed. */
  lemma ComposeAndSeal(t0: Table, t: Table, r: Stash, p: Stash) returns (t': Table)
    requires Shaped(t0) && Shaped(t) && CanReach(t0, t)
    requires r in t && t[r] == Aux(ClassOverRole, None, [], [], [], [], 0, false, true)
    requires p in t && p != r && t[p].kind == Role && t[p].sealed && t[p].roles == []
    ensures Shaped(t') && CanReach(t0, t') && p in t' && t'[p] == t[p] && r in t'
    ensures t'[r].kind == ClassOverRole && t'[r].sealed && t'[r].reseal && t'[r].fields == []
    ensures t'[r].roles == [p] && t'[r].pending == [p]
  {
    Goes(t0, t, Implement(r, p));
    var t1 := Step(t, Implement(r, p));
    assert [] + [p] == [p];
    FlatIsOne(t1, r, p);
    Goes(t0, t1, Seal(r));
    t' := Step(t1, Seal(r));
  }

  /** Taking over a role inside its own scope is harmful, even if nothing is made of it. */
  lemma TakeOverInsideHarms(t: Table, r: Stash, kind: Kind)
    requires Shaped(t) && Startable(t, r, kind) && IsOpenRole(t, r)
    ensures Shaped(Step(t, SetUp(r, kind))) && !SafeForever(Step(t, SetUp(r, kind)))
  {
    StepKeepsShaped(t, SetUp(r, kind));
    var t0 := Step(t, SetUp(r, kind));
    hide Shaped, CanReach, SafeForever, Sound, OwnIndexes, LaidOut, Resealed;
    Stays(t0);
    var t1, p := NewRole(t0, t0);
    var t2 := ComposeAndSeal(t0, t1, r, p);
    Goes(t0, t2, EndRole(r));
    ResealedUnsound(t2, r, p);
    assert t2[r := Resealed(t2, r)][r].sealed by { ResealedSealed(t2, r); }
    UnsoundSoUnsafe(t0, Step(t2, EndRole(r)), r);
  }

  lemma ResealedSealed(t: Table, s: Stash)
    requires Shaped(t) && s in t && t[s].sealed
    ensures Resealed(t, s).sealed
  {}

  // ----- the whole condition

  lemma DisciplineIsSafe(t: Table, e: Event)
    requires Shaped(t) && Clean(t) && Enabled(t, e) && Disciplined(t, e) && Shaped(Step(t, e))
    ensures SafeForever(Step(t, e))
  {
    StepKeepsClean(t, e);
    hide Enabled, Disciplined, Step, Shaped, Clean;
    forall t' | CanReach(Step(t, e), t') ensures Good(t') {
      var es :| Runs(Step(t, e), es) && Careful(Step(t, e), es) && After(Step(t, e), es) == t';
      RunKeepsClean(Step(t, e), es);
      assert TableOk(t') by { CleanIsOk(t'); }
      CleanIsGood(t');
    }
  }

  lemma CleanIsOk(t: Table)
    requires Clean(t)
    ensures TableOk(t)
  {}

  /** From a state in which every sealed declaration is in order, every open one names
      sealed roles only and no role's scope is open over a class, an event keeps all
      layouts sound forever if and only if it is disciplined: a field goes to an open
      stash; an open declaration names a sealed role; a sealed class gets no
      superclass, unless that one is sealed and empty; a stash that is set up is no
      open role, and nothing is made of it. */
  lemma SafeExactlyWhenDisciplined(t: Table, e: Event)
    requires Shaped(t) && Clean(t) && NoInheritanceCycle(t) && Enabled(t, e) && Shaped(Step(t, e))
    ensures SafeForever(Step(t, e)) <==> Disciplined(t, e)
  {
    if Disciplined(t, e) {
      DisciplineIsSafe(t, e);
    } else {
      hide SafeForever, Step, Shaped, NoInheritanceCycle;
      match e
      case Collect(s, _, _, _, _) => LateFieldHarms(t, e);
      case Implement(s, r) => OpenNameHarms(t, s, r);
      case Inherit(s, p) => LateParentHarms(t, s, p);
      case SetUp(s, kind) =>
        if IsOpenRole(t, s) {
          TakeOverInsideHarms(t, s, kind);
        } else {
          var u :| u in Consumers(t, s);
          TakeOverHarms(t, s, kind, u);
        }
    }
  }

  /** A disciplined program never has an unsound layout. */
  lemma DisciplinedProgramsAreSafe()
    ensures Shaped(map[]) && SafeForever(map[])
  {
    var t: Table := map[];
    forall t' | CanReach(t, t') ensures Good(t') {
      var es :| Runs(t, es) && Careful(t, es) && After(t, es) == t';
      RunKeepsClean(t, es);
      CleanIsGood(t');
    }
  }
}
