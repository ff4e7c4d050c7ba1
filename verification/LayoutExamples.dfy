/** Programs that the original accepts and that break an object layout. */
module LayoutExamples {
  import opened RoleClosure
  import opened ObjectLayout
  import opened LayoutFacts
  import opened LayoutHistories
  import opened LayoutHazards

  function ScalarField(name: Name, rel: nat, fieldix: Option<nat>): Field {
    Field(name, ScalarSigil, None, false, rel, fieldix)
  }

  function FieldX(fieldix: Option<nat>): Field {
    ScalarField(7, 0, fieldix)
  }

  lemma OneField(f: Field, base: nat)
    requires !f.inherited
    ensures OwnIndexes([f]) == [0] && OwnCount([f]) == 1
    ensures Placed([f], base) == [f.(rel := 0, fieldix := Some(base))]
  {
    assert [f][..0] == [];
  }

  ghost predicate Leads(t: Table, e: Event, t': Table) {
    Shaped(t) && Enabled(t, e) && Step(t, e) == t'
  }

  /** The last event of a run. */
  lemma RunEnds(t: Table, e: Event, t': Table)
    requires Leads(t, e, t') && Shaped(t')
    ensures Runs(t, [e]) && After(t, [e]) == t'
  {
    assert [e] + [] == [e];
    RunHead(t, e, t', []);
  }

  lemma RunOfTwo(t0: Table, e1: Event, t1: Table, e2: Event, t2: Table)
    requires Leads(t0, e1, t1) && Leads(t1, e2, t2) && Shaped(t2)
    ensures Runs(t0, [e1, e2]) && After(t0, [e1, e2]) == t2
  {
    RunEnds(t1, e2, t2);
    RunHead(t0, e1, t1, [e2]);
    assert [e1] + [e2] == [e1, e2];
  }

  lemma RunOfThree(t0: Table, e1: Event, t1: Table, e2: Event, t2: Table, e3: Event, t3: Table)
    requires Leads(t0, e1, t1) && Leads(t1, e2, t2) && Leads(t2, e3, t3) && Shaped(t3)
    ensures Runs(t0, [e1, e2, e3]) && After(t0, [e1, e2, e3]) == t3
  {
    hide Shaped, Runs, After;
    RunOfTwo(t1, e2, t2, e3, t3);
    RunHead(t0, e1, t1, [e2, e3]);
    assert [e1] + [e2, e3] == [e1, e2, e3];
  }

  lemma RunOfFour(t0: Table, e1: Event, t1: Table, e2: Event, t2: Table, e3: Event, t3: Table, e4: Event, t4: Table)
    requires Leads(t0, e1, t1) && Leads(t1, e2, t2) && Leads(t2, e3, t3) && Leads(t3, e4, t4) && Shaped(t4)
    ensures Runs(t0, [e1, e2, e3, e4]) && After(t0, [e1, e2, e3, e4]) == t4
  {
    hide Shaped, Runs, After;
    RunOfThree(t1, e2, t2, e3, t3, e4, t4);
    RunHead(t0, e1, t1, [e2, e3, e4]);
    assert [e1] + [e2, e3, e4] == [e1, e2, e3, e4];
  }

  function AddScalar(s: Stash, name: Name): Event {
    Collect(s, name, ScalarSigil, None, false)
  }

  const ADD_X := AddScalar(0, 7)

  function Declaration(kind: Kind, pending: seq<Stash>, fields: seq<Field>): Aux {
    Aux(kind, None, [], pending, [], fields, |fields|, false, false)
  }

  lemma DeclareSteps(t: Table, s: Stash, kind: Kind)
    requires Shaped(t) && s !in t && (kind == Class || kind == Role)
    ensures Leads(t, SetUp(s, kind), t[s := Declaration(kind, [], [])]) && Shaped(t[s := Declaration(kind, [], [])])
  {
    StepKeepsShaped(t, SetUp(s, kind));
  }

  lemma NameStep(t: Table, s: Stash, kind: Kind, r: Stash)
    requires Shaped(t) && s in t && t[s] == Declaration(kind, [], []) && kind != Package && r in t && t[r].kind.IsRole()
    ensures Leads(t, Implement(s, r), t[s := Declaration(kind, [r], [])]) && Shaped(t[s := Declaration(kind, [r], [])])
  {
    assert [] + [r] == [r];
    StepKeepsShaped(t, Implement(s, r));
  }

  lemma FirstFieldStep(t: Table, s: Stash, kind: Kind, pending: seq<Stash>, name: Name)
    requires Shaped(t) && s in t && t[s] == Declaration(kind, pending, []) && kind != Package
    ensures var t' := t[s := Declaration(kind, pending, [ScalarField(name, 0, None)])]; Leads(t, AddScalar(s, name), t') && Shaped(t')
  {
    assert [] + [ScalarField(name, 0, None)] == [ScalarField(name, 0, None)];
    StepKeepsShaped(t, AddScalar(s, name));
  }

  lemma FieldStep(t: Table, kind: Kind, pending: seq<Stash>)
    requires Shaped(t) && 0 in t && t[0] == Declaration(kind, pending, []) && kind != Package
    ensures Leads(t, ADD_X, t[0 := Declaration(kind, pending, [FieldX(None)])])
    ensures Shaped(t[0 := Declaration(kind, pending, [FieldX(None)])])
  {
    FirstFieldStep(t, 0, kind, pending, 7);
  }

  lemma SealPlain(t: Table, s: Stash)
    requires Shaped(t) && s in t && !t[s].sealed && t[s].kind != Package && t[s].pending == []
    requires t[s].superclass.Some? ==> t[s].superclass.value in t && t[t[s].superclass.value].sealed
    ensures var first := First(t, t[s]);
            && Leads(t, Seal(s), Step(t, Seal(s))) && Shaped(Step(t, Seal(s)))
            && Step(t, Seal(s)) == t[s := t[s].(roles := [], fields := Placed(t[s].fields, first),
                                                nextFieldix := first + OwnCount(t[s].fields), sealed := true)]
  {
    FlatIsNone(t, s);
    StepKeepsShaped(t, Seal(s));
  }

  lemma SealOver(t: Table, s: Stash, r: Stash)
    requires Shaped(t) && s in t && t[s].superclass == None && !t[s].sealed && t[s].kind != Package
    requires r in t && t[s].pending == [r] && (t[r].roles == [] || t[r].roles == [r])
    ensures var width := OwnCount(t[r].fields);
            && Leads(t, Seal(s), Step(t, Seal(s))) && Shaped(Step(t, Seal(s)))
            && Step(t, Seal(s)) == t[s := t[s].(roles := [r], fields := Placed(t[s].fields, width),
                                                nextFieldix := width + OwnCount(t[s].fields), sealed := true)]
  {
    FlatIsOne(t, s, r);
    RoleWidthAppend(t, [], r);
    StepKeepsShaped(t, Seal(s));
  }

  lemma FitsWhenSound(t: Table, c: Stash, k: nat)
    requires c in t && Sound(t, c) && k < |t[c].roles|
    ensures t[c].roles[k] in t && NoWrap(t[t[c].roles[k]].fields, RoleBase(t, c, k))
  {
    assert RoleFits(t, c, k);
  }

  lemma Unfit(t: Table, c: Stash, k: nat)
    requires c in t && Linked(t, c) && k < |t[c].roles| && t[c].roles[k] in t
    requires !NoWrap(t[t[c].roles[k]].fields, RoleBase(t, c, k))
    ensures !Sound(t, c)
  {
    if Sound(t, c) { FitsWhenSound(t, c, k); }
  }

  function Sealed(kind: Kind, roles: seq<Stash>, fields: seq<Field>, size: nat): Aux {
    Aux(kind, None, [], roles, roles, fields, size, true, false)
  }

  // ----- a role that names itself

  const SELF_0: Table := map[0 := Declaration(Role, [], [])]
  const SELF_1: Table := map[0 := Declaration(Role, [0], [])]
  const SELF_2: Table := map[0 := Declaration(Role, [0], [FieldX(None)])]
  const SELF_3: Table := map[0 := Sealed(Role, [0], [FieldX(Some(1))], 2)]
  const SELF_4: Table := map[0 := Sealed(Role, [0], [FieldX(Some(1))], 2), 1 := Declaration(Class, [], [])]
  const SELF_5: Table := map[0 := Sealed(Role, [0], [FieldX(Some(1))], 2), 1 := Declaration(Class, [0], [])]
  const SELF_6: Table := map[0 := Sealed(Role, [0], [FieldX(Some(1))], 2), 1 := Sealed(Class, [0], [], 1)]

  lemma SelfRoleDeclared()
    ensures Shaped(map[]) && Shaped(SELF_0) && Leads(map[], SetUp(0, Role), SELF_0)
    ensures Shaped(SELF_1) && Leads(SELF_0, Implement(0, 0), SELF_1)
  {
    DeclareSteps(map[], 0, Role);
    hide Shaped;
    assert map[][0 := Declaration(Role, [], [])] == SELF_0;
    NameStep(SELF_0, 0, Role, 0);
    assert SELF_0[0 := Declaration(Role, [0], [])] == SELF_1;
  }

  lemma SelfRoleSealed()
    requires Shaped(SELF_1)
    ensures Shaped(SELF_2) && Leads(SELF_1, ADD_X, SELF_2)
    ensures Shaped(SELF_3) && Leads(SELF_2, Seal(0), SELF_3)
  {
    hide Shaped, Enabled, Step, Leads;
    FieldStep(SELF_1, Role, [0]);
    assert SELF_1[0 := Declaration(Role, [0], [FieldX(None)])] == SELF_2;
    OneField(FieldX(None), 1);
    hide Placed, OwnIndexes;
    SealOver(SELF_2, 0, 0);
    assert SELF_2[0 := Sealed(Role, [0], [FieldX(Some(1))], 2)] == SELF_3;
  }

  lemma SelfRole()
    ensures Shaped(SELF_3) && Runs(map[], [SetUp(0, Role), Implement(0, 0), ADD_X, Seal(0)])
    ensures After(map[], [SetUp(0, Role), Implement(0, 0), ADD_X, Seal(0)]) == SELF_3
  {
    SelfRoleDeclared();
    SelfRoleSealed();
    hide Shaped, Leads, Runs, After;
    RunOfFour(map[], SetUp(0, Role), SELF_0, Implement(0, 0), SELF_1, ADD_X, SELF_2, Seal(0), SELF_3);
  }

  lemma SelfClassDeclared()
    requires Shaped(SELF_3)
    ensures Shaped(SELF_4) && Leads(SELF_3, SetUp(1, Class), SELF_4)
  {
    hide Shaped;
    DeclareSteps(SELF_3, 1, Class);
    assert SELF_3[1 := Declaration(Class, [], [])] == SELF_4;
  }

  lemma SelfClassNames()
    requires Shaped(SELF_4)
    ensures Shaped(SELF_5) && Leads(SELF_4, Implement(1, 0), SELF_5)
  {
    hide Shaped;
    NameStep(SELF_4, 1, Class, 0);
    assert SELF_4[1 := Declaration(Class, [0], [])] == SELF_5;
  }

  lemma SelfClassSealed()
    requires Shaped(SELF_5)
    ensures Shaped(SELF_6) && Leads(SELF_5, Seal(1), SELF_6)
  {
    hide Shaped, Enabled, Step, Leads;
    OneField(FieldX(Some(1)), 1);
    SealOver(SELF_5, 1, 0);
    assert Placed([], 1) == [] && OwnCount([]) == 0;
    hide Placed, OwnIndexes;
    assert SELF_5[1 := Sealed(Class, [0], [], 1)] == SELF_6;
  }

  lemma SelfClass()
    requires Shaped(SELF_3)
    ensures Runs(SELF_3, [SetUp(1, Class), Implement(1, 0), Seal(1)])
    ensures After(SELF_3, [SetUp(1, Class), Implement(1, 0), Seal(1)]) == SELF_6
  {
    SelfClassDeclared();
    SelfClassNames();
    SelfClassSealed();
    hide Shaped, Leads, Runs, After;
    RunOfThree(SELF_3, SetUp(1, Class), SELF_4, Implement(1, 0), SELF_5, Seal(1), SELF_6);
  }

  /** `role R :implements(R) { field $x }` and then `class C :implements(R) {}`: the role
      takes two slots for its one field, so its own base is 1, and the class gives it base 0. */
  lemma SelfNaming()
    ensures Shaped(map[]) && Runs(map[], [SetUp(0, Role), Implement(0, 0), ADD_X, Seal(0)])
    ensures After(map[], [SetUp(0, Role), Implement(0, 0), ADD_X, Seal(0)]) == SELF_3 && !Sound(SELF_3, 0)
    ensures Runs(SELF_3, [SetUp(1, Class), Implement(1, 0), Seal(1)])
    ensures After(SELF_3, [SetUp(1, Class), Implement(1, 0), Seal(1)]) == SELF_6 && !Sound(SELF_6, 1)
    ensures OwnBaseWord(SELF_6[0].fields) == 1 && RoleBase(SELF_6, 1, 0) == 0
  {
    SelfRole();
    SelfClass();
    OneField(FieldX(Some(1)), 1);
    assert SELF_3[0].roles[..0] == [] && SELF_6[1].roles[..0] == [];
    Unfit(SELF_3, 0, 0);
    Unfit(SELF_6, 1, 0);
  }

  // ----- a role that is open when a class names it

  const UNIT_0: Table := map[0 := Declaration(Role, [], [])]
  const UNIT_1: Table := map[0 := Declaration(Role, [], [FieldX(None)])]
  const UNIT_2: Table := map[0 := Declaration(Role, [], [FieldX(None)]), 1 := Declaration(Class, [], [])]
  const UNIT_3: Table := map[0 := Declaration(Role, [], [FieldX(None)]), 1 := Declaration(Class, [0], [])]
  const UNIT_4: Table := map[0 := Declaration(Role, [], [FieldX(None)]), 1 := Sealed(Class, [0], [], 1)]

  lemma UnitRoleOpen()
    ensures Shaped(map[]) && Shaped(UNIT_1)
    ensures Runs(map[], [SetUp(0, Role), ADD_X]) && After(map[], [SetUp(0, Role), ADD_X]) == UNIT_1
  {
    DeclareSteps(map[], 0, Role);
    hide Shaped, Leads;
    assert map[][0 := Declaration(Role, [], [])] == UNIT_0;
    FieldStep(UNIT_0, Role, []);
    assert UNIT_0[0 := Declaration(Role, [], [FieldX(None)])] == UNIT_1;
    hide Runs, After;
    RunOfTwo(map[], SetUp(0, Role), UNIT_0, ADD_X, UNIT_1);
  }

  lemma UnitClassDeclared()
    requires Shaped(UNIT_1)
    ensures Shaped(UNIT_2) && Leads(UNIT_1, SetUp(1, Class), UNIT_2)
    ensures Shaped(UNIT_3) && Leads(UNIT_2, Implement(1, 0), UNIT_3)
  {
    hide Shaped, Leads;
    DeclareSteps(UNIT_1, 1, Class);
    assert UNIT_1[1 := Declaration(Class, [], [])] == UNIT_2;
    NameStep(UNIT_2, 1, Class, 0);
    assert UNIT_2[1 := Declaration(Class, [0], [])] == UNIT_3;
  }

  lemma UnitClassSealed()
    requires Shaped(UNIT_3)
    ensures Shaped(UNIT_4) && Leads(UNIT_3, Seal(1), UNIT_4)
  {
    hide Shaped, Enabled, Step, Leads;
    OneField(FieldX(None), 1);
    SealOver(UNIT_3, 1, 0);
    assert Placed([], 1) == [] && OwnCount([]) == 0;
    hide Placed, OwnIndexes;
    assert UNIT_3[1 := Sealed(Class, [0], [], 1)] == UNIT_4;
  }

  /** `role A; field $x; class B :implements(A) {}`: the class is sealed while the
      role is still open, so the role tells the sentinel as its base. */
  lemma OpenWhenNamed()
    ensures Shaped(map[]) && Runs(map[], [SetUp(0, Role), ADD_X]) && After(map[], [SetUp(0, Role), ADD_X]) == UNIT_1
    ensures Shaped(UNIT_1) && Runs(UNIT_1, [SetUp(1, Class), Implement(1, 0), Seal(1)])
    ensures After(UNIT_1, [SetUp(1, Class), Implement(1, 0), Seal(1)]) == UNIT_4
    ensures OwnBaseWord(UNIT_4[0].fields) == UNRESOLVED && RoleBase(UNIT_4, 1, 0) == 0 && !Sound(UNIT_4, 1)
  {
    UnitRoleOpen();
    UnitClassDeclared();
    UnitClassSealed();
    UnitUnsound();
    hide Shaped, Leads, Runs, After, Sound, OwnBaseWord, RoleBase;
    RunOfThree(UNIT_1, SetUp(1, Class), UNIT_2, Implement(1, 0), UNIT_3, Seal(1), UNIT_4);
  }

  lemma UnitUnsound()
    ensures OwnBaseWord(UNIT_4[0].fields) == UNRESOLVED && RoleBase(UNIT_4, 1, 0) == 0 && !Sound(UNIT_4, 1)
  {
    OneField(FieldX(None), 1);
    assert UNIT_4[1].roles[..0] == [];
    Unfit(UNIT_4, 1, 0);
  }

  // ----- a class that takes over a role in use

  const USED: Table := map[0 := Sealed(Role, [], [FieldX(Some(0))], 1), 1 := Sealed(Class, [0], [], 1)]
  const TAKEN: Table := map[0 := Declaration(ClassOverRole, [], []), 1 := Sealed(Class, [0], [], 1)]

  /** `role R { field $x } class C :implements(R) {} class R {}`: the record of the role
      starts afresh, and the class has a slot that belongs to no field. */
  lemma TakenOver()
    ensures TableOk(USED) && Enabled(USED, SetUp(0, Class)) && Shaped(USED) && Step(USED, SetUp(0, Class)) == TAKEN
    ensures Sound(USED, 1) && !Sound(TAKEN, 1)
  {
    OneField(FieldX(Some(0)), 0);
    UsedOk();
    TableIsShaped(USED);
    SealedOkIsSound(USED, 1);
    ClassSlotsWidth(TAKEN, 1);
    RoleWidthAppend(TAKEN, [], 0);
  }

  lemma UsedRoleOk()
    ensures RecordOk(USED, 0)
  {
    OneField(FieldX(Some(0)), 0);
    ClassSlotsWidth(USED, 0);
    assert [FieldX(Some(0))][..0] == [];
    assert FieldPlaced([FieldX(Some(0))], 0, 0);
  }

  lemma UsedFlat()
    ensures RolesOrdered(USED, [0]) && FlattenedFrom(USED, [0], [0])
  {
    assert AfterItsRoles(USED, [0], 0);
    forall x ensures x in [0] <==> InFlattening(USED, [0], x) {}
  }

  lemma ClassOfOneRole(t: Table)
    requires 0 in t && 1 in t && t[1] == Sealed(Class, [0], [], 1) && OwnCount(t[0].fields) == 1
    requires t[0].sealed && t[0].kind == Role && RolesOrdered(t, [0]) && FlattenedFrom(t, [0], [0])
    ensures RecordOk(t, 1)
  {
    hide RolesOrdered, FlattenedFrom;
    RoleWidthAppend(t, [], 0);
    ClassSlotsWidth(t, 1);
    hide RoleWidth, ClassSlots;
  }

  lemma UsedClassOk()
    ensures RecordOk(USED, 1)
  {
    UsedFlat();
    OneField(FieldX(Some(0)), 0);
    hide RecordOk, RolesOrdered, FlattenedFrom, OwnIndexes;
    ClassOfOneRole(USED);
  }

  lemma UsedOk()
    ensures TableOk(USED)
  {
    hide RecordOk;
    UsedRoleOk();
    UsedClassOk();
  }

  // ----- a field that a class gets after a subclass was laid out

  const LATE_0: Table := map[0 := Declaration(Class, [], [])]
  const LATE_1: Table := map[0 := Declaration(Class, [], [FieldX(None)])]
  const LATE_2: Table := map[0 := Declaration(Class, [], [FieldX(None)]), 1 := Declaration(Class, [], [])]
  const LATE_3: Table := map[0 := Declaration(Class, [], [FieldX(None)]), 1 := Subclass(0, false)]
  const LATE_4: Table := map[0 := Sealed(Class, [], [FieldX(Some(0))], 1), 1 := Subclass(0, false)]
  const LATE_5: Table := map[0 := Sealed(Class, [], [FieldX(Some(0))], 1), 1 := Subclass(1, true)]
  const LATE_6: Table := map[0 := Sealed(Class, [], [FieldX(Some(0)), ScalarField(8, 1, None)], 2), 1 := Subclass(1, true)]

  /** A class without fields below class 0. */
  function Subclass(size: nat, sealed: bool): Aux {
    Aux(Class, Some(0), [0], [], [], [], size, sealed, false)
  }

  lemma LateDeclared()
    ensures Shaped(map[]) && Leads(map[], SetUp(0, Class), LATE_0)
    ensures Shaped(LATE_1) && Leads(LATE_0, ADD_X, LATE_1)
  {
    DeclareSteps(map[], 0, Class);
    hide Shaped, Leads;
    assert map[][0 := Declaration(Class, [], [])] == LATE_0;
    FieldStep(LATE_0, Class, []);
    assert LATE_0[0 := Declaration(Class, [], [FieldX(None)])] == LATE_1;
  }

  lemma LateSubclass()
    requires Shaped(LATE_1)
    ensures Leads(LATE_1, SetUp(1, Class), LATE_2)
    ensures Shaped(LATE_3) && Leads(LATE_2, Inherit(1, 0), LATE_3)
  {
    DeclareSteps(LATE_1, 1, Class);
    assert LATE_1[1 := Declaration(Class, [], [])] == LATE_2;
    StepKeepsShaped(LATE_2, Inherit(1, 0));
    hide Shaped;
    assert Step(LATE_2, Inherit(1, 0)) == LATE_3;
  }

  lemma LateSealed()
    requires Shaped(LATE_3)
    ensures Leads(LATE_3, Seal(0), LATE_4)
    ensures Shaped(LATE_5) && Leads(LATE_4, Seal(1), LATE_5)
  {
    hide Shaped, Enabled, Step, Leads;
    OneField(FieldX(None), 0);
    SealPlain(LATE_3, 0);
    assert LATE_3[0 := Sealed(Class, [], [FieldX(Some(0))], 1)] == LATE_4;
    SealPlain(LATE_4, 1);
    assert Placed([], 1) == [] && OwnCount([]) == 0;
    assert LATE_4[1 := Subclass(1, true)] == LATE_5;
  }

  lemma LateAdded()
    requires Shaped(LATE_5)
    ensures Shaped(LATE_6) && Leads(LATE_5, AddScalar(0, 8), LATE_6)
  {
    StepKeepsShaped(LATE_5, AddScalar(0, 8));
    hide Shaped;
    assert [FieldX(Some(0))] + [ScalarField(8, 1, None)] == [FieldX(Some(0)), ScalarField(8, 1, None)];
    assert Step(LATE_5, AddScalar(0, 8)) == LATE_6;
  }

  lemma LateUnsound()
    ensures !Sound(LATE_6, 0) && !Sound(LATE_6, 1) && LATE_6[1].nextFieldix < Prefix(LATE_6, 1)
  {
    ClassSlotsWidth(LATE_6, 1);
    if Sound(LATE_6, 0) { LateFieldPlaced(LATE_6[0].fields, Prefix(LATE_6, 0) + RoleWidth(LATE_6, [])); }
  }

  /** `class A; field $x; class B :isa(A) {} field $y;`: sealing B seals A inside A's scope;
      then A grows, and the size of B is smaller than the part of it that A takes. */
  lemma LateInSuperclass()
    ensures Shaped(map[]) && Runs(map[], [SetUp(0, Class), ADD_X, SetUp(1, Class), Inherit(1, 0)])
    ensures After(map[], [SetUp(0, Class), ADD_X, SetUp(1, Class), Inherit(1, 0)]) == LATE_3
    ensures Shaped(LATE_3) && Runs(LATE_3, [Seal(0), Seal(1), AddScalar(0, 8)])
    ensures After(LATE_3, [Seal(0), Seal(1), AddScalar(0, 8)]) == LATE_6
    ensures LATE_6[1].nextFieldix < Prefix(LATE_6, 1) && !Sound(LATE_6, 0) && !Sound(LATE_6, 1)
  {
    LateDeclared();
    LateSubclass();
    LateSealed();
    LateAdded();
    LateUnsound();
    hide Shaped, Leads, Runs, After, Sound, Prefix;
    RunOfFour(map[], SetUp(0, Class), LATE_0, ADD_X, LATE_1, SetUp(1, Class), LATE_2, Inherit(1, 0), LATE_3);
    RunOfThree(LATE_3, Seal(0), LATE_4, Seal(1), LATE_5, AddScalar(0, 8), LATE_6);
  }

  // ----- a field that a role gets after a class composed it

  const GROWN_0: Table := map[0 := Sealed(Role, [], [FieldX(Some(0))], 1)]
  const GROWN_1: Table := map[0 := Sealed(Role, [], [FieldX(Some(0))], 1), 1 := Declaration(Class, [], [])]
  const GROWN_2: Table := map[0 := Sealed(Role, [], [FieldX(Some(0))], 1), 1 := Declaration(Class, [0], [])]
  const GROWN_3: Table := map[0 := Sealed(Role, [], [FieldX(Some(0))], 1), 1 := Declaration(Class, [0], [ScalarField(9, 0, None)])]
  const GROWN_4: Table := map[0 := Sealed(Role, [], [FieldX(Some(0))], 1), 1 := Sealed(Class, [0], [ScalarField(9, 0, Some(1))], 2)]
  const GROWN_5: Table := map[0 := Sealed(Role, [], [FieldX(Some(0)), ScalarField(8, 1, None)], 2), 1 := Sealed(Class, [0], [ScalarField(9, 0, Some(1))], 2)]

  lemma GrownRole()
    ensures Shaped(map[]) && Shaped(GROWN_0)
    ensures Runs(map[], [SetUp(0, Role), ADD_X, Seal(0)]) && After(map[], [SetUp(0, Role), ADD_X, Seal(0)]) == GROWN_0
  {
    DeclareSteps(map[], 0, Role);
    hide Shaped, Leads, Enabled, Step;
    assert map[][0 := Declaration(Role, [], [])] == UNIT_0;
    FieldStep(UNIT_0, Role, []);
    assert UNIT_0[0 := Declaration(Role, [], [FieldX(None)])] == UNIT_1;
    OneField(FieldX(None), 0);
    SealPlain(UNIT_1, 0);
    assert UNIT_1[0 := Sealed(Role, [], [FieldX(Some(0))], 1)] == GROWN_0;
    hide Runs, After;
    RunOfThree(map[], SetUp(0, Role), UNIT_0, ADD_X, UNIT_1, Seal(0), GROWN_0);
  }

  lemma GrownClass()
    requires Shaped(GROWN_0)
    ensures Leads(GROWN_0, SetUp(1, Class), GROWN_1) && Leads(GROWN_1, Implement(1, 0), GROWN_2)
    ensures Shaped(GROWN_3) && Leads(GROWN_2, AddScalar(1, 9), GROWN_3)
  {
    hide Shaped, Leads;
    DeclareSteps(GROWN_0, 1, Class);
    assert GROWN_0[1 := Declaration(Class, [], [])] == GROWN_1;
    NameStep(GROWN_1, 1, Class, 0);
    assert GROWN_1[1 := Declaration(Class, [0], [])] == GROWN_2;
    FirstFieldStep(GROWN_2, 1, Class, [0], 9);
    assert GROWN_2[1 := Declaration(Class, [0], [ScalarField(9, 0, None)])] == GROWN_3;
  }

  lemma GrownSealed()
    requires Shaped(GROWN_3)
    ensures Shaped(GROWN_4) && Leads(GROWN_3, Seal(1), GROWN_4)
  {
    hide Shaped, Enabled, Step, Leads;
    OneField(FieldX(Some(0)), 0);
    OneField(ScalarField(9, 0, None), 1);
    hide Placed, OwnIndexes;
    SealOver(GROWN_3, 1, 0);
    assert GROWN_3[1 := Sealed(Class, [0], [ScalarField(9, 0, Some(1))], 2)] == GROWN_4;
  }

  lemma GrownAdded()
    requires Shaped(GROWN_4)
    ensures Shaped(GROWN_5) && Leads(GROWN_4, AddScalar(0, 8), GROWN_5)
  {
    StepKeepsShaped(GROWN_4, AddScalar(0, 8));
    hide Shaped;
    assert [FieldX(Some(0))] + [ScalarField(8, 1, None)] == [FieldX(Some(0)), ScalarField(8, 1, None)];
    assert Step(GROWN_4, AddScalar(0, 8)) == GROWN_5;
  }

  /** `role R { field $x } class C :implements(R) { field $z } package R; field $y;`: the
      block of R in C begins at 0, and `$y`, second in R, is found at the slot of `$z`. */
  lemma LateInRole()
    ensures Shaped(map[]) && Runs(map[], [SetUp(0, Role), ADD_X, Seal(0)])
    ensures After(map[], [SetUp(0, Role), ADD_X, Seal(0)]) == GROWN_0 && Shaped(GROWN_0)
    ensures Runs(GROWN_0, [SetUp(1, Class), Implement(1, 0), AddScalar(1, 9), Seal(1)])
    ensures After(GROWN_0, [SetUp(1, Class), Implement(1, 0), AddScalar(1, 9), Seal(1)]) == GROWN_4
    ensures Shaped(GROWN_4) && Leads(GROWN_4, AddScalar(0, 8), GROWN_5)
    ensures RoleBase(GROWN_5, 1, 0) + GROWN_5[0].fields[1].rel == GROWN_5[1].fields[0].fieldix.value
    ensures !Sound(GROWN_5, 0) && !Sound(GROWN_5, 1)
  {
    GrownRole();
    GrownClass();
    GrownSealed();
    GrownAdded();
    GrownSlot();
    GrownUnsound();
    hide Shaped, Leads, Runs, After, Sound, RoleBase;
    RunOfFour(GROWN_0, SetUp(1, Class), GROWN_1, Implement(1, 0), GROWN_2, AddScalar(1, 9), GROWN_3, Seal(1), GROWN_4);
  }

  lemma TwoFields(f: Field, g: Field)
    requires !f.inherited && !g.inherited
    ensures OwnCount([f, g]) == 2
  {
    OneField(f, 0);
    assert [f, g][..1] == [f];
    assert OwnIndexes([f, g]) == OwnIndexes([f]) + [1];
  }

  /** The size of a sound layout is that of its parts. */
  lemma WrongSize(t: Table, c: Stash)
    requires c in t && Linked(t, c) && t[c].nextFieldix != Prefix(t, c) + RoleWidth(t, t[c].roles) + OwnCount(t[c].fields)
    ensures !Sound(t, c)
  {
    ClassSlotsWidth(t, c);
  }

  lemma GrownSlot()
    ensures RoleBase(GROWN_5, 1, 0) + GROWN_5[0].fields[1].rel == GROWN_5[1].fields[0].fieldix.value
  {
    assert GROWN_5[1].roles[..0] == [];
  }

  lemma GrownUnsound()
    ensures !Sound(GROWN_5, 0) && !Sound(GROWN_5, 1)
  {
    TwoFields(FieldX(Some(0)), ScalarField(8, 1, None));
    OneField(ScalarField(9, 0, Some(1)), 0);
    RoleWidthAppend(GROWN_5, [], 0);
    assert [] + [0] == [0];
    hide Sound, OwnIndexes;
    WrongSize(GROWN_5, 1);
    if Sound(GROWN_5, 0) { SoundFields(GROWN_5, 0); }
  }

  lemma SoundFields(t: Table, c: Stash)
    requires c in t && Sound(t, c) && t[c].fields != []
    ensures var f := t[c].fields[|t[c].fields| - 1]; f.inherited || f.fieldix.Some?
  {
    LateFieldPlaced(t[c].fields, Prefix(t, c) + RoleWidth(t, t[c].roles));
  }

  // ----- a class that takes over a role inside the role

  const INNER_0: Table := map[0 := Sealed(Role, [], [FieldX(Some(0))], 1), 1 := Declaration(Role, [], [])]
  const INNER_1: Table := map[0 := Sealed(Role, [], [FieldX(Some(0))], 1), 1 := Taken([], [], 0, false)]
  const INNER_2: Table := map[0 := Sealed(Role, [], [FieldX(Some(0))], 1), 1 := Taken([0], [], 0, false)]
  const INNER_3: Table := map[0 := Sealed(Role, [], [FieldX(Some(0))], 1), 1 := Taken([0], [0], 1, true)]
  const INNER_4: Table := map[0 := Sealed(Role, [], [FieldX(Some(0))], 1), 1 := Taken([0], [0, 0], 1, true).(reseal := false)]

  function Taken(pending: seq<Stash>, roles: seq<Stash>, size: nat, sealed: bool): Aux {
    Aux(ClassOverRole, None, [], pending, roles, [], size, sealed, true)
  }

  lemma InnerDeclared()
    requires Shaped(GROWN_0)
    ensures Leads(GROWN_0, SetUp(1, Role), INNER_0)
    ensures Shaped(INNER_1) && Leads(INNER_0, SetUp(1, Class), INNER_1)
  {
    DeclareSteps(GROWN_0, 1, Role);
    assert GROWN_0[1 := Declaration(Role, [], [])] == INNER_0;
    StepKeepsShaped(INNER_0, SetUp(1, Class));
    hide Shaped;
    assert Step(INNER_0, SetUp(1, Class)) == INNER_1;
  }

  lemma InnerNames()
    requires Shaped(INNER_1)
    ensures Shaped(INNER_2) && Leads(INNER_1, Implement(1, 0), INNER_2)
  {
    StepKeepsShaped(INNER_1, Implement(1, 0));
    hide Shaped;
    assert [] + [0] == [0];
    assert Step(INNER_1, Implement(1, 0)) == INNER_2;
  }

  lemma InnerSealed()
    requires Shaped(INNER_2)
    ensures Shaped(INNER_3) && Leads(INNER_2, Seal(1), INNER_3)
  {
    hide Shaped, Step, Enabled, Leads;
    OneField(FieldX(Some(0)), 0);
    SealOver(INNER_2, 1, 0);
    assert Placed([], 1) == [] && OwnCount([]) == 0;
    hide Placed, OwnIndexes;
    assert INNER_2[1 := Taken([0], [0], 1, true)] == INNER_3;
  }

  lemma ResealStep(t: Table, r: Stash, p: Stash)
    requires Shaped(t) && r in t && t[r] == Taken([p], [p], 1, true)
    requires p in t && p != r && t[p].roles == [] && OwnCount(t[p].fields) == 1
    ensures var t' := t[r := Taken([p], [p, p], 1, true).(reseal := false)];
            Shaped(t') && Leads(t, EndRole(r), t') && !Sound(t', r)
  {
    StepKeepsShaped(t, EndRole(r));
    ResealedUnsound(t, r, p);
    FlatIsOne(t, r, p);
    RoleWidthAppend(t, [], p);
    hide Shaped, Sound, Flat, RoleWidth, OwnIndexes;
    assert PlacedAsIs([], 1) == [] && [] + [p] == [p];
  }

  lemma InnerResealed()
    requires Shaped(INNER_3)
    ensures Shaped(INNER_4) && Leads(INNER_3, EndRole(1), INNER_4) && !Sound(INNER_4, 1)
  {
    OneField(FieldX(Some(0)), 0);
    hide Shaped, Sound, Leads, OwnIndexes;
    ResealStep(INNER_3, 1, 0);
    assert INNER_3[1 := Taken([0], [0, 0], 1, true).(reseal := false)] == INNER_4;
  }

  /** `role P { field $x } role R; class R :implements(P) {}`: the end of R's scope seals the
      record of the class again, which lists P twice and has one slot for it. */
  lemma TakenOverInside()
    ensures Shaped(GROWN_0) && Runs(GROWN_0, [SetUp(1, Role), SetUp(1, Class), Implement(1, 0), Seal(1)])
    ensures After(GROWN_0, [SetUp(1, Role), SetUp(1, Class), Implement(1, 0), Seal(1)]) == INNER_3
    ensures Shaped(INNER_3) && Leads(INNER_3, EndRole(1), INNER_4) && !Sound(INNER_4, 1)
  {
    GrownRole();
    InnerDeclared();
    InnerNames();
    InnerSealed();
    InnerResealed();
    hide Shaped, Leads, Runs, After, Sound;
    RunOfFour(GROWN_0, SetUp(1, Role), INNER_0, SetUp(1, Class), INNER_1, Implement(1, 0), INNER_2, Seal(1), INNER_3);
  }
}
