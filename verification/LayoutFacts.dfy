/** What holds of every sealed declaration, and why changing an unsealed one
    disturbs nothing that is sealed. */
module LayoutFacts {
  import opened RoleClosure
  import opened ObjectLayout

  ghost function RoleGraph(t: Table): Graph<Stash> {
    map s | s in t :: t[s].roles
  }

  ghost function IsaGraph(t: Table): Graph<Stash> {
    map s | s in t :: t[s].isa
  }

  /** The base that a declaration resolved its own fields against; a declaration
      without own fields reports 0. */
  ghost function LocalBase(t: Table, s: Stash): nat
    requires s in t && SealedOk(t, s)
  {
    if OwnCount(t[s].fields) == 0 then 0 else Prefix(t, s) + RoleWidth(t, t[s].roles)
  }

  // ----- changing one record

  lemma {:induction false} RoleWidthFrame(t: Table, t': Table, roles: seq<Stash>)
    requires forall r :: r in roles ==> r in t && r in t' && OwnCount(t[r].fields) == OwnCount(t'[r].fields)
    ensures RoleWidth(t, roles) == RoleWidth(t', roles)
  {
    if roles != [] {
      assert roles[|roles| - 1] in roles;
      RoleWidthFrame(t, t', roles[..|roles| - 1]);
    }
  }

  lemma ClassSlotsWidth(t: Table, s: Stash)
    requires s in t && ObjectLayout.Within(t, t[s].roles)
    ensures |ClassSlots(t, s)| == RoleWidth(t, t[s].roles) + OwnCount(t[s].fields)
  {
    RoleBlocksWidth(t, s, t[s].roles);
  }

  /** What the layout of a declaration depends on. */
  predicate Uses(a: Aux, y: Stash) {
    y in a.roles || a.superclass == Some(y)
  }

  /** The records do not differ in what other declarations depend on. */
  predicate SameLayout(a: Aux, b: Aux) {
    b.roles == a.roles && b.fields == a.fields && b.nextFieldix == a.nextFieldix && b.sealed == a.sealed && b.kind == a.kind
  }

  /** A sealed declaration depends only on the layouts of the declarations it uses,
      which are sealed too; so changing anything else leaves it as it was. */
  lemma SealedOkFrame(t: Table, t': Table, x: Stash)
    requires x in t && x in t' && SameLayout(t[x], t'[x]) && t'[x].superclass == t[x].superclass && SealedOk(t, x)
    requires forall y :: y in t && Uses(t[x], y) ==> y in t' && SameLayout(t[y], t'[y])
    ensures SealedOk(t', x)
  {
    assert forall r :: r in t[x].roles ==> Uses(t[x], r);
    RoleWidthFrame(t, t', t[x].roles);
    ClassSlotsWidth(t, x);
    ClassSlotsWidth(t', x);
    forall k: nat | k < |t[x].roles| ensures AfterItsRoles(t', t[x].roles, k) {
      assert t[x].roles[k] in t[x].roles && AfterItsRoles(t, t[x].roles, k);
    }
  }

  /** What a step may do to the table: keep every stash and its declared parents,
      and leave sealed records alone. */
  ghost predicate Extends(t: Table, t': Table) {
    && (forall x :: x in t ==> x in t')
    && (forall x :: x in t && t[x].sealed ==> t'[x] == t[x])
    && KindsKept(t, t')
  }

  ghost predicate KindKept(t: Table, t': Table, x: Stash)
    requires x in t
  {
    x in t' && (t[x].kind.IsRole() ==> t'[x].kind.IsRole()) && (t[x].kind == Class ==> t'[x].kind == Class)
  }

  /** A role stays a role, even when a class takes it over, and a class stays a class. */
  ghost predicate KindsKept(t: Table, t': Table) {
    forall x {:trigger KindKept(t, t', x)} :: x in t ==> KindKept(t, t', x)
  }

  lemma ReferencesOkFrame(t: Table, t': Table, a: Aux)
    requires KindsKept(t, t') && ReferencesOk(t, a)
    ensures ReferencesOk(t', a)
  {
    assert forall r :: r in t ==> KindKept(t, t', r);
  }

  lemma ReplaceKeepsShaped(t: Table, s: Stash, a: Aux)
    requires Shaped(t) && KindsKept(t, t[s := a]) && ReferencesOk(t[s := a], a)
    requires (a.kind == Package ==> !a.sealed) && (a.reseal ==> a.kind == ClassOverRole) && (!a.sealed ==> UnsealedOk(a))
    ensures Shaped(t[s := a])
  {
    var t' := t[s := a];
    forall x | x in t' ensures ShapeOk(t', x) {
      if x != s {
        assert ShapeOk(t, x);
        ReferencesOkFrame(t, t', t[x]);
      }
    }
  }

  /** Replacing a record that no sealed declaration uses by one that is itself in
      order keeps the whole table in order. */
  lemma ReplaceKeepsTableOk(t: Table, s: Stash, a: Aux)
    requires TableOk(t) && KindsKept(t, t[s := a]) && ReferencesOk(t[s := a], a)
    requires forall x :: x in t && t[x].sealed ==> !Uses(t[x], s)
    requires (a.kind == Package ==> !a.sealed) && (a.reseal ==> a.kind == ClassOverRole)
    requires if a.sealed then SealedOk(t[s := a], s) else UnsealedOk(a)
    ensures TableOk(t[s := a])
  {
    var t' := t[s := a];
    TableIsShaped(t);
    ReplaceKeepsShaped(t, s, a);
    forall x | x in t' ensures RecordOk(t', x) {
      assert ShapeOk(t', x);
      if x != s {
        assert RecordOk(t, x);
        if t[x].sealed { SealedOkFrame(t, t', x); }
      }
    }
  }

  /** So does changing a record in a way that no other layout depends on. */
  lemma RelabelKeepsTableOk(t: Table, s: Stash, a: Aux)
    requires TableOk(t) && s in t && SameLayout(t[s], a) && Shaped(t[s := a])
    requires a.sealed ==> SealedOk(t[s := a], s)
    ensures TableOk(t[s := a])
  {
    var t' := t[s := a];
    forall x | x in t' ensures RecordOk(t', x) {
      assert ShapeOk(t', x);
      if x != s {
        assert RecordOk(t, x);
        if t[x].sealed { SealedOkFrame(t, t', x); }
      }
    }
  }

  /** What a sealed declaration uses is sealed. */
  lemma UsedIsSealed(t: Table, x: Stash, y: Stash)
    requires TableOk(t) && x in t && t[x].sealed && Uses(t[x], y)
    ensures y in t && t[y].sealed
  {
    assert RecordOk(t, x);
  }

  // ----- the closure of roles

  /** Where every sealed declaration is in order the role graph has no cycle: a
      role's list is strictly longer than the list of any role in it. */
  lemma SealedListsShrink(t: Table, x: Stash, y: Stash)
    requires TableOk(t) && x in t && y in t[x].roles
    ensures y in t && t[y].sealed && t[y].kind.IsRole() && |t[y].roles| < |t[x].roles|
  {
    assert RecordOk(t, x);
    assert RecordOk(t, y);
    var xs := t[x].roles;
    var k: nat :| k < |xs| && xs[k] == y;
    assert AfterItsRoles(t, xs, k);
    SubsetShorter(t[y].roles, xs[..k]);
  }

  lemma {:induction false} SubsetShorter(xs: seq<Stash>, ys: seq<Stash>)
    requires NoDup(xs) && forall x :: x in xs ==> x in ys
    ensures |xs| <= |ys|
  {
    if xs != [] {
      var n := |xs| - 1;
      assert xs[n] in ys;
      var k :| 0 <= k < |ys| && ys[k] == xs[n];
      forall x | x in xs[..n] ensures x in Without(ys, k) {
        assert x in xs && x != xs[n];
        WithoutKeepsOthers(ys, k, x);
      }
      SubsetShorter(xs[..n], Without(ys, k));
    }
  }

  lemma {:induction false} NoDupFits(xs: seq<Stash>, s: set<Stash>)
    requires NoDup(xs) && forall x :: x in xs ==> x in s
    ensures |xs| <= |s|
  {
    if xs != [] {
      var n := |xs| - 1;
      assert xs[n] in xs;
      forall x | x in xs[..n] ensures x in s - {xs[n]} { assert x in xs; }
      NoDupFits(xs[..n], s - {xs[n]});
    }
  }

  lemma ListShorterThanTable(t: Table, s: Stash)
    requires TableOk(t) && s in t
    ensures |t[s].roles| < |t|
  {
    assert RecordOk(t, s);
    if t[s].sealed { NoDupFits(t[s].roles, t.Keys - {s}); }
  }

  ghost predicate Roles(t: Table, xs: seq<Stash>) {
    forall r :: r in xs ==> r in t && t[r].kind.IsRole()
  }

  lemma ReachShrinks(t: Table, from: seq<Stash>, bound: nat, x: Stash)
    requires TableOk(t) && Reaches(RoleGraph(t), from, x)
    requires Roles(t, from) && forall r :: r in from ==> |t[r].roles| < bound
    ensures x in t && t[x].kind.IsRole() && |t[x].roles| < bound
  {
    var g := RoleGraph(t);
    var s := set y | y in t && t[y].kind.IsRole() && |t[y].roles| < bound;
    forall y, z | y in s && y in g && z in g[y] ensures z in s {
      SealedListsShrink(t, y, z);
    }
    var p :| IsPath(g, p) && p[0] in from && p[|p| - 1] == x;
    ClosedSetHoldsReachable(g, s, p);
  }

  lemma NoCycleAbove(t: Table, from: seq<Stash>, x: Stash)
    requires TableOk(t) && Reaches(RoleGraph(t), from, x) && Roles(t, from)
    ensures x in t && t[x].kind.IsRole() && !Reaches(RoleGraph(t), t[x].roles, x)
  {
    forall r | r in from ensures |t[r].roles| < |t| {
      ListShorterThanTable(t, r);
    }
    ReachShrinks(t, from, |t|, x);
    if Reaches(RoleGraph(t), t[x].roles, x) {
      forall r | r in t[x].roles ensures r in t && t[r].kind.IsRole() && |t[r].roles| < |t[x].roles| {
        SealedListsShrink(t, x, r);
      }
      ReachShrinks(t, t[x].roles, |t[x].roles|, x);
    }
  }

  lemma FlatteningClosed(t: Table, pending: seq<Stash>, y: Stash, z: Stash)
    requires TableOk(t) && Roles(t, pending)
    requires InFlattening(t, pending, y) && y in t && z in t[y].roles
    ensures z in t && InFlattening(t, pending, z)
  {
    if y in pending {
      assert RecordOk(t, y);
      assert z in t[y].roles;
    } else {
      var p :| p in pending && y in t[p].roles;
      assert RecordOk(t, p);
      SealedRolesClosed(t, p, y, z);
    }
  }

  /** The lists of sealed roles are already flat and open roles have none yet, so
      flattening goes one level deep. */
  lemma ReachIsFlat(t: Table, pending: seq<Stash>, x: Stash)
    requires TableOk(t) && Roles(t, pending)
    ensures Reaches(RoleGraph(t), pending, x) <==> InFlattening(t, pending, x)
  {
    var g := RoleGraph(t);
    if Reaches(g, pending, x) {
      var s := set y | y in t && InFlattening(t, pending, y);
      forall y, z | y in s && y in g && z in g[y] ensures z in s {
        FlatteningClosed(t, pending, y, z);
      }
      var p :| IsPath(g, p) && p[0] in pending && p[|p| - 1] == x;
      ClosedSetHoldsReachable(g, s, p);
    }
    if InFlattening(t, pending, x) {
      if x in pending {
        ReachesSelf(g, pending, x);
      } else {
        var p :| p in pending && x in t[p].roles;
        assert RecordOk(t, p);
        ReachesSelf(g, g[p], x);
        ReachesThrough(g, pending, p, x);
      }
    }
  }

  /** The list of a sealed role contains the lists of the roles in it. */
  lemma SealedRolesClosed(t: Table, p: Stash, y: Stash, z: Stash)
    requires TableOk(t) && p in t && y in t[p].roles && y in t && z in t[y].roles
    ensures z in t[p].roles
  {
    assert RecordOk(t, p);
    var k: nat :| k < |t[p].roles| && t[p].roles[k] == y;
    assert AfterItsRoles(t, t[p].roles, k);
  }

  lemma RolesClosed(t: Table)
    requires Shaped(t)
    ensures Closed(RoleGraph(t))
  {
    forall x, y | x in RoleGraph(t) && y in RoleGraph(t)[x] ensures y in RoleGraph(t) { assert ShapeOk(t, x); }
  }

  lemma RolesAcyclic(t: Table, pending: seq<Stash>)
    requires TableOk(t) && Roles(t, pending)
    ensures Closed(RoleGraph(t)) && RoleClosure.Within(RoleGraph(t), pending)
    ensures Acyclic(RoleGraph(t), pending)
  {
    hide TableOk, Closed, Reaches;
    var g := RoleGraph(t);
    TableIsShaped(t);
    RolesClosed(t);
    forall x | x in g && Reaches(g, pending, x) ensures !Reaches(g, g[x], x) {
      NoCycleAbove(t, pending, x);
    }
  }

  /** Whatever roles a declaration names, flattening them gives an ordered and
      complete list, as long as every sealed declaration is in order. */
  lemma ClosureOrdered(t: Table, pending: seq<Stash>)
    requires TableOk(t) && Roles(t, pending)
    ensures Closed(RoleGraph(t)) && RoleClosure.Within(RoleGraph(t), pending)
    ensures RolesOrdered(t, Closure(RoleGraph(t), pending))
    ensures FlattenedFrom(t, Closure(RoleGraph(t), pending), pending)
  {
    hide TableOk, Acyclic, Reaches, Closure;
    var g := RoleGraph(t);
    RolesAcyclic(t, pending);
    var xs := Closure(g, pending);
    ClosureIsReachableSet(g, pending);
    assert ObjectLayout.Within(t, pending);
    forall x ensures x in xs <==> InFlattening(t, pending, x) {
      ReachIsFlat(t, pending, x);
    }
    ClosureOrderedIffAcyclic(g, pending);
    forall x | x in xs ensures x in t && t[x].kind.IsRole() {
      NoCycleAbove(t, pending, x);
    }
    forall k: nat | k < |xs| ensures AfterItsRoles(t, xs, k) {
      forall x | x in t[xs[k]].roles ensures x in xs[..k] {
        assert xs[k] in xs && x in g[xs[k]] && x in g;
        ReachesSelf(g, g[xs[k]], x);
        OrderedBefore(g, xs, k, x);
      }
    }
  }

  // ----- the slot of a role field, as the sealing loop computes it

  ghost predicate OwnField(t: Table, s: Stash, i: nat) {
    s in t && i < |t[s].fields| && !t[s].fields[i].inherited
  }

  /** Slot `p` of an instance of `c` alone holds field `i` of `decl`. */
  ghost predicate SlotHolds(t: Table, c: Stash, p: int, decl: Stash, i: nat)
    requires c in t && SealedOk(t, c)
  {
    Prefix(t, c) <= p < t[c].nextFieldix && ClassSlots(t, c)[p - Prefix(t, c)] == SlotRef(c, decl, i)
  }

  /** The declarations that a layout refers to exist. */
  ghost predicate Linked(t: Table, c: Stash)
    requires c in t
  {
    ObjectLayout.Within(t, t[c].roles) && (t[c].superclass.Some? ==> t[c].superclass.value in t)
  }

  lemma SealedLinked(t: Table, c: Stash)
    requires c in t && SealedOk(t, c)
    ensures Linked(t, c)
  {}

  ghost function RoleBase(t: Table, c: Stash, k: nat): nat
    requires c in t && Linked(t, c) && k <= |t[c].roles|
  {
    Prefix(t, c) + RoleWidth(t, t[c].roles[..k])
  }

  /** Relocation never underflows: everything below a role's own fields, in the
      role's own layout, is also below them in the consumer's layout. */
  lemma RelocationNonNegative(t: Table, c: Stash, k: nat)
    requires TableOk(t) && c in t && t[c].sealed && SealedOk(t, c) && k < |t[c].roles|
    ensures var r := t[c].roles[k];
            r in t && t[r].sealed && RecordOk(t, r) && LocalBase(t, r) <= RoleBase(t, c, k)
  {
    assert RecordOk(t, c);
    var roles := t[c].roles;
    var r := roles[k];
    assert r in roles;
    assert RecordOk(t, r) && AfterItsRoles(t, roles, k);
    SublistWidth(t, t[r].roles, roles[..k]);
  }

  lemma PlacedAt(fs: seq<Field>, base: nat, i: nat)
    requires FieldsPlaced(fs, base) && i < |fs| && !fs[i].inherited
    ensures fs[i].fieldix == Some(base + fs[i].rel)
    ensures fs[i].rel < OwnCount(fs) && OwnIndexes(fs)[fs[i].rel] == i
  {
    assert FieldPlaced(fs, base, i);
    OwnIndexAt(fs, i);
  }

  /** A field of a sealed declaration was placed at its local base plus its relative index. */
  lemma OwnFieldPlaced(t: Table, s: Stash, i: nat)
    requires s in t && SealedOk(t, s) && OwnField(t, s, i)
    ensures t[s].fields[i].fieldix == Some(LocalBase(t, s) + t[s].fields[i].rel)
  {
    PlacedAt(t[s].fields, Prefix(t, s) + RoleWidth(t, t[s].roles), i);
  }

  /** The base that a placed declaration tells is the one it was placed against. */
  lemma OwnBasePlaced(fs: seq<Field>, base: nat)
    requires FieldsPlaced(fs, base)
    ensures Resolved(fs) && OwnBaseWord(fs) == if OwnCount(fs) == 0 then 0 else base
  {
    if OwnCount(fs) != 0 {
      OwnIndexBounds(fs);
      PlacedAt(fs, base, OwnIndexes(fs)[0]);
    }
  }

  lemma SlotInRoleBlocks(t: Table, c: Stash, p: nat, e: SlotRef)
    requires c in t && SealedOk(t, c)
    requires p < |RoleBlocks(t, c, t[c].roles)| && RoleBlocks(t, c, t[c].roles)[p] == e && e.owner == c
    ensures SlotHolds(t, c, Prefix(t, c) + p, e.decl, e.index)
  {}

  lemma RoleIndexSlot(t: Table, c: Stash, k: nat, j: nat)
    requires c in t && SealedOk(t, c) && k < |t[c].roles| && j < OwnCount(t[t[c].roles[k]].fields)
    ensures SlotHolds(t, c, RoleBase(t, c, k) + j, t[c].roles[k], OwnIndexes(t[t[c].roles[k]].fields)[j])
  {
    var r := t[c].roles[k];
    RoleBlockAt(t, c, t[c].roles, k, j);
    SlotInRoleBlocks(t, c, RoleWidth(t, t[c].roles[..k]) + j, SlotRef(c, r, OwnIndexes(t[r].fields)[j]));
  }

  /** Relative index, relocated absolute index and reference layout agree on every role field. */
  lemma RoleFieldSlot(t: Table, c: Stash, k: nat, i: nat, base: nat)
    requires c in t && SealedOk(t, c) && k < |t[c].roles|
    requires OwnField(t, t[c].roles[k], i) && FieldsPlaced(t[t[c].roles[k]].fields, base)
    ensures SlotHolds(t, c, RoleBase(t, c, k) + t[t[c].roles[k]].fields[i].rel, t[c].roles[k], i)
  {
    PlacedAt(t[t[c].roles[k]].fields, base, i);
    RoleIndexSlot(t, c, k, t[t[c].roles[k]].fields[i].rel);
  }

  lemma OwnFieldSlot(t: Table, c: Stash, i: nat)
    requires c in t && SealedOk(t, c) && OwnField(t, c, i)
    ensures t[c].fields[i].fieldix.Some?
    ensures SlotHolds(t, c, t[c].fields[i].fieldix.value, c, i)
  {
    PlacedAt(t[c].fields, Prefix(t, c) + RoleWidth(t, t[c].roles), i);
    RoleBlocksWidth(t, c, t[c].roles);
  }

  // ----- what one sealing does

  /** The fields as declared: sealing only places them. */
  function Declared(f: Field): (Name, Sigil, Option<Name>, bool) {
    (f.name, f.sigil, f.param, f.inherited)
  }

  ghost predicate SameDeclaration(a: Aux, b: Aux) {
    && b.kind == a.kind && b.superclass == a.superclass && b.isa == a.isa && b.pending == a.pending
    && |b.fields| == |a.fields|
    && forall i :: 0 <= i < |a.fields| ==> Declared(a.fields[i]) == Declared(b.fields[i])
  }

  lemma {:induction false} NoneInherited(fs: seq<Field>)
    requires forall f :: f in fs ==> !f.inherited
    ensures OwnCount(fs) == |fs|
    ensures forall i :: 0 <= i <= |fs| ==> OwnCount(fs[..i]) == i
  {
    if fs != [] {
      var n := |fs| - 1;
      NoneInherited(fs[..n]);
      assert fs[n] in fs;
      forall i | 0 <= i <= |fs| ensures OwnCount(fs[..i]) == i {
        if i <= n { assert fs[..n][..i] == fs[..i]; } else { assert fs[..i] == fs; }
      }
    }
  }

  lemma PlacedAppend(fs: seq<Field>, base: nat, f: Field)
    requires FieldsPlaced(fs, base)
    requires f.inherited || (f.rel == OwnCount(fs) && f.fieldix == Some(base + f.rel))
    ensures FieldsPlaced(fs + [f], base)
    ensures OwnCount(fs + [f]) == OwnCount(fs) + if f.inherited then 0 else 1
  {
    assert (fs + [f])[..|fs|] == fs;
    forall i: nat | i < |fs + [f]| ensures FieldPlaced(fs + [f], base, i) {
      if i < |fs| { assert FieldPlaced(fs, base, i) && (fs + [f])[..i] == fs[..i]; }
    }
  }

  lemma DeclaredNotInherited(xs: seq<Field>, ys: seq<Field>)
    requires |xs| == |ys| && forall i :: 0 <= i < |xs| ==> Declared(xs[i]) == Declared(ys[i])
    requires forall f :: f in xs ==> !f.inherited
    ensures forall f :: f in ys ==> !f.inherited
  {
    forall f | f in ys ensures !f.inherited {
      var i :| 0 <= i < |ys| && ys[i] == f;
      assert xs[i] in xs;
    }
  }

  /** The fields with their slots: own fields are numbered from `base`, aliases are left alone. */
  function Placed(fs: seq<Field>, base: nat): (r: seq<Field>)
    ensures |r| == |fs|
  {
    if fs == [] then []
    else
      var n := |fs| - 1;
      var rel := OwnCount(fs[..n]);
      Placed(fs[..n], base) + [if fs[n].inherited then fs[n] else fs[n].(rel := rel, fieldix := Some(base + rel))]
  }

  lemma {:induction false} PlacedSame(fs: seq<Field>, base: nat)
    ensures forall i :: 0 <= i < |fs| ==> Declared(Placed(fs, base)[i]) == Declared(fs[i])
  {
    if fs != [] {
      var n := |fs| - 1;
      PlacedSame(fs[..n], base);
      forall i | 0 <= i < |fs| ensures Declared(Placed(fs, base)[i]) == Declared(fs[i]) {
        if i < n { assert fs[..n][i] == fs[i]; }
      }
    }
  }

  lemma {:induction false} PlacedOwn(fs: seq<Field>, base: nat)
    ensures OwnIndexes(Placed(fs, base)) == OwnIndexes(fs)
  {
    if fs != [] {
      var n := |fs| - 1;
      PlacedOwn(fs[..n], base);
      var front, last := Placed(fs[..n], base), Placed(fs, base)[n];
      assert (front + [last])[..n] == front && last.inherited == fs[n].inherited;
    }
  }

  lemma {:induction false} PlacedInOrder(fs: seq<Field>, base: nat)
    ensures FieldsPlaced(Placed(fs, base), base)
  {
    if fs != [] {
      hide FieldsPlaced;
      var n := |fs| - 1;
      PlacedInOrder(fs[..n], base);
      PlacedOwn(fs[..n], base);
      PlacedAppend(Placed(fs[..n], base), base, Placed(fs, base)[n]);
    } else {
      assert Placed(fs, base) == [];
    }
  }

  /** Placing leaves the fields as declared, and numbers the own ones. */
  lemma PlacedDeclares(fs: seq<Field>, base: nat)
    ensures forall i :: 0 <= i < |fs| ==> Declared(Placed(fs, base)[i]) == Declared(fs[i])
    ensures OwnIndexes(Placed(fs, base)) == OwnIndexes(fs)
    ensures FieldsPlaced(Placed(fs, base), base)
  {
    hide Declared, Placed, OwnIndexes, FieldsPlaced;
    PlacedSame(fs, base);
    PlacedOwn(fs, base);
    PlacedInOrder(fs, base);
  }

  /** Where the slots of a declaration begin: after those of its superclass. */
  function First(t: Table, a: Aux): nat
    requires a.superclass.Some? ==> a.superclass.value in t
  {
    if a.superclass.Some? then t[a.superclass.value].nextFieldix else 0
  }

  lemma ClosureWithin(t: Table, pending: seq<Stash>)
    requires Shaped(t) && ObjectLayout.Within(t, pending)
    ensures Closed(RoleGraph(t)) && RoleClosure.Within(RoleGraph(t), pending)
    ensures ObjectLayout.Within(t, Closure(RoleGraph(t), pending)) && NoDup(Closure(RoleGraph(t), pending))
    ensures forall r :: r in pending ==> r in Closure(RoleGraph(t), pending)
  {
    var g := RoleGraph(t);
    RolesClosed(t);
    ClosureIsReachableSet(g, pending);
    forall x | x in Closure(g, pending) ensures x in t {
      var p :| IsPath(g, p) && p[0] in pending && p[|p| - 1] == x;
      assert x in p;
    }
    forall r | r in pending ensures r in Closure(g, pending) { ReachesSelf(g, pending, r); }
  }

  /** The flattened role list of a declaration. */
  ghost function Flat(t: Table, s: Stash): (roles: seq<Stash>)
    requires Shaped(t) && s in t
    ensures ObjectLayout.Within(t, roles)
  {
    assert ShapeOk(t, s);
    ClosureWithin(t, t[s].pending);
    Closure(RoleGraph(t), t[s].pending)
  }

  lemma {:induction false} WidthWithin(t: Table, roles: seq<Stash>, i: nat, j: nat)
    requires ObjectLayout.Within(t, roles) && i < j <= |roles|
    ensures ObjectLayout.Within(t, roles[..i]) && ObjectLayout.Within(t, roles[..j])
    ensures RoleWidth(t, roles[..i]) + OwnCount(t[roles[i]].fields) <= RoleWidth(t, roles[..j])
  {
    assert roles[..j][..j - 1] == roles[..j - 1];
    if i < j - 1 { WidthWithin(t, roles, i, j - 1); }
  }

  /** Roles are laid out in the order in which they are named: the block of every role that
      the first names bring in ends before that of any role they do not bring in begins. */
  lemma NamedRolesInOrder(t: Table, s: Stash, k: nat, i: nat, j: nat)
    requires Shaped(t) && s in t && k <= |t[s].pending| && i < |Flat(t, s)| && j < |Flat(t, s)|
    requires Reaches(RoleGraph(t), t[s].pending[..k], Flat(t, s)[i])
    requires !Reaches(RoleGraph(t), t[s].pending[..k], Flat(t, s)[j])
    ensures i < j && ObjectLayout.Within(t, Flat(t, s)[..i]) && ObjectLayout.Within(t, Flat(t, s)[..j])
    ensures RoleWidth(t, Flat(t, s)[..i]) + OwnCount(t[Flat(t, s)[i]].fields) <= RoleWidth(t, Flat(t, s)[..j])
  {
    assert ShapeOk(t, s);
    ClosureWithin(t, t[s].pending);
    hide Reaches, RoleWidth, OwnCount;
    NamedInOrder(RoleGraph(t), t[s].pending, k, i, j);
    WidthWithin(t, Flat(t, s), i, j);
  }

  /** Where the own fields of a declaration go: after the slots of the superclass and of the roles. */
  ghost function OwnStart(t: Table, s: Stash): nat
    requires Shaped(t) && s in t
  {
    assert ShapeOk(t, s);
    First(t, t[s]) + RoleWidth(t, Flat(t, s))
  }

  /** What sealing makes of a declaration, whatever it names. */
  ghost function LaidOut(t: Table, s: Stash): Aux
    requires Shaped(t) && s in t
  {
    t[s].(roles := Flat(t, s), fields := Placed(t[s].fields, OwnStart(t, s)),
          nextFieldix := OwnStart(t, s) + OwnCount(t[s].fields), sealed := true)
  }

  lemma LaidOutDeclares(t: Table, s: Stash)
    requires Shaped(t) && s in t
    ensures SameDeclaration(t[s], LaidOut(t, s)) && KindsKept(t, t[s := LaidOut(t, s)])
    ensures OwnIndexes(LaidOut(t, s).fields) == OwnIndexes(t[s].fields)
  {
    hide Shaped, Placed, FieldsPlaced, Flat, OwnStart, OwnIndexes;
    PlacedDeclares(t[s].fields, OwnStart(t, s));
  }

  lemma SealingKeepsShaped(t: Table, s: Stash)
    requires Shaped(t) && s in t && t[s].kind != Package
    ensures Shaped(t[s := LaidOut(t, s)])
  {
    assert ShapeOk(t, s);
    LaidOutDeclares(t, s);
    if t[s].kind.IsRole() { DeclaredNotInherited(t[s].fields, LaidOut(t, s).fields); }
    ReferencesOkFrame(t, t[s := LaidOut(t, s)], LaidOut(t, s));
    ReplaceKeepsShaped(t, s, LaidOut(t, s));
  }

  /** Sealing changes the width of no role, not even of the declaration itself. */
  lemma WidthKept(t: Table, s: Stash, roles: seq<Stash>)
    requires Shaped(t) && s in t && ObjectLayout.Within(t, roles)
    ensures RoleWidth(t[s := LaidOut(t, s)], roles) == RoleWidth(t, roles)
  {
    LaidOutDeclares(t, s);
    RoleWidthFrame(t, t[s := LaidOut(t, s)], roles);
  }

  /** Every role that the declaration names is sealed. */
  ghost predicate NamesSealed(t: Table, s: Stash)
    requires s in t
  {
    forall r :: r in t[s].pending ==> r in t && t[r].sealed
  }

  lemma FlatSealed(t: Table, s: Stash)
    requires TableOk(t) && Shaped(t) && s in t && NamesSealed(t, s)
    ensures RolesOrdered(t, Flat(t, s)) && FlattenedFrom(t, Flat(t, s), t[s].pending)
    ensures forall r :: r in Flat(t, s) ==> t[r].sealed
  {
    assert ShapeOk(t, s);
    ClosureOrdered(t, t[s].pending);
    forall r | r in Flat(t, s) ensures t[r].sealed {
      assert InFlattening(t, t[s].pending, r);
      if r !in t[s].pending {
        var p :| p in t[s].pending && r in t[p].roles;
        SealedListsShrink(t, p, r);
      }
    }
  }

  lemma OrderedFrame(t: Table, t': Table, roles: seq<Stash>, pending: seq<Stash>)
    requires RolesOrdered(t, roles) && ObjectLayout.Within(t, pending) && FlattenedFrom(t, roles, pending)
    requires KindsKept(t, t') && forall r :: r in roles || r in pending ==> r in t' && t'[r].roles == t[r].roles
    ensures RolesOrdered(t', roles) && ObjectLayout.Within(t', pending) && FlattenedFrom(t', roles, pending)
  {
    assert forall r :: r in t ==> KindKept(t, t', r);
    forall k: nat | k < |roles| ensures AfterItsRoles(t', roles, k) {
      assert roles[k] in roles && AfterItsRoles(t, roles, k);
    }
    forall y ensures InFlattening(t', pending, y) <==> InFlattening(t, pending, y) {}
  }

  lemma LaidOutNumbers(t: Table, s: Stash)
    requires Shaped(t) && s in t
    ensures FieldsPlaced(LaidOut(t, s).fields, OwnStart(t, s))
    ensures LaidOut(t, s).nextFieldix == OwnStart(t, s) + OwnCount(LaidOut(t, s).fields)
  {
    hide Shaped, Placed, FieldsPlaced, Flat, OwnStart, OwnIndexes;
    PlacedDeclares(t[s].fields, OwnStart(t, s));
  }

  lemma OwnStartKept(t: Table, s: Stash)
    requires Shaped(t) && s in t && t[s].superclass != Some(s)
    ensures var t' := t[s := LaidOut(t, s)];
            Linked(t', s) && Prefix(t', s) + RoleWidth(t', t'[s].roles) == OwnStart(t, s)
  {
    assert ShapeOk(t, s);
    hide Shaped, ShapeOk, Placed, Flat, RoleWidth;
    WidthKept(t, s, Flat(t, s));
  }

  /** The declaration has exactly the slots it needs, and its own fields are placed
      after those of its roles. */
  ghost predicate Tiles(t: Table, s: Stash)
    requires s in t
  {
    && Linked(t, s) && FieldsPlaced(t[s].fields, Prefix(t, s) + RoleWidth(t, t[s].roles))
    && t[s].nextFieldix == Prefix(t, s) + |ClassSlots(t, s)|
  }

  /** Whatever a declaration names, sealing makes it tile. */
  lemma LaidOutTiles(t: Table, s: Stash)
    requires Shaped(t) && s in t && t[s].superclass != Some(s)
    ensures Tiles(t[s := LaidOut(t, s)], s)
  {
    hide Shaped, LaidOut, FieldsPlaced, RoleWidth, ClassSlots;
    LaidOutNumbers(t, s);
    OwnStartKept(t, s);
    ClassSlotsWidth(t[s := LaidOut(t, s)], s);
  }

  /** The role list is the flattening of the roles that the declaration names. */
  ghost predicate Flattened(t: Table, s: Stash)
    requires s in t
  {
    ObjectLayout.Within(t, t[s].pending) && FlattenedFrom(t, t[s].roles, t[s].pending)
  }

  /** Sealing a declaration all of whose roles are sealed: its role list is complete and ordered. */
  lemma LaidOutOk(t: Table, s: Stash)
    requires TableOk(t) && Shaped(t) && s in t && !t[s].sealed && NamesSealed(t, s)
    requires t[s].superclass.Some? ==> t[s].superclass.value in t && t[t[s].superclass.value].sealed
    ensures SealedOk(t[s := LaidOut(t, s)], s)
    ensures Flattened(t[s := LaidOut(t, s)], s)
  {
    hide TableOk, Shaped, Placed, FieldsPlaced, Flat, RolesOrdered, FlattenedFrom, KindsKept, RoleWidth, ClassSlots;
    FlatSealed(t, s);
    LaidOutDeclares(t, s);
    assert NamesSealed(t, s) && s !in LaidOut(t, s).roles && s !in LaidOut(t, s).pending;
    OrderedFrame(t, t[s := LaidOut(t, s)], LaidOut(t, s).roles, LaidOut(t, s).pending);
    LaidOutTiles(t, s);
  }

  /** Sealing such a declaration keeps the whole table in order. */
  lemma SealingKeepsTableOk(t: Table, s: Stash)
    requires TableOk(t) && Shaped(t) && s in t && !t[s].sealed && t[s].kind != Package && NamesSealed(t, s)
    requires t[s].superclass.Some? ==> t[s].superclass.value in t && t[t[s].superclass.value].sealed
    ensures var t' := t[s := LaidOut(t, s)];
            TableOk(t') && SealedOk(t', s) && Flattened(t', s)
  {
    hide SealedOk, Flattened;
    LaidOutOk(t, s);
    SealingKeepsShaped(t, s);
    assert ShapeOk(t[s := LaidOut(t, s)], s);
    LaidOutDeclares(t, s);
    forall x | x in t && t[x].sealed ensures !Uses(t[x], s) {
      if Uses(t[x], s) { UsedIsSealed(t, x, s); }
    }
    ReplaceKeepsTableOk(t, s, LaidOut(t, s));
  }

  /** Every declaration that is still open names sealed roles only, and no role's
      scope is open over a record that a class took over. */
  ghost predicate Clean(t: Table) {
    && TableOk(t)
    && (forall s {:trigger NamesSealed(t, s)} :: s in t && !t[s].sealed ==> NamesSealed(t, s))
    && forall s :: s in t ==> !t[s].reseal
  }

  lemma SealingKeepsClean(t: Table, s: Stash)
    requires Clean(t) && Shaped(t) && s in t && !t[s].sealed && t[s].kind != Package
    requires t[s].superclass.Some? ==> t[s].superclass.value in t && t[t[s].superclass.value].sealed
    ensures Clean(t[s := LaidOut(t, s)])
  {
    assert NamesSealed(t, s);
    SealingKeepsTableOk(t, s);
    LaidOutDeclares(t, s);
    hide TableOk, Shaped;
    var t' := t[s := LaidOut(t, s)];
    forall x | x in t' && !t'[x].sealed ensures NamesSealed(t', x) { assert NamesSealed(t, x); }
  }

  /** An open record may be written again, since no sealed declaration uses it. */
  lemma OpenRewritten(t: Table, s: Stash, a: Aux)
    requires Shaped(t) && KindsKept(t, t[s := a]) && ReferencesOk(t[s := a], a) && UnsealedOk(a) && !a.sealed
    requires a.reseal ==> a.kind == ClassOverRole
    requires s in t ==> !t[s].sealed
    ensures Shaped(t[s := a]) && Extends(t, t[s := a])
    ensures TableOk(t) ==> TableOk(t[s := a])
    ensures Clean(t) && !a.reseal && (forall r :: r in a.pending ==> r in t && t[r].sealed) ==> Clean(t[s := a])
  {
    hide TableOk, UnsealedOk, ReferencesOk;
    var t' := t[s := a];
    ReplaceKeepsShaped(t, s, a);
    if TableOk(t) {
      forall x | x in t && t[x].sealed ensures !Uses(t[x], s) {
        if Uses(t[x], s) { UsedIsSealed(t, x, s); }
      }
      ReplaceKeepsTableOk(t, s, a);
      if Clean(t) && !a.reseal && forall r :: r in a.pending ==> r in t && t[r].sealed {
        forall x | x in t' && !t'[x].sealed ensures NamesSealed(t', x) {
          if x != s { assert NamesSealed(t, x); }
        }
      }
    }
  }

  lemma SealedRecord(t: Table, s: Stash)
    requires TableOk(t) && s in t && t[s].sealed
    ensures SealedOk(t, s)
  {
    assert RecordOk(t, s);
  }

  /** The bases recorded while the blocks were allocated, one per composed role. */
  ghost predicate BasesOf(t: Table, c: Stash, bases: seq<nat>)
    requires c in t && Linked(t, c)
  {
    |bases| == |t[c].roles| && forall k: nat :: k < |bases| ==> bases[k] == RoleBase(t, c, k)
  }

  /** Writing the record keeps the recorded bases true. */
  lemma BasesPlaced(t: Table, s: Stash, bases: seq<nat>)
    requires Shaped(t) && s in t && !t[s].sealed && (t[s].superclass.Some? ==> t[s].superclass.value != s)
    requires |bases| == |Flat(t, s)|
    requires t[s].superclass.Some? ==> t[s].superclass.value in t
    requires forall k :: 0 <= k < |bases| ==> bases[k] == First(t, t[s]) + RoleWidth(t, Flat(t, s)[..k])
    ensures Linked(t[s := LaidOut(t, s)], s) && BasesOf(t[s := LaidOut(t, s)], s, bases)
  {
    hide RoleWidth, Shaped;
    var a := LaidOut(t, s);
    forall k: nat | k < |bases| ensures bases[k] == RoleBase(t[s := a], s, k) {
      WidthKept(t, s, a.roles[..k]);
    }
  }

  /** Every block begins at or after the base that its role tells, compared as words. */
  ghost predicate Fits(t: Table, roles: seq<Stash>, bases: seq<nat>)
    requires ObjectLayout.Within(t, roles) && |bases| <= |roles|
  {
    forall k :: 0 <= k < |bases| ==> OwnBaseWord(t[roles[k]].fields) <= bases[k]
  }

  /** The blocks given out so far, one after the other from `first`. */
  ghost predicate Allotted(t: Table, roles: seq<Stash>, first: nat, bases: seq<nat>, next: nat)
    requires ObjectLayout.Within(t, roles)
  {
    && |bases| <= |roles| && next == first + RoleWidth(t, roles[..|bases|])
    && forall k :: 0 <= k < |bases| ==> bases[k] == first + RoleWidth(t, roles[..k])
  }

  lemma AllottedNext(t: Table, roles: seq<Stash>, first: nat, bases: seq<nat>, next: nat)
    requires ObjectLayout.Within(t, roles) && |bases| < |roles| && Allotted(t, roles, first, bases, next)
    ensures Allotted(t, roles, first, bases + [next], next + OwnCount(t[roles[|bases|]].fields))
  {
    hide RoleWidth;
    WidthNext(t, roles, |bases|);
  }

  lemma WidthNext(t: Table, roles: seq<Stash>, i: nat)
    requires ObjectLayout.Within(t, roles) && i < |roles|
    ensures RoleWidth(t, roles[..i + 1]) == RoleWidth(t, roles[..i]) + OwnCount(t[roles[i]].fields)
  {
    TakeNext(roles, i);
    RoleWidthAppend(t, roles[..i], roles[i]);
  }

  lemma FitsNext(t: Table, roles: seq<Stash>, bases: seq<nat>, base: nat)
    requires ObjectLayout.Within(t, roles) && |bases| < |roles|
    ensures Fits(t, roles, bases + [base]) <==>
            Fits(t, roles, bases) && OwnBaseWord(t[roles[|bases|]].fields) <= base
  {
    hide OwnBaseWord;
    var later := bases + [base];
    assert later[|bases|] == base && forall k :: 0 <= k < |bases| ==> later[k] == bases[k];
  }

  /** The blocks of a declaration fit. */
  ghost predicate BlocksFit(t: Table, s: Stash)
    requires Shaped(t) && s in t
  {
    assert ShapeOk(t, s);
    var roles := Flat(t, s);
    forall k: nat {:trigger roles[k]} :: k < |roles| ==>
      OwnBaseWord(t[roles[k]].fields) <= First(t, t[s]) + RoleWidth(t, roles[..k])
  }

  /** What every sealing establishes, in one place. */
  lemma SealingFacts(t: Table, s: Stash, bases: seq<nat>, fits: bool)
    requires Shaped(t) && s in t && !t[s].sealed && t[s].kind != Package
    requires t[s].superclass.Some? ==> t[s].superclass.value in t && t[t[s].superclass.value].sealed
    requires |bases| == |Flat(t, s)|
    requires forall k :: 0 <= k < |bases| ==> bases[k] == First(t, t[s]) + RoleWidth(t, Flat(t, s)[..k])
    requires fits <==> Fits(t, Flat(t, s), bases)
    ensures var t' := t[s := LaidOut(t, s)];
            && Shaped(t') && Extends(t, t') && SameDeclaration(t[s], t'[s]) && t'[s].sealed
            && Linked(t', s) && BasesOf(t', s, bases) && (fits <==> BlocksFit(t, s))
            && (TableOk(t) && NamesSealed(t, s) ==> TableOk(t') && SealedOk(t', s) && Flattened(t', s))
            && (Clean(t) ==> Clean(t'))
  {
    assert LaidOut(t, s).sealed;
    hide Shaped, TableOk, Clean, LaidOut, RoleWidth, OwnBaseWord, Flat, SealedOk, BasesOf, Flattened;
    SealingKeepsShaped(t, s);
    LaidOutDeclares(t, s);
    BasesPlaced(t, s, bases);
    if TableOk(t) && NamesSealed(t, s) { SealingKeepsTableOk(t, s); }
    if Clean(t) { SealingKeepsClean(t, s); }
  }

  /** A record put together step by step is the one that sealing makes. */
  lemma LaidOutIs(t: Table, s: Stash, a: Aux, first: nat)
    requires Shaped(t) && s in t && ObjectLayout.Within(t, t[s].pending) && ObjectLayout.Within(t, a.roles)
    requires (t[s].superclass.Some? ==> t[s].superclass.value in t) && first == First(t, t[s])
    requires Closed(RoleGraph(t)) && RoleClosure.Within(RoleGraph(t), t[s].pending)
    requires a.roles == Closure(RoleGraph(t), t[s].pending)
    requires a.fields == Placed(t[s].fields, first + RoleWidth(t, a.roles))
    requires a == t[s].(roles := a.roles, fields := a.fields, sealed := true,
                        nextFieldix := first + RoleWidth(t, a.roles) + OwnCount(a.fields))
    ensures a == LaidOut(t, s) && a.roles == Flat(t, s)
  {
    hide Shaped, Closure, Placed, RoleWidth, OwnIndexes;
    PlacedDeclares(t[s].fields, OwnStart(t, s));
  }

  lemma NamesWithin(t: Table, s: Stash)
    requires Shaped(t) && s in t
    ensures ObjectLayout.Within(t, t[s].pending)
  {
    assert ShapeOk(t, s);
  }

  /** What an open declaration is known to look like. */
  lemma OpenDeclaration(t: Table, s: Stash)
    requires Shaped(t) && s in t && !t[s].sealed
    ensures ObjectLayout.Within(t, t[s].pending)
    ensures t[s].superclass.Some? ==> t[s].superclass.value in t && t[s].kind == Class
    ensures t[s].kind.IsRole() ==> forall i :: 0 <= i < |t[s].fields| ==> !t[s].fields[i].inherited && t[s].fields[i].rel == i
  {
    assert ShapeOk(t, s);
  }

  // ----- starting and collecting a declaration

  /** A role whose scope has not ended. */
  predicate IsOpenRole(t: Table, s: Stash) {
    s in t && t[s].kind.IsRole() && !t[s].sealed
  }

  /** The record that a set-up writes. */
  function Started(t: Table, s: Stash, kind: Kind): Aux {
    Aux(if s in t && t[s].kind.IsRole() then ClassOverRole else kind, None, [], [], [], [], 0, false, IsOpenRole(t, s))
  }

  /** The next relative index is the counter, which in a sealed record is its size. */
  function WithField(a: Aux, name: Name, sigil: Sigil, param: Option<Name>, inherited: bool): Aux {
    a.(fields := a.fields + [Field(name, sigil, param, inherited, a.nextFieldix, None)], nextFieldix := a.nextFieldix + 1)
  }

  function WithRole(a: Aux, r: Stash): Aux {
    a.(pending := a.pending + [r])
  }

  function WithParent(t: Table, s: Stash, p: Stash): Aux
    requires s in t && p in t
  {
    t[s].(isa := [p], superclass := if t[p].kind.IsClass() then Some(p) else None)
  }

  /** The sealed declarations that are made of `r`, and the open ones that name it. */
  function Consumers(t: Table, r: Stash): set<Stash> {
    set x | x in t && if t[x].sealed then r in t[x].roles else r in t[x].pending
  }

  function SealedConsumers(t: Table, r: Stash): set<Stash> {
    set x | x in t && t[x].sealed && r in t[x].roles
  }

  /** A set-up is accepted for this stash. */
  predicate Startable(t: Table, s: Stash, kind: Kind) {
    && (kind == Class || kind == Role)
    && (s in t ==> t[s].isa == [] && !t[s].kind.IsClass() && (kind == Role ==> t[s].kind == Package))
  }

  lemma StartingKeepsKinds(t: Table, s: Stash, kind: Kind)
    requires Startable(t, s, kind)
    ensures KindsKept(t, t[s := Started(t, s, kind)])
  {}

  lemma StartingKeepsShaped(t: Table, s: Stash, kind: Kind)
    requires Shaped(t) && Startable(t, s, kind)
    ensures Shaped(t[s := Started(t, s, kind)])
    ensures (s in t ==> !t[s].sealed) ==> Extends(t, t[s := Started(t, s, kind)])
  {
    StartingKeepsKinds(t, s, kind);
    ReplaceKeepsShaped(t, s, Started(t, s, kind));
  }

  /** Starting a declaration disturbs nothing as long as no sealed declaration is made of it. */
  lemma StartingKeepsTableOk(t: Table, s: Stash, kind: Kind)
    requires TableOk(t) && Startable(t, s, kind) && SealedConsumers(t, s) == {}
    ensures TableOk(t[s := Started(t, s, kind)])
  {
    StartingKeepsKinds(t, s, kind);
    forall x | x in t && t[x].sealed ensures !Uses(t[x], s) {
      assert x !in SealedConsumers(t, s);
      assert RecordOk(t, x);
    }
    ReplaceKeepsTableOk(t, s, Started(t, s, kind));
  }

  lemma StartingKeepsClean(t: Table, s: Stash, kind: Kind)
    requires Clean(t) && Startable(t, s, kind) && Consumers(t, s) == {} && !IsOpenRole(t, s)
    ensures Clean(t[s := Started(t, s, kind)])
  {
    var t' := t[s := Started(t, s, kind)];
    forall x ensures x !in SealedConsumers(t, s) { assert x !in Consumers(t, s); }
    StartingKeepsTableOk(t, s, kind);
    forall x | x in t' && !t'[x].sealed ensures NamesSealed(t', x) {
      if x != s { assert NamesSealed(t, x) && x !in Consumers(t, s); }
    }
  }

  /** A field is accepted in any class or role, sealed or not. */
  lemma FieldKeeps(t: Table, s: Stash, name: Name, sigil: Sigil, param: Option<Name>, inherited: bool)
    requires Shaped(t) && s in t && t[s].kind != Package && (inherited ==> !t[s].kind.IsRole())
    ensures var t' := t[s := WithField(t[s], name, sigil, param, inherited)];
            && Shaped(t') && (!t[s].sealed ==> Extends(t, t') && (TableOk(t) ==> TableOk(t')) && (Clean(t) ==> Clean(t')))
  {
    var a := WithField(t[s], name, sigil, param, inherited);
    assert ShapeOk(t, s);
    if t[s].sealed {
      ReplaceKeepsShaped(t, s, a);
    } else {
      if Clean(t) { assert NamesSealed(t, s); }
      OpenRewritten(t, s, a);
    }
  }

  /** So is a role.  A sealed declaration has been composed, so it takes no notice. */
  lemma RoleKeeps(t: Table, s: Stash, r: Stash)
    requires Shaped(t) && s in t && t[s].kind != Package && r in t && t[r].kind.IsRole()
    ensures var t' := t[s := WithRole(t[s], r)];
            && Shaped(t') && (!t[s].sealed ==> Extends(t, t')) && (TableOk(t) ==> TableOk(t'))
            && (Clean(t) && (t[s].sealed || t[r].sealed) ==> Clean(t'))
  {
    var a := WithRole(t[s], r);
    var t' := t[s := a];
    assert ShapeOk(t, s);
    if Clean(t) && !t[s].sealed { assert NamesSealed(t, s); }
    if t[s].sealed {
      ReplaceKeepsShaped(t, s, a);
      if TableOk(t) {
        assert RecordOk(t, s);
        SealedOkFrame(t, t', s);
        RelabelKeepsTableOk(t, s, a);
        if Clean(t) {
          forall x | x in t' && !t'[x].sealed ensures NamesSealed(t', x) { assert NamesSealed(t, x); }
        }
      }
    } else {
      OpenRewritten(t, s, a);
    }
  }

  /** So is a parent, if there is none yet.  A sealed declaration was laid out without
      a superclass; it can only get one that has no slots and will never have any. */
  predicate HarmlessParent(t: Table, s: Stash, p: Stash)
    requires s in t && p in t
  {
    !t[s].sealed || !t[p].kind.IsClass() || (t[p].sealed && t[p].nextFieldix == 0)
  }

  lemma ParentKeeps(t: Table, s: Stash, p: Stash)
    requires Shaped(t) && s in t && t[s].kind == Class && t[s].isa == [] && p in t && !t[p].kind.IsRole()
    ensures var t' := t[s := WithParent(t, s, p)];
            && Shaped(t') && (!t[s].sealed ==> Extends(t, t'))
            && (HarmlessParent(t, s, p) ==> (TableOk(t) ==> TableOk(t')) && (Clean(t) ==> Clean(t')))
  {
    var a := WithParent(t, s, p);
    var t' := t[s := a];
    assert ShapeOk(t, s);
    if Clean(t) && !t[s].sealed { assert NamesSealed(t, s); }
    if t[s].sealed {
      ReplaceKeepsShaped(t, s, a);
      if TableOk(t) && HarmlessParent(t, s, p) {
        EmptyParentOk(t, s, p);
        RelabelKeepsTableOk(t, s, a);
        if Clean(t) {
          forall x | x in t' && !t'[x].sealed ensures NamesSealed(t', x) { assert NamesSealed(t, x); }
        }
      }
    } else {
      OpenRewritten(t, s, a);
    }
  }

  lemma EmptyParentOk(t: Table, s: Stash, p: Stash)
    requires TableOk(t) && s in t && t[s].sealed && t[s].isa == [] && p in t && HarmlessParent(t, s, p)
    ensures SealedOk(t[s := WithParent(t, s, p)], s)
  {
    var t' := t[s := WithParent(t, s, p)];
    assert RecordOk(t, s) && t[s].superclass == None;
    var u := t[s := t[s]];
    RoleWidthFrame(t, t', t[s].roles);
    ClassSlotsWidth(t, s);
    ClassSlotsWidth(t', s);
    forall k: nat | k < |t[s].roles| ensures AfterItsRoles(t', t[s].roles, k) {
      assert t[s].roles[k] in t[s].roles && AfterItsRoles(t, t[s].roles, k);
    }
  }

  // ----- a role's scope that ends after a class took the record over

  /** The loop of the role: every field is placed at its own relative index. */
  function PlacedAsIs(fs: seq<Field>, base: nat): (r: seq<Field>)
    ensures |r| == |fs| && forall i :: 0 <= i < |fs| ==> r[i] == fs[i].(fieldix := Some(base + fs[i].rel))
  {
    if fs == [] then []
    else
      var n := |fs| - 1;
      PlacedAsIs(fs[..n], base) + [fs[n].(fieldix := Some(base + fs[n].rel))]
  }

  /** The second sealing: the named roles are composed once more, behind those that are there. */
  ghost function Resealed(t: Table, s: Stash): Aux
    requires Shaped(t) && s in t
  {
    var base := RoleWidth(t, Flat(t, s));
    t[s].(roles := t[s].roles + Flat(t, s), fields := PlacedAsIs(t[s].fields, base),
          nextFieldix := base + |t[s].fields|, reseal := false)
  }

  /** A record put together step by step is the one that the second sealing makes. */
  lemma ResealedIs(t: Table, s: Stash, a: Aux, roles: seq<Stash>)
    requires Shaped(t) && s in t && ObjectLayout.Within(t, t[s].pending) && ObjectLayout.Within(t, roles)
    requires Closed(RoleGraph(t)) && RoleClosure.Within(RoleGraph(t), t[s].pending)
    requires roles == Closure(RoleGraph(t), t[s].pending)
    requires a == t[s].(roles := t[s].roles + roles, fields := PlacedAsIs(t[s].fields, RoleWidth(t, roles)),
                        nextFieldix := RoleWidth(t, roles) + |t[s].fields|, reseal := false)
    ensures a == Resealed(t, s)
  {
    hide Shaped, Closure, PlacedAsIs, RoleWidth;
  }

  lemma ResealingKeepsShaped(t: Table, s: Stash)
    requires Shaped(t) && s in t && t[s].sealed
    ensures Shaped(t[s := Resealed(t, s)])
  {
    assert ShapeOk(t, s);
    var a := Resealed(t, s);
    if t[s].kind.IsRole() {
      forall f | f in a.fields ensures !f.inherited {
        var i :| 0 <= i < |a.fields| && a.fields[i] == f;
        assert t[s].fields[i] in t[s].fields;
      }
    }
    ReferencesOkFrame(t, t[s := a], a);
    ReplaceKeepsShaped(t, s, a);
  }

  // ----- the class walk

  lemma IsaClosed(t: Table)
    requires Shaped(t)
    ensures Closed(IsaGraph(t))
  {
    forall x, y | x in IsaGraph(t) && y in IsaGraph(t)[x] ensures y in IsaGraph(t) {
      assert ShapeOk(t, x);
    }
  }

  /** The classes among some stashes, in order. */
  function ClassesOf(t: Table, xs: seq<Stash>): seq<Stash>
    requires ObjectLayout.Within(t, xs)
  {
    if xs == [] then []
    else
      var n := |xs| - 1;
      ClassesOf(t, xs[..n]) + if t[xs[n]].kind.IsClass() then [xs[n]] else []
  }

  lemma ClassesOfAppend(t: Table, xs: seq<Stash>, x: Stash)
    requires ObjectLayout.Within(t, xs) && x in t
    ensures ObjectLayout.Within(t, xs + [x])
    ensures ClassesOf(t, xs + [x]) == ClassesOf(t, xs) + if t[x].kind.IsClass() then [x] else []
  {
    assert (xs + [x])[..|xs|] == xs;
  }

  lemma {:induction false} ClassesOfMembers(t: Table, xs: seq<Stash>)
    requires ObjectLayout.Within(t, xs)
    ensures forall x :: x in ClassesOf(t, xs) <==> x in xs && t[x].kind.IsClass()
  {
    if xs != [] {
      var n := |xs| - 1;
      ClassesOfMembers(t, xs[..n]);
      assert forall x :: x in xs <==> x in xs[..n] || x == xs[n];
    }
  }

  lemma AncestorClasses(t: Table, s: Stash, classes: seq<Stash>)
    requires s in t && Closed(IsaGraph(t))
    requires var xs := Closure(IsaGraph(t), [s]); ObjectLayout.Within(t, xs) && classes == ClassesOf(t, xs)
    ensures forall x :: x in classes <==> Reaches(IsaGraph(t), [s], x) && x in t && t[x].kind.IsClass()
  {
    ClosureIsReachableSet(IsaGraph(t), [s]);
    ClassesOfMembers(t, Closure(IsaGraph(t), [s]));
  }

  /** Sealing changes no parent list and no kind. */
  ghost predicate SameDeclarations(t: Table, t': Table) {
    t'.Keys == t.Keys && forall x {:trigger SameDeclaration(t[x], t'[x])} :: x in t ==> SameDeclaration(t[x], t'[x])
  }

  lemma OneRecordChanged(t: Table, t': Table, s: Stash)
    requires s in t && t'.Keys == t.Keys && SameDeclaration(t[s], t'[s])
    requires forall x :: x in t && x != s ==> t'[x] == t[x]
    ensures SameDeclarations(t, t') && IsaGraph(t') == IsaGraph(t)
  {
    forall x | x in t ensures SameDeclaration(t[x], t'[x]) {}
  }

  lemma SameParents(t: Table, t': Table)
    requires SameDeclarations(t, t')
    ensures IsaGraph(t') == IsaGraph(t)
  {
    forall x | x in t ensures t'[x].isa == t[x].isa { assert SameDeclaration(t[x], t'[x]); }
  }

  lemma ParentsWithin(t: Table, s: Stash)
    requires Closed(IsaGraph(t)) && s in t
    ensures ObjectLayout.Within(t, t[s].isa)
  {
    var g := IsaGraph(t);
    forall y | y in t[s].isa ensures y in t { assert y in g[s]; assert y in g; }
  }

  ghost predicate AncestorsSealed(t: Table, s: Stash) {
    forall x :: x in t && t[x].kind.IsClass() && Reaches(IsaGraph(t), [s], x) ==> t[x].sealed
  }

  /** Newly sealed: only what `s` inherits from, and `s` itself. */
  ghost predicate SealsOnlyAncestors(t: Table, t': Table, s: Stash) {
    forall x :: x in t && x in t' && t'[x].sealed && !t[x].sealed ==> Reaches(IsaGraph(t), [s], x)
  }

  lemma SuperclassReached(t: Table, s: Stash)
    requires Shaped(t) && s in t && t[s].superclass.Some? && Acyclic(IsaGraph(t), [s])
    ensures var p := t[s].superclass.value;
            p in t && t[p].kind.IsClass() && p != s && Reaches(IsaGraph(t), [s], p)
  {
    var g := IsaGraph(t);
    var p := t[s].superclass.value;
    IsaClosed(t);
    assert ShapeOk(t, s);
    NotOwnSuccessor(g, s);
    ReachesSelf(g, [s], s);
    ReachesStep(g, [s], s, p);
  }

  /** Sealing an ancestor leaves the declaration below it for later. */
  lemma SealedAbove(t: Table, t': Table, s: Stash, p: Stash)
    requires Shaped(t) && s in t && p in t && !t[s].sealed && p != s
    requires Acyclic(IsaGraph(t), [s]) && Reaches(IsaGraph(t), [s], p)
    requires Extends(t, t') && SealsOnlyAncestors(t, t', p)
    ensures SealsOnlyAncestors(t, t', s) && !t'[s].sealed
  {
    var g := IsaGraph(t);
    IsaClosed(t);
    NoWayBack(g, s, p);
    forall x | x in t && x in t' && t'[x].sealed && !t[x].sealed ensures Reaches(g, [s], x) {
      ReachesTransitive(g, [s], p, x);
    }
  }

  ghost predicate SealedBut(t: Table, xs: seq<Stash>, s: Stash) {
    forall x :: x in xs && x != s ==> x in t && t[x].sealed
  }

  lemma SealedButNext(t: Table, t': Table, xs: seq<Stash>, x: Stash, s: Stash)
    requires SealedBut(t, xs, s) && Extends(t, t') && x in t' && (x == s || t'[x].sealed)
    ensures SealedBut(t', xs + [x], s)
  {}

  /** Every class above `s` is sealed. */
  ghost predicate SealedAboveAll(t: Table, s: Stash) {
    forall x :: x in t && t[x].kind.IsClass() && x != s && Reaches(IsaGraph(t), [s], x) ==> t[x].sealed
  }

  lemma SealedThroughout(t: Table, t': Table, s: Stash, classes: seq<Stash>)
    requires SameDeclarations(t, t') && SealedBut(t', classes, s)
    requires forall x :: x in t && t[x].kind.IsClass() && Reaches(IsaGraph(t), [s], x) ==> x in classes
    ensures SealedAboveAll(t', s)
  {
    SameParents(t, t');
    forall x | x in t' && t'[x].kind.IsClass() && x != s && Reaches(IsaGraph(t'), [s], x) ensures t'[x].sealed {
      assert SameDeclaration(t[x], t'[x]);
    }
  }

  lemma LaidOutLast(t: Table, s: Stash, a: Aux)
    requires s in t && SameDeclaration(t[s], a) && a.sealed && SealedAboveAll(t, s)
    ensures SameDeclarations(t, t[s := a]) && AncestorsSealed(t[s := a], s) && SealsOnlyAncestors(t, t[s := a], s)
  {
    var t' := t[s := a];
    OneRecordChanged(t, t', s);
    ReachesSelf(IsaGraph(t), [s], s);
    forall x | x in t' && t'[x].kind.IsClass() && Reaches(IsaGraph(t'), [s], x) ensures t'[x].sealed {
      assert SameDeclaration(t[x], t'[x]);
    }
  }

  lemma SealsCompose(t: Table, t': Table, t'': Table, s: Stash)
    requires SealsOnlyAncestors(t, t', s) && SealsOnlyAncestors(t', t'', s)
    requires Extends(t, t') && Extends(t', t'') && SameDeclarations(t, t') && SameDeclarations(t', t'')
    ensures SealsOnlyAncestors(t, t'', s) && Extends(t, t'') && SameDeclarations(t, t'')
  {
    SameParents(t, t');
    forall x | x in t ensures SameDeclaration(t[x], t''[x]) {
      assert SameDeclaration(t[x], t'[x]) && SameDeclaration(t'[x], t''[x]);
    }
  }
}
