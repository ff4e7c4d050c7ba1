/** Declaring and sealing classes and roles: the operations that build the layout. */
module Sealing {
  import opened RoleClosure
  import opened ObjectLayout
  import opened LayoutFacts

  /** The two lists that the recursive role walk appends to. */
  class RoleLists {
    var seen: seq<Stash>
    var roles: seq<Stash>

    constructor ()
      ensures seen == [] && roles == []
    {
      seen, roles := [], [];
    }

    ghost function Value(): Walk<Stash>
      reads this
    {
      Walk(seen, roles)
    }
  }

  /** The lists that the recursive class walk appends to. */
  class ClassLists {
    var seen: seq<Stash>
    var classes: seq<Stash>
    ghost var finished: seq<Stash>

    constructor ()
      ensures seen == [] && classes == [] && finished == []
    {
      seen, classes, finished := [], [], [];
    }

    ghost function Value(): Walk<Stash>
      reads this
    {
      Walk(seen, finished)
    }

    ghost predicate Keeps(t: Table)
      reads this
    {
      ObjectLayout.Within(t, finished) && classes == ClassesOf(t, finished)
    }
  }

  class SymbolTable {
    var stashes: Table

    constructor ()
      ensures stashes == map[] && TableOk(stashes)
    {
      stashes := map[];
    }

    // ----- while a declaration is parsed

    /** Starts a class or role; refuses a stash that already has parents.  A role
        refuses whatever is a class or role already, a class only what is a class:
        it takes over a role, and starts that record afresh, even inside the role. */
    method SetupStash(s: Stash, kind: Kind) returns (ok: bool)
      requires Shaped(stashes) && (kind == Class || kind == Role)
      modifies this
      ensures Shaped(stashes)
      ensures ok <==> s !in old(stashes) || (old(stashes)[s].isa == [] && !old(stashes)[s].kind.IsClass() &&
                                             (kind == Role ==> old(stashes)[s].kind == Package))
      ensures stashes == if ok then old(stashes)[s := Started(old(stashes), s, kind)] else old(stashes)
      ensures ok && s in old(stashes) && old(stashes)[s].kind.IsRole() ==>
                stashes[s] == Aux(ClassOverRole, None, [], [], [], [], 0, false, !old(stashes)[s].sealed)
      ensures ok && (s !in old(stashes) || !old(stashes)[s].kind.IsRole()) ==>
                stashes[s] == Aux(kind, None, [], [], [], [], 0, false, false)
      ensures (s in old(stashes) ==> !old(stashes)[s].sealed) ==> Extends(old(stashes), stashes)
      ensures TableOk(old(stashes)) && ok && SealedConsumers(old(stashes), s) == {} ==> TableOk(stashes)
      ensures Clean(old(stashes)) && ok && Consumers(old(stashes), s) == {} && !IsOpenRole(old(stashes), s) ==> Clean(stashes)
    {
      if kind == Role {
        ok := s !in stashes || (!stashes[s].kind.IsRole() && !stashes[s].kind.IsClass() && stashes[s].isa == []);
      } else {
        ok := s !in stashes || (!stashes[s].kind.IsClass() && stashes[s].isa == []);
      }
      if ok {
        StartingKeepsShaped(stashes, s, kind);
        if TableOk(stashes) && SealedConsumers(stashes, s) == {} { StartingKeepsTableOk(stashes, s, kind); }
        if Clean(stashes) && Consumers(stashes, s) == {} && !IsOpenRole(stashes, s) { StartingKeepsClean(stashes, s, kind); }
        var both := s in stashes && stashes[s].kind.IsRole();
        var inside := both && !stashes[s].sealed;
        stashes := stashes[s := Aux(if both then ClassOverRole else kind, None, [], [], [], [], 0, false, inside)];
      }
    }

    /** A field is taken in any class or role, even one that is sealed already; an
        inherited alias takes a number as well, but not in a role. */
    method AddField(s: Stash, name: Name, sigil: Sigil, param: Option<Name>, inherited: bool) returns (ok: bool)
      requires Shaped(stashes) && s in stashes && stashes[s].kind != Package
      modifies this
      ensures Shaped(stashes)
      ensures ok <==> !(inherited && (param.Some? || old(stashes)[s].kind.IsRole()))
      ensures stashes == if ok then old(stashes)[s := WithField(old(stashes)[s], name, sigil, param, inherited)] else old(stashes)
      ensures var a := old(stashes)[s];
              ok ==> stashes[s] == a.(fields := a.fields + [Field(name, sigil, param, inherited, a.nextFieldix, None)],
                                      nextFieldix := a.nextFieldix + 1)
      ensures !old(stashes)[s].sealed ==> Extends(old(stashes), stashes)
      ensures !old(stashes)[s].sealed && TableOk(old(stashes)) ==> TableOk(stashes)
      ensures !old(stashes)[s].sealed && Clean(old(stashes)) ==> Clean(stashes)
    {
      ok := !(inherited && (param.Some? || stashes[s].kind.IsRole()));
      if ok {
        FieldKeeps(stashes, s, name, sigil, param, inherited);
        var a := stashes[s];
        var rel := a.nextFieldix;
        a := a.(nextFieldix := a.nextFieldix + 1);
        a := a.(fields := a.fields + [Field(name, sigil, param, inherited, rel, None)]);
        stashes := stashes[s := a];
      }
    }

    /** The `:implements` attribute: any role will do, sealed or not, the declaration itself included. */
    method ApplyImplements(s: Stash, r: Stash) returns (ok: bool)
      requires Shaped(stashes) && s in stashes && stashes[s].kind != Package
      modifies this
      ensures Shaped(stashes)
      ensures ok <==> r in old(stashes) && old(stashes)[r].kind.IsRole()
      ensures stashes == if ok then old(stashes)[s := WithRole(old(stashes)[s], r)] else old(stashes)
      ensures ok ==> stashes[s] == old(stashes)[s].(pending := old(stashes)[s].pending + [r])
      ensures !old(stashes)[s].sealed ==> Extends(old(stashes), stashes)
      ensures TableOk(old(stashes)) ==> TableOk(stashes)
      ensures Clean(old(stashes)) && (old(stashes)[s].sealed || (r in old(stashes) ==> old(stashes)[r].sealed)) ==> Clean(stashes)
    {
      ok := r in stashes && stashes[r].kind.IsRole();
      if ok {
        RoleKeeps(stashes, s, r);
        stashes := stashes[s := stashes[s].(pending := stashes[s].pending + [r])];
      }
    }

    /** The `:isa` attribute.  A parent that is an ordinary package is inherited
        from, but is not the superclass in the layout. */
    method ApplyIsa(s: Stash, p: Stash) returns (ok: bool)
      requires Shaped(stashes) && s in stashes && stashes[s].kind != Package
      modifies this
      ensures Shaped(stashes)
      ensures ok <==> !old(stashes)[s].kind.IsRole() && old(stashes)[s].isa == [] &&
                      p in old(stashes) && !old(stashes)[p].kind.IsRole()
      ensures stashes == if ok then old(stashes)[s := WithParent(old(stashes), s, p)] else old(stashes)
      ensures ok && old(stashes)[p].kind.IsClass() ==> stashes[s] == old(stashes)[s].(isa := [p], superclass := Some(p))
      ensures ok && !old(stashes)[p].kind.IsClass() ==> stashes[s] == old(stashes)[s].(isa := [p], superclass := None)
      ensures !old(stashes)[s].sealed ==> Extends(old(stashes), stashes)
      ensures ok && HarmlessParent(old(stashes), s, p) && TableOk(old(stashes)) ==> TableOk(stashes)
      ensures ok && HarmlessParent(old(stashes), s, p) && Clean(old(stashes)) ==> Clean(stashes)
    {
      ok := !stashes[s].kind.IsRole() && stashes[s].isa == [] && p in stashes && !stashes[p].kind.IsRole();
      if ok {
        ParentKeeps(stashes, s, p);
        var a := stashes[s];
        a := a.(isa := [p]);
        if stashes[p].kind.IsClass() {
          a := a.(superclass := Some(p));
        } else {
          a := a.(superclass := None);
        }
        stashes := stashes[s := a];
      }
    }

    // ----- sealing

    method CollectRoleClosure(pending: seq<Stash>, lists: RoleLists)
      requires Closed(RoleGraph(stashes)) && RoleClosure.Within(RoleGraph(stashes), pending)
      modifies lists
      ensures lists.Value() == Collect(RoleGraph(stashes), pending, old(lists.Value()))
      decreases Unseen(RoleGraph(stashes), lists.seen), |pending|
    {
      ghost var g := RoleGraph(stashes);
      ghost var target := Collect(g, pending, lists.Value());
      for i := 0 to |pending|
        invariant old(lists.seen) <= lists.seen
        invariant Collect(g, pending[i..], lists.Value()) == target
      {
        var rolestash := pending[i];
        assert pending[i..][0] == rolestash && pending[i..][1..] == pending[i + 1..];
        if rolestash !in lists.seen {
          UnseenShrinks(g, lists.seen, rolestash, lists.seen + [rolestash]);
          lists.seen := lists.seen + [rolestash];
          CollectRoleClosure(stashes[rolestash].roles, lists);
          lists.roles := lists.roles + [rolestash];
        }
      }
    }

    method OwnFieldCount(s: Stash) returns (count: nat)
      requires s in stashes
      ensures count == OwnCount(stashes[s].fields)
    {
      var fields := stashes[s].fields;
      count := 0;
      for i := 0 to |fields|
        invariant count == OwnCount(fields[..i])
      {
        assert fields[..i + 1][..i] == fields[..i];
        if !fields[i].inherited { count := count + 1; }
      }
      assert fields[..|fields|] == fields;
    }

    /** The base that the first own field tells; an index that is not resolved yet counts as the sentinel. */
    method OwnFieldBase(s: Stash) returns (base: int)
      requires s in stashes
      ensures base == OwnBaseWord(stashes[s].fields)
      ensures SealedOk(stashes, s) ==> base == LocalBase(stashes, s)
    {
      var fields := stashes[s].fields;
      if SealedOk(stashes, s) { OwnBasePlaced(fields, Prefix(stashes, s) + RoleWidth(stashes, stashes[s].roles)); }
      for i := 0 to |fields|
        invariant OwnCount(fields[..i]) == 0
      {
        assert fields[..i + 1][..i] == fields[..i];
        if !fields[i].inherited {
          OwnIndexAt(fields, i);
          return (if fields[i].fieldix.Some? then fields[i].fieldix.value else UNRESOLVED) - fields[i].rel;
        }
      }
      assert fields[..|fields|] == fields;
      return 0;
    }

    /** Gives each role of the flattened list its block, starting at `first`, and
        reports whether every block begins at or after the role's own base. */
    method AllocateBlocks(fieldRoles: seq<Stash>, first: nat) returns (bases: seq<nat>, next: nat, fits: bool)
      requires ObjectLayout.Within(stashes, fieldRoles)
      ensures |bases| == |fieldRoles|
      ensures forall k :: 0 <= k < |bases| ==> bases[k] == first + RoleWidth(stashes, fieldRoles[..k])
      ensures next == first + RoleWidth(stashes, fieldRoles)
      ensures fits <==> Fits(stashes, fieldRoles, bases)
    {
      hide OwnBaseWord, SealedOk;
      bases, next, fits := [], first, true;
      assert Fits(stashes, fieldRoles, []) && Allotted(stashes, fieldRoles, first, [], first);
      for ri := 0 to |fieldRoles|
        invariant |bases| == ri && Allotted(stashes, fieldRoles, first, bases, next)
        invariant fits <==> Fits(stashes, fieldRoles, bases)
      {
        hide Fits, Allotted, RoleWidth;
        var rolestash := fieldRoles[ri];
        var localBase := OwnFieldBase(rolestash);
        FitsNext(stashes, fieldRoles, bases, next);
        AllottedNext(stashes, fieldRoles, first, bases, next);
        if next < localBase { fits := false; }
        bases := bases + [next];
        var count := OwnFieldCount(rolestash);
        next := next + count;
      }
      assert fieldRoles[..|fieldRoles|] == fieldRoles;
    }

    /** Flattens the pending roles and lays them out, whether they are sealed or not. */
    method ComposeLayout(pending: seq<Stash>, first: nat) returns (roles: seq<Stash>, bases: seq<nat>, next: nat, fits: bool)
      requires Shaped(stashes) && ObjectLayout.Within(stashes, pending)
      ensures Closed(RoleGraph(stashes)) && RoleClosure.Within(RoleGraph(stashes), pending)
      ensures roles == Closure(RoleGraph(stashes), pending) && ObjectLayout.Within(stashes, roles)
      ensures TableOk(stashes) && Roles(stashes, pending) ==>
                RolesOrdered(stashes, roles) && FlattenedFrom(stashes, roles, pending)
      ensures |bases| == |roles| && forall k :: 0 <= k < |bases| ==> bases[k] == first + RoleWidth(stashes, roles[..k])
      ensures next == first + RoleWidth(stashes, roles)
      ensures fits <==> Fits(stashes, roles, bases)
    {
      hide TableOk, RolesOrdered, FlattenedFrom, RoleWidth, OwnBaseWord;
      ClosureWithin(stashes, pending);
      if TableOk(stashes) && Roles(stashes, pending) { ClosureOrdered(stashes, pending); }
      var lists := new RoleLists();
      CollectRoleClosure(pending, lists);
      roles := lists.roles;
      bases, next, fits := AllocateBlocks(roles, first);
    }

    /** Phase 1 for a role: the relative indices were given while parsing. */
    method PlaceRoleFields(declared: seq<Field>, base: nat) returns (fields: seq<Field>, count: nat)
      requires forall i :: 0 <= i < |declared| ==> !declared[i].inherited && declared[i].rel == i
      ensures fields == Placed(declared, base) && FieldsPlaced(fields, base) && count == OwnCount(fields)
      ensures |fields| == |declared| && forall i :: 0 <= i < |fields| ==> Declared(fields[i]) == Declared(declared[i])
    {
      fields, count := declared, 0;
      NoneInherited(declared);
      for i := 0 to |fields|
        invariant |fields| == |declared| && count == i
        invariant fields[..i] == Placed(declared[..i], base) && fields[i..] == declared[i..]
      {
        ghost var before := fields[..i];
        assert fields[i] == fields[i..][0] == declared[i..][0] == declared[i];
        fields := fields[i := fields[i].(fieldix := Some(base + fields[i].rel))];
        count := count + 1;
        assert fields[..i + 1] == before + [fields[i]];
        assert declared[..i + 1][..i] == declared[..i];
      }
      assert fields[..|fields|] == fields && declared[..|fields|] == declared;
      PlacedDeclares(declared, base);
    }

    /** Phase 1 for a class: inherited aliases own no slot, so the others are renumbered. */
    method PlaceClassFields(declared: seq<Field>, base: nat) returns (fields: seq<Field>, count: nat)
      ensures fields == Placed(declared, base) && FieldsPlaced(fields, base) && count == OwnCount(fields)
      ensures |fields| == |declared| && forall i :: 0 <= i < |fields| ==> Declared(fields[i]) == Declared(declared[i])
    {
      fields, count := declared, 0;
      for i := 0 to |fields|
        invariant |fields| == |declared| && count == OwnCount(declared[..i])
        invariant fields[..i] == Placed(declared[..i], base) && fields[i..] == declared[i..]
      {
        ghost var before := fields[..i];
        assert fields[i] == fields[i..][0] == declared[i..][0] == declared[i];
        assert declared[..i + 1][..i] == declared[..i];
        if !fields[i].inherited {
          fields := fields[i := fields[i].(rel := count)];
          count := count + 1;
          fields := fields[i := fields[i].(fieldix := Some(base + fields[i].rel))];
        }
        assert fields[..i + 1] == before + [fields[i]];
      }
      assert fields[..|fields|] == fields && declared[..|fields|] == declared;
      PlacedDeclares(declared, base);
    }

    method SealRole(s: Stash) returns (bases: seq<nat>, fits: bool)
      requires Shaped(stashes) && s in stashes && stashes[s].kind == Role && !stashes[s].sealed
      modifies this
      ensures Shaped(stashes) && Extends(old(stashes), stashes)
      ensures stashes == old(stashes)[s := LaidOut(old(stashes), s)]
      ensures stashes[s].sealed && SameDeclaration(old(stashes)[s], stashes[s])
      ensures Linked(stashes, s) && BasesOf(stashes, s, bases)
      ensures fits <==> BlocksFit(old(stashes), s)
      ensures TableOk(old(stashes)) && NamesSealed(old(stashes), s) ==> TableOk(stashes) && SealedOk(stashes, s) && Flattened(stashes, s)
      ensures Clean(old(stashes)) ==> Clean(stashes)
    {
      hide Shaped, TableOk, Clean, LaidOut, Flat, Closure, RoleWidth, OwnBaseWord, Placed, FieldsPlaced, SealedOk;
      hide Flattened, BasesOf, BlocksFit, NamesSealed, Extends, SameDeclaration, Closed, RoleClosure.Within;
      OpenDeclaration(stashes, s);
      var a := stashes[s];
      a := a.(nextFieldix := 0);
      var roles, next;
      roles, bases, next, fits := ComposeLayout(a.pending, a.nextFieldix);
      a := a.(roles := roles, nextFieldix := next);
      var fields, count := PlaceRoleFields(a.fields, a.nextFieldix);
      a := a.(fields := fields, nextFieldix := a.nextFieldix + count, sealed := true);
      LaidOutIs(stashes, s, a, First(stashes, stashes[s]));
      SealingFacts(stashes, s, bases, fits);
      stashes := stashes[s := a];
    }

    /** Phase 1 of a role, on fields that may have been numbered before. */
    method PlaceAsIs(declared: seq<Field>, base: nat) returns (fields: seq<Field>, count: nat)
      ensures fields == PlacedAsIs(declared, base) && count == |declared|
    {
      fields, count := declared, 0;
      for i := 0 to |fields|
        invariant |fields| == |declared| && count == i
        invariant forall k :: 0 <= k < |fields| ==>
          fields[k] == if k < i then declared[k].(fieldix := Some(base + declared[k].rel)) else declared[k]
      {
        fields := fields[i := fields[i].(fieldix := Some(base + fields[i].rel))];
        count := count + 1;
      }
    }

    /** The roles of the record and its fields, done once more. */
    method ComposeAgain(s: Stash) returns (a: Aux)
      requires Shaped(stashes) && s in stashes
      ensures a == Resealed(stashes, s)
    {
      NamesWithin(stashes, s);
      hide *;
      a := stashes[s];
      a := a.(nextFieldix := 0);
      var roles, bases, next, fits := ComposeLayout(a.pending, a.nextFieldix);
      a := a.(roles := a.roles + roles, nextFieldix := next);
      var fields, count := PlaceAsIs(a.fields, a.nextFieldix);
      a := a.(fields := fields, nextFieldix := a.nextFieldix + count, reseal := false);
      ResealedIs(stashes, s, a, roles);
    }

    /** The end of a role's scope, when a class took the record over inside it and has
        been sealed: the sealing of roles runs on the sealed record. */
    method ResealRole(s: Stash)
      requires Shaped(stashes) && s in stashes && stashes[s].sealed && stashes[s].reseal
      modifies this
      ensures Shaped(stashes) && stashes == old(stashes)[s := Resealed(old(stashes), s)]
    {
      ResealingKeepsShaped(stashes, s);
      hide *;
      var a := ComposeAgain(s);
      stashes := stashes[s := a];
    }

    /** Collects a stash and everything it inherits from, parents first, keeping the classes. */
    method CollectClasses(s: Stash, lists: ClassLists)
      requires Closed(IsaGraph(stashes)) && s in stashes
      requires lists.Keeps(stashes)
      modifies lists
      ensures lists.Value() == Collect(IsaGraph(stashes), [s], old(lists.Value())) && lists.Keeps(stashes)
      decreases Unseen(IsaGraph(stashes), lists.seen), 0
    {
      ghost var g := IsaGraph(stashes);
      CollectOne(g, s, lists.Value());
      if s in lists.seen { return; }
      UnseenShrinks(g, lists.seen, s, lists.seen + [s]);
      lists.seen := lists.seen + [s];
      ParentsWithin(stashes, s);
      CollectParents(stashes[s].isa, lists);
      ClassesOfAppend(stashes, lists.finished, s);
      lists.finished := lists.finished + [s];
      if stashes[s].kind.IsClass() {
        lists.classes := lists.classes + [s];
      }
    }

    method CollectParents(isa: seq<Stash>, lists: ClassLists)
      requires Closed(IsaGraph(stashes)) && ObjectLayout.Within(stashes, isa)
      requires lists.Keeps(stashes)
      modifies lists
      ensures lists.Value() == Collect(IsaGraph(stashes), isa, old(lists.Value())) && lists.Keeps(stashes)
      decreases Unseen(IsaGraph(stashes), lists.seen), |isa|
    {
      ghost var g := IsaGraph(stashes);
      ghost var target := Collect(g, isa, lists.Value());
      for i := 0 to |isa|
        invariant old(lists.seen) <= lists.seen && lists.Keeps(stashes)
        invariant Collect(g, isa[i..], lists.Value()) == target
      {
        assert isa[i..][0] == isa[i] && isa[i..][1..] == isa[i + 1..];
        CollectHead(g, isa[i..], lists.Value());
        UnseenMonotone(g, old(lists.seen), lists.seen);
        CollectClasses(isa[i], lists);
      }
    }

    /** The classes a stash inherits from, itself included, parents first. */
    method ClassesAbove(s: Stash) returns (classes: seq<Stash>)
      requires Shaped(stashes) && s in stashes
      ensures Closed(IsaGraph(stashes)) && ObjectLayout.Within(stashes, Closure(IsaGraph(stashes), [s]))
      ensures classes == ClassesOf(stashes, Closure(IsaGraph(stashes), [s]))
    {
      IsaClosed(stashes);
      var lists := new ClassLists();
      CollectClasses(s, lists);
      classes := lists.classes;
    }

    /** Lays out a class whose superclass is sealed. */
    method LayOutClass(s: Stash) returns (bases: seq<nat>, fits: bool)
      requires Shaped(stashes) && s in stashes && stashes[s].kind.IsClass() && !stashes[s].sealed
      requires stashes[s].superclass.Some? ==> stashes[s].superclass.value in stashes && stashes[stashes[s].superclass.value].sealed
      modifies this
      ensures Shaped(stashes) && Extends(old(stashes), stashes)
      ensures stashes == old(stashes)[s := LaidOut(old(stashes), s)]
      ensures stashes[s].sealed && SameDeclaration(old(stashes)[s], stashes[s])
      ensures Linked(stashes, s) && BasesOf(stashes, s, bases)
      ensures fits <==> BlocksFit(old(stashes), s)
      ensures TableOk(old(stashes)) && NamesSealed(old(stashes), s) ==> TableOk(stashes) && SealedOk(stashes, s) && Flattened(stashes, s)
      ensures Clean(old(stashes)) ==> Clean(stashes)
    {
      hide Shaped, TableOk, Clean, LaidOut, Flat, Closure, RoleWidth, OwnBaseWord, Placed, FieldsPlaced, SealedOk;
      hide Flattened, BasesOf, BlocksFit, NamesSealed, Extends, SameDeclaration, Closed, RoleClosure.Within;
      OpenDeclaration(stashes, s);
      var a := stashes[s];
      if a.superclass.Some? {
        a := a.(nextFieldix := stashes[a.superclass.value].nextFieldix);
      } else {
        a := a.(nextFieldix := 0);
      }
      var roles, next;
      roles, bases, next, fits := ComposeLayout(a.pending, a.nextFieldix);
      a := a.(roles := roles, nextFieldix := next);
      var fields, count := PlaceClassFields(a.fields, a.nextFieldix);
      a := a.(fields := fields, nextFieldix := a.nextFieldix + count, sealed := true);
      LaidOutIs(stashes, s, a, First(stashes, stashes[s]));
      SealingFacts(stashes, s, bases, fits);
      stashes := stashes[s := a];
    }

    /** Seals a class, sealing on demand whatever it inherits from. */
    method SealClass(s: Stash)
      requires Shaped(stashes) && s in stashes && stashes[s].kind.IsClass()
      requires Acyclic(IsaGraph(stashes), [s])
      modifies this
      ensures Shaped(stashes) && Extends(old(stashes), stashes) && SameDeclarations(old(stashes), stashes)
      ensures SealsOnlyAncestors(old(stashes), stashes, s)
      ensures stashes[s].sealed
      ensures !old(stashes)[s].sealed ==> AncestorsSealed(stashes, s)
      ensures Clean(old(stashes)) ==> Clean(stashes)
      decreases Below(IsaGraph(stashes), s), 2
    {
      hide Shaped, Clean, TableOk, Acyclic;
      if stashes[s].sealed { return; }
      SealSuperclass(s);
      ghost var t := stashes;
      SameParents(old(stashes), t);
      SealAncestors(s);
      SealsCompose(old(stashes), t, stashes, s);
      t := stashes;
      SealLast(s);
      SealsCompose(old(stashes), t, stashes, s);
    }

    /** The class itself comes last. */
    method SealLast(s: Stash)
      requires Shaped(stashes) && s in stashes && stashes[s].kind.IsClass() && !stashes[s].sealed
      requires stashes[s].superclass.Some? ==> stashes[s].superclass.value in stashes && stashes[stashes[s].superclass.value].sealed
      requires SealedAboveAll(stashes, s)
      modifies this
      ensures Shaped(stashes) && Extends(old(stashes), stashes) && SameDeclarations(old(stashes), stashes)
      ensures SealsOnlyAncestors(old(stashes), stashes, s)
      ensures stashes[s].sealed && AncestorsSealed(stashes, s)
      ensures Clean(old(stashes)) ==> Clean(stashes)
    {
      hide Shaped, Clean, TableOk, LaidOut, BlocksFit, BasesOf, SealedOk, Extends;
      ghost var t := stashes;
      var _, _ := LayOutClass(s);
      LaidOutLast(t, s, stashes[s]);
    }

    method SealSuperclass(s: Stash)
      requires Shaped(stashes) && s in stashes && !stashes[s].sealed && stashes[s].kind.IsClass()
      requires Acyclic(IsaGraph(stashes), [s])
      modifies this
      ensures Shaped(stashes) && Extends(old(stashes), stashes) && SameDeclarations(old(stashes), stashes)
      ensures SealsOnlyAncestors(old(stashes), stashes, s) && !stashes[s].sealed
      ensures stashes[s].kind.IsClass() && stashes[s].superclass == old(stashes)[s].superclass
      ensures stashes[s].superclass.Some? ==> stashes[s].superclass.value in stashes && stashes[stashes[s].superclass.value].sealed
      ensures Clean(old(stashes)) ==> Clean(stashes)
      decreases Below(IsaGraph(stashes), s), 1
    {
      hide Shaped, Clean, TableOk, Acyclic;
      var superclass := stashes[s].superclass;
      if superclass.Some? {
        SuperclassReached(stashes, s);
        SealAncestor(s, superclass.value);
        assert SameDeclaration(old(stashes)[s], stashes[s]);
      }
    }

    method SealAncestor(s: Stash, p: Stash)
      requires Shaped(stashes) && s in stashes && !stashes[s].sealed
      requires p in stashes && stashes[p].kind.IsClass() && p != s
      requires Acyclic(IsaGraph(stashes), [s]) && Reaches(IsaGraph(stashes), [s], p)
      modifies this
      ensures Shaped(stashes) && Extends(old(stashes), stashes) && SameDeclarations(old(stashes), stashes)
      ensures SealsOnlyAncestors(old(stashes), stashes, s)
      ensures stashes[p].sealed && !stashes[s].sealed
      ensures Clean(old(stashes)) ==> Clean(stashes)
      decreases Below(IsaGraph(stashes), s), 0
    {
      IsaClosed(stashes);
      BelowShrinks(IsaGraph(stashes), s, p);
      SealClass(p);
      SealedAbove(old(stashes), stashes, s, p);
    }

    method SealAncestors(s: Stash)
      requires Shaped(stashes) && s in stashes && !stashes[s].sealed && stashes[s].kind.IsClass()
      requires Acyclic(IsaGraph(stashes), [s])
      modifies this
      ensures Shaped(stashes) && Extends(old(stashes), stashes) && SameDeclarations(old(stashes), stashes)
      ensures SealsOnlyAncestors(old(stashes), stashes, s) && !stashes[s].sealed
      ensures SealedAboveAll(stashes, s) && stashes[s].kind.IsClass()
      ensures stashes[s].superclass == old(stashes)[s].superclass
      ensures Clean(old(stashes)) ==> Clean(stashes)
      decreases Below(IsaGraph(stashes), s), 1
    {
      hide Shaped, Clean;
      ghost var t0 := stashes;
      var ancestors := ClassesAbove(s);
      AncestorClasses(t0, s, ancestors);
      for i := 0 to |ancestors|
        invariant Shaped(stashes) && Extends(t0, stashes) && SameDeclarations(t0, stashes)
        invariant IsaGraph(stashes) == IsaGraph(t0)
        invariant SealsOnlyAncestors(t0, stashes, s) && !stashes[s].sealed
        invariant SealedBut(stashes, ancestors[..i], s)
        invariant Clean(t0) ==> Clean(stashes)
      {
        assert ancestors[i] in ancestors;
        ghost var t := stashes;
        if ancestors[i] != s && !stashes[ancestors[i]].sealed {
          assert SameDeclaration(t0[ancestors[i]], t[ancestors[i]]);
          SealAncestor(s, ancestors[i]);
          SealsCompose(t0, t, stashes, s);
          SameParents(t0, stashes);
        }
        TakeNext(ancestors, i);
        SealedButNext(t, stashes, ancestors[..i], ancestors[i], s);
      }
      assert ancestors[..|ancestors|] == ancestors;
      SealedThroughout(t0, stashes, s, ancestors);
      assert SameDeclaration(t0[s], stashes[s]);
    }
  }
}
