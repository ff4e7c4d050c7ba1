/** Installing the methods of the composed roles into the consumer. */
module Installation {
  import opened RoleClosure
  import opened ObjectLayout
  import opened LayoutFacts
  import opened InstanceLayout
  import opened FieldWalks
  import opened Participants
  import opened Sealing

  const NEW: Name := 0

  /** An entry of the consumer's symbol table: it may be missing, or be there without code. */
  datatype Cell = Absent | NoCode | Code(cv: Cv)

  datatype InstallError = ProviderConflict(name: Name, existing: Stash, incoming: Stash)

  datatype Outcome = Done(cell: Cell) | Conflict(error: InstallError)

  /** How the fields of a provider are relocated in the consumer. */
  type Relocation = map<Stash, nat>

  function Relocated(cv: Cv, offsets: Relocation): Cv {
    cv.(offset := if cv.provider in offsets then offsets[cv.provider] else 0)
  }

  /** One entry of a role against the consumer's entry of the same name. */
  function InstallEntry(name: Name, cell: Cell, incoming: Cv, explicit: bool, isRole: bool, offsets: Relocation): Outcome {
    if name == NEW || !incoming.isMethod then Done(cell)
    else if incoming.body == None then
      if cell.Code? && cell.cv.body.Some? then Done(cell)
      else if isRole && cell.Absent? then Done(Code(incoming))
      else Done(cell)
    else if !cell.Code? then Done(Code(Relocated(incoming, offsets)))
    else if cell.cv == incoming || cell.cv.provider == incoming.provider then Done(cell)
    else if cell.cv.body == None then Done(Code(Relocated(incoming, offsets)))
    else if cell.cv.isMethod && explicit then Done(cell)
    else if cell.cv.isMethod then Conflict(ProviderConflict(name, cell.cv.provider, incoming.provider))
    else Done(Code(Relocated(incoming, offsets)))
  }

  /** The symbol table of a role. */
  type Symbols = map<Name, Cv>

  /** What all roles, in order, make of one name. */
  function InstallName(name: Name, cell: Cell, roles: seq<Symbols>, explicit: bool, isRole: bool, offsets: Relocation): Outcome {
    if roles == [] then Done(cell)
    else
      var n := |roles| - 1;
      match InstallName(name, cell, roles[..n], explicit, isRole, offsets)
      case Conflict(e) => Conflict(e)
      case Done(c) =>
        if name in roles[n] then InstallEntry(name, c, roles[n][name], explicit, isRole, offsets) else Done(c)
  }

  // ----- the loops

  class Consumer {
    var cells: map<Name, Cell>
    const explicit: set<Name>
    const isRole: bool

    constructor (cells: map<Name, Cell>, explicit: set<Name>, isRole: bool)
      ensures this.cells == cells && this.explicit == explicit && this.isRole == isRole
    {
      this.cells, this.explicit, this.isRole := cells, explicit, isRole;
    }

    function At(name: Name): Cell
      reads this
    {
      if name in cells then cells[name] else Absent
    }

    /** Installs one role; its symbol table is walked in no particular order. */
    method InstallRole(role: Symbols, offsets: Relocation) returns (error: Option<InstallError>)
      modifies this`cells
      ensures error.None? <==> forall n :: n in role ==> InstallEntry(n, old(At(n)), role[n], n in explicit, isRole, offsets).Done?
      ensures error.None? ==> forall n ::
        (At(n) == if n in role then InstallEntry(n, old(At(n)), role[n], n in explicit, isRole, offsets).cell else old(At(n)))
      ensures error.Some? ==> exists n :: n in role && InstallEntry(n, old(At(n)), role[n], n in explicit, isRole, offsets) == Conflict(error.value)
    {
      hide InstallEntry;
      var remaining := role.Keys;
      while remaining != {}
        invariant remaining <= role.Keys
        invariant forall n :: n in role && n !in remaining ==> InstallEntry(n, old(At(n)), role[n], n in explicit, isRole, offsets).Done?
        invariant forall n ::
          (At(n) == if n in role && n !in remaining then InstallEntry(n, old(At(n)), role[n], n in explicit, isRole, offsets).cell
                    else old(At(n)))
        decreases remaining
      {
        var name :| name in remaining;
        var outcome := InstallEntry(name, At(name), role[name], name in explicit, isRole, offsets);
        NeverRemoves(name, At(name), role[name], name in explicit, isRole, offsets);
        if outcome.Conflict? { return Some(outcome.error); }
        if outcome.cell != Absent { cells := cells[name := outcome.cell]; }
        remaining := remaining - {name};
      }
      return None;
    }

    /** Installs the directly composed roles one after the other. */
    method InstallRoles(roles: seq<Symbols>, offsets: Relocation) returns (error: Option<InstallError>)
      modifies this`cells
      ensures error.None? <==> forall n :: InstallName(n, old(At(n)), roles, n in explicit, isRole, offsets).Done?
      ensures error.None? ==> forall n :: At(n) == InstallName(n, old(At(n)), roles, n in explicit, isRole, offsets).cell
    {
      hide InstallEntry;
      for ri := 0 to |roles|
        invariant forall n :: InstallName(n, old(At(n)), roles[..ri], n in explicit, isRole, offsets) == Done(At(n))
      {
        label L:
        error := InstallRole(roles[ri], offsets);
        assert roles[..ri + 1][..ri] == roles[..ri] && roles[..ri + 1][ri] == roles[ri];
        if error.Some? {
          ghost var n :| n in roles[ri] && InstallEntry(n, old@L(At(n)), roles[ri][n], n in explicit, isRole, offsets) == Conflict(error.value);
          assert InstallName(n, old(At(n)), roles[..ri + 1], n in explicit, isRole, offsets).Conflict?;
          ConflictStays(n, old(At(n)), roles, ri + 1, n in explicit, isRole, offsets);
          return;
        }
      }
      assert roles[..|roles|] == roles;
      return None;
    }
  }

  lemma NeverRemoves(name: Name, cell: Cell, incoming: Cv, explicit: bool, isRole: bool, offsets: Relocation)
    ensures var r := InstallEntry(name, cell, incoming, explicit, isRole, offsets);
            r.Done? && r.cell == Absent ==> cell == Absent
  {}

  lemma {:induction false} ConflictStays(name: Name, cell: Cell, roles: seq<Symbols>, k: nat, explicit: bool, isRole: bool, offsets: Relocation)
    requires k <= |roles| && InstallName(name, cell, roles[..k], explicit, isRole, offsets).Conflict?
    ensures InstallName(name, cell, roles, explicit, isRole, offsets).Conflict?
    decreases |roles| - k
  {
    if k < |roles| {
      assert roles[..k + 1][..k] == roles[..k];
      ConflictStays(name, cell, roles, k + 1, explicit, isRole, offsets);
    } else {
      assert roles[..k] == roles;
    }
  }

  // ----- what installation means for one name

  /** The consumer already has a method with a body. */
  predicate OwnMethod(cell: Cell) {
    cell.Code? && cell.cv.isMethod && cell.cv.body.Some?
  }

  /** What the roles offer for a name, as far as the consumer looks at it: the stash of
      the entry that holds the place without being a method with a body, and the
      providers of the bodies that count. */
  datatype Offers = Offers(holder: Option<Stash>, providers: set<Stash>)

  /** A stub takes an empty place in a role; a body from the stash of whatever holds the
      place is taken for the same method and does not count. */
  function Offer(o: Offers, incoming: Cv, takesPlace: bool): Offers {
    if !incoming.isMethod then o
    else if incoming.body == None then
      if takesPlace && o.holder == None && o.providers == {} then o.(holder := Some(incoming.provider)) else o
    else if o.providers == {} && o.holder == Some(incoming.provider) then o
    else o.(providers := o.providers + {incoming.provider})
  }

  /** What a consumer that has no method with a body is offered, role by role. */
  function Offered(name: Name, cell: Cell, roles: seq<Symbols>, isRole: bool): Offers {
    if roles == [] then Offers(if cell.Code? then Some(cell.cv.provider) else None, {})
    else
      var n := |roles| - 1;
      var o := Offered(name, cell, roles[..n], isRole);
      if name in roles[n] then Offer(o, roles[n][name], isRole && cell.Absent?) else o
  }

  /** The providers of the bodies that the roles hold for a name. */
  function BodyProviders(name: Name, roles: seq<Symbols>): set<Stash> {
    set r: Symbols | r in roles && name in r && r[name].isMethod && r[name].body.Some? :: r[name].provider
  }

  lemma BodyProvidersNext(name: Name, roles: seq<Symbols>)
    requires roles != []
    ensures var n := |roles| - 1;
            BodyProviders(name, roles) == BodyProviders(name, roles[..n])
              + if name in roles[n] && roles[n][name].isMethod && roles[n][name].body.Some? then {roles[n][name].provider} else {}
  {
    var n := |roles| - 1;
    assert roles == roles[..n] + [roles[n]];
  }

  /** Nothing from a stash that provides a body holds the place without one. */
  ghost predicate OneEntryPerStash(name: Name, cell: Cell, roles: seq<Symbols>) {
    && (forall r: Symbols :: r in roles && name in r && r[name].body == None ==> r[name].provider !in BodyProviders(name, roles))
    && (cell.Code? && !OwnMethod(cell) ==> cell.cv.provider !in BodyProviders(name, roles))
  }

  /** Then all bodies count. */
  lemma {:induction false} AllBodiesCount(name: Name, cell: Cell, roles: seq<Symbols>, all: seq<Symbols>, isRole: bool)
    requires OneEntryPerStash(name, cell, all) && roles <= all && !OwnMethod(cell)
    ensures Offered(name, cell, roles, isRole).providers == BodyProviders(name, roles)
    ensures var h := Offered(name, cell, roles, isRole).holder; h.Some? ==> h.value !in BodyProviders(name, all)
  {
    if roles != [] {
      var n := |roles| - 1;
      var last := roles[n];
      AllBodiesCount(name, cell, roles[..n], all, isRole);
      BodyProvidersNext(name, roles);
      assert last in all;
      if name in last && last[name].isMethod && last[name].body.Some? {
        assert last[name].provider in BodyProviders(name, all);
      }
    }
  }

  /** What a consumer without a method of its own ends with: its entry or a stub, the
      body of the one provider, or a conflict. */
  ghost predicate Taken(cell: Cell, o: Offers, out: Outcome) {
    if o.providers == {} then
      && out.Done? && !OwnMethod(out.cell) && (out.cell == cell || (cell.Absent? && out.cell.Code?))
      && o.holder == (if out.cell.Code? then Some(out.cell.cv.provider) else None)
    else if exists p :: o.providers == {p} then out.Done? && OwnMethod(out.cell) && o.providers == {out.cell.cv.provider}
    else out.Conflict?
  }

  /** The outcome for one name, from the providers alone. */
  ghost predicate Expected(name: Name, cell: Cell, roles: seq<Symbols>, explicit: bool, isRole: bool, out: Outcome) {
    if OwnMethod(cell) then
      if explicit || BodyProviders(name, roles) <= {cell.cv.provider} then out == Done(cell) else out.Conflict?
    else
      Taken(cell, Offered(name, cell, roles, isRole), out)
  }

  lemma OwnNext(cell: Cell, before: set<Stash>, incoming: Cv, explicit: bool, name: Name, isRole: bool, offsets: Relocation)
    requires OwnMethod(cell) && (explicit || before <= {cell.cv.provider})
    requires name != NEW && incoming.isMethod && incoming.body.Some?
    ensures var out := InstallEntry(name, cell, incoming, explicit, isRole, offsets);
            if explicit || before + {incoming.provider} <= {cell.cv.provider} then out == Done(cell) else out.Conflict?
  {
    assert incoming.provider in before + {incoming.provider};
  }

  /** One more body: as long as nothing but the holder of the place is there, a body of
      another stash is installed; after that one of another stash conflicts. */
  lemma BodyOffered(name: Name, cell: Cell, o: Offers, c: Cell, incoming: Cv, isRole: bool, takesPlace: bool, offsets: Relocation)
    requires name != NEW && incoming.isMethod && incoming.body.Some? && Taken(cell, o, Done(c))
    ensures Taken(cell, Offer(o, incoming, takesPlace), InstallEntry(name, c, incoming, false, isRole, offsets))
  {
    var after := Offer(o, incoming, takesPlace).providers;
    if o.providers != {} {
      var q := c.cv.provider;
      assert q in after && incoming.provider in after;
      if q == incoming.provider {
        assert after == {q};
      } else {
        assert forall p :: after == {p} ==> q in {p} && incoming.provider in {p};
      }
    }
  }

  /** A requirement, or a sub that is no method. */
  lemma StubOffered(name: Name, cell: Cell, o: Offers, c: Cell, incoming: Cv, isRole: bool, offsets: Relocation)
    requires name != NEW && (!incoming.isMethod || incoming.body == None) && Taken(cell, o, Done(c)) && !OwnMethod(cell)
    ensures Taken(cell, Offer(o, incoming, isRole && cell.Absent?), InstallEntry(name, c, incoming, false, isRole, offsets))
  {
    WithoutBody(name, c, incoming, false, isRole, offsets);
    hide InstallEntry;
  }

  /** A requirement, or a sub that is no method, never replaces or conflicts. */
  lemma WithoutBody(name: Name, cell: Cell, incoming: Cv, explicit: bool, isRole: bool, offsets: Relocation)
    requires name != NEW && (!incoming.isMethod || incoming.body == None)
    ensures InstallEntry(name, cell, incoming, explicit, isRole, offsets)
            == Done(if incoming.isMethod && isRole && cell.Absent? then Code(incoming) else cell)
  {}

  lemma StillConflicting(before: set<Stash>, p: Stash)
    ensures (exists q :: before + {p} == {q}) ==> before == {} || exists q :: before == {q}
  {
    if exists q :: before + {p} == {q} {
      var q :| before + {p} == {q};
      if before != {} {
        var r :| r in before;
        assert r in before + {p};
        assert before == {q};
      }
    }
  }

  lemma OwnStep(name: Name, cell: Cell, roles: seq<Symbols>, explicit: bool, isRole: bool, offsets: Relocation)
    requires name != NEW && roles != [] && OwnMethod(cell)
    requires Expected(name, cell, roles[..|roles| - 1], explicit, isRole, InstallName(name, cell, roles[..|roles| - 1], explicit, isRole, offsets))
    ensures Expected(name, cell, roles, explicit, isRole, InstallName(name, cell, roles, explicit, isRole, offsets))
  {
    var n := |roles| - 1;
    var front, last := roles[..n], roles[n];
    BodyProvidersNext(name, roles);
    var before := BodyProviders(name, front);
    hide BodyProviders, InstallEntry;
    if name in last && InstallName(name, cell, front, explicit, isRole, offsets).Done? {
      if last[name].isMethod && last[name].body.Some? {
        OwnNext(cell, before, last[name], explicit, name, isRole, offsets);
      } else {
        WithoutBody(name, cell, last[name], explicit, isRole, offsets);
      }
    }
  }

  lemma OfferConflicts(o: Offers, incoming: Cv, takesPlace: bool)
    requires o.providers != {} && !exists p :: o.providers == {p}
    ensures var after := Offer(o, incoming, takesPlace).providers; after != {} && !exists p :: after == {p}
    ensures forall cell, e :: Taken(cell, Offer(o, incoming, takesPlace), Outcome.Conflict(e))
  {
    StillConflicting(o.providers, incoming.provider);
  }

  lemma OfferStep(name: Name, cell: Cell, roles: seq<Symbols>, isRole: bool, offsets: Relocation)
    requires name != NEW && roles != [] && !OwnMethod(cell)
    requires Expected(name, cell, roles[..|roles| - 1], false, isRole, InstallName(name, cell, roles[..|roles| - 1], false, isRole, offsets))
    ensures Expected(name, cell, roles, false, isRole, InstallName(name, cell, roles, false, isRole, offsets))
  {
    var n := |roles| - 1;
    var front, last := roles[..n], roles[n];
    var o, mid := Offered(name, cell, front, isRole), InstallName(name, cell, front, false, isRole, offsets);
    if name in last {
      if mid.Conflict? {
        OfferConflicts(o, last[name], isRole && cell.Absent?);
      } else if last[name].isMethod && last[name].body.Some? {
        BodyOffered(name, cell, o, mid.cell, last[name], isRole, isRole && cell.Absent?, offsets);
      } else {
        StubOffered(name, cell, o, mid.cell, last[name], isRole, offsets);
      }
      hide Taken, Offer, InstallEntry, OwnMethod;
    }
  }

  /** If installation succeeds, a name ends with one original provider: the consumer
      when it wrote the method itself, otherwise the one provider of all bodies that
      count; two different providers always conflict, one reached along several roads
      never does.  An entry of the consumer that is no method with a body, a plain sub
      or an alias included, stays in its place before bodies of its own stash. */
  lemma {:induction false} SingleProvider(name: Name, cell: Cell, roles: seq<Symbols>, explicit: bool, isRole: bool, offsets: Relocation)
    requires name != NEW && (explicit ==> OwnMethod(cell))
    ensures Expected(name, cell, roles, explicit, isRole, InstallName(name, cell, roles, explicit, isRole, offsets))
  {
    if roles != [] {
      SingleProvider(name, cell, roles[..|roles| - 1], explicit, isRole, offsets);
      if OwnMethod(cell) {
        OwnStep(name, cell, roles, explicit, isRole, offsets);
      } else {
        OfferStep(name, cell, roles, isRole, offsets);
      }
      hide Expected, InstallName;
    }
  }

  /** The generated constructor of a role is never installed. */
  lemma {:induction false} NewIsLeftAlone(cell: Cell, roles: seq<Symbols>, explicit: bool, isRole: bool, offsets: Relocation)
    ensures InstallName(NEW, cell, roles, explicit, isRole, offsets) == Done(cell)
  {
    if roles != [] { NewIsLeftAlone(cell, roles[..|roles| - 1], explicit, isRole, offsets); }
  }

  /** The first requirement that one of the roles has for the name. */
  ghost predicate FirstStub(name: Name, roles: seq<Symbols>, i: nat) {
    && i < |roles| && name in roles[i] && roles[i][name].isMethod
    && forall j :: 0 <= j < i ==> name in roles[j] ==> !roles[j][name].isMethod
  }

  /** Where no role has a body for a name, a class is left as it is, and so is a role with an
      entry of its own; a role without one takes over the first requirement. */
  lemma {:induction false} StubsPassOn(name: Name, cell: Cell, roles: seq<Symbols>, explicit: bool, isRole: bool, offsets: Relocation)
    requires name != NEW && BodyProviders(name, roles) == {}
    ensures var out := InstallName(name, cell, roles, explicit, isRole, offsets);
            if isRole && cell.Absent? && exists i: nat :: FirstStub(name, roles, i)
            then exists i: nat :: FirstStub(name, roles, i) && out == Done(Code(roles[i][name]))
            else out == Done(cell)
  {
    if roles != [] {
      var n := |roles| - 1;
      var front, last := roles[..n], roles[n];
      BodyProvidersNext(name, roles);
      StubsPassOn(name, cell, front, explicit, isRole, offsets);
      FirstStubNext(name, roles);
      hide BodyProviders, FirstStub, InstallEntry;
      if name in last {
        NoBodyHere(name, roles, n);
        var mid := InstallName(name, cell, front, explicit, isRole, offsets);
        WithoutBody(name, mid.cell, last[name], explicit, isRole, offsets);
      }
    }
  }

  lemma NoBodyHere(name: Name, roles: seq<Symbols>, n: nat)
    requires n < |roles| && name in roles[n] && BodyProviders(name, roles) == {}
    ensures roles[n][name].isMethod ==> roles[n][name].body == None
  {
    var r := roles[n];
    var cv := r[name];
    assert r in roles;
    assert cv.isMethod && cv.body.Some? ==> cv.provider in BodyProviders(name, roles);
  }

  lemma FirstStubNext(name: Name, roles: seq<Symbols>)
    requires roles != []
    ensures var n := |roles| - 1;
            && (forall i: nat :: FirstStub(name, roles[..n], i) ==> FirstStub(name, roles, i) && roles[..n][i] == roles[i])
            && (name in roles[n] && roles[n][name].isMethod && !(exists i: nat :: FirstStub(name, roles[..n], i)) ==> FirstStub(name, roles, n))
            && (forall i: nat :: FirstStub(name, roles, i) ==> (i < n && FirstStub(name, roles[..n], i)) || (i == n && name in roles[n] && roles[n][name].isMethod))
  {
    var n := |roles| - 1;
    if name in roles[n] && roles[n][name].isMethod && !(exists i: nat :: FirstStub(name, roles[..n], i)) {
      forall j | 0 <= j < n && name in roles[j] ensures !roles[j][name].isMethod { NoStubBefore(name, roles[..n], j); }
    }
  }

  lemma {:induction false} NoStubBefore(name: Name, roles: seq<Symbols>, j: nat)
    requires j < |roles| && name in roles[j] && !(exists i: nat :: FirstStub(name, roles, i))
    ensures !roles[j][name].isMethod
  {
    forall k | 0 <= k < j && name in roles[k] ensures !roles[k][name].isMethod { NoStubBefore(name, roles, k); }
    assert roles[j][name].isMethod ==> FirstStub(name, roles, j);
  }

  /** A conflict names the provider of what is there, the consumer's own or from an earlier
      role, and that of the first body from another stash that it meets. */
  lemma {:induction false} ConflictNames(name: Name, cell: Cell, roles: seq<Symbols>, explicit: bool, isRole: bool, offsets: Relocation)
    requires InstallName(name, cell, roles, explicit, isRole, offsets).Conflict?
    ensures var e := InstallName(name, cell, roles, explicit, isRole, offsets).error;
            && e.name == name && e.existing != e.incoming
            && exists i: nat :: i < |roles| && Collides(name, cell, roles, explicit, isRole, offsets, i, e)
  {
    var n := |roles| - 1;
    if InstallName(name, cell, roles[..n], explicit, isRole, offsets).Conflict? {
      ConflictNames(name, cell, roles[..n], explicit, isRole, offsets);
      var e := InstallName(name, cell, roles, explicit, isRole, offsets).error;
      var i: nat :| i < n && Collides(name, cell, roles[..n], explicit, isRole, offsets, i, e);
      assert roles[..n][..i] == roles[..i];
      assert Collides(name, cell, roles, explicit, isRole, offsets, i, e);
    } else {
      assert Collides(name, cell, roles, explicit, isRole, offsets, n, InstallName(name, cell, roles, explicit, isRole, offsets).error);
    }
  }

  ghost predicate Collides(name: Name, cell: Cell, roles: seq<Symbols>, explicit: bool, isRole: bool, offsets: Relocation, i: nat, e: InstallError)
    requires i < |roles|
  {
    var before := InstallName(name, cell, roles[..i], explicit, isRole, offsets);
    && before.Done? && before.cell.Code? && before.cell.cv.isMethod && before.cell.cv.body.Some? && before.cell.cv.provider == e.existing
    && name in roles[i] && roles[i][name].isMethod && roles[i][name].body.Some? && roles[i][name].provider == e.incoming
  }

  // ----- relocation of what is installed

  /** The base of a role in the layout being built; None where the original panics. */
  method RoleFieldBase(roles: seq<Stash>, bases: seq<nat>, role: Stash) returns (base: Option<nat>)
    requires |roles| == |bases| && NoDup(roles)
    ensures base.None? <==> role !in roles
    ensures forall k :: 0 <= k < |roles| && roles[k] == role ==> base == Some(bases[k])
  {
    for i := 0 to |roles|
      invariant role !in roles[..i]
    {
      if roles[i] == role { return Some(bases[i]); }
    }
    return None;
  }

  /** Every composed role is relocated by the difference of its two bases. */
  ghost predicate RelocationsOf(t: Table, s: Stash, offsets: Relocation)
    requires s in t && SealedOk(t, s)
  {
    forall k: nat :: k < |t[s].roles| ==> t[s].roles[k] in offsets && OffsetAt(t, s, k, offsets[t[s].roles[k]])
  }

  /** The relocation of one role from the recorded bases; the subtraction never underflows. */
  method RelocationAt(table: SymbolTable, s: Stash, bases: seq<nat>, ghost k: nat, role: Stash) returns (offset: nat)
    requires TableOk(table.stashes) && s in table.stashes && table.stashes[s].sealed && SealedOk(table.stashes, s)
    requires BasesOf(table.stashes, s, bases) && k < |table.stashes[s].roles| && table.stashes[s].roles[k] == role
    ensures OffsetAt(table.stashes, s, k, offset)
  {
    hide SealedOk, RoleBase, LocalBase;
    RolesDistinct(table.stashes, s);
    RelocationNonNegative(table.stashes, s, k);
    SealedRecord(table.stashes, role);
    var base := RoleFieldBase(table.stashes[s].roles, bases, role);
    var local := table.OwnFieldBase(role);
    return base.value - local;
  }

  method Relocations(table: SymbolTable, s: Stash, bases: seq<nat>) returns (offsets: Relocation)
    requires TableOk(table.stashes) && s in table.stashes && table.stashes[s].sealed && SealedOk(table.stashes, s)
    requires BasesOf(table.stashes, s, bases)
    ensures RelocationsOf(table.stashes, s, offsets)
  {
    var roles := table.stashes[s].roles;
    offsets := map[];
    hide SealedOk, OffsetAt, BasesOf, TableOk;
    RolesDistinct(table.stashes, s);
    for i := 0 to |roles|
      invariant forall k: nat :: k < i ==> roles[k] in offsets && OffsetAt(table.stashes, s, k, offsets[roles[k]])
    {
      var offset := RelocationAt(table, s, bases, i, roles[i]);
      offsets := offsets[roles[i] := offset];
    }
  }

  lemma RolesDistinct(t: Table, s: Stash)
    requires s in t && SealedOk(t, s)
    ensures NoDup(t[s].roles) && s !in t[s].roles
  {}

  /** The entry came from a role: its method relocated, or its requirement as it is. */
  ghost predicate FromRole(name: Name, r: Symbols, offsets: Relocation, cell: Cell) {
    && name in r && r[name].isMethod
    && cell == Code(if r[name].body.Some? then Relocated(r[name], offsets) else r[name])
  }

  lemma EntryKeptOrFromRole(name: Name, cell: Cell, r: Symbols, explicit: bool, isRole: bool, offsets: Relocation)
    requires name in r
    ensures var out := InstallEntry(name, cell, r[name], explicit, isRole, offsets);
            out.Done? ==> out.cell == cell || FromRole(name, r, offsets, out.cell)
  {}

  /** Whatever the consumer had before, and however many roles are installed, an entry
      ends as it was or as one of the roles has it, relocated for its provider. */
  lemma {:induction false} KeptOrFromRole(name: Name, cell: Cell, roles: seq<Symbols>, explicit: bool, isRole: bool, offsets: Relocation)
    ensures var out := InstallName(name, cell, roles, explicit, isRole, offsets);
            out.Done? ==> out.cell == cell || exists r :: r in roles && FromRole(name, r, offsets, out.cell)
  {
    if roles != [] {
      var n := |roles| - 1;
      KeptOrFromRole(name, cell, roles[..n], explicit, isRole, offsets);
      var mid := InstallName(name, cell, roles[..n], explicit, isRole, offsets);
      if mid.Done? && name in roles[n] {
        EntryKeptOrFromRole(name, mid.cell, roles[n], explicit, isRole, offsets);
      }
      hide InstallEntry, FromRole;
      assert roles[n] in roles && forall r :: r in roles[..n] ==> r in roles;
    }
  }

  lemma RelocationFits(t: Table, s: Stash, offsets: Relocation, provider: Stash, bound: seq<nat>)
    requires TableOk(t) && ClassReady(t, s) && t[s].sealed && SealedOk(t, s) && RelocationsOf(t, s, offsets)
    requires provider in t[s].roles && provider in t && forall i :: i in bound ==> OwnField(t, provider, i)
    ensures provider in offsets && Installed(t, MethodCv(provider, s, Some(offsets[provider]), bound))
  {
    hide SealedOk, RoleBase, LocalBase;
    var k: nat :| k < |t[s].roles| && t[s].roles[k] == provider;
    RolesDistinct(t, s);
    assert OffsetAt(t, s, k, offsets[provider]);
    assert InstalledAt(t, MethodCv(provider, s, Some(offsets[provider]), bound), k);
  }

  /** A method that composition installs is what entering a method expects: from any
      entry that the consumer had, over all its roles, a method with a body that came
      from a role carries the relocation of its provider, which is the one that leads
      from sealing to the slot that a field is read from. */
  lemma InstalledForMethodStart(t: Table, s: Stash, offsets: Relocation, name: Name, cell: Cell, roles: seq<Symbols>,
                                explicit: bool, isRole: bool, bound: seq<nat>)
    requires TableOk(t) && ClassReady(t, s) && t[s].sealed && SealedOk(t, s) && RelocationsOf(t, s, offsets)
    ensures var out := InstallName(name, cell, roles, explicit, isRole, offsets);
            out.Done? && out.cell != cell && OwnMethod(out.cell) && out.cell.cv.provider in t[s].roles &&
            out.cell.cv.provider in t && (forall i :: i in bound ==> OwnField(t, out.cell.cv.provider, i)) ==>
              Installed(t, MethodCv(out.cell.cv.provider, s, Some(out.cell.cv.offset), bound))
  {
    assert s in t;
    hide InstallName, InstallEntry, TableOk, SealedOk, ClassReady, RelocationsOf, Installed, OwnField;
    KeptOrFromRole(name, cell, roles, explicit, isRole, offsets);
    var out := InstallName(name, cell, roles, explicit, isRole, offsets);
    if out.Done? && out.cell != cell && OwnMethod(out.cell) {
      var provider := out.cell.cv.provider;
      if provider in t[s].roles && provider in t && forall i :: i in bound ==> OwnField(t, provider, i) {
        RelocationFits(t, s, offsets, provider, bound);
        assert out.cell.cv.offset == offsets[provider];
      }
    }
  }
}
