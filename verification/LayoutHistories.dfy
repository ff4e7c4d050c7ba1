/** Which declarations keep every object layout sound, now and in every later state.

    The events are those of the symbol table.  Five of them can do harm: a field in
    a stash that is sealed, a role that is named while it is open, a parent that a
    sealed class gets, a class that takes over a role in use, and one that takes
    over a role inside the role's own scope. */
module LayoutHistories {
  import opened RoleClosure
  import opened ObjectLayout
  import opened LayoutFacts

  datatype Event =
    | SetUp(s: Stash, kind: Kind)
    | Collect(s: Stash, name: Name, sigil: Sigil, param: Option<Name>, inherited: bool)
    | Implement(s: Stash, role: Stash)
    | Inherit(s: Stash, parent: Stash)
    | Seal(s: Stash)
    | EndRole(s: Stash)        // the role's scope ends on a record that a class took over and sealed

  ghost predicate IsDeclared(t: Table, s: Stash) {
    s in t && t[s].kind != Package
  }

  ghost predicate IsOpen(t: Table, s: Stash) {
    IsDeclared(t, s) && !t[s].sealed
  }

  /** The original carries the event out. */
  ghost predicate Enabled(t: Table, e: Event) {
    match e
    case SetUp(s, kind) => Startable(t, s, kind)
    case Collect(s, _, _, param, inherited) => IsDeclared(t, s) && !(inherited && (param.Some? || t[s].kind.IsRole()))
    case Implement(s, role) => IsDeclared(t, s) && role in t && t[role].kind.IsRole()
    case Inherit(s, parent) => IsDeclared(t, s) && !t[s].kind.IsRole() && t[s].isa == [] && parent in t && !t[parent].kind.IsRole()
    case Seal(s) => IsOpen(t, s) && (t[s].superclass.Some? ==> t[s].superclass.value in t && t[t[s].superclass.value].sealed)
    case EndRole(s) => IsDeclared(t, s) && t[s].sealed && t[s].reseal
  }

  ghost function Step(t: Table, e: Event): Table
    requires Shaped(t) && Enabled(t, e)
  {
    match e
    case SetUp(s, kind) => t[s := Started(t, s, kind)]
    case Collect(s, name, sigil, param, inherited) => t[s := WithField(t[s], name, sigil, param, inherited)]
    case Implement(s, role) => t[s := WithRole(t[s], role)]
    case Inherit(s, parent) => t[s := WithParent(t, s, parent)]
    case Seal(s) => t[s := LaidOut(t, s)]
    case EndRole(s) => t[s := Resealed(t, s)]
  }

  /** What a caller can check before the event. */
  ghost predicate Disciplined(t: Table, e: Event) {
    match e
    case Collect(s, _, _, _, _) => s in t && !t[s].sealed
    case Implement(s, role) => s in t && role in t && (t[s].sealed || t[role].sealed)
    case Inherit(s, parent) => s in t && parent in t && HarmlessParent(t, s, parent)
    case SetUp(s, _) => Consumers(t, s) == {} && !IsOpenRole(t, s)
    case _ => true
  }

  lemma StepKeepsShaped(t: Table, e: Event)
    requires Shaped(t) && Enabled(t, e)
    ensures Shaped(Step(t, e))
  {
    match e
    case SetUp(s, kind) => StartingKeepsShaped(t, s, kind);
    case Collect(s, name, sigil, param, inherited) => FieldKeeps(t, s, name, sigil, param, inherited);
    case Implement(s, role) => RoleKeeps(t, s, role);
    case Inherit(s, parent) => ParentKeeps(t, s, parent);
    case Seal(s) => SealingKeepsShaped(t, s);
    case EndRole(s) => ResealingKeepsShaped(t, s);
  }

  lemma StepKeepsClean(t: Table, e: Event)
    requires Shaped(t) && Clean(t) && Enabled(t, e) && Disciplined(t, e)
    ensures Clean(Step(t, e))
  {
    match e
    case SetUp(s, kind) => StartingKeepsClean(t, s, kind);
    case Collect(s, name, sigil, param, inherited) => FieldKeeps(t, s, name, sigil, param, inherited);
    case Implement(s, role) => RoleKeeps(t, s, role);
    case Inherit(s, parent) => ParentKeeps(t, s, parent);
    case Seal(s) => SealingKeepsClean(t, s);
    case EndRole(s) => assert false;
  }

  // ----- runs

  /** Every event of the run is carried out. */
  ghost predicate Runs(t: Table, es: seq<Event>)
    requires Shaped(t)
    decreases |es|
  {
    es == [] || (Enabled(t, es[0]) && (StepKeepsShaped(t, es[0]); Runs(Step(t, es[0]), es[1..])))
  }

  ghost function After(t: Table, es: seq<Event>): (t': Table)
    requires Shaped(t) && Runs(t, es)
    ensures Shaped(t')
    decreases |es|
  {
    if es == [] then t
    else
      StepKeepsShaped(t, es[0]);
      After(Step(t, es[0]), es[1..])
  }

  /** And every event is disciplined where it happens. */
  ghost predicate Careful(t: Table, es: seq<Event>)
    requires Shaped(t) && Runs(t, es)
    decreases |es|
  {
    es == [] || (Disciplined(t, es[0]) && (StepKeepsShaped(t, es[0]); Careful(Step(t, es[0]), es[1..])))
  }

  ghost predicate CanReach(t: Table, t': Table)
    requires Shaped(t)
  {
    exists es :: Runs(t, es) && Careful(t, es) && After(t, es) == t'
  }

  lemma Stays(t: Table)
    requires Shaped(t)
    ensures CanReach(t, t)
  {
    assert Runs(t, []) && Careful(t, []) && After(t, []) == t;
  }

  lemma {:induction false} OneMore(t: Table, es: seq<Event>, e: Event)
    requires Shaped(t) && Runs(t, es) && Careful(t, es) && Enabled(After(t, es), e) && Disciplined(After(t, es), e)
    ensures Runs(t, es + [e]) && Careful(t, es + [e]) && After(t, es + [e]) == Step(After(t, es), e)
    decreases |es|
  {
    hide Enabled, Disciplined, Step, Shaped;
    if es == [] {
      assert (es + [e])[1..] == [];
      StepKeepsShaped(t, e);
    } else {
      StepKeepsShaped(t, es[0]);
      OneMore(Step(t, es[0]), es[1..], e);
      assert (es + [e])[1..] == es[1..] + [e];
    }
  }

  lemma Goes(t: Table, t': Table, e: Event)
    requires Shaped(t) && CanReach(t, t') && Shaped(t') && Enabled(t', e) && Disciplined(t', e)
    ensures CanReach(t, Step(t', e)) && Shaped(Step(t', e))
  {
    hide Enabled, Disciplined, Step, Shaped, Runs, Careful, After;
    var es :| Runs(t, es) && Careful(t, es) && After(t, es) == t';
    OneMore(t, es, e);
    StepKeepsShaped(t', e);
  }

  /** A run is its first event and the rest. */
  lemma RunHead(t: Table, e: Event, t': Table, rest: seq<Event>)
    requires Shaped(t) && Enabled(t, e) && Step(t, e) == t' && Shaped(t') && Runs(t', rest)
    ensures Runs(t, [e] + rest) && After(t, [e] + rest) == After(t', rest)
  {
    hide Enabled, Step, Shaped;
    assert ([e] + rest)[1..] == rest;
  }

  lemma {:induction false} RunKeepsClean(t: Table, es: seq<Event>)
    requires Shaped(t) && Clean(t) && Runs(t, es) && Careful(t, es)
    ensures Clean(After(t, es))
    decreases |es|
  {
    if es != [] {
      StepKeepsShaped(t, es[0]);
      StepKeepsClean(t, es[0]);
      RunKeepsClean(Step(t, es[0]), es[1..]);
    }
  }

  // ----- what a sealed declaration should look like

  /** The relocation of composed role `k` does not wrap around. */
  ghost predicate RoleFits(t: Table, c: Stash, k: nat)
    requires c in t && Linked(t, c) && k < |t[c].roles|
  {
    assert t[c].roles[k] in t[c].roles;
    NoWrap(t[t[c].roles[k]].fields, RoleBase(t, c, k))
  }

  /** No relocation wraps, no field has two slots, and there are as many slots as fields. */
  ghost predicate Sound(t: Table, c: Stash)
    requires c in t
  {
    && Tiles(t, c) && NoDup(ClassSlots(t, c))
    && forall k: nat {:trigger RoleFits(t, c, k)} :: k < |t[c].roles| ==> RoleFits(t, c, k)
  }

  ghost predicate Good(t: Table) {
    forall c {:trigger Sound(t, c)} :: c in t && t[c].sealed ==> Sound(t, c)
  }

  lemma NoWrapPlaced(fs: seq<Field>, base: nat, there: nat)
    requires FieldsPlaced(fs, base) && (OwnCount(fs) == 0 || base <= there)
    ensures NoWrap(fs, there)
  {
    OwnBasePlaced(fs, base);
  }

  lemma SealedOkIsSound(t: Table, c: Stash)
    requires TableOk(t) && c in t && t[c].sealed
    ensures Sound(t, c)
  {
    assert RecordOk(t, c);
    ClassSlotsDistinct(t, c);
    forall k: nat | k < |t[c].roles| ensures RoleFits(t, c, k) {
      RelocationNonNegative(t, c, k);
      var r := t[c].roles[k];
      NoWrapPlaced(t[r].fields, Prefix(t, r) + RoleWidth(t, t[r].roles), RoleBase(t, c, k));
    }
  }

  lemma CleanIsGood(t: Table)
    requires TableOk(t)
    ensures Good(t)
  {
    forall c | c in t && t[c].sealed ensures Sound(t, c) { SealedOkIsSound(t, c); }
  }
}
