/** Where the fields of a class, and of the roles composed into it, are stored.

    A stash is an opaque id.  The table maps it to the auxiliary record in which
    the declaration is collected and, when the declaration is sealed, the layout
    is written. */
module ObjectLayout {
  import opened RoleClosure

  datatype Option<+T> = None | Some(value: T)

  type Stash = nat
  type Name = nat

  /** A class declaration may take over a stash that is a role; both flags stay set then. */
  datatype Kind = Package | Class | Role | ClassOverRole {
    predicate IsClass() {
      Class? || ClassOverRole?
    }

    predicate IsRole() {
      Role? || ClassOverRole?
    }
  }

  datatype Sigil = ScalarSigil | ArraySigil | HashSigil

  /** A declared field.  The name includes the sigil.  `param` is the constructor
      parameter that initialises it.  `rel` counts within the declaration;
      `fieldix` is unresolved until the declaration is sealed.  An inherited field
      is an alias of an ancestor's field and owns no slot. */
  datatype Field = Field(name: Name, sigil: Sigil, param: Option<Name>, inherited: bool, rel: nat, fieldix: Option<nat>)

  /** The record of a stash.  `reseal`: a class took the stash over while the scope of
      the role was open, so the end of that scope will seal the record once more. */
  datatype Aux = Aux(
    kind: Kind,
    superclass: Option<Stash>,
    isa: seq<Stash>,
    pending: seq<Stash>,
    roles: seq<Stash>,
    fields: seq<Field>,
    nextFieldix: nat,
    sealed: bool,
    reseal: bool)

  type Table = map<Stash, Aux>

  // ----- the reference layout: a list of what each slot holds

  /** Field number `index` of `decl`, as stored for the class `owner`. */
  datatype SlotRef = SlotRef(owner: Stash, decl: Stash, index: nat)

  /** The positions of the fields that own a slot. */
  function OwnIndexes(fs: seq<Field>): (r: seq<nat>)
    ensures |r| <= |fs|
  {
    if fs == [] then []
    else
      var n := |fs| - 1;
      OwnIndexes(fs[..n]) + if fs[n].inherited then [] else [n]
  }

  function OwnCount(fs: seq<Field>): nat {
    |OwnIndexes(fs)|
  }

  function Block(t: Table, owner: Stash, decl: Stash): seq<SlotRef>
    requires decl in t
  {
    var own := OwnIndexes(t[decl].fields);
    seq(|own|, j requires 0 <= j < |own| => SlotRef(owner, decl, own[j]))
  }

  predicate Within(t: Table, xs: seq<Stash>) {
    forall x :: x in xs ==> x in t
  }

  function RoleBlocks(t: Table, owner: Stash, roles: seq<Stash>): seq<SlotRef>
    requires Within(t, roles)
  {
    if roles == [] then []
    else
      var n := |roles| - 1;
      RoleBlocks(t, owner, roles[..n]) + Block(t, owner, roles[n])
  }

  function RoleWidth(t: Table, roles: seq<Stash>): nat
    requires Within(t, roles)
  {
    if roles == [] then 0
    else
      var n := |roles| - 1;
      RoleWidth(t, roles[..n]) + OwnCount(t[roles[n]].fields)
  }

  /** The slots a class adds to those of its superclass: one block per composed
      role, in order, then its own fields. */
  function ClassSlots(t: Table, c: Stash): seq<SlotRef>
    requires c in t && Within(t, t[c].roles)
  {
    RoleBlocks(t, c, t[c].roles) + Block(t, c, c)
  }

  /** Where those slots begin. */
  function Prefix(t: Table, c: Stash): nat
    requires c in t && (t[c].superclass.Some? ==> t[c].superclass.value in t)
  {
    if t[c].superclass.Some? then t[t[c].superclass.value].nextFieldix else 0
  }

  // ----- what sealing establishes

  ghost predicate AfterItsRoles(t: Table, roles: seq<Stash>, k: nat)
    requires k < |roles| && roles[k] in t
  {
    forall x :: x in t[roles[k]].roles ==> x in roles[..k]
  }

  ghost predicate RolesOrdered(t: Table, roles: seq<Stash>) {
    && Within(t, roles) && NoDup(roles)
    && (forall r :: r in roles ==> t[r].kind.IsRole())
    && (forall k: nat {:trigger AfterItsRoles(t, roles, k)} :: k < |roles| ==> AfterItsRoles(t, roles, k))
  }

  ghost predicate FieldPlaced(fs: seq<Field>, base: nat, i: nat)
    requires i < |fs|
  {
    !fs[i].inherited ==> fs[i].rel == OwnCount(fs[..i]) && fs[i].fieldix == Some(base + fs[i].rel)
  }

  ghost predicate FieldsPlaced(fs: seq<Field>, base: nat) {
    forall i: nat {:trigger FieldPlaced(fs, base, i)} :: i < |fs| ==> FieldPlaced(fs, base, i)
  }

  /** `x` is one of the named roles, or one that a named role is made of. */
  ghost predicate InFlattening(t: Table, pending: seq<Stash>, x: Stash)
    requires Within(t, pending)
  {
    x in pending || exists p :: p in pending && x in t[p].roles
  }

  ghost predicate FlattenedFrom(t: Table, roles: seq<Stash>, pending: seq<Stash>)
    requires Within(t, pending)
  {
    forall x {:trigger InFlattening(t, pending, x)} :: x in roles <==> InFlattening(t, pending, x)
  }

  /** A sealed declaration: its role list is closed, ordered and free of
      duplicates, its fields follow the role blocks, and its size is the size of
      the superclass plus its own slots. */
  ghost predicate SealedOk(t: Table, s: Stash)
    requires s in t
  {
    var a := t[s];
    && RolesOrdered(t, a.roles) && s !in a.roles && (forall r :: r in a.roles ==> t[r].sealed)
    && (a.superclass.Some? ==> a.superclass.value in t && t[a.superclass.value].sealed)
    && FieldsPlaced(a.fields, Prefix(t, s) + RoleWidth(t, a.roles))
    && a.nextFieldix == Prefix(t, s) + |ClassSlots(t, s)|
  }

  /** A declaration still being parsed: `nextFieldix` counts its fields. */
  ghost predicate UnsealedOk(a: Aux) {
    && a.roles == [] && a.nextFieldix == |a.fields|
    && forall i :: 0 <= i < |a.fields| ==> a.fields[i].fieldix == None && a.fields[i].rel == i
  }

  ghost predicate ReferencesOk(t: Table, a: Aux) {
    && Within(t, a.isa) && Within(t, a.pending) && Within(t, a.roles)
    && (forall r :: r in a.pending ==> t[r].kind.IsRole())
    && (a.superclass.Some? ==> a.superclass.value in a.isa && t[a.superclass.value].kind == Class)
    && (a.kind != Class ==> a.superclass == None) && (a.kind == Package ==> a.pending == [])
    && (a.kind.IsRole() ==> forall f :: f in a.fields ==> !f.inherited)
  }

  ghost predicate ShapeOk(t: Table, s: Stash)
    requires s in t
  {
    && ReferencesOk(t, t[s]) && (t[s].kind == Package ==> !t[s].sealed) && (t[s].reseal ==> t[s].kind == ClassOverRole)
    && (!t[s].sealed ==> UnsealedOk(t[s]))
  }

  /** Holds in every state that declaring and sealing can reach. */
  ghost predicate Shaped(t: Table) {
    forall s {:trigger ShapeOk(t, s)} :: s in t ==> ShapeOk(t, s)
  }

  ghost predicate RecordOk(t: Table, s: Stash)
    requires s in t
  {
    ShapeOk(t, s) && (t[s].sealed ==> SealedOk(t, s))
  }

  /** Every sealed declaration is in order. */
  ghost predicate TableOk(t: Table) {
    forall s {:trigger RecordOk(t, s)} :: s in t ==> RecordOk(t, s)
  }

  lemma TableIsShaped(t: Table)
    requires TableOk(t)
    ensures Shaped(t)
  {
    forall s | s in t ensures ShapeOk(t, s) { assert RecordOk(t, s); }
  }

  // ----- the base of a declaration's own fields

  /** The sentinel that stands for an index that is not resolved yet: the largest word. */
  const UNRESOLVED: nat := 0xFFFF_FFFF_FFFF_FFFF

  function IndexWord(f: Field): nat {
    if f.fieldix.Some? then f.fieldix.value else UNRESOLVED
  }

  /** The base that the first own field tells, 0 without one.  The original takes
      the difference of words, so an unresolved field tells the sentinel. */
  function OwnBaseWord(fs: seq<Field>): int {
    var own := OwnIndexes(fs);
    if own == [] then 0
    else
      OwnIndexBounds(fs);
      IndexWord(fs[own[0]]) - fs[own[0]].rel
  }

  /** The first own field is resolved, or there is none. */
  predicate Resolved(fs: seq<Field>)
    ensures !Resolved(fs) ==> fs != []
  {
    var own := OwnIndexes(fs);
    own != [] ==> (OwnIndexBounds(fs); fs[own[0]].fieldix.Some?)
  }

  /** Relocating fields to `base` is a difference that does not wrap around.  The
      sentinel is the largest word, so no base reaches it. */
  predicate NoWrap(fs: seq<Field>, base: nat) {
    Resolved(fs) && OwnBaseWord(fs) <= base
  }

  /** Below the largest word comparing words decides it; the first field of a role
      that is still open is its own and has number 0. */
  lemma NoWrapByWords(fs: seq<Field>, base: nat)
    requires base < UNRESOLVED
    requires !Resolved(fs) ==> !fs[0].inherited && fs[0].rel == 0
    ensures NoWrap(fs, base) <==> OwnBaseWord(fs) <= base
  {
    if !Resolved(fs) { FirstOwn(fs); }
  }

  lemma {:induction false} FirstOwn(fs: seq<Field>)
    requires fs != [] && !fs[0].inherited
    ensures OwnIndexes(fs) != [] && OwnIndexes(fs)[0] == 0
  {
    if |fs| > 1 { FirstOwn(fs[..|fs| - 1]); } else { assert fs[..0] == []; }
  }

  lemma {:induction false} OwnIndexBounds(fs: seq<Field>)
    ensures forall j :: 0 <= j < |OwnIndexes(fs)| ==> OwnIndexes(fs)[j] < |fs| && !fs[OwnIndexes(fs)[j]].inherited
  {
    if fs != [] {
      var n := |fs| - 1;
      OwnIndexBounds(fs[..n]);
      forall j | 0 <= j < |OwnIndexes(fs)| ensures OwnIndexes(fs)[j] < |fs| && !fs[OwnIndexes(fs)[j]].inherited {
        if j < |OwnIndexes(fs[..n])| { assert fs[..n][OwnIndexes(fs[..n])[j]] == fs[OwnIndexes(fs)[j]]; }
      }
    }
  }

  // ----- widths

  lemma {:induction false} RoleBlocksWidth(t: Table, o: Stash, roles: seq<Stash>)
    requires Within(t, roles)
    ensures |RoleBlocks(t, o, roles)| == RoleWidth(t, roles)
  {
    if roles != [] { RoleBlocksWidth(t, o, roles[..|roles| - 1]); }
  }

  function Without(roles: seq<Stash>, k: nat): seq<Stash>
    requires k < |roles|
  {
    roles[..k] + roles[k + 1..]
  }

  lemma RoleWidthAppend(t: Table, roles: seq<Stash>, r: Stash)
    requires Within(t, roles) && r in t
    ensures Within(t, roles + [r])
    ensures RoleWidth(t, roles + [r]) == RoleWidth(t, roles) + OwnCount(t[r].fields)
  {
    assert (roles + [r])[..|roles|] == roles;
  }

  lemma WithoutLast(roles: seq<Stash>, k: nat)
    requires k < |roles|
    ensures var n := |roles| - 1;
            Without(roles, k) == if k < n then Without(roles[..n], k) + [roles[n]] else roles[..n]
  {}

  /** Removing one role takes exactly its block away. */
  lemma {:induction false} RoleWidthWithout(t: Table, roles: seq<Stash>, k: nat)
    requires Within(t, roles) && k < |roles|
    ensures Within(t, Without(roles, k))
    ensures RoleWidth(t, roles) == RoleWidth(t, Without(roles, k)) + OwnCount(t[roles[k]].fields)
  {
    var n := |roles| - 1;
    WithoutLast(roles, k);
    if k < n {
      RoleWidthWithout(t, roles[..n], k);
      RoleWidthAppend(t, Without(roles[..n], k), roles[n]);
    }
  }

  lemma WithoutKeepsOthers(ys: seq<Stash>, k: nat, x: Stash)
    requires k < |ys| && x in ys && x != ys[k]
    ensures x in Without(ys, k)
  {
    var j :| 0 <= j < |ys| && ys[j] == x;
    assert Without(ys, k)[if j < k then j else j - 1] == x;
  }

  /** Distinct roles that all occur in a list need no more slots than the list. */
  lemma {:induction false} SublistWidth(t: Table, xs: seq<Stash>, ys: seq<Stash>)
    requires Within(t, ys) && NoDup(xs) && forall x :: x in xs ==> x in ys
    ensures Within(t, xs) && RoleWidth(t, xs) <= RoleWidth(t, ys)
  {
    if xs != [] {
      var n := |xs| - 1;
      assert xs[n] in ys;
      var k :| 0 <= k < |ys| && ys[k] == xs[n];
      RoleWidthWithout(t, ys, k);
      forall x | x in xs[..n] ensures x in Without(ys, k) {
        assert x in xs && x != xs[n];
        WithoutKeepsOthers(ys, k, x);
      }
      SublistWidth(t, xs[..n], Without(ys, k));
    }
  }

  /** The block of a role begins where the blocks of the roles before it end. */
  lemma {:induction false} RoleBlockAt(t: Table, o: Stash, roles: seq<Stash>, k: nat, j: nat)
    requires Within(t, roles) && k < |roles| && j < OwnCount(t[roles[k]].fields)
    ensures Within(t, roles[..k])
    ensures var p := RoleWidth(t, roles[..k]) + j;
            p < |RoleBlocks(t, o, roles)| &&
            RoleBlocks(t, o, roles)[p] == SlotRef(o, roles[k], OwnIndexes(t[roles[k]].fields)[j])
  {
    var n := |roles| - 1;
    var front := roles[..n];
    if k < n {
      RoleBlockAt(t, o, front, k, j);
      assert front[..k] == roles[..k];
    } else {
      RoleBlocksWidth(t, o, front);
    }
  }

  /** An own field stands at its relative index among the own fields. */
  lemma {:induction false} OwnIndexAt(fs: seq<Field>, i: nat)
    requires i < |fs| && !fs[i].inherited
    ensures OwnCount(fs[..i]) < OwnCount(fs) && OwnIndexes(fs)[OwnCount(fs[..i])] == i
  {
    var n := |fs| - 1;
    if i < n {
      OwnIndexAt(fs[..n], i);
      assert fs[..n][..i] == fs[..i];
    }
  }

  // ----- the layout has no overlap and no gap

  lemma {:induction false} OwnIndexesAre(fs: seq<Field>)
    ensures forall i :: i in OwnIndexes(fs) <==> 0 <= i < |fs| && !fs[i].inherited
  {
    if fs != [] { OwnIndexesAre(fs[..|fs| - 1]); }
  }

  lemma {:induction false} OwnIndexesDistinct(fs: seq<Field>)
    ensures NoDup(OwnIndexes(fs))
  {
    if fs != [] {
      var n := |fs| - 1;
      OwnIndexesDistinct(fs[..n]);
      OwnIndexesAre(fs[..n]);
      if !fs[n].inherited { NoDupAppend(OwnIndexes(fs[..n]), n); }
    }
  }

  lemma {:induction false} RoleBlocksDistinct(t: Table, o: Stash, roles: seq<Stash>)
    requires Within(t, roles) && NoDup(roles)
    ensures NoDup(RoleBlocks(t, o, roles))
    ensures forall e :: e in RoleBlocks(t, o, roles) ==> e.owner == o && e.decl in roles
  {
    if roles != [] {
      var n := |roles| - 1;
      RoleBlocksDistinct(t, o, roles[..n]);
      OwnIndexesDistinct(t[roles[n]].fields);
      var front, last := RoleBlocks(t, o, roles[..n]), Block(t, o, roles[n]);
      forall i, j | 0 <= i < j < |front + last| ensures (front + last)[i] != (front + last)[j] {
        if i < |front| <= j {
          assert front[i] in front && front[i].decl in roles[..n];
        }
      }
    }
  }

  /** A diamond ancestor appears once in the role list, so no field of a class has two slots. */
  lemma ClassSlotsDistinct(t: Table, c: Stash)
    requires c in t && SealedOk(t, c)
    ensures NoDup(ClassSlots(t, c))
    ensures forall e :: e in ClassSlots(t, c) ==> e.owner == c && (e.decl == c || e.decl in t[c].roles)
  {
    RoleBlocksDistinct(t, c, t[c].roles);
    OwnIndexesDistinct(t[c].fields);
    var front, last := RoleBlocks(t, c, t[c].roles), Block(t, c, c);
    forall i, j | 0 <= i < j < |front + last| ensures (front + last)[i] != (front + last)[j] {
      if i < |front| <= j {
        assert front[i] in front && front[i].decl in t[c].roles;
      }
    }
  }
}
