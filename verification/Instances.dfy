/** Creating instances, and the walks that recompute slot numbers at run time. */
module Instances {
  import opened Flattening
  import opened RoleClosure
  import opened ObjectLayout
  import opened LayoutFacts
  import opened InstanceLayout
  import opened Sealing

  /** The classes of an instance and, by class, what is added to a slot number
      that was resolved when the class was sealed. */
  datatype Layout = Layout(classes: seq<Stash>, shifts: map<Stash, nat>)

  /** Two fields of one owner have the same name, or two fields of the object the same parameter. */
  datatype FieldClash = NameClash(name: Name) | ParameterClash(param: Name, name: Name)

  datatype LayoutError = ClassIncomplete(c: Stash) | ModernAncestorRequired | FieldsClash(owner: Stash, clash: FieldClash)
  datatype Result<+T, +E> = Ok(value: T) | Error(error: E)

  ghost predicate ShiftOk(t: Table, classes: seq<Stash>, shifts: map<Stash, nat>, k: nat)
    requires AllReady(t, classes) && k < |classes|
  {
    && classes[k] in shifts && ClassReady(t, classes[k])
    && shifts[classes[k]] + Prefix(t, classes[k]) == WindowStart(t, classes, k)
  }

  ghost predicate ShiftsOk(t: Table, classes: seq<Stash>, shifts: map<Stash, nat>)
    requires AllReady(t, classes)
  {
    forall k: nat {:trigger ShiftOk(t, classes, shifts, k)} :: k < |classes| ==> ShiftOk(t, classes, shifts, k)
  }

  ghost predicate LayoutOk(t: Table, l: Layout) {
    && AllReady(t, l.classes) && NoDup(l.classes) && ParentsFirst(t, l.classes)
    && (forall c :: c in l.shifts <==> c in l.classes)
    && ShiftsOk(t, l.classes, l.shifts)
  }

  /** Slot `q` of an instance holds `e`; by `InstanceSlotsDistinct` no other slot does. */
  ghost predicate Holds(t: Table, l: Layout, q: int, e: SlotRef)
    requires LayoutOk(t, l)
  {
    0 <= q < |InstanceSlots(t, l.classes)| && InstanceSlots(t, l.classes)[q] == e
  }

  lemma HoldsUnique(t: Table, l: Layout, q: int, q': int, e: SlotRef)
    requires LayoutOk(t, l) && Holds(t, l, q, e) && Holds(t, l, q', e)
    ensures q == q'
  {
    InstanceSlotsDistinct(t, l.classes);
  }

  /** A class-relative slot number, shifted, is a slot of the instance. */
  lemma ShiftedSlot(t: Table, l: Layout, c: Stash, p: int, decl: Stash, i: nat)
    requires LayoutOk(t, l) && c in l.classes && ClassReady(t, c) && SlotHolds(t, c, p, decl, i)
    ensures c in l.shifts && Holds(t, l, l.shifts[c] + p, SlotRef(c, decl, i))
  {
    hide InstanceSlots, ClassSlots, WindowStart, ParentsFirst;
    var k: nat :| k < |l.classes| && l.classes[k] == c;
    ReadySize(t, c);
    var w, first := WindowStart(t, l.classes, k), Prefix(t, c);
    assert ShiftOk(t, l.classes, l.shifts, k);
    ClassWindow(t, l.classes, k, p - first);
    assert w + (p - first) == l.shifts[c] + p;
  }

  // ----- what the walks compute, as formulas over the sealed records

  /** The number written into a method or field initialiser when the field's
      declaration was sealed, moved by the relocation of the role and the shift
      of the class. */
  ghost function RelocatedSlot(t: Table, l: Layout, c: Stash, k: nat, i: nat): int
    requires TableOk(t) && LayoutOk(t, l) && c in l.classes && ClassReady(t, c) && k < |t[c].roles|
    requires OwnField(t, t[c].roles[k], i)
  {
    var r := t[c].roles[k];
    RoleReady(t, c, k);
    OwnFieldPlaced(t, r, i);
    t[r].fields[i].fieldix.value + (RoleBase(t, c, k) - LocalBase(t, r)) + l.shifts[c]
  }

  /** The number recomputed from the widths of the role blocks. */
  ghost function RecomputedSlot(t: Table, l: Layout, c: Stash, k: nat, i: nat): int
    requires LayoutOk(t, l) && c in l.classes && ClassReady(t, c) && k < |t[c].roles|
    requires OwnField(t, t[c].roles[k], i)
  {
    l.shifts[c] + RoleBase(t, c, k) + t[t[c].roles[k]].fields[i].rel
  }

  lemma RoleReady(t: Table, c: Stash, k: nat)
    requires TableOk(t) && c in t && SealedOk(t, c) && k < |t[c].roles|
    ensures var r := t[c].roles[k]; r in t && t[r].kind.IsRole() && t[r].sealed && SealedOk(t, r)
  {
    assert t[c].roles[k] in t[c].roles;
    assert RecordOk(t, t[c].roles[k]);
  }

  /** Both ways of counting reach the one slot that holds the field, and the
      relocation they rest on is never negative. */
  lemma WalksAgreeOnRoleField(t: Table, l: Layout, c: Stash, k: nat, i: nat)
    requires TableOk(t) && LayoutOk(t, l) && c in l.classes && ClassReady(t, c) && k < |t[c].roles|
    requires OwnField(t, t[c].roles[k], i)
    ensures RelocatedSlot(t, l, c, k, i) == RecomputedSlot(t, l, c, k, i)
    ensures Holds(t, l, RecomputedSlot(t, l, c, k, i), SlotRef(c, t[c].roles[k], i))
    ensures SealedOk(t, t[c].roles[k]) && RoleBase(t, c, k) >= LocalBase(t, t[c].roles[k])
  {
    SealedLinked(t, c);
    hide Linked, SlotHolds, Holds, TableOk, LayoutOk, RolesOrdered, FlattenedFrom, ClassSlots, FieldsPlaced, RoleWidth, RoleBase, LocalBase, OwnCount, Prefix;
    var r := t[c].roles[k];
    RoleReady(t, c, k);
    RelocationNonNegative(t, c, k);
    OwnFieldPlaced(t, r, i);
    RoleFieldSlot(t, c, k, i, Prefix(t, r) + RoleWidth(t, t[r].roles));
    ShiftedSlot(t, l, c, RoleBase(t, c, k) + t[r].fields[i].rel, r, i);
  }

  lemma OwnFieldInstanceSlot(t: Table, l: Layout, c: Stash, i: nat)
    requires LayoutOk(t, l) && c in l.classes && ClassReady(t, c) && OwnField(t, c, i)
    ensures t[c].fields[i].fieldix.Some?
    ensures c in l.shifts && Holds(t, l, l.shifts[c] + t[c].fields[i].fieldix.value, SlotRef(c, c, i))
  {
    hide SlotHolds, Holds, LayoutOk;
    OwnFieldSlot(t, c, i);
    ShiftedSlot(t, l, c, t[c].fields[i].fieldix.value, c, i);
  }

  // ----- creating an instance

  lemma ReadyWhenSealed(t: Table, c: Stash)
    requires TableOk(t) && c in t && t[c].kind.IsClass() && t[c].sealed
    ensures ClassReady(t, c)
  {
    assert RecordOk(t, c);
  }

  /** The classes up to the first one that is not sealed. */
  ghost function SealedFront(t: Table, classes: seq<Stash>): (front: seq<Stash>)
    requires ObjectLayout.Within(t, classes)
    ensures front <= classes
    ensures forall c :: c in front ==> t[c].sealed
    ensures front != classes ==> !t[classes[|front|]].sealed
  {
    if classes == [] || !t[classes[0]].sealed then []
    else [classes[0]] + SealedFront(t, classes[1..])
  }

  /** The class at `k` is not sealed, and all before it are. */
  ghost predicate FirstUnsealed(t: Table, classes: seq<Stash>, k: nat) {
    k < |classes| && ObjectLayout.Within(t, classes) && !t[classes[k]].sealed && forall c :: c in classes[..k] ==> t[c].sealed
  }

  /** Places the windows of the classes one after the other.  The subtraction is of
      unsigned numbers: it is the order of the list that keeps it from wrapping. */
  method ComputeShifts(table: SymbolTable, classes: seq<Stash>)
    returns (r: Result<map<Stash, nat>, LayoutError>, total: nat)
    requires TableOk(table.stashes) && NoDup(classes) && ParentsFirst(table.stashes, classes)
    requires forall c :: c in classes ==> c in table.stashes && table.stashes[c].kind.IsClass()
    ensures r.Ok? <==> forall c :: c in classes ==> table.stashes[c].sealed
    ensures r.Ok? ==> AllReady(table.stashes, classes) && ShiftsOk(table.stashes, classes, r.value) &&
                      (forall c :: c in r.value <==> c in classes) &&
                      total == |InstanceSlots(table.stashes, classes)|
    ensures r.Error? ==> exists k: nat :: FirstUnsealed(table.stashes, classes, k) && r.error == ClassIncomplete(classes[k])
  {
    hide SealedOk, ClassSlots, WindowStart, InstanceSlots, SealedFront;
    ghost var t := table.stashes;
    ghost var ready := SealedFront(t, classes);
    forall c | c in ready ensures ClassReady(t, c) { ReadyWhenSealed(t, c); }
    ReadyParents(t, ready, classes);
    WindowStartZero(t, ready);
    hide ParentsFirst;
    var shifts: map<Stash, nat> := map[];
    var fields := 0;
    for i := 0 to |classes|
      invariant i <= |ready| && fields == WindowStart(t, ready, i)
      invariant forall c :: c in shifts <==> c in ready[..i]
      invariant forall k: nat {:trigger ShiftOk(t, ready, shifts, k)} :: k < i ==> ShiftOk(t, ready, shifts, k)
    {
      var decl := classes[i];
      assert decl in classes;
      var aux := table.stashes[decl];
      if !aux.sealed {
        forall c | c in classes[..i] ensures t[c].sealed { assert classes[..i] == ready[..i]; }
        assert FirstUnsealed(t, classes, i);
        return Error(ClassIncomplete(decl)), 0;
      }
      PrefixElement(ready, classes, i);
      assert ClassReady(t, decl);
      ReadySize(t, decl);
      var prefix := if aux.superclass.Some? then table.stashes[aux.superclass.value].nextFieldix else 0;
      SuperclassFits(t, ready, i);
      assert fields >= prefix;
      ghost var before := shifts;
      shifts := shifts[decl := fields - prefix];
      forall k: nat | k < i + 1 ensures ShiftOk(t, ready, shifts, k) {
        if k < i { assert ShiftOk(t, ready, before, k) && ready[k] != ready[i]; }
      }
      WindowStartNext(t, ready, i);
      TakeNext(ready, i);
      fields := fields + aux.nextFieldix - prefix;
    }
    assert ready == classes;
    WindowStartEnd(t, classes);
    return Ok(shifts), fields;
  }

  lemma PrefixElement(ready: seq<Stash>, classes: seq<Stash>, i: nat)
    requires ready <= classes && i < |ready|
    ensures ready[i] == classes[i] && ready[i] in ready
  {}

  lemma ReadyParents(t: Table, ready: seq<Stash>, classes: seq<Stash>)
    requires ready <= classes && ParentsFirst(t, classes)
    ensures ParentsFirst(t, ready)
  {
    forall k: nat | k < |ready| ensures AfterSuperclass(t, ready, k) {
      assert AfterSuperclass(t, classes, k) && ready[k] == classes[k] && ready[..k] == classes[..k];
    }
  }

  lemma WindowStartZero(t: Table, classes: seq<Stash>)
    requires AllReady(t, classes)
    ensures WindowStart(t, classes, 0) == 0
  {
    hide ClassSlots, SealedOk;
    assert Windows(t, classes)[..0] == [];
  }

  lemma WindowStartEnd(t: Table, classes: seq<Stash>)
    requires AllReady(t, classes)
    ensures WindowStart(t, classes, |classes|) == |InstanceSlots(t, classes)|
  {
    hide ClassSlots, SealedOk;
    assert Windows(t, classes)[..|classes|] == Windows(t, classes);
  }

  /** The layout of a fresh instance of `stash`. */
  method NewLayout(table: SymbolTable, stash: Stash) returns (r: Result<Layout, LayoutError>, total: nat)
    requires TableOk(table.stashes) && stash in table.stashes && Acyclic(IsaGraph(table.stashes), [stash])
    ensures Closed(IsaGraph(table.stashes)) && ObjectLayout.Within(table.stashes, Closure(IsaGraph(table.stashes), [stash]))
    ensures var classes := ClassesOf(table.stashes, Closure(IsaGraph(table.stashes), [stash]));
            && (r.Ok? <==> classes != [] && forall c :: c in classes ==> c in table.stashes && table.stashes[c].sealed)
            && (r.Error? ==> if classes == [] then r.error == ModernAncestorRequired
                             else exists k: nat :: FirstUnsealed(table.stashes, classes, k) && r.error == ClassIncomplete(classes[k]))
            && (r.Ok? ==> r.value.classes == classes && LayoutOk(table.stashes, r.value) &&
                          total == |InstanceSlots(table.stashes, classes)|)
  {
    hide SealedOk, InstanceSlots;
    ghost var g := IsaGraph(table.stashes);
    TableIsShaped(table.stashes);
    var classes := table.ClassesAbove(stash);
    ghost var xs := Closure(g, [stash]);
    ClosureIsReachableSet(g, [stash]);
    ClosureOrderedIffAcyclic(g, [stash]);
    ClassesOfDistinct(table.stashes, xs);
    ClassesOfOrdered(table.stashes, xs);
    ClassesOfMembers(table.stashes, xs);
    hide TableOk, Acyclic, Ordered, Closure, ClassesOf, InstanceLayout.ParentsFirst;
    var placed, fields := ComputeShifts(table, classes);
    if placed.Error? { return Error(placed.error), 0; }
    if |classes| == 0 { return Error(ModernAncestorRequired), 0; }
    return Ok(Layout(classes, placed.value)), fields;
  }

  ghost predicate ExtendsPrevious(t: Table, classes: seq<Stash>, j: nat)
    requires j < |classes|
  {
    classes[j] in t && t[classes[j]].superclass == if j == 0 then None else Some(classes[j - 1])
  }

  ghost predicate SuperclassChain(t: Table, classes: seq<Stash>) {
    forall j: nat {:trigger ExtendsPrevious(t, classes, j)} :: j < |classes| ==> ExtendsPrevious(t, classes, j)
  }

  /** Along a chain of single inheritance the instance has the layout of its class:
      every shift is 0. */
  lemma {:induction false} ChainStartsAtPrefix(t: Table, classes: seq<Stash>, k: nat)
    requires AllReady(t, classes) && k < |classes|
    requires SuperclassChain(t, classes)
    ensures ClassReady(t, classes[k]) && WindowStart(t, classes, k) == Prefix(t, classes[k])
  {
    hide ClassSlots, SealedOk, WindowStart, InstanceSlots;
    assert classes[k] in classes && ClassReady(t, classes[k]);
    assert ExtendsPrevious(t, classes, k);
    if k == 0 {
      WindowStartZero(t, classes);
    } else {
      ChainStartsAtPrefix(t, classes, k - 1);
      ReadySize(t, classes[k - 1]);
      WindowStartNext(t, classes, k - 1);
    }
  }

  lemma ChainOfSuperclasses(t: Table, s: Stash)
    requires TableOk(t) && s in t && Closed(IsaGraph(t)) && Acyclic(IsaGraph(t), [s])
    requires forall x :: Reaches(IsaGraph(t), [s], x) ==>
      (x in t && t[x].kind.IsClass() && t[x].isa == if t[x].superclass.Some? then [t[x].superclass.value] else [])
    ensures var xs := Closure(IsaGraph(t), [s]);
            && ObjectLayout.Within(t, xs) && ClassesOf(t, xs) == xs
            && SuperclassChain(t, xs)
  {
    hide Collect, Acyclic, Reaches, TableOk;
    var g := IsaGraph(t);
    ClosureIsReachableSet(g, [s]);
    var xs := CollectChain(g, s, Walk([], []));
    assert xs == Closure(g, [s]);
    ChainParents(t, xs);
    AllClasses(t, xs);
  }

  lemma ChainParents(t: Table, xs: seq<Stash>)
    requires IsChain(IsaGraph(t), xs)
    requires forall x :: x in xs ==>
      (x in t && t[x].isa == if t[x].superclass.Some? then [t[x].superclass.value] else [])
    ensures SuperclassChain(t, xs)
  {
    var g := IsaGraph(t);
    forall j: nat | j < |xs| ensures ExtendsPrevious(t, xs, j) {
      assert xs[j] in xs && Follows(g, xs, j) && g[xs[j]] == t[xs[j]].isa;
    }
  }

  lemma SingleInheritanceUnshifted(t: Table, l: Layout, s: Stash)
    requires TableOk(t) && LayoutOk(t, l) && s in t && Closed(IsaGraph(t)) && Acyclic(IsaGraph(t), [s])
    requires ObjectLayout.Within(t, Closure(IsaGraph(t), [s])) && l.classes == ClassesOf(t, Closure(IsaGraph(t), [s]))
    requires forall x :: Reaches(IsaGraph(t), [s], x) ==>
      (x in t && t[x].kind.IsClass() && t[x].isa == if t[x].superclass.Some? then [t[x].superclass.value] else [])
    ensures forall c :: c in l.classes ==> c in l.shifts && l.shifts[c] == 0
  {
    ChainOfSuperclasses(t, s);
    hide Collect, Closure, Acyclic, Reaches, TableOk, IsaGraph, ClassesOf, SealedOk, InstanceLayout.ParentsFirst;
    forall c | c in l.classes ensures c in l.shifts && l.shifts[c] == 0 {
      var k: nat :| k < |l.classes| && l.classes[k] == c;
      assert ShiftOk(t, l.classes, l.shifts, k);
      ChainStartsAtPrefix(t, l.classes, k);
    }
  }

  lemma {:induction false} AllClasses(t: Table, xs: seq<Stash>)
    requires ObjectLayout.Within(t, xs) && forall x :: x in xs ==> t[x].kind.IsClass()
    ensures ClassesOf(t, xs) == xs
  {
    if xs != [] { AllClasses(t, xs[..|xs| - 1]); }
  }
}
