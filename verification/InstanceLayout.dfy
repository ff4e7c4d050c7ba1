/** The field vector of an instance: the windows of all its classes, parents first. */
module InstanceLayout {
  import opened Flattening
  import opened RoleClosure
  import opened ObjectLayout
  import opened LayoutFacts

  ghost predicate ClassReady(t: Table, c: Stash) {
    c in t && t[c].sealed && t[c].kind.IsClass() && SealedOk(t, c)
  }

  ghost predicate AllReady(t: Table, classes: seq<Stash>) {
    forall c {:trigger ClassReady(t, c)} :: c in classes ==> ClassReady(t, c)
  }

  ghost function Windows(t: Table, classes: seq<Stash>): seq<seq<SlotRef>>
    requires AllReady(t, classes)
  {
    seq(|classes|, i requires 0 <= i < |classes| => assert classes[i] in classes; assert ClassReady(t, classes[i]); ClassSlots(t, classes[i]))
  }

  /** What every slot of the field vector holds. */
  ghost function InstanceSlots(t: Table, classes: seq<Stash>): seq<SlotRef>
    requires AllReady(t, classes)
  {
    Flatten(Windows(t, classes))
  }

  /** The number of slots before the window of class number `k`. */
  ghost function WindowStart(t: Table, classes: seq<Stash>, k: nat): nat
    requires AllReady(t, classes) && k <= |classes|
  {
    |Flatten(Windows(t, classes)[..k])|
  }

  ghost predicate AfterSuperclass(t: Table, classes: seq<Stash>, k: nat)
    requires k < |classes|
  {
    classes[k] in t && (t[classes[k]].superclass.Some? ==> t[classes[k]].superclass.value in classes[..k])
  }

  /** Each superclass stands before its subclasses. */
  ghost predicate ParentsFirst(t: Table, classes: seq<Stash>) {
    forall k: nat {:trigger AfterSuperclass(t, classes, k)} :: k < |classes| ==> AfterSuperclass(t, classes, k)
  }

  // ----- windows

  lemma ClassWindow(t: Table, classes: seq<Stash>, k: nat, p: nat)
    requires AllReady(t, classes) && k < |classes| && ClassReady(t, classes[k])
    requires p < |ClassSlots(t, classes[k])|
    ensures WindowStart(t, classes, k) + p < |InstanceSlots(t, classes)|
    ensures InstanceSlots(t, classes)[WindowStart(t, classes, k) + p] == ClassSlots(t, classes[k])[p]
  {
    hide Flatten, ClassSlots, SealedOk;
    var ws := Windows(t, classes);
    FlattenWindow(ws, k);
    var before := |Flatten(ws[..k])|;
    assert Flatten(ws)[before + p] == Flatten(ws)[before..before + |ws[k]|][p];
  }

  lemma WindowStartNext(t: Table, classes: seq<Stash>, k: nat)
    requires AllReady(t, classes) && k < |classes| && ClassReady(t, classes[k])
    ensures WindowStart(t, classes, k + 1) == WindowStart(t, classes, k) + |ClassSlots(t, classes[k])|
    ensures WindowStart(t, classes, k + 1) <= |InstanceSlots(t, classes)|
    ensures WindowStart(t, classes, |classes|) == |InstanceSlots(t, classes)|
  {
    var ws := Windows(t, classes);
    FlattenWindow(ws, k);
    FlattenMonotone(ws, k + 1, |ws|);
    assert ws[..|ws|] == ws;
  }

  lemma ReadySize(t: Table, c: Stash)
    requires ClassReady(t, c)
    ensures t[c].nextFieldix == Prefix(t, c) + |ClassSlots(t, c)|
    ensures t[c].superclass.Some? ==> t[c].superclass.value in t
  {}

  /** The slots a superclass needs are there before its subclass is placed, so the
      shift of a class is never negative. */
  lemma {:induction false} SuperclassFits(t: Table, classes: seq<Stash>, k: nat)
    requires AllReady(t, classes) && ParentsFirst(t, classes) && k < |classes|
    ensures ClassReady(t, classes[k]) && Prefix(t, classes[k]) <= WindowStart(t, classes, k)
    decreases k
  {
    hide SealedOk, InstanceSlots, ClassSlots;
    assert classes[k] in classes && ClassReady(t, classes[k]);
    var sup := t[classes[k]].superclass;
    assert AfterSuperclass(t, classes, k);
    if sup.Some? {
      var j: nat :| 0 <= j < k && classes[j] == sup.value;
      SuperclassFits(t, classes, j);
      ReadySize(t, classes[j]);
      WindowStartNext(t, classes, j);
      FlattenMonotone(Windows(t, classes), j + 1, k);
    }
  }

  /** No slot is given to two fields. */
  lemma InstanceSlotsDistinct(t: Table, classes: seq<Stash>)
    requires AllReady(t, classes) && NoDup(classes)
    ensures NoDup(InstanceSlots(t, classes))
  {
    var ws := Windows(t, classes);
    var slots := InstanceSlots(t, classes);
    forall p, q | 0 <= p < q < |slots| ensures slots[p] != slots[q] {
      var k, i := FlattenSource(ws, p);
      var l, j := FlattenSource(ws, q);
      OwnersOf(t, classes, k);
      OwnersOf(t, classes, l);
      if k == l {
        assert ws[k][i] != ws[k][j];
      } else {
        assert ws[k][i] in ws[k] && ws[l][j] in ws[l];
        assert classes[k] != classes[l];
      }
    }
  }

  lemma OwnersOf(t: Table, classes: seq<Stash>, k: nat)
    requires AllReady(t, classes) && k < |classes|
    ensures NoDup(Windows(t, classes)[k])
    ensures forall e :: e in Windows(t, classes)[k] ==> e.owner == classes[k]
  {
    assert classes[k] in classes && ClassReady(t, classes[k]);
    ClassSlotsDistinct(t, classes[k]);
  }

  // ----- the list of classes that the walk over @ISA produces

  lemma {:induction false} ClassesOfDistinct(t: Table, xs: seq<Stash>)
    requires ObjectLayout.Within(t, xs) && NoDup(xs)
    ensures NoDup(ClassesOf(t, xs))
  {
    if xs != [] {
      var n := |xs| - 1;
      ClassesOfDistinct(t, xs[..n]);
      ClassesOfMembers(t, xs[..n]);
      NoDupAppend(ClassesOf(t, xs[..n]), xs[n]);
    }
  }

  lemma SuperclassAmong(t: Table, c: Stash, xs: seq<Stash>)
    requires TableOk(t) && c in t && t[c].superclass.Some? && forall y :: y in t[c].isa ==> y in xs
    requires ObjectLayout.Within(t, xs)
    ensures t[c].superclass.value in ClassesOf(t, xs)
  {
    assert RecordOk(t, c);
    ClassesOfMembers(t, xs);
  }

  /** The walk lists each class after its superclass. */
  lemma {:induction false} ClassesOfOrdered(t: Table, xs: seq<Stash>)
    requires TableOk(t) && ObjectLayout.Within(t, xs) && Ordered(IsaGraph(t), xs)
    ensures ParentsFirst(t, ClassesOf(t, xs))
  {
    if xs != [] {
      var n := |xs| - 1;
      OrderedFront(IsaGraph(t), xs);
      ClassesOfOrdered(t, xs[..n]);
      if t[xs[n]].kind.IsClass() {
        if t[xs[n]].superclass.Some? {
          forall y | y in t[xs[n]].isa ensures y in xs[..n] { assert y in IsaGraph(t)[xs[n]]; }
          SuperclassAmong(t, xs[n], xs[..n]);
        }
        AppendParentsFirst(t, ClassesOf(t, xs[..n]), xs[n]);
      } else {
        assert ClassesOf(t, xs) == ClassesOf(t, xs[..n]);
      }
    }
  }

  lemma AppendParentsFirst(t: Table, front: seq<Stash>, c: Stash)
    requires ParentsFirst(t, front) && c in t
    requires t[c].superclass.Some? ==> t[c].superclass.value in front
    ensures ParentsFirst(t, front + [c])
  {
    var all := front + [c];
    forall k: nat | k < |all| ensures AfterSuperclass(t, all, k) {
      if k < |front| {
        assert AfterSuperclass(t, front, k) && all[..k] == front[..k];
      } else {
        assert all[..k] == front;
      }
    }
  }
}
