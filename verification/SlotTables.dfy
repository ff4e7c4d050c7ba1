/** Growable tables of named slots, and sorting them by name in place. */
module SlotTables {
  import opened BitMasks
  import opened OriginSets

  type Name = nat

  /** A named slot with the participants that provide it.  The payload is what the
      slot carries besides: the code of a method, the pad name of a field. */
  datatype Slot<P> = Slot(name: Name, origins: OriginSet, payload: P)

  // ----- sorting by insertion

  ghost predicate Sorted<P>(s: seq<Slot<P>>) {
    forall i, j :: 0 <= i < j < |s| ==> s[i].name <= s[j].name
  }

  ghost predicate DistinctNames<P>(s: seq<Slot<P>>) {
    forall i, j :: 0 <= i < j < |s| ==> s[i].name != s[j].name
  }

  /** Sorted and free of duplicates. */
  ghost predicate Strict<P>(s: seq<Slot<P>>) {
    forall i, j :: 0 <= i < j < |s| ==> s[i].name < s[j].name
  }

  /** Puts `x` after everything in the sorted list that is not greater. */
  function Insert<P>(s: seq<Slot<P>>, x: Slot<P>): seq<Slot<P>> {
    if s == [] || s[|s| - 1].name <= x.name then s + [x]
    else Insert(s[..|s| - 1], x) + [s[|s| - 1]]
  }

  function SortSlots<P>(s: seq<Slot<P>>): seq<Slot<P>> {
    if s == [] then [] else Insert(SortSlots(s[..|s| - 1]), s[|s| - 1])
  }

  lemma {:induction false} InsertPlace<P>(s: seq<Slot<P>>, x: Slot<P>, j: nat)
    requires j <= |s| && (forall k :: j <= k < |s| ==> s[k].name > x.name)
    requires j > 0 ==> s[j - 1].name <= x.name
    ensures Insert(s, x) == s[..j] + [x] + s[j..]
  {
    if j < |s| {
      var n := |s| - 1;
      InsertPlace(s[..n], x, j);
      assert s[..n][..j] == s[..j] && s[..n][j..] + [s[n]] == s[j..];
    } else {
      assert s[..j] == s;
    }
  }

  lemma {:induction false} InsertKeeps<P>(s: seq<Slot<P>>, x: Slot<P>)
    ensures multiset(Insert(s, x)) == multiset(s) + multiset{x}
  {
    if s != [] && s[|s| - 1].name > x.name {
      var n := |s| - 1;
      InsertKeeps(s[..n], x);
      assert s == s[..n] + [s[n]];
    }
  }

  lemma {:induction false} InsertBounded<P>(s: seq<Slot<P>>, x: Slot<P>, bound: Name)
    requires x.name <= bound && forall i :: 0 <= i < |s| ==> s[i].name <= bound
    ensures forall i :: 0 <= i < |Insert(s, x)| ==> Insert(s, x)[i].name <= bound
  {
    if s != [] && s[|s| - 1].name > x.name { InsertBounded(s[..|s| - 1], x, bound); }
  }

  lemma {:induction false} InsertSorted<P>(s: seq<Slot<P>>, x: Slot<P>)
    requires Sorted(s)
    ensures Sorted(Insert(s, x))
  {
    if s != [] && s[|s| - 1].name > x.name {
      var n := |s| - 1;
      InsertSorted(s[..n], x);
      InsertBounded(s[..n], x, s[n].name);
    }
  }

  /** Sorting gives an ordered permutation. */
  lemma {:induction false} SortSlotsSorts<P>(s: seq<Slot<P>>)
    ensures Sorted(SortSlots(s)) && multiset(SortSlots(s)) == multiset(s)
  {
    if s != [] {
      var n := |s| - 1;
      SortSlotsSorts(s[..n]);
      InsertSorted(SortSlots(s[..n]), s[n]);
      InsertKeeps(SortSlots(s[..n]), s[n]);
      assert s == s[..n] + [s[n]];
    }
  }

  /** Slots with equal names keep their order. */
  function Named<P>(s: seq<Slot<P>>, n: Name): seq<Slot<P>> {
    if s == [] then []
    else Named(s[..|s| - 1], n) + if s[|s| - 1].name == n then [s[|s| - 1]] else []
  }

  lemma NamedAppend<P>(s: seq<Slot<P>>, x: Slot<P>, n: Name)
    ensures Named(s + [x], n) == Named(s, n) + if x.name == n then [x] else []
  {
    assert (s + [x])[..|s|] == s;
  }

  lemma {:induction false} InsertStable<P>(s: seq<Slot<P>>, x: Slot<P>, n: Name)
    requires Sorted(s)
    ensures Named(Insert(s, x), n) == Named(s + [x], n)
  {
    if s != [] && s[|s| - 1].name > x.name {
      var front, last := s[..|s| - 1], s[|s| - 1];
      InsertStable(front, x, n);
      assert s == front + [last];
      hide Named, Sorted;
      NamedAppend(Insert(front, x), last, n);
      NamedAppend(front, x, n);
      NamedAppend(front, last, n);
      NamedAppend(s, x, n);
    }
  }

  lemma {:induction false} NamedNone<P>(s: seq<Slot<P>>, n: Name)
    requires forall i :: 0 <= i < |s| ==> s[i].name != n
    ensures Named(s, n) == []
  {
    if s != [] { NamedNone(s[..|s| - 1], n); }
  }

  lemma {:induction false} SortSlotsStable<P>(s: seq<Slot<P>>, n: Name)
    ensures Named(SortSlots(s), n) == Named(s, n)
  {
    if s != [] {
      var k := |s| - 1;
      SortSlotsSorts(s[..k]);
      SortSlotsStable(s[..k], n);
      InsertStable(SortSlots(s[..k]), s[k], n);
      assert (SortSlots(s[..k]) + [s[k]])[..|SortSlots(s[..k])|] == SortSlots(s[..k]);
    }
  }

  lemma SortedDistinctIsStrict<P>(s: seq<Slot<P>>)
    requires DistinctNames(s)
    ensures Strict(SortSlots(s))
  {
    SortSlotsSorts(s);
    var r := SortSlots(s);
    forall i, j | 0 <= i < j < |r| ensures r[i].name < r[j].name {
      if r[i].name == r[j].name {
        SortSlotsStable(s, r[i].name);
        NamedTwo(r, i, j);
        NamedOnce(s, r[i].name);
      }
    }
  }

  lemma {:induction false} NamedOnce<P>(s: seq<Slot<P>>, n: Name)
    requires DistinctNames(s)
    ensures |Named(s, n)| <= 1
  {
    if s != [] {
      var k := |s| - 1;
      NamedOnce(s[..k], n);
      if s[k].name == n { NamedNone(s[..k], n); }
    }
  }

  lemma {:induction false} NamedSome<P>(s: seq<Slot<P>>, i: nat)
    requires i < |s|
    ensures |Named(s, s[i].name)| >= 1
  {
    if i < |s| - 1 { NamedSome(s[..|s| - 1], i); }
  }

  lemma {:induction false} NamedTwo<P>(s: seq<Slot<P>>, i: nat, j: nat)
    requires i < j < |s| && s[i].name == s[j].name
    ensures |Named(s, s[i].name)| >= 2
  {
    if j < |s| - 1 { NamedTwo(s[..|s| - 1], i, j); } else { NamedSome(s[..|s| - 1], i); }
  }

  // ----- the table

  class SlotTable<P(0)> {
    var slots: array<Slot<P>>
    var count: nat
    const first: nat

    ghost predicate Valid()
      reads this
    {
      first > 0 && count <= slots.Length
    }

    ghost function Contents(): seq<Slot<P>>
      reads this, slots
      requires Valid()
    {
      slots[..count]
    }

    /** An empty table, which allocates `first` slots when the first one is added. */
    constructor (first: nat)
      requires first > 0
      ensures Valid() && Contents() == [] && fresh(slots) && this.first == first
    {
      this.first := first;
      slots := new Slot<P>[0];
      count := 0;
    }

    method Add(slot: Slot<P>)
      requires Valid()
      modifies this, slots
      ensures Valid() && (slots == old(slots) || fresh(slots))
      ensures Contents() == old(Contents()) + [slot]
    {
      if count >= slots.Length {
        var alloc := if slots.Length > 0 then slots.Length * 2 else first;
        var grown := new Slot<P>[alloc];
        forall i | 0 <= i < count { grown[i] := slots[i]; }
        slots := grown;
      }
      slots[count] := slot;
      count := count + 1;
    }

    /** Insertion sort. */
    method Sort()
      requires Valid()
      modifies slots
      ensures Valid() && Contents() == SortSlots(old(Contents()))
    {
      ghost var was := slots[..count];
      for i := 0 to count
        invariant PartlySorted(slots[..count], was, i)
      {
        hide PartlySorted, SortSlots, Insert;
        ghost var before := slots[..];
        SiftDown(slots, i);
        PartlySortedNext(before, slots[..], was, i);
      }
      assert was[..count] == was;
    }
  }

  /** The first `i` slots are sorted, the others as they were. */
  ghost predicate PartlySorted<P>(now: seq<Slot<P>>, was: seq<Slot<P>>, i: nat) {
    i <= |was| && now == SortSlots(was[..i]) + was[i..]
  }

  lemma PartlySortedNext<P>(before: seq<Slot<P>>, after: seq<Slot<P>>, was: seq<Slot<P>>, i: nat)
    requires i < |was| <= |before| == |after| && PartlySorted(before[..|was|], was, i)
    requires after == Insert(before[..i], before[i]) + before[i + 1..]
    ensures PartlySorted(after[..|was|], was, i + 1)
  {
    var sorted := SortSlots(was[..i]);
    SortSlotsLength(was[..i]);
    assert before[..|was|] == sorted + was[i..];
    assert before[..i] == before[..|was|][..i] == sorted;
    assert before[i] == before[..|was|][i] == was[i];
    assert before[i + 1..|was|] == before[..|was|][i + 1..] == was[i + 1..];
    assert was[..i + 1][..i] == was[..i];
    InsertLength(sorted, was[i]);
    hide SortSlots, Insert;
    var front := Insert(sorted, was[i]);
    assert after[..|was|] == front + before[i + 1..|was|];
  }

  lemma {:induction false} InsertLength<P>(s: seq<Slot<P>>, x: Slot<P>)
    ensures |Insert(s, x)| == |s| + 1
  {
    if s != [] && s[|s| - 1].name > x.name { InsertLength(s[..|s| - 1], x); }
  }

  lemma {:induction false} SortSlotsLength<P>(s: seq<Slot<P>>)
    ensures |SortSlots(s)| == |s|
  {
    if s != [] {
      SortSlotsLength(s[..|s| - 1]);
      InsertLength(SortSlots(s[..|s| - 1]), s[|s| - 1]);
    }
  }

  /** The inner loop of the sort: moves slot `i` down to its place among those before it. */
  method SiftDown<P>(slots: array<Slot<P>>, i: nat)
    requires i < slots.Length
    modifies slots
    ensures slots[..] == Insert(old(slots[..i]), old(slots[i])) + old(slots[i + 1..])
  {
    ghost var was := slots[..];
    ghost var sorted := was[..i];
    var tmp := slots[i];
    var j := i;
    SiftingNothing(was, i);
    while j > 0 && slots[j - 1].name > tmp.name
      invariant 0 <= j <= i && slots[..] == Sifting(was, i, j)
      invariant forall k :: j <= k < i ==> sorted[k].name > tmp.name
    {
      hide Sifting;
      SiftingMore(was, i, j);
      assert slots[j - 1] == slots[..][j - 1] == sorted[j - 1];
      slots[j] := slots[j - 1];
      j := j - 1;
    }
    hide Sifting, Insert;
    SiftingDone(was, i, j, tmp);
    assert j > 0 ==> slots[j - 1] == slots[..][j - 1] == sorted[j - 1];
    slots[j] := tmp;
    InsertPlace(sorted, tmp, j);
  }

  /** The slots from `j` up to `i` have moved one place up; place `j` still holds what it did. */
  function Sifting<P>(was: seq<Slot<P>>, i: nat, j: nat): seq<Slot<P>>
    requires j <= i < |was|
  {
    was[..j + 1] + was[j..i] + was[i + 1..]
  }

  lemma SiftingNothing<P>(was: seq<Slot<P>>, i: nat)
    requires i < |was|
    ensures Sifting(was, i, i) == was
  {}

  lemma SiftingMore<P>(was: seq<Slot<P>>, i: nat, j: nat)
    requires 0 < j <= i < |was|
    ensures |Sifting(was, i, j)| == |was| && Sifting(was, i, j)[j - 1] == was[j - 1]
    ensures Sifting(was, i, j)[j := was[j - 1]] == Sifting(was, i, j - 1)
  {}

  lemma SiftingDone<P>(was: seq<Slot<P>>, i: nat, j: nat, x: Slot<P>)
    requires j <= i < |was|
    ensures |Sifting(was, i, j)| == |was| && (j > 0 ==> Sifting(was, i, j)[j - 1] == was[j - 1])
    ensures Sifting(was, i, j)[j := x] == was[..i][..j] + [x] + was[..i][j..] + was[i + 1..]
  {}
}
