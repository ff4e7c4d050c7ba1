/** Composing sorted slot tables: the merge of two, and the fold over all participants. */
module SlotMerge {
  import opened BitMasks
  import opened OriginSets
  import opened SlotTables

  /** How the payloads of two slots with one name are combined: the left one is
      kept, and what it lacks is taken from the right one. */
  type Combine<!P> = (P, P) -> P

  function Fuse<P>(x: Slot<P>, y: Slot<P>, c: Combine<P>): Slot<P> {
    Slot(x.name, Compose(x.origins, y.origins), c(x.payload, y.payload))
  }

  function Merge<P>(a: seq<Slot<P>>, b: seq<Slot<P>>, c: Combine<P>): (r: seq<Slot<P>>)
    ensures |r| <= |a| + |b|
    decreases |a| + |b|
  {
    if a == [] then b
    else if b == [] then a
    else if a[0].name < b[0].name then [a[0]] + Merge(a[1..], b, c)
    else if a[0].name > b[0].name then [b[0]] + Merge(a, b[1..], c)
    else [Fuse(a[0], b[0], c)] + Merge(a[1..], b[1..], c)
  }

  // ----- the loop

  /** The slot that the merge emits next, and how far it advances in either table. */
  function Next<P>(x: Slot<P>, y: Slot<P>, c: Combine<P>): (Slot<P>, nat, nat) {
    if x.name < y.name then (x, 1, 0) else if x.name > y.name then (y, 0, 1) else (Fuse(x, y, c), 1, 1)
  }

  /** One step of the merge. */
  lemma MergeStep<P>(a: seq<Slot<P>>, b: seq<Slot<P>>, c: Combine<P>)
    requires a != [] && b != []
    ensures var (x, da, db) := Next(a[0], b[0], c);
            da <= 1 && db <= 1 && da + db >= 1 && Merge(a, b, c) == [x] + Merge(a[da..], b[db..], c)
  {
    assert a[0..] == a && b[0..] == b;
  }

  lemma MergeAdvance<P>(a: seq<Slot<P>>, b: seq<Slot<P>>, c: Combine<P>, ai: nat, bi: nat, emitted: seq<Slot<P>>, all: seq<Slot<P>>)
    requires ai < |a| && bi < |b| && emitted + Merge(a[ai..], b[bi..], c) == all
    ensures var (x, da, db) := Next(a[ai], b[bi], c);
            emitted + [x] + Merge(a[ai + da..], b[bi + db..], c) == all
  {
    var (x, da, db) := Next(a[ai], b[bi], c);
    assert a[ai..][1..] == a[ai + 1..] && b[bi..][1..] == b[bi + 1..];
    assert Merge(a[ai..], b[bi..], c) == [x] + Merge(a[ai + da..], b[bi + db..], c);
    hide Merge, Next;
    assert emitted + [x] + Merge(a[ai + da..], b[bi + db..], c) == emitted + ([x] + Merge(a[ai + da..], b[bi + db..], c));
  }

  lemma MergeRest<P>(a: seq<Slot<P>>, b: seq<Slot<P>>, c: Combine<P>)
    requires a == [] || b == []
    ensures Merge(a, b, c) == a + b
  {}

  /** Copies what is left of one table behind what was emitted. */
  method CopyRest<P>(out: array<Slot<P>>, oi: nat, s: array<Slot<P>>, from: nat, count: nat) returns (next: nat)
    requires from <= count <= s.Length && oi + (count - from) <= out.Length && out != s
    modifies out
    ensures next == oi + (count - from)
    ensures out[..next] == old(out[..oi]) + old(s[from..count])
  {
    var i := from;
    next := oi;
    while i < count
      invariant from <= i <= count && next == oi + (i - from)
      invariant forall k :: 0 <= k < oi ==> out[k] == old(out[k])
      invariant forall k :: from <= k < i ==> out[oi + (k - from)] == s[k]
    {
      out[next] := s[i];
      assert forall k :: from <= k < i ==> out[oi + (k - from)] == s[k];
      i, next := i + 1, next + 1;
    }
    ghost var expected := old(out[..oi]) + s[from..count];
    forall k | 0 <= k < next ensures out[k] == expected[k] {
      if oi <= k { assert out[oi + ((k - oi + from) - from)] == s[k - oi + from]; }
    }
  }

  method Emit<P>(out: array<Slot<P>>, oi: nat, slot: Slot<P>)
    requires oi < out.Length
    modifies out
    ensures out[..oi + 1] == old(out[..oi]) + [slot]
  {
    out[oi] := slot;
  }

  /** What the merge has still to emit. */
  ghost predicate MergedSoFar<P>(emitted: seq<Slot<P>>, a: seq<Slot<P>>, ai: nat, b: seq<Slot<P>>, bi: nat, c: Combine<P>) {
    ai <= |a| && bi <= |b| && emitted + Merge(a[ai..], b[bi..], c) == Merge(a, b, c)
  }

  lemma MergedNext<P>(emitted: seq<Slot<P>>, a: seq<Slot<P>>, ai: nat, b: seq<Slot<P>>, bi: nat, c: Combine<P>)
    requires ai < |a| && bi < |b| && MergedSoFar(emitted, a, ai, b, bi, c)
    ensures a[ai].name < b[bi].name ==> MergedSoFar(emitted + [a[ai]], a, ai + 1, b, bi, c)
    ensures a[ai].name > b[bi].name ==> MergedSoFar(emitted + [b[bi]], a, ai, b, bi + 1, c)
    ensures a[ai].name == b[bi].name ==> MergedSoFar(emitted + [Fuse(a[ai], b[bi], c)], a, ai + 1, b, bi + 1, c)
  {
    MergeAdvance(a, b, c, ai, bi, emitted, Merge(a, b, c));
    hide Merge, Fuse;
  }

  lemma MergedStart<P>(a: seq<Slot<P>>, b: seq<Slot<P>>, c: Combine<P>)
    ensures MergedSoFar([], a, 0, b, 0, c)
  {
    hide Merge;
    assert a[0..] == a && b[0..] == b;
  }

  /** Emits slots as long as both tables have some left. */
  method MergeCommon<P>(out: array<Slot<P>>, a: array<Slot<P>>, aCount: nat, b: array<Slot<P>>, bCount: nat, c: Combine<P>)
    returns (ai: nat, bi: nat, oi: nat)
    requires aCount <= a.Length && bCount <= b.Length && aCount + bCount <= out.Length && out != a && out != b
    modifies out
    ensures ai <= aCount && bi <= bCount && oi <= ai + bi && (ai == aCount || bi == bCount)
    ensures MergedSoFar(out[..oi], old(a[..aCount]), ai, old(b[..bCount]), bi, c)
  {
    ghost var left, right := a[..aCount], b[..bCount];
    MergedStart(left, right, c);
    ai, bi, oi := 0, 0, 0;
    hide Merge, MergedSoFar, Next, Compose;
    assert out[..0] == [];
    while ai < aCount && bi < bCount
      invariant ai <= aCount && bi <= bCount && oi <= ai + bi
      invariant a[..aCount] == left && b[..bCount] == right
      invariant MergedSoFar(out[..oi], left, ai, right, bi, c)
    {
      assert left[ai] == a[ai] && right[bi] == b[bi];
      MergedNext(out[..oi], left, ai, right, bi, c);
      if a[ai].name < b[bi].name {
        Emit(out, oi, a[ai]);
        ai := ai + 1;
      } else if a[ai].name > b[bi].name {
        Emit(out, oi, b[bi]);
        bi := bi + 1;
      } else {
        Emit(out, oi, Slot(a[ai].name, Compose(a[ai].origins, b[bi].origins), c(a[ai].payload, b[bi].payload)));
        ai, bi := ai + 1, bi + 1;
      }
      oi := oi + 1;
    }
  }

  lemma Joined<P>(done: seq<Slot<P>>, a: seq<Slot<P>>, b: seq<Slot<P>>, c: Combine<P>)
    requires a == [] || b == []
    ensures done + a + b == done + Merge(a, b, c)
  {
    MergeRest(a, b, c);
    hide Merge;
    assert done + a + b == done + (a + b);
  }

  /** Merges two tables into a new one, large enough for both. */
  method MergeSlots<P(0)>(a: array<Slot<P>>, aCount: nat, b: array<Slot<P>>, bCount: nat, c: Combine<P>)
    returns (out: array<Slot<P>>, outCount: nat)
    requires aCount <= a.Length && bCount <= b.Length
    ensures fresh(out) && outCount <= out.Length && out.Length == if aCount + bCount > 0 then aCount + bCount else 1
    ensures out[..outCount] == Merge(a[..aCount], b[..bCount], c)
  {
    hide Merge;
    var max := aCount + bCount;
    out := new Slot<P>[if max > 0 then max else 1];
    var ai, bi, oi := MergeCommon(out, a, aCount, b, bCount, c);
    ghost var done := out[..oi];
    assert a[..aCount][ai..] == a[ai..aCount] && b[..bCount][bi..] == b[bi..bCount];
    Joined(done, a[ai..aCount], b[bi..bCount], c);
    oi := CopyRest(out, oi, a, ai, aCount);
    oi := CopyRest(out, oi, b, bi, bCount);
    return out, oi;
  }

  // ----- order

  ghost predicate Above<P>(s: seq<Slot<P>>, n: Name) {
    forall i :: 0 <= i < |s| ==> n < s[i].name
  }

  lemma {:induction false} MergeAbove<P>(a: seq<Slot<P>>, b: seq<Slot<P>>, c: Combine<P>, n: Name)
    requires Above(a, n) && Above(b, n)
    ensures Above(Merge(a, b, c), n)
    decreases |a| + |b|
  {
    if a != [] && b != [] {
      if a[0].name < b[0].name {
        MergeAbove(a[1..], b, c, n);
      } else if a[0].name > b[0].name {
        MergeAbove(a, b[1..], c, n);
      } else {
        MergeAbove(a[1..], b[1..], c, n);
      }
    }
  }

  /** Merging sorted tables without duplicates gives a sorted table without duplicates. */
  lemma {:induction false} MergeStrict<P>(a: seq<Slot<P>>, b: seq<Slot<P>>, c: Combine<P>)
    requires Strict(a) && Strict(b)
    ensures Strict(Merge(a, b, c))
    decreases |a| + |b|
  {
    if a != [] && b != [] {
      if a[0].name < b[0].name {
        MergeStrict(a[1..], b, c);
        MergeAbove(a[1..], b, c, a[0].name);
      } else if a[0].name > b[0].name {
        MergeStrict(a, b[1..], c);
        MergeAbove(a, b[1..], c, b[0].name);
      } else {
        MergeStrict(a[1..], b[1..], c);
        MergeAbove(a[1..], b[1..], c, a[0].name);
      }
    }
  }

  // ----- providers

  /** The participants that provide a name, over all slots of the table that carry it. */
  ghost function Providers<P>(s: seq<Slot<P>>, n: Name): set<nat> {
    if s == [] then {}
    else (if s[0].name == n then Members(s[0].origins) else {}) + Providers(s[1..], n)
  }

  ghost predicate Names<P>(s: seq<Slot<P>>, n: Name) {
    exists i :: 0 <= i < |s| && s[i].name == n
  }

  /** Merging unites the providers of every name.  Order plays no part in it. */
  lemma {:induction false} MergeProviders<P>(a: seq<Slot<P>>, b: seq<Slot<P>>, c: Combine<P>, n: Name)
    ensures Providers(Merge(a, b, c), n) == Providers(a, n) + Providers(b, n)
    decreases |a| + |b|
  {
    hide Members, Compose;
    if a != [] && b != [] {
      if a[0].name < b[0].name {
        MergeProviders(a[1..], b, c, n);
        assert Merge(a, b, c)[1..] == Merge(a[1..], b, c);
      } else if a[0].name > b[0].name {
        MergeProviders(a, b[1..], c, n);
        assert Merge(a, b, c)[1..] == Merge(a, b[1..], c);
      } else {
        MergeProviders(a[1..], b[1..], c, n);
        assert Merge(a, b, c)[1..] == Merge(a[1..], b[1..], c);
        ComposeIsUnion(a[0].origins, b[0].origins);
      }
    }
  }

  lemma {:induction false} MergeNames<P>(a: seq<Slot<P>>, b: seq<Slot<P>>, c: Combine<P>, n: Name)
    ensures Names(Merge(a, b, c), n) <==> Names(a, n) || Names(b, n)
    decreases |a| + |b|
  {
    if a != [] && b != [] {
      var r := Merge(a, b, c);
      NamesHead(a, n);
      NamesHead(b, n);
      NamesHead(r, n);
      if a[0].name < b[0].name {
        MergeNames(a[1..], b, c, n);
        assert r[1..] == Merge(a[1..], b, c);
      } else if a[0].name > b[0].name {
        MergeNames(a, b[1..], c, n);
        assert r[1..] == Merge(a, b[1..], c);
      } else {
        MergeNames(a[1..], b[1..], c, n);
        assert r[1..] == Merge(a[1..], b[1..], c);
      }
    }
  }

  lemma NamesHead<P>(s: seq<Slot<P>>, n: Name)
    requires s != []
    ensures Names(s, n) <==> s[0].name == n || Names(s[1..], n)
  {
    if Names(s, n) && s[0].name != n {
      var i :| 0 <= i < |s| && s[i].name == n;
      assert s[1..][i - 1].name == n;
    }
    if Names(s[1..], n) {
      var i :| 0 <= i < |s[1..]| && s[1..][i].name == n;
      assert s[i + 1].name == n;
    }
  }

  // ----- the fold over all participants

  function ComposeAll<P>(tables: seq<seq<Slot<P>>>, c: Combine<P>): seq<Slot<P>>
    requires tables != []
  {
    if |tables| == 1 then tables[0]
    else Merge(ComposeAll(tables[..|tables| - 1], c), tables[|tables| - 1], c)
  }

  lemma {:induction false} ComposeAllStrict<P>(tables: seq<seq<Slot<P>>>, c: Combine<P>)
    requires tables != [] && forall t :: t in tables ==> Strict(t)
    ensures Strict(ComposeAll(tables, c))
  {
    var n := |tables| - 1;
    assert tables[n] in tables;
    if n > 0 {
      ComposeAllStrict(tables[..n], c);
      MergeStrict(ComposeAll(tables[..n], c), tables[n], c);
    }
  }

  lemma SomeFrontProvides<P>(tables: seq<seq<Slot<P>>>, n: Name, i: nat)
    requires tables != []
    ensures var m := |tables| - 1;
            (exists k :: 0 <= k < |tables| && i in Providers(tables[k], n)) <==>
            (exists k :: 0 <= k < m && i in Providers(tables[..m][k], n)) || i in Providers(tables[m], n)
  {
    hide Providers;
    var m := |tables| - 1;
    if k :| 0 <= k < |tables| && i in Providers(tables[k], n) {
      if k < m { assert i in Providers(tables[..m][k], n); }
    }
    if k :| 0 <= k < m && i in Providers(tables[..m][k], n) { assert i in Providers(tables[k], n); }
  }

  /** A participant provides a name in the composed table exactly when it does in some table. */
  lemma {:induction false} ComposeAllProviders<P>(tables: seq<seq<Slot<P>>>, c: Combine<P>, n: Name)
    requires tables != []
    ensures forall i :: i in Providers(ComposeAll(tables, c), n) <==>
                        exists k :: 0 <= k < |tables| && i in Providers(tables[k], n)
  {
    hide Providers, Merge;
    var m := |tables| - 1;
    if m > 0 {
      ComposeAllProviders(tables[..m], c, n);
      MergeProviders(ComposeAll(tables[..m], c), tables[m], c, n);
      hide ComposeAll;
      forall i: nat ensures i in Providers(ComposeAll(tables, c), n) <==>
                            exists k :: 0 <= k < |tables| && i in Providers(tables[k], n)
      {
        SomeFrontProvides(tables, n, i);
      }
    } else {
      assert ComposeAll(tables, c) == tables[0];
    }
  }

  lemma {:induction false} ComposeAllNames<P>(tables: seq<seq<Slot<P>>>, c: Combine<P>, n: Name)
    requires tables != []
    ensures Names(ComposeAll(tables, c), n) <==> exists k :: 0 <= k < |tables| && Names(tables[k], n)
  {
    var m := |tables| - 1;
    if m > 0 {
      ComposeAllNames(tables[..m], c, n);
      MergeNames(ComposeAll(tables[..m], c), tables[m], c, n);
      if Names(ComposeAll(tables[..m], c), n) {
        var k :| 0 <= k < m && Names(tables[..m][k], n);
        assert Names(tables[k], n);
      }
      if exists k :: 0 <= k < |tables| && Names(tables[k], n) {
        var k :| 0 <= k < |tables| && Names(tables[k], n);
        if k < m { assert Names(tables[..m][k], n); }
      }
    } else if Names(ComposeAll(tables, c), n) {
      assert Names(tables[0], n);
    }
  }
}
