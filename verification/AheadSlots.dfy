/** Merging tables that need not be sorted.

    A slot stands ahead when its name is greater than every name in front of it.
    The slots ahead form a sorted table, and merging any tables merges the sorted
    tables of their slots ahead; a slot that does not stand ahead is overtaken, and
    never meets one that does. */
module AheadSlots {
  import opened BitMasks
  import opened OriginSets
  import opened SlotTables
  import opened SlotMerge

  /** Some slot in front of slot `j` has a name that is not smaller. */
  ghost predicate OvertakenAt<P>(s: seq<Slot<P>>, j: nat) {
    j < |s| && exists i :: 0 <= i < j && s[i].name >= s[j].name
  }

  ghost predicate Overtaken<P>(s: seq<Slot<P>>, n: Name) {
    exists j: nat :: OvertakenAt(s, j) && s[j].name == n
  }

  /** The slots ahead, when names up to `m` have been seen. */
  function Ahead<P>(s: seq<Slot<P>>, m: int): seq<Slot<P>> {
    if s == [] then [] else if s[0].name > m then [s[0]] + Ahead(s[1..], s[0].name) else Ahead(s[1..], m)
  }

  /** The other slots. */
  function Behind<P>(s: seq<Slot<P>>, m: int): seq<Slot<P>> {
    if s == [] then [] else if s[0].name > m then Behind(s[1..], s[0].name) else [s[0]] + Behind(s[1..], m)
  }

  const NONE_SEEN: int := -1

  function Max(a: int, b: int): int {
    if a >= b then a else b
  }

  // ----- the slots ahead are sorted

  ghost predicate Over<P>(s: seq<Slot<P>>, m: int) {
    forall i :: 0 <= i < |s| ==> m < s[i].name
  }

  lemma {:induction false} AheadStrict<P>(s: seq<Slot<P>>, m: int)
    ensures Strict(Ahead(s, m)) && Over(Ahead(s, m), m)
  {
    if s != [] { AheadStrict(s[1..], Max(m, s[0].name)); }
  }

  /** Nothing of a sorted table is overtaken. */
  lemma {:induction false} StrictIsAhead<P>(s: seq<Slot<P>>, m: int)
    requires Strict(s) && Over(s, m)
    ensures Ahead(s, m) == s && Behind(s, m) == []
  {
    if s != [] {
      assert s == [s[0]] + s[1..];
      StrictIsAhead(s[1..], s[0].name);
    }
  }

  // ----- which slot goes where

  ghost predicate Late<P>(s: seq<Slot<P>>, m: int, j: nat) {
    OvertakenAt(s, j) || (j < |s| && s[j].name <= m)
  }

  lemma LateNext<P>(s: seq<Slot<P>>, m: int, j: nat)
    requires 0 < j < |s|
    ensures Late(s, m, j) <==> Late(s[1..], Max(m, s[0].name), j - 1)
  {
    var r := s[1..];
    assert r[j - 1] == s[j];
    if OvertakenAt(s, j) {
      var i :| 0 <= i < j && s[i].name >= s[j].name;
      assert i > 0 ==> r[i - 1] == s[i];
    }
    if OvertakenAt(r, j - 1) {
      var i :| 0 <= i < j - 1 && r[i].name >= r[j - 1].name;
      assert s[i + 1] == r[i];
    }
  }

  lemma {:induction false} PlaceOf<P>(s: seq<Slot<P>>, m: int, j: nat)
    requires j < |s|
    ensures if Late(s, m, j) then s[j] in Behind(s, m) else s[j] in Ahead(s, m)
  {
    if j > 0 {
      LateNext(s, m, j);
      PlaceOf(s[1..], Max(m, s[0].name), j - 1);
      hide Late;
      assert s[1..][j - 1] == s[j];
    }
  }

  lemma {:induction false} PlaceIn<P>(s: seq<Slot<P>>, m: int, x: Slot<P>)
    ensures x in Behind(s, m) ==> exists j: nat :: Late(s, m, j) && s[j] == x
    ensures x in Ahead(s, m) ==> exists j: nat :: j < |s| && !Late(s, m, j) && s[j] == x
  {
    if s != [] {
      var k := Max(m, s[0].name);
      PlaceIn(s[1..], k, x);
      if s[0].name <= m { assert Late(s, m, 0); } else { assert !Late(s, m, 0); }
      forall j: nat | j < |s| - 1 ensures Late(s, m, j + 1) <==> Late(s[1..], k, j) { LateNext(s, m, j + 1); }
      hide Late, Ahead, Behind;
      if j: nat :| j < |s| - 1 && Late(s[1..], k, j) && s[1..][j] == x { assert Late(s, m, j + 1) && s[j + 1] == x; }
      if j: nat :| j < |s| - 1 && !Late(s[1..], k, j) && s[1..][j] == x { assert !Late(s, m, j + 1) && s[j + 1] == x; }
    }
  }

  // ----- merging

  /** How far two tables that are being merged can be apart: the one that has seen less
      goes on with a greater name than anything seen. */
  ghost predicate InStep<P>(a: seq<Slot<P>>, ma: int, b: seq<Slot<P>>, mb: int) {
    (ma > mb ==> Over(b[..Min(1, |b|)], ma)) && (mb > ma ==> Over(a[..Min(1, |a|)], mb))
  }

  function Min(a: nat, b: nat): nat {
    if a <= b then a else b
  }

  lemma StepOn<P>(a: seq<Slot<P>>, ma: int, b: seq<Slot<P>>, mb: int, c: Combine<P>)
    requires a != [] && b != [] && InStep(a, ma, b, mb)
    ensures var (x, da, db) := Next(a[0], b[0], c);
            var ka, kb := if da == 1 then Max(ma, a[0].name) else ma, if db == 1 then Max(mb, b[0].name) else mb;
            && da <= 1 && db <= 1 && da + db >= 1 && InStep(a[da..], ka, b[db..], kb) && Max(ka, kb) == Max(Max(ma, mb), x.name)
            && (x.name > Max(ma, mb) <==> (if da == 1 then a[0].name > ma else b[0].name > mb))
            && (da == 1 && db == 1 ==> (a[0].name > ma <==> b[0].name > mb))
  {}

  /** The slots ahead in a merge are the merge of the slots ahead. */
  lemma {:induction false} AheadOfMerge<P>(a: seq<Slot<P>>, ma: int, b: seq<Slot<P>>, mb: int, c: Combine<P>)
    requires InStep(a, ma, b, mb)
    ensures Ahead(Merge(a, b, c), Max(ma, mb)) == Merge(Ahead(a, ma), Ahead(b, mb), c)
    decreases |a| + |b|
  {
    if a != [] && b != [] {
      StepOn(a, ma, b, mb, c);
      MergeStep(a, b, c);
      var (x, da, db) := Next(a[0], b[0], c);
      AheadOfMerge(a[da..], if da == 1 then Max(ma, a[0].name) else ma, b[db..], if db == 1 then Max(mb, b[0].name) else mb, c);
    }
  }

  lemma BehindNames<P>(s: seq<Slot<P>>, m: int, n: Name)
    requires s != []
    ensures Names(Behind(s, m), n) <==> (s[0].name <= m && s[0].name == n) || Names(Behind(s[1..], Max(m, s[0].name)), n)
  {
    if s[0].name <= m {
      NamesHead(Behind(s, m), n);
      assert Behind(s, m)[1..] == Behind(s[1..], m);
    }
  }

  lemma BehindNone<P>(s: seq<Slot<P>>, m: int, k: int)
    requires m <= k && Over(s[..Min(1, |s|)], k)
    ensures Behind(s, k) == Behind(s, m)
  {
    assert s != [] ==> s[..1][0] == s[0];
  }

  lemma {:induction false} BehindOfMerge<P>(a: seq<Slot<P>>, ma: int, b: seq<Slot<P>>, mb: int, c: Combine<P>, n: Name)
    requires InStep(a, ma, b, mb)
    ensures Names(Behind(Merge(a, b, c), Max(ma, mb)), n) <==> Names(Behind(a, ma), n) || Names(Behind(b, mb), n)
    decreases |a| + |b|
  {
    if a == [] {
      if ma > mb { BehindNone(b, mb, ma); }
    } else if b == [] {
      if mb > ma { BehindNone(a, ma, mb); }
    } else {
      StepOn(a, ma, b, mb, c);
      MergeStep(a, b, c);
      var (x, da, db) := Next(a[0], b[0], c);
      var ka, kb := if da == 1 then Max(ma, a[0].name) else ma, if db == 1 then Max(mb, b[0].name) else mb;
      BehindOfMerge(a[da..], ka, b[db..], kb, c, n);
      BehindNames(a, ma, n);
      BehindNames(b, mb, n);
      BehindNames(Merge(a, b, c), Max(ma, mb), n);
      hide Behind, Names, Merge, InStep;
      assert a[0..] == a && b[0..] == b;
    }
  }

  /** No slot has an origin. */
  ghost predicate Bare<P>(s: seq<Slot<P>>) {
    forall i :: 0 <= i < |s| ==> s[i].origins == 0
  }

  lemma BehindBare<P>(s: seq<Slot<P>>, m: int)
    requires s != []
    ensures Bare(Behind(s, m)) <==> (s[0].name <= m ==> s[0].origins == 0) && Bare(Behind(s[1..], Max(m, s[0].name)))
  {
    if s[0].name <= m {
      var rest := Behind(s[1..], m);
      var all := Behind(s, m);
      assert all == [s[0]] + rest && all[0] == s[0];
      assert forall i :: 0 <= i < |rest| ==> rest[i] == all[i + 1];
    }
  }

  lemma FuseBare<P>(x: Slot<P>, y: Slot<P>, c: Combine<P>)
    requires x.origins == 0 && y.origins == 0
    ensures Fuse(x, y, c).origins == 0
  {}

  /** Where no overtaken slot has an origin, merging keeps it so. */
  lemma {:induction false} BareMerge<P>(a: seq<Slot<P>>, ma: int, b: seq<Slot<P>>, mb: int, c: Combine<P>)
    requires InStep(a, ma, b, mb) && Bare(Behind(a, ma)) && Bare(Behind(b, mb))
    ensures Bare(Behind(Merge(a, b, c), Max(ma, mb)))
    decreases |a| + |b|
  {
    if a == [] {
      if ma > mb { BehindNone(b, mb, ma); }
    } else if b == [] {
      if mb > ma { BehindNone(a, ma, mb); }
    } else {
      StepOn(a, ma, b, mb, c);
      MergeStep(a, b, c);
      var (x, da, db) := Next(a[0], b[0], c);
      var ka, kb := if da == 1 then Max(ma, a[0].name) else ma, if db == 1 then Max(mb, b[0].name) else mb;
      BehindBare(a, ma);
      BehindBare(b, mb);
      BehindBare(Merge(a, b, c), Max(ma, mb));
      if a[0].origins == 0 && b[0].origins == 0 { FuseBare(a[0], b[0], c); }
      hide Behind, Bare, Merge, InStep, Compose;
      assert a[0..] == a && b[0..] == b;
      BareMerge(a[da..], ka, b[db..], kb, c);
    }
  }

  // ----- the fold

  function AllAhead<P>(tables: seq<seq<Slot<P>>>): seq<seq<Slot<P>>> {
    seq(|tables|, p requires 0 <= p < |tables| => Ahead(tables[p], NONE_SEEN))
  }

  lemma AheadOfTwo<P>(a: seq<Slot<P>>, b: seq<Slot<P>>, c: Combine<P>)
    ensures Ahead(Merge(a, b, c), NONE_SEEN) == Merge(Ahead(a, NONE_SEEN), Ahead(b, NONE_SEEN), c)
    ensures forall n :: Names(Behind(Merge(a, b, c), NONE_SEEN), n) <==> Names(Behind(a, NONE_SEEN), n) || Names(Behind(b, NONE_SEEN), n)
  {
    assert InStep(a, NONE_SEEN, b, NONE_SEEN);
    hide Ahead, Behind, Merge, Names, InStep;
    AheadOfMerge(a, NONE_SEEN, b, NONE_SEEN, c);
    forall n ensures Names(Behind(Merge(a, b, c), NONE_SEEN), n) <==> Names(Behind(a, NONE_SEEN), n) || Names(Behind(b, NONE_SEEN), n) {
      BehindOfMerge(a, NONE_SEEN, b, NONE_SEEN, c, n);
    }
  }

  /** Composing any tables composes the sorted tables of their slots ahead. */
  lemma {:induction false} AheadOfCompose<P>(tables: seq<seq<Slot<P>>>, c: Combine<P>)
    requires tables != []
    ensures Ahead(ComposeAll(tables, c), NONE_SEEN) == ComposeAll(AllAhead(tables), c)
  {
    hide Ahead, Merge;
    var n := |tables| - 1;
    if n > 0 {
      AheadOfCompose(tables[..n], c);
      assert AllAhead(tables)[..n] == AllAhead(tables[..n]);
      AheadOfTwo(ComposeAll(tables[..n], c), tables[n], c);
    }
  }

  /** A name is overtaken in the composition exactly when it is in some table. */
  lemma {:induction false} BehindOfCompose<P>(tables: seq<seq<Slot<P>>>, c: Combine<P>, n: Name)
    requires tables != []
    ensures Names(Behind(ComposeAll(tables, c), NONE_SEEN), n) <==>
            exists p: nat :: p < |tables| && Names(Behind(tables[p], NONE_SEEN), n)
  {
    hide Behind, Merge, Names;
    var k := |tables| - 1;
    if k > 0 {
      BehindOfCompose(tables[..k], c, n);
      AheadOfTwo(ComposeAll(tables[..k], c), tables[k], c);
      forall p: nat | p < k ensures tables[..k][p] == tables[p] {}
    }
  }

  lemma {:induction false} BareCompose<P>(tables: seq<seq<Slot<P>>>, c: Combine<P>)
    requires tables != [] && forall t :: t in tables ==> Bare(Behind(t, NONE_SEEN))
    ensures Bare(Behind(ComposeAll(tables, c), NONE_SEEN))
  {
    hide Behind, Merge, Bare;
    var k := |tables| - 1;
    assert tables[k] in tables;
    if k > 0 {
      assert forall t :: t in tables[..k] ==> t in tables;
      BareCompose(tables[..k], c);
      BareMerge(ComposeAll(tables[..k], c), NONE_SEEN, tables[k], NONE_SEEN, c);
    }
  }

  // ----- seen through the positions

  lemma OvertakenIsBehind<P>(s: seq<Slot<P>>, n: Name)
    ensures Overtaken(s, n) <==> Names(Behind(s, NONE_SEEN), n)
  {
    forall j: nat | j < |s| ensures Late(s, NONE_SEEN, j) <==> OvertakenAt(s, j) {}
    hide OvertakenAt, Late;
    if Overtaken(s, n) {
      var j: nat :| OvertakenAt(s, j) && s[j].name == n;
      PlaceOf(s, NONE_SEEN, j);
    }
    if Names(Behind(s, NONE_SEEN), n) {
      var i :| 0 <= i < |Behind(s, NONE_SEEN)| && Behind(s, NONE_SEEN)[i].name == n;
      PlaceIn(s, NONE_SEEN, Behind(s, NONE_SEEN)[i]);
    }
  }

  /** A name is overtaken in a composition exactly when it is overtaken in some table. */
  lemma OvertakenCompose<P>(tables: seq<seq<Slot<P>>>, c: Combine<P>, n: Name)
    requires tables != []
    ensures Overtaken(ComposeAll(tables, c), n) <==> exists p: nat :: p < |tables| && Overtaken(tables[p], n)
  {
    hide Overtaken, Behind, Names, ComposeAll;
    BehindOfCompose(tables, c, n);
    OvertakenIsBehind(ComposeAll(tables, c), n);
    forall p: nat | p < |tables| ensures Overtaken(tables[p], n) <==> Names(Behind(tables[p], NONE_SEEN), n) {
      OvertakenIsBehind(tables[p], n);
    }
  }

  /** A name has two slots or more exactly when it is overtaken. */
  lemma TwoSlotsIff<P>(s: seq<Slot<P>>, n: Name)
    requires exists i: nat :: i < |s| && s[i].name == n && !OvertakenAt(s, i)
    ensures (exists i, j :: 0 <= i < j < |s| && s[i].name == n && s[j].name == n) <==> Overtaken(s, n)
  {
    var i: nat :| i < |s| && s[i].name == n && !OvertakenAt(s, i);
    if Overtaken(s, n) {
      var j: nat :| OvertakenAt(s, j) && s[j].name == n;
      assert s[if i < j then i else j].name == n && s[if i < j then j else i].name == n;
    }
    if exists i, j :: 0 <= i < j < |s| && s[i].name == n && s[j].name == n {
      var i, j :| 0 <= i < j < |s| && s[i].name == n && s[j].name == n;
      assert OvertakenAt(s, j as nat);
    }
  }

  /** Two slots ahead have different names. */
  lemma OneAhead<P>(s: seq<Slot<P>>, i: nat, j: nat)
    requires i < |s| && j < |s| && s[i].name == s[j].name && !OvertakenAt(s, i) && !OvertakenAt(s, j)
    ensures i == j
  {}

  /** In a sorted table, duplicates allowed, every name has a slot ahead. */
  lemma {:induction false} SortedNamesAhead<P>(s: seq<Slot<P>>, n: Name)
    requires Sorted(s)
    ensures Names(Ahead(s, NONE_SEEN), n) <==> Names(s, n)
  {
    hide Ahead;
    if Names(s, n) {
      var i: nat := FirstNamed(s, n);
      assert !OvertakenAt(s, i);
      PlaceOf(s, NONE_SEEN, i);
    }
    if Names(Ahead(s, NONE_SEEN), n) {
      var i :| 0 <= i < |Ahead(s, NONE_SEEN)| && Ahead(s, NONE_SEEN)[i].name == n;
      PlaceIn(s, NONE_SEEN, Ahead(s, NONE_SEEN)[i]);
    }
  }

  lemma {:induction false} FirstNamed<P>(s: seq<Slot<P>>, n: Name) returns (i: nat)
    requires Names(s, n)
    ensures i < |s| && s[i].name == n && forall k :: 0 <= k < i ==> s[k].name != n
  {
    i := 0;
    while s[i].name != n
      invariant i < |s| && forall k :: 0 <= k < i ==> s[k].name != n
      decreases |s| - i
    {
      assert exists k :: 0 <= k < |s| && s[k].name == n;
      i := i + 1;
    }
  }
}
