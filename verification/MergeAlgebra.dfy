/** The merge of slot tables, in whatever order they are, is a commutative,
    associative and idempotent operation on names and origins.  So the result of
    folding it depends on nothing but which tables take part. */
module MergeAlgebra {
  import opened BitMasks
  import opened OriginSets
  import opened SlotTables
  import opened SlotMerge

  /** Names and origins without the payloads. */
  function Outline<P>(s: seq<Slot<P>>): seq<Slot<()>> {
    seq(|s|, i requires 0 <= i < |s| => Slot(s[i].name, s[i].origins, ()))
  }

  function Nothing(a: (), b: ()): () {
    ()
  }

  function Join(a: seq<Slot<()>>, b: seq<Slot<()>>): seq<Slot<()>> {
    Merge(a, b, Nothing)
  }

  lemma ComposeCommutes(x: OriginSet, y: OriginSet)
    ensures Compose(x, y) == Compose(y, x)
  {
    ComposeIsUnion(x, y);
    ComposeIsUnion(y, x);
    hide Compose, Members;
    SameMembers(Compose(x, y), Compose(y, x));
  }

  lemma ComposeIdempotent(x: OriginSet)
    ensures Compose(x, x) == x
  {
    ComposeIsUnion(x, x);
    hide Compose, Members;
    SameMembers(Compose(x, x), x);
  }

  lemma ComposeAssociates(x: OriginSet, y: OriginSet, z: OriginSet)
    ensures Compose(Compose(x, y), z) == Compose(x, Compose(y, z))
  {
    ComposeIsUnion(x, y);
    ComposeIsUnion(y, z);
    ComposeIsUnion(Compose(x, y), z);
    ComposeIsUnion(x, Compose(y, z));
    hide Compose, Members;
    SameMembers(Compose(Compose(x, y), z), Compose(x, Compose(y, z)));
  }

  lemma OutlineHead<P>(s: seq<Slot<P>>)
    requires s != []
    ensures Outline(s) != [] && Outline(s)[0] == Slot(s[0].name, s[0].origins, ()) && Outline(s)[1..] == Outline(s[1..])
    ensures Outline(s) == [Slot(s[0].name, s[0].origins, ())] + Outline(s[1..])
  {}

  lemma OutlineCons<P>(x: Slot<P>, s: seq<Slot<P>>)
    ensures Outline([x] + s) == [Slot(x.name, x.origins, ())] + Outline(s)
  {
    OutlineHead([x] + s);
    assert ([x] + s)[1..] == s;
  }

  lemma OutlineOfMerge<P>(a: seq<Slot<P>>, b: seq<Slot<P>>, c: Combine<P>)
    requires a == [] || b == []
    ensures Outline(Merge(a, b, c)) == Join(Outline(a), Outline(b))
  {}

  /** The payloads have no influence on names and origins. */
  lemma {:induction false} OutlineMerge<P>(a: seq<Slot<P>>, b: seq<Slot<P>>, c: Combine<P>)
    ensures Outline(Merge(a, b, c)) == Join(Outline(a), Outline(b))
    decreases |a| + |b|
  {
    if a == [] || b == [] {
      OutlineOfMerge(a, b, c);
    } else {
      hide Outline, Compose, Merge;
      OutlineHead(a);
      OutlineHead(b);
      MergeStep(a, b, c);
      MergeStep(Outline(a), Outline(b), Nothing);
      var (x, da, db) := Next(a[0], b[0], c);
      OutlineCons(x, Merge(a[da..], b[db..], c));
      assert a[0..] == a && b[0..] == b && Outline(a)[0..] == Outline(a) && Outline(b)[0..] == Outline(b);
      OutlineMerge(a[da..], b[db..], c);
    }
  }

  lemma {:induction false} JoinCommutes(a: seq<Slot<()>>, b: seq<Slot<()>>)
    ensures Join(a, b) == Join(b, a)
    decreases |a| + |b|
  {
    if a != [] && b != [] {
      MergeStep(a, b, Nothing);
      MergeStep(b, a, Nothing);
      ComposeCommutes(a[0].origins, b[0].origins);
      hide Merge, Compose;
      var (x, da, db) := Next(a[0], b[0], Nothing);
      JoinCommutes(a[da..], b[db..]);
    }
  }

  lemma {:induction false} JoinIdempotent(a: seq<Slot<()>>)
    ensures Join(a, a) == a
  {
    if a != [] {
      MergeStep(a, a, Nothing);
      ComposeIdempotent(a[0].origins);
      hide Merge, Compose;
      assert a[0].payload == () && Fuse(a[0], a[0], Nothing) == a[0];
      JoinIdempotent(a[1..]);
      assert a == [a[0]] + a[1..];
    }
  }

  lemma JoinHead(a: seq<Slot<()>>, b: seq<Slot<()>>)
    requires a != [] && b != []
    ensures var (x, da, db) := Next(a[0], b[0], Nothing);
            && da <= 1 && db <= 1 && da + db >= 1 && Join(a, b) == [x] + Join(a[da..], b[db..])
            && Join(a, b) != [] && Join(a, b)[0] == x && Join(a, b)[1..] == Join(a[da..], b[db..]) && Join(a, b)[0..] == Join(a, b)
            && a[0..] == a && b[0..] == b
  {
    MergeStep(a, b, Nothing);
  }

  /** What is left of three tables after the least head has been emitted. */
  function Rests(a: seq<Slot<()>>, b: seq<Slot<()>>, d: seq<Slot<()>>): (seq<Slot<()>>, seq<Slot<()>>, seq<Slot<()>>)
    requires a != [] && b != [] && d != []
  {
    var least := if a[0].name <= b[0].name && a[0].name <= d[0].name then a[0].name
                 else if b[0].name <= d[0].name then b[0].name else d[0].name;
    (if a[0].name == least then a[1..] else a, if b[0].name == least then b[1..] else b, if d[0].name == least then d[1..] else d)
  }

  function First(x: Slot<()>, y: Slot<()>): Slot<()> {
    Next(x, y, Nothing).0
  }

  lemma LeftStep(a: seq<Slot<()>>, b: seq<Slot<()>>, d: seq<Slot<()>>)
    requires a != [] && b != [] && d != []
    ensures var (a', b', d') := Rests(a, b, d);
            Join(Join(a, b), d) == [First(First(a[0], b[0]), d[0])] + Join(Join(a', b'), d')
  {
    JoinHead(a, b);
    hide Join, Compose;
    JoinHead(Join(a, b), d);
  }

  lemma RightStep(a: seq<Slot<()>>, b: seq<Slot<()>>, d: seq<Slot<()>>)
    requires a != [] && b != [] && d != []
    ensures var (a', b', d') := Rests(a, b, d);
            Join(a, Join(b, d)) == [First(a[0], First(b[0], d[0]))] + Join(a', Join(b', d'))
  {
    JoinHead(b, d);
    hide Join, Compose;
    JoinHead(a, Join(b, d));
  }

  lemma FirstIs(x: Slot<()>, y: Slot<()>)
    ensures First(x, y) == if x.name < y.name then x else if x.name > y.name then y else Slot(x.name, Compose(x.origins, y.origins), ())
  {
    hide Compose;
  }

  lemma FirstAssociates(x: Slot<()>, y: Slot<()>, z: Slot<()>)
    ensures First(First(x, y), z) == First(x, First(y, z))
  {
    ComposeAssociates(x.origins, y.origins, z.origins);
    FirstIs(x, y);
    FirstIs(y, z);
    hide Compose, First, Next, Fuse;
    FirstIs(First(x, y), z);
    FirstIs(x, First(y, z));
  }

  lemma {:induction false} JoinAssociates(a: seq<Slot<()>>, b: seq<Slot<()>>, d: seq<Slot<()>>)
    ensures Join(Join(a, b), d) == Join(a, Join(b, d))
    decreases |a| + |b| + |d|
  {
    if a != [] && b != [] && d != [] {
      hide Join, First;
      LeftStep(a, b, d);
      RightStep(a, b, d);
      FirstAssociates(a[0], b[0], d[0]);
      var (a', b', d') := Rests(a, b, d);
      JoinAssociates(a', b', d');
    }
  }

  // ----- the fold

  /** A table is part of another one when merging it in adds nothing. */
  ghost predicate PartOf(a: seq<Slot<()>>, b: seq<Slot<()>>) {
    Join(a, b) == b
  }

  /** The folded table holds every table, and is part of any table that does. */
  lemma {:induction false} FoldIsLeast(xs: seq<seq<Slot<()>>>)
    requires xs != []
    ensures forall t :: t in xs ==> PartOf(t, ComposeAll(xs, Nothing))
    ensures forall u :: (forall t :: t in xs ==> PartOf(t, u)) ==> PartOf(ComposeAll(xs, Nothing), u)
  {
    var n := |xs| - 1;
    if n == 0 {
      JoinIdempotent(xs[0]);
    } else {
      FoldIsLeast(xs[..n]);
      var front, last := ComposeAll(xs[..n], Nothing), xs[n];
      assert ComposeAll(xs, Nothing) == Join(front, last);
      hide ComposeAll, Join;
      JoinHolds(front, last);
      forall t | t in xs ensures PartOf(t, Join(front, last)) {
        if t in xs[..n] { PartOfTransitive(t, front, Join(front, last)); }
      }
      forall u | forall t :: t in xs ==> PartOf(t, u) ensures PartOf(Join(front, last), u) {
        assert forall t :: t in xs[..n] ==> t in xs;
        assert last in xs && PartOf(last, u) && PartOf(front, u);
        JoinAssociates(front, last, u);
      }
    }
  }

  lemma JoinHolds(a: seq<Slot<()>>, b: seq<Slot<()>>)
    ensures PartOf(a, Join(a, b)) && PartOf(b, Join(a, b))
  {
    hide Join;
    JoinAssociates(a, a, b);
    JoinIdempotent(a);
    JoinCommutes(a, b);
    JoinAssociates(b, b, a);
    JoinIdempotent(b);
  }

  lemma PartOfTransitive(a: seq<Slot<()>>, b: seq<Slot<()>>, d: seq<Slot<()>>)
    requires PartOf(a, b) && PartOf(b, d)
    ensures PartOf(a, d)
  {
    hide Join;
    JoinAssociates(a, b, d);
  }

  function Outlines<P>(xs: seq<seq<Slot<P>>>): seq<seq<Slot<()>>> {
    seq(|xs|, i requires 0 <= i < |xs| => Outline(xs[i]))
  }

  lemma {:induction false} OutlineFold<P>(xs: seq<seq<Slot<P>>>, c: Combine<P>)
    requires xs != []
    ensures Outline(ComposeAll(xs, c)) == ComposeAll(Outlines(xs), Nothing)
  {
    var n := |xs| - 1;
    if n > 0 {
      OutlineFold(xs[..n], c);
      assert Outlines(xs)[..n] == Outlines(xs[..n]);
      OutlineMerge(ComposeAll(xs[..n], c), xs[n], c);
    }
  }

  lemma SameOutlines<P>(xs: seq<seq<Slot<P>>>, ys: seq<seq<Slot<P>>>)
    requires forall t :: t in xs ==> t in ys
    ensures forall t :: t in Outlines(xs) ==> t in Outlines(ys)
  {
    hide Outline;
    forall i | 0 <= i < |xs| ensures Outlines(xs)[i] in Outlines(ys) {
      assert xs[i] in ys;
      var j :| 0 <= j < |ys| && ys[j] == xs[i];
      assert Outlines(ys)[j] == Outlines(xs)[i];
    }
  }

  /** Once the bits are assigned, composing the participants in any order, even with
      some of them repeated, gives the same names with the same origins in the same
      places, whether the tables are sorted or not. */
  lemma FoldOrderIrrelevant<P>(xs: seq<seq<Slot<P>>>, ys: seq<seq<Slot<P>>>, c: Combine<P>)
    requires xs != [] && ys != [] && forall t :: t in xs <==> t in ys
    ensures Outline(ComposeAll(xs, c)) == Outline(ComposeAll(ys, c))
  {
    OutlineFold(xs, c);
    OutlineFold(ys, c);
    hide ComposeAll, Outline, Join;
    SameOutlines(xs, ys);
    SameOutlines(ys, xs);
    var a, b := ComposeAll(Outlines(xs), Nothing), ComposeAll(Outlines(ys), Nothing);
    FoldIsLeast(Outlines(xs));
    FoldIsLeast(Outlines(ys));
    hide Outlines;
    assert PartOf(a, b) && PartOf(b, a);
    JoinCommutes(a, b);
  }
}
