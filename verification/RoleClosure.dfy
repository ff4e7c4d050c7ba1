/** Depth-first collection of a dependency graph in post-order.

    Both graph walks of the object system have this shape: a node is marked as
    seen before its successors are visited, and is emitted after them.  The role
    walk follows the roles a role composes, the class walk follows `@ISA`.  The
    graph is arbitrary: it may contain cycles and repeated edges. */
module RoleClosure {

  type Graph<!T(==)> = map<T, seq<T>>

  /** The two lists that a walk grows. */
  datatype Walk<T> = Walk(seen: seq<T>, emitted: seq<T>)

  ghost predicate Closed<T(!new)>(g: Graph<T>) {
    forall x, y :: x in g && y in g[x] ==> y in g
  }

  ghost predicate Within<T(!new)>(g: Graph<T>, xs: seq<T>) {
    forall x :: x in xs ==> x in g
  }

  ghost predicate NoDup<T(!new)>(xs: seq<T>) {
    forall i, j :: 0 <= i < j < |xs| ==> xs[i] != xs[j]
  }

  ghost function Unseen<T(!new)>(g: Graph<T>, seen: seq<T>): set<T> {
    set x | x in g && x !in seen
  }

  lemma UnseenShrinks<T(!new)>(g: Graph<T>, seen: seq<T>, x: T, later: seq<T>)
    requires x in g && x !in seen && seen + [x] <= later
    ensures Unseen(g, later) < Unseen(g, seen)
  {
    assert forall y :: y in seen + [x] ==> y in later;
    assert x in seen + [x] && forall y :: y in seen ==> y in seen + [x];
    assert x in Unseen(g, seen) && x !in Unseen(g, later);
  }

  lemma UnseenMonotone<T(!new)>(g: Graph<T>, seen: seq<T>, later: seq<T>)
    requires seen <= later
    ensures Unseen(g, later) <= Unseen(g, seen)
  {
    assert forall y :: y in seen ==> y in later;
  }

  /** What the recursive walk computes from `pending`, starting with `w`. */
  ghost function Collect<T(!new)>(g: Graph<T>, pending: seq<T>, w: Walk<T>): (r: Walk<T>)
    requires Closed(g) && Within(g, pending)
    ensures w.seen <= r.seen && w.emitted <= r.emitted
    decreases Unseen(g, w.seen), |pending|
  {
    if pending == [] then w
    else if pending[0] in w.seen then Collect(g, pending[1..], w)
    else
      var entered := Walk(w.seen + [pending[0]], w.emitted);
      UnseenShrinks(g, w.seen, pending[0], entered.seen);
      var below := Collect(g, g[pending[0]], entered);
      UnseenShrinks(g, w.seen, pending[0], below.seen);
      Collect(g, pending[1..], Walk(below.seen, below.emitted + [pending[0]]))
  }

  /** Walking a list is walking its head and then the rest. */
  lemma CollectHead<T(!new)>(g: Graph<T>, pending: seq<T>, w: Walk<T>)
    requires Closed(g) && Within(g, pending) && pending != []
    ensures Collect(g, pending, w) == Collect(g, pending[1..], Collect(g, [pending[0]], w))
  {
    var p := [pending[0]];
    assert p[1..] == [];
  }

  lemma CollectOne<T(!new)>(g: Graph<T>, x: T, w: Walk<T>)
    requires Closed(g) && x in g
    ensures Collect(g, [x], w) ==
            if x in w.seen then w
            else var below := Collect(g, g[x], Walk(w.seen + [x], w.emitted));
                 Walk(below.seen, below.emitted + [x])
  {
    assert [x][1..] == [];
  }

  lemma CollectNone<T(!new)>(g: Graph<T>, w: Walk<T>)
    requires Closed(g)
    ensures Collect(g, [], w) == w
  {}

  // ----- reachability

  ghost predicate IsPath<T(!new)>(g: Graph<T>, p: seq<T>) {
    |p| > 0 && (forall x :: x in p ==> x in g) &&
    forall i :: 0 <= i < |p| - 1 ==> p[i + 1] in g[p[i]]
  }

  ghost predicate Reaches<T(!new)>(g: Graph<T>, from: seq<T>, x: T) {
    exists p :: IsPath(g, p) && p[0] in from && p[|p| - 1] == x
  }

  lemma ReachesSelf<T(!new)>(g: Graph<T>, from: seq<T>, x: T)
    requires x in from && x in g
    ensures Reaches(g, from, x)
  {
    assert IsPath(g, [x]) && [x][0] in from && [x][|[x]| - 1] == x;
  }

  lemma ReachesThrough<T(!new)>(g: Graph<T>, from: seq<T>, y: T, x: T)
    requires y in from && y in g && Reaches(g, g[y], x)
    ensures Reaches(g, from, x)
  {
    var p :| IsPath(g, p) && p[0] in g[y] && p[|p| - 1] == x;
    var q := [y] + p;
    assert q[1..] == p;
    assert IsPath(g, q) && q[0] in from && q[|q| - 1] == x;
  }

  /** A set that contains the start and is closed under edges contains every reachable node. */
  lemma {:induction false} ClosedSetHoldsReachable<T(!new)>(g: Graph<T>, s: set<T>, p: seq<T>)
    requires IsPath(g, p) && p[0] in s
    requires forall x, y :: x in s && x in g && y in g[x] ==> y in s
    ensures p[|p| - 1] in s
    decreases |p|
  {
    if |p| > 1 {
      var q := p[1..];
      assert p[0] in g && p[0 + 1] in g[p[0]];
      assert IsPath(g, q) by {
        forall i | 0 <= i < |q| - 1 ensures q[i + 1] in g[q[i]] {
          assert p[(i + 1) + 1] in g[p[i + 1]];
        }
      }
      ClosedSetHoldsReachable(g, s, q);
    }
  }

  lemma ReachesStep<T(!new)>(g: Graph<T>, from: seq<T>, x: T, y: T)
    requires Closed(g) && Reaches(g, from, x) && x in g && y in g[x]
    ensures Reaches(g, from, y)
  {
    var p :| IsPath(g, p) && p[0] in from && p[|p| - 1] == x;
    var q := p + [y];
    forall i | 0 <= i < |q| - 1 ensures q[i + 1] in g[q[i]] {
      if i < |p| - 1 { assert p[i + 1] in g[p[i]]; }
    }
    assert IsPath(g, q) && q[0] in from && q[|q| - 1] == y;
  }

  // ----- what the walk collects

  ghost predicate WellFormed<T(!new)>(w: Walk<T>) {
    NoDup(w.seen) && NoDup(w.emitted) && forall x :: x in w.emitted ==> x in w.seen
  }

  lemma TakeNext<T(!new)>(xs: seq<T>, i: nat)
    requires i < |xs|
    ensures xs[..i + 1] == xs[..i] + [xs[i]]
  {}

  lemma NoDupAppend<T(!new)>(xs: seq<T>, x: T)
    requires NoDup(xs) && x !in xs
    ensures NoDup(xs + [x])
  {}

  /** What one walk, started anywhere, does: it marks every pending node and every
      successor of what it marked, marks only what is reachable, and emits exactly
      what it marked. */
  ghost predicate Grew<T(!new)>(g: Graph<T>, pending: seq<T>, w: Walk<T>, r: Walk<T>) {
    && WellFormed(r)
    && (forall x :: x in w.seen ==> x in r.seen)
    && (forall x :: x in r.emitted <==> x in w.emitted || (x in r.seen && x !in w.seen))
    && (forall x :: x in pending ==> x in r.seen)
    && (forall x :: x in r.seen && x !in w.seen ==> x in g && Reaches(g, pending, x))
    && (forall x, y :: x in r.seen && x !in w.seen && y in g[x] ==> y in r.seen)
  }

  lemma GrewPastSeen<T(!new)>(g: Graph<T>, pending: seq<T>, w: Walk<T>, r: Walk<T>)
    requires |pending| > 0 && pending[0] in w.seen && Grew(g, pending[1..], w, r)
    ensures Grew(g, pending, w, r)
  {
    forall x | x in r.seen && x !in w.seen ensures Reaches(g, pending, x) {
      LiftReach(g, pending[1..], pending, x);
    }
    assert forall x :: x in pending ==> x == pending[0] || x in pending[1..];
  }

  lemma GrewThroughNode<T(!new)>(g: Graph<T>, pending: seq<T>, w: Walk<T>, below: Walk<T>, r: Walk<T>)
    requires Closed(g) && |pending| > 0 && pending[0] in g && pending[0] !in w.seen && WellFormed(w)
    requires Grew(g, g[pending[0]], Walk(w.seen + [pending[0]], w.emitted), below)
    requires Grew(g, pending[1..], Walk(below.seen, below.emitted + [pending[0]]), r)
    ensures Grew(g, pending, w, r)
  {
    var p := pending[0];
    var entered := w.seen + [p];
    assert p in entered && forall x :: x in entered <==> x in w.seen || x == p;
    var left := below.emitted + [p];
    assert forall x :: x in left <==> x in below.emitted || x == p;
    assert forall x :: x in pending ==> x == p || x in pending[1..];
    forall x | x in r.seen && x !in w.seen ensures x in g && Reaches(g, pending, x) {
      if x !in below.seen {
        LiftReach(g, pending[1..], pending, x);
      } else if x == p {
        ReachesSelf(g, pending, p);
      } else {
        ReachesThrough(g, pending, p, x);
      }
    }
    forall x, y | x in r.seen && x !in w.seen && y in g[x] ensures y in r.seen {
      if x in below.seen {
        assert y in below.seen;
      }
    }
  }

  lemma {:induction false} CollectGrows<T(!new)>(g: Graph<T>, pending: seq<T>, w: Walk<T>)
    requires Closed(g) && Within(g, pending) && WellFormed(w)
    ensures Grew(g, pending, w, Collect(g, pending, w))
    decreases Unseen(g, w.seen), |pending|
  {
    if pending == [] {
    } else if pending[0] in w.seen {
      CollectGrows(g, pending[1..], w);
      GrewPastSeen(g, pending, w, Collect(g, pending, w));
    } else {
      var p := pending[0];
      var entered := Walk(w.seen + [p], w.emitted);
      UnseenShrinks(g, w.seen, p, entered.seen);
      var below := Collect(g, g[p], entered);
      UnseenShrinks(g, w.seen, p, below.seen);
      assert p in below.seen by { assert p in entered.seen; }
      CollectGrows(g, g[p], entered);
      NoDupAppend(below.emitted, p);
      var left := Walk(below.seen, below.emitted + [p]);
      CollectGrows(g, pending[1..], left);
      GrewThroughNode(g, pending, w, below, Collect(g, pending, w));
    }
  }

  lemma LiftReach<T(!new)>(g: Graph<T>, from: seq<T>, to: seq<T>, x: T)
    requires Reaches(g, from, x) && forall y :: y in from ==> y in to
    ensures Reaches(g, to, x)
  {
    var p :| IsPath(g, p) && p[0] in from && p[|p| - 1] == x;
    assert IsPath(g, p) && p[0] in to && p[|p| - 1] == x;
  }

  ghost function Closure<T(!new)>(g: Graph<T>, pending: seq<T>): seq<T>
    requires Closed(g) && Within(g, pending)
  {
    Collect(g, pending, Walk([], [])).emitted
  }

  /** On any graph, cyclic or not, the closure lists every reachable node once and nothing else. */
  lemma ClosureIsReachableSet<T(!new)>(g: Graph<T>, pending: seq<T>)
    requires Closed(g) && Within(g, pending)
    ensures NoDup(Closure(g, pending))
    ensures forall x :: x in Closure(g, pending) <==> Reaches(g, pending, x)
  {
    var r := Collect(g, pending, Walk([], []));
    CollectGrows(g, pending, Walk([], []));
    forall x | Reaches(g, pending, x) ensures x in r.emitted {
      var p :| IsPath(g, p) && p[0] in pending && p[|p| - 1] == x;
      var s := set y | y in r.seen;
      ClosedSetHoldsReachable(g, s, p);
    }
  }

  // ----- order

  /** Every node stands after all of its successors. */
  ghost predicate Ordered<T(!new)>(g: Graph<T>, xs: seq<T>) {
    Within(g, xs) &&
    forall k, y :: 0 <= k < |xs| && y in g[xs[k]] ==> y in xs[..k]
  }

  /** No node that the walk can meet leads back to itself. */
  ghost predicate Acyclic<T(!new)>(g: Graph<T>, from: seq<T>)
  {
    forall x :: x in g && Reaches(g, from, x) ==> !Reaches(g, g[x], x)
  }

  /** The nodes that are seen but not yet emitted are the ones being descended
      through: each of them leads to everything still pending below it. */
  ghost predicate Descending<T(!new)>(g: Graph<T>, root: seq<T>, pending: seq<T>, w: Walk<T>) {
    && WellFormed(w) && Within(g, w.seen) && Within(g, pending)
    && (forall p :: p in pending ==> Reaches(g, root, p))
    && (forall s, p :: s in w.seen && s !in w.emitted && p in pending ==> Reaches(g, g[s], p))
  }

  lemma DescendingEnter<T(!new)>(g: Graph<T>, root: seq<T>, pending: seq<T>, w: Walk<T>)
    requires Closed(g) && Descending(g, root, pending, w)
    requires |pending| > 0 && pending[0] !in w.seen
    ensures Descending(g, root, g[pending[0]], Walk(w.seen + [pending[0]], w.emitted))
  {
    var p := pending[0];
    assert p in pending;
    forall y | y in g[p] ensures Reaches(g, root, y) { ReachesStep(g, root, p, y); }
    forall s, y | s in w.seen + [p] && s !in w.emitted && y in g[p] ensures Reaches(g, g[s], y) {
      if s == p {
        ReachesSelf(g, g[p], y);
      } else {
        ReachesStep(g, g[s], p, y);
      }
    }
  }

  /** On the way back up, nothing new is left half-visited. */
  lemma DescendingRest<T(!new)>(g: Graph<T>, root: seq<T>, pending: seq<T>, w: Walk<T>, left: Walk<T>)
    requires Descending(g, root, pending, w) && |pending| > 0
    requires WellFormed(left) && Within(g, left.seen)
    requires forall s :: s in left.seen && s !in left.emitted ==> s in w.seen && s !in w.emitted
    ensures Descending(g, root, pending[1..], left)
  {
    assert forall q :: q in pending[1..] ==> q in pending;
  }

  /** A successor that was already being descended through would close a cycle. */
  lemma SuccessorsEmitted<T(!new)>(g: Graph<T>, root: seq<T>, pending: seq<T>, w: Walk<T>, below: Walk<T>)
    requires Closed(g) && Acyclic(g, root) && Descending(g, root, pending, w)
    requires |pending| > 0 && pending[0] !in w.seen
    requires Grew(g, g[pending[0]], Walk(w.seen + [pending[0]], w.emitted), below)
    ensures forall y :: y in g[pending[0]] ==> y in below.emitted
  {
    var p := pending[0];
    assert p in pending;
    forall y | y in g[p] ensures y in below.emitted {
      if y !in below.emitted {
        assert y in w.seen + [p];
        ReachesStep(g, root, p, y);
        if y == p {
          ReachesSelf(g, g[p], p);
        } else {
          ReachesStep(g, g[y], p, y);
        }
        assert false;
      }
    }
  }

  lemma OrderedAppend<T(!new)>(g: Graph<T>, xs: seq<T>, p: T)
    requires Ordered(g, xs) && p in g && forall y :: y in g[p] ==> y in xs
    ensures Ordered(g, xs + [p])
  {
    var ys := xs + [p];
    forall k, y | 0 <= k < |ys| && y in g[ys[k]] ensures y in ys[..k] {
      assert ys[..k] == xs[..k];
      if k == |xs| { assert xs[..k] == xs; }
    }
  }

  lemma OrderedFront<T(!new)>(g: Graph<T>, xs: seq<T>)
    requires Ordered(g, xs) && xs != []
    ensures Ordered(g, xs[..|xs| - 1])
  {
    var ys := xs[..|xs| - 1];
    forall k, y | 0 <= k < |ys| && y in g[ys[k]] ensures y in ys[..k] {
      assert ys[..k] == xs[..k] && ys[k] == xs[k];
    }
  }

  lemma {:induction false} CollectOrdered<T(!new)>(g: Graph<T>, root: seq<T>, pending: seq<T>, w: Walk<T>)
    requires Closed(g) && Acyclic(g, root) && Descending(g, root, pending, w)
    requires Ordered(g, w.emitted)
    ensures Ordered(g, Collect(g, pending, w).emitted)
    decreases Unseen(g, w.seen), |pending|
  {
    if pending == [] {
    } else if pending[0] in w.seen {
      DescendingRest(g, root, pending, w, w);
      CollectOrdered(g, root, pending[1..], w);
    } else {
      var p := pending[0];
      var entered := Walk(w.seen + [p], w.emitted);
      UnseenShrinks(g, w.seen, p, entered.seen);
      var below := Collect(g, g[p], entered);
      UnseenShrinks(g, w.seen, p, below.seen);
      assert p in below.seen by { assert p in entered.seen; }
      DescendingEnter(g, root, pending, w);
      CollectGrows(g, g[p], entered);
      CollectOrdered(g, root, g[p], entered);
      SuccessorsEmitted(g, root, pending, w, below);
      OrderedAppend(g, below.emitted, p);
      NoDupAppend(below.emitted, p);
      DescendingRest(g, root, pending, w, Walk(below.seen, below.emitted + [p]));
      CollectOrdered(g, root, pending[1..], Walk(below.seen, below.emitted + [p]));
    }
  }

  /** In an ordered list everything that a node leads to stands before it. */
  lemma OrderedBefore<T(!new)>(g: Graph<T>, xs: seq<T>, k: nat, x: T)
    requires Ordered(g, xs) && k < |xs| && Reaches(g, g[xs[k]], x)
    ensures x in xs[..k]
  {
    var p :| IsPath(g, p) && p[0] in g[xs[k]] && p[|p| - 1] == x;
    var before := set y | y in xs[..k];
    forall y, z | y in before && y in g && z in g[y] ensures z in before {
      var j :| 0 <= j < k && xs[j] == y;
      assert z in g[xs[j]] && z in xs[..j];
      assert xs[..j] <= xs[..k];
    }
    ClosedSetHoldsReachable(g, before, p);
  }

  /** The closure puts every node after all of its successors exactly when
      nothing reachable lies on a cycle. */
  lemma ClosureOrderedIffAcyclic<T(!new)>(g: Graph<T>, pending: seq<T>)
    requires Closed(g) && Within(g, pending)
    ensures Ordered(g, Closure(g, pending)) <==> Acyclic(g, pending)
  {
    var xs := Closure(g, pending);
    ClosureIsReachableSet(g, pending);
    if Acyclic(g, pending) {
      forall p | p in pending ensures Reaches(g, pending, p) { ReachesSelf(g, pending, p); }
      CollectOrdered(g, pending, pending, Walk([], []));
    }
    if Ordered(g, xs) {
      hide Closure, Ordered, Reaches, Closed;
      forall x | x in g && Reaches(g, pending, x) ensures !Reaches(g, g[x], x) {
        var k: nat :| k < |xs| && xs[k] == x;
        if Reaches(g, g[x], x) {
          OrderedBefore(g, xs, k, x);
          assert false;
        }
      }
    }
  }

  /** What is reachable from a reachable node is reachable. */
  lemma ReachesTransitive<T(!new)>(g: Graph<T>, from: seq<T>, y: T, x: T)
    requires Closed(g) && Reaches(g, from, y) && Reaches(g, [y], x)
    ensures Reaches(g, from, x)
  {
    var s := set z | z in g && Reaches(g, from, z);
    forall a, b | a in s && a in g && b in g[a] ensures b in s { ReachesStep(g, from, a, b); }
    var p :| IsPath(g, p) && p[0] in [y] && p[|p| - 1] == x;
    assert y in p && p[0] == y;
    ClosedSetHoldsReachable(g, s, p);
  }

  lemma ReachesBelow<T(!new)>(g: Graph<T>, y: T, x: T)
    requires y in g && Reaches(g, [y], x) && x != y
    ensures Reaches(g, g[y], x)
  {
    var p :| IsPath(g, p) && p[0] in [y] && p[|p| - 1] == x;
    var q := p[1..];
    assert p[0 + 1] in g[p[0]];
    forall i | 0 <= i < |q| - 1 ensures q[i + 1] in g[q[i]] {
      assert p[(i + 1) + 1] in g[p[i + 1]];
    }
    assert IsPath(g, q) && q[0] in g[y] && q[|q| - 1] == x;
  }

  ghost function Below<T(!new)>(g: Graph<T>, x: T): set<T>
    requires x in g
  {
    set y | y in g && Reaches(g, g[x], y)
  }

  /** Going to anything below a node, on an acyclic part of the graph, leaves strictly less below. */
  lemma BelowShrinks<T(!new)>(g: Graph<T>, x: T, y: T)
    requires Closed(g) && x in g && Acyclic(g, [x]) && y in g && y != x && Reaches(g, [x], y)
    ensures Below(g, y) < Below(g, x) && Acyclic(g, [y])
  {
    ReachesBelow(g, x, y);
    assert y in Below(g, x) && y !in Below(g, y);
    forall z | z in Below(g, y) ensures z in Below(g, x) {
      ReachesThrough(g, [y], y, z);
      ReachesTransitive(g, g[x], y, z);
    }
    forall z | z in g && Reaches(g, [y], z) ensures !Reaches(g, g[z], z) {
      ReachesTransitive(g, [x], y, z);
    }
  }

  lemma NoWayBack<T(!new)>(g: Graph<T>, x: T, y: T)
    requires Closed(g) && x in g && y in g && Acyclic(g, [x]) && Reaches(g, [x], y) && y != x
    ensures !Reaches(g, [y], x)
  {
    ReachesSelf(g, [x], x);
    if Reaches(g, [y], x) {
      ReachesBelow(g, x, y);
      ReachesTransitive(g, g[x], y, x);
    }
  }

  lemma NotOwnSuccessor<T(!new)>(g: Graph<T>, x: T)
    requires x in g && Acyclic(g, [x])
    ensures x !in g[x]
  {
    ReachesSelf(g, [x], x);
    if x in g[x] { ReachesSelf(g, g[x], x); }
  }

  // ----- single inheritance

  ghost predicate Follows<T(!new)>(g: Graph<T>, xs: seq<T>, k: nat)
    requires k < |xs|
  {
    xs[k] in g && if k == 0 then g[xs[k]] == [] else g[xs[k]] == [xs[k - 1]]
  }

  /** Each node's only successor stands right before it. */
  ghost predicate IsChain<T(!new)>(g: Graph<T>, xs: seq<T>) {
    forall k: nat {:trigger Follows(g, xs, k)} :: k < |xs| ==> Follows(g, xs, k)
  }

  lemma ChainAppend<T(!new)>(g: Graph<T>, front: seq<T>, x: T)
    requires IsChain(g, front) && front != [] && x in g && g[x] == [front[|front| - 1]]
    ensures IsChain(g, front + [x])
  {
    var xs := front + [x];
    forall k: nat | k < |xs| ensures Follows(g, xs, k) {
      if k < |front| {
        assert Follows(g, front, k);
      }
    }
  }

  lemma {:induction false} CollectChain<T(!new)>(g: Graph<T>, x: T, w: Walk<T>) returns (xs: seq<T>)
    requires Closed(g) && x in g && Acyclic(g, [x])
    requires forall y :: Reaches(g, [x], y) ==> y in g && |g[y]| <= 1 && y !in w.seen
    ensures IsChain(g, xs) && xs != [] && xs[|xs| - 1] == x
    ensures Collect(g, [x], w).emitted == w.emitted + xs
    decreases Below(g, x)
  {
    hide Reaches, Acyclic, Collect, Below;
    CollectOne(g, x, w);
    ReachesSelf(g, [x], x);
    if g[x] == [] {
      xs := [x];
      CollectNone(g, Walk(w.seen + [x], w.emitted));
    } else {
      var p := g[x][0];
      assert g[x] == [p];
      NotOwnSuccessor(g, x);
      ReachesStep(g, [x], x, p);
      BelowShrinks(g, x, p);
      NoWayBack(g, x, p);
      forall y | Reaches(g, [p], y) ensures y in g && |g[y]| <= 1 && y !in w.seen + [x] {
        ReachesTransitive(g, [x], p, y);
      }
      var front := CollectChain(g, p, Walk(w.seen + [x], w.emitted));
      xs := front + [x];
      ChainAppend(g, front, x);
      assert w.emitted + xs == w.emitted + front + [x];
    }
  }

  // ----- which of two unrelated nodes comes first

  ghost function LeaveOut<T(!new)>(xs: seq<T>, gone: seq<T>): seq<T> {
    if xs == [] then []
    else LeaveOut(xs[..|xs| - 1], gone) + if xs[|xs| - 1] in gone then [] else [xs[|xs| - 1]]
  }

  lemma LeaveOutAppend<T(!new)>(xs: seq<T>, x: T, gone: seq<T>)
    ensures LeaveOut(xs + [x], gone) == LeaveOut(xs, gone) + if x in gone then [] else [x]
  {
    assert (xs + [x])[..|xs|] == xs;
  }

  lemma {:induction false} CollectSplit<T(!new)>(g: Graph<T>, a: seq<T>, b: seq<T>, w: Walk<T>)
    requires Closed(g) && Within(g, a) && Within(g, b)
    ensures Collect(g, a + b, w) == Collect(g, b, Collect(g, a, w))
    decreases |a|
  {
    if a == [] {
      assert a + b == b;
    } else {
      assert (a + b)[1..] == a[1..] + b;
      CollectHead(g, a + b, w);
      CollectHead(g, a, w);
      CollectSplit(g, a[1..], b, Collect(g, [a[0]], w));
    }
  }

  /** `gone` holds everything its members lead to. */
  ghost predicate SelfContained<T(!new)>(g: Graph<T>, gone: seq<T>) {
    forall x, y :: x in gone && x in g && y in g[x] ==> y in gone
  }

  /** One walk has seen all that is gone, and outside it both walks agree. */
  ghost predicate Agrees<T(!new)>(gone: seq<T>, w: Walk<T>, v: Walk<T>) {
    && (forall x :: x in gone ==> x in w.seen)
    && (forall x :: x !in gone ==> (x in w.seen <==> x in v.seen))
    && w.emitted == gone + LeaveOut(v.emitted, gone)
  }

  lemma {:induction false} GoneIsUnnoticed<T(!new)>(g: Graph<T>, gone: seq<T>, pending: seq<T>, v: Walk<T>)
    requires Closed(g) && Within(g, pending) && SelfContained(g, gone) && forall x :: x in pending ==> x in gone
    ensures var r := Collect(g, pending, v);
            && (forall x :: x !in gone ==> (x in r.seen <==> x in v.seen))
            && LeaveOut(r.emitted, gone) == LeaveOut(v.emitted, gone)
    decreases Unseen(g, v.seen), |pending|
  {
    if pending == [] {
    } else if pending[0] in v.seen {
      GoneIsUnnoticed(g, gone, pending[1..], v);
    } else {
      var p := pending[0];
      var entered := Walk(v.seen + [p], v.emitted);
      UnseenShrinks(g, v.seen, p, entered.seen);
      assert p in gone;
      GoneIsUnnoticed(g, gone, g[p], entered);
      var below := Collect(g, g[p], entered);
      UnseenShrinks(g, v.seen, p, below.seen);
      LeaveOutAppend(below.emitted, p, gone);
      GoneIsUnnoticed(g, gone, pending[1..], Walk(below.seen, below.emitted + [p]));
    }
  }

  lemma AgreesEntered<T(!new)>(gone: seq<T>, w: Walk<T>, v: Walk<T>, p: T)
    requires Agrees(gone, w, v)
    ensures Agrees(gone, Walk(w.seen + [p], w.emitted), Walk(v.seen + [p], v.emitted))
  {}

  lemma AgreesLeft<T(!new)>(gone: seq<T>, w: Walk<T>, v: Walk<T>, p: T)
    requires Agrees(gone, w, v) && p !in gone
    ensures Agrees(gone, Walk(w.seen, w.emitted + [p]), Walk(v.seen, v.emitted + [p]))
  {
    LeaveOutAppend(v.emitted, p, gone);
  }

  /** A walk that has been through `gone` goes on as if it had not, and leaves out what is gone. */
  lemma {:induction false} AgreesOn<T(!new)>(g: Graph<T>, gone: seq<T>, pending: seq<T>, w: Walk<T>, v: Walk<T>)
    requires Closed(g) && Within(g, pending) && SelfContained(g, gone) && Agrees(gone, w, v)
    ensures Agrees(gone, Collect(g, pending, w), Collect(g, pending, v))
    decreases Unseen(g, v.seen), |pending|
  {
    if pending == [] { return; }
    var p := pending[0];
    CollectHead(g, pending, v);
    if p in gone {
      GoneIsUnnoticed(g, gone, [p], v);
      var u := Collect(g, [p], v);
      UnseenMonotone(g, v.seen, u.seen);
      AgreesOn(g, gone, pending[1..], w, u);
    } else if p in v.seen {
      CollectOne(g, p, v);
      AgreesOn(g, gone, pending[1..], w, v);
    } else {
      CollectOne(g, p, v);
      var w1, v1 := Walk(w.seen + [p], w.emitted), Walk(v.seen + [p], v.emitted);
      UnseenShrinks(g, v.seen, p, v1.seen);
      AgreesEntered(gone, w, v, p);
      AgreesOn(g, gone, g[p], w1, v1);
      var w2, v2 := Collect(g, g[p], w1), Collect(g, g[p], v1);
      UnseenShrinks(g, v.seen, p, v2.seen);
      AgreesLeft(gone, w2, v2, p);
      AgreesOn(g, gone, pending[1..], Walk(w2.seen, w2.emitted + [p]), Walk(v2.seen, v2.emitted + [p]));
    }
  }

  /** Naming more nodes appends what they add, in the order in which they alone would give it. */
  lemma ClosureConcat<T(!new)>(g: Graph<T>, a: seq<T>, b: seq<T>)
    requires Closed(g) && Within(g, a) && Within(g, b)
    ensures Closure(g, a + b) == Closure(g, a) + LeaveOut(Closure(g, b), Closure(g, a))
  {
    var none := Walk([], []);
    var w := Collect(g, a, none);
    CollectSplit(g, a, b, none);
    CollectGrows(g, a, none);
    AgreesOn(g, w.emitted, b, w, none);
  }

  /** Everything that the first nodes named lead to stands in front of everything they do not lead to. */
  lemma NamedInOrder<T(!new)>(g: Graph<T>, pending: seq<T>, k: nat, i: nat, j: nat)
    requires Closed(g) && Within(g, pending) && k <= |pending|
    requires i < |Closure(g, pending)| && j < |Closure(g, pending)|
    requires Reaches(g, pending[..k], Closure(g, pending)[i]) && !Reaches(g, pending[..k], Closure(g, pending)[j])
    ensures i < j
  {
    var front, xs := Closure(g, pending[..k]), Closure(g, pending);
    assert pending == pending[..k] + pending[k..];
    ClosureConcat(g, pending[..k], pending[k..]);
    ClosureIsReachableSet(g, pending[..k]);
    ClosureIsReachableSet(g, pending);
    hide Closure, Reaches, Closed;
    var m: nat :| m < |front| && front[m] == xs[i];
    assert xs[m] == xs[i];
    assert forall q :: 0 <= q < |front| ==> xs[q] == front[q] && front[q] in front;
  }

  // ----- one node after what it leads to

  lemma {:induction false} SameEmitted<T(!new)>(g: Graph<T>, pending: seq<T>, w: Walk<T>, v: Walk<T>)
    requires Closed(g) && Within(g, pending) && WellFormed(w) && WellFormed(v) && w.emitted == v.emitted
    requires forall x :: Reaches(g, pending, x) ==> (x in w.seen <==> x in v.seen)
    ensures Collect(g, pending, w).emitted == Collect(g, pending, v).emitted
    decreases Unseen(g, w.seen), |pending|
  {
    if pending == [] { return; }
    var p := pending[0];
    ReachesSelf(g, pending, p);
    forall x | Reaches(g, pending[1..], x) ensures Reaches(g, pending, x) { LiftReach(g, pending[1..], pending, x); }
    if p in w.seen {
      SameEmitted(g, pending[1..], w, v);
    } else {
      forall x | Reaches(g, g[p], x) ensures Reaches(g, pending, x) { ReachesThrough(g, pending, p, x); }
      var w1, v1 := Walk(w.seen + [p], w.emitted), Walk(v.seen + [p], v.emitted);
      UnseenShrinks(g, w.seen, p, w1.seen);
      SameEmitted(g, g[p], w1, v1);
      var w2, v2 := Collect(g, g[p], w1), Collect(g, g[p], v1);
      UnseenShrinks(g, w.seen, p, w2.seen);
      CollectGrows(g, g[p], w1);
      CollectGrows(g, g[p], v1);
      NoDupAppend(w2.emitted, p);
      SameEmitted(g, pending[1..], Walk(w2.seen, w2.emitted + [p]), Walk(v2.seen, v2.emitted + [p]));
    }
  }

  /** A node that does not lead back to itself stands directly after what its successors lead to. */
  lemma ClosureOfOne<T(!new)>(g: Graph<T>, x: T)
    requires Closed(g) && x in g && !Reaches(g, g[x], x)
    ensures Closure(g, [x]) == Closure(g, g[x]) + [x]
  {
    CollectOne(g, x, Walk([], []));
    SameEmitted(g, g[x], Walk([] + [x], []), Walk([], []));
  }
}
