/** Composing the ADJUST blocks of roles into their consumer. */
module AdjustBlocks {
  import opened ObjectLayout
  import opened LayoutFacts
  import opened InstanceLayout
  import opened FieldWalks
  import opened Installation

  /** A compiled block: clones share the root of the block they were made from. */
  datatype Block = Block(provider: Stash, root: nat, offset: nat)

  ghost predicate HasRoot(blocks: seq<Block>, root: nat) {
    exists i :: 0 <= i < |blocks| && blocks[i].root == root
  }

  ghost predicate DistinctRoots(blocks: seq<Block>) {
    forall i, j :: 0 <= i < j < |blocks| ==> blocks[i].root != blocks[j].root
  }

  /** A clone of the same block whose fields are those of its provider in the consumer. */
  ghost predicate Relocates(clone: Block, b: Block, offsets: Relocation) {
    && clone.provider == b.provider && clone.root == b.root
    && clone.offset == (if b.provider in offsets then offsets[b.provider] else 0)
  }

  method AlreadyComposed(blocks: seq<Block>, root: nat) returns (r: bool)
    ensures r <==> HasRoot(blocks, root)
  {
    for j := 0 to |blocks|
      invariant forall k :: 0 <= k < j ==> blocks[k].root != root
    {
      if blocks[j].root == root { return true; }
    }
    return false;
  }

  /** The block at this place is in neither list of blocks that come before it. */
  ghost predicate Fresh(mine: seq<Block>, role: seq<Block>, i: nat) {
    i < |role| && !HasRoot(mine, role[i].root) && !HasRoot(role[..i], role[i].root)
  }

  /** The places are exactly those of the blocks that are not there yet, in their order. */
  ghost predicate FreshPlaces(mine: seq<Block>, role: seq<Block>, places: seq<nat>) {
    && (forall i, j :: 0 <= i < j < |places| ==> places[i] < places[j])
    && (forall i: nat {:trigger Fresh(mine, role, i)} :: Fresh(mine, role, i) <==> i in places)
  }

  /** The blocks that a role adds come after those that are there, in its own order, each
      block at most once however many ways it is reached, and relocated for the consumer. */
  method ComposeRole(mine: seq<Block>, role: seq<Block>, offsets: Relocation) returns (blocks: seq<Block>, ghost places: seq<nat>)
    ensures mine <= blocks && (DistinctRoots(mine) ==> DistinctRoots(blocks))
    ensures forall root :: HasRoot(blocks, root) <==> HasRoot(mine, root) || HasRoot(role, root)
    ensures FreshPlaces(mine, role, places) && |blocks| == |mine| + |places|
    ensures forall k :: 0 <= k < |places| ==> places[k] < |role| && Relocates(blocks[|mine| + k], role[places[k]], offsets)
  {
    hide HasRoot, DistinctRoots;
    blocks, places := mine, [];
    NoRoots();
    for i := 0 to |role|
      invariant mine <= blocks && (DistinctRoots(mine) ==> DistinctRoots(blocks))
      invariant forall root :: HasRoot(blocks, root) <==> HasRoot(mine, root) || HasRoot(role[..i], root)
      invariant forall k: nat {:trigger Fresh(mine, role, k)} :: k < i ==> (Fresh(mine, role, k) <==> k in places)
      invariant forall k, l :: 0 <= k < l < |places| ==> places[k] < places[l]
      invariant forall k :: k in places ==> k < i
      invariant |blocks| == |mine| + |places|
      invariant forall k :: 0 <= k < |places| ==> places[k] < i && Relocates(blocks[|mine| + k], role[places[k]], offsets)
    {
      var composed := AlreadyComposed(blocks, role[i].root);
      HasRootAppend(role[..i], role[i]);
      assert role[..i + 1] == role[..i] + [role[i]];
      assert Fresh(mine, role, i) <==> !composed;
      if !composed {
        var b := role[i].(offset := if role[i].provider in offsets then offsets[role[i].provider] else 0);
        HasRootAppend(blocks, b);
        DistinctRootsAppend(blocks, b);
        blocks, places := blocks + [b], places + [i];
      }
    }
    assert role[..|role|] == role;
  }

  lemma NoRoots()
    ensures forall root :: !HasRoot([], root)
  {}

  lemma DistinctRootsAppend(blocks: seq<Block>, b: Block)
    requires !HasRoot(blocks, b.root)
    ensures DistinctRoots(blocks) ==> DistinctRoots(blocks + [b])
  {}

  lemma HasRootAppend(blocks: seq<Block>, b: Block)
    ensures forall root :: HasRoot(blocks + [b], root) <==> HasRoot(blocks, root) || root == b.root
  {
    var all := blocks + [b];
    forall root ensures HasRoot(all, root) <==> HasRoot(blocks, root) || root == b.root {
      if HasRoot(blocks, root) {
        var i :| 0 <= i < |blocks| && blocks[i].root == root;
        assert all[i].root == root;
      }
      assert all[|blocks|].root == b.root;
    }
  }

  ghost predicate InSomeRole(roles: seq<seq<Block>>, root: nat) {
    exists r :: 0 <= r < |roles| && HasRoot(roles[r], root)
  }

  /** The block of this role is not among the consumer's, those of the roles before, or before it in its own. */
  ghost predicate FirstIn(mine: seq<Block>, roles: seq<seq<Block>>, r: nat, i: nat) {
    r < |roles| && Fresh(mine, roles[r], i) && !InSomeRole(roles[..r], roles[r][i].root)
  }

  predicate Earlier(a: (nat, nat), b: (nat, nat)) {
    a.0 < b.0 || (a.0 == b.0 && a.1 < b.1)
  }

  /** The places are exactly those of the first occurrences, role after role and in the order of each. */
  ghost predicate FirstPlaces(mine: seq<Block>, roles: seq<seq<Block>>, places: seq<(nat, nat)>) {
    && (forall i, j :: 0 <= i < j < |places| ==> Earlier(places[i], places[j]))
    && (forall r: nat, i: nat {:trigger FirstIn(mine, roles, r, i)} :: FirstIn(mine, roles, r, i) <==> (r, i) in places)
  }

  /** The block at this place of this role, relocated for the consumer. */
  ghost predicate TakenFrom(b: Block, roles: seq<seq<Block>>, place: (nat, nat), offsets: Relocation) {
    place.0 < |roles| && place.1 < |roles[place.0]| && Relocates(b, roles[place.0][place.1], offsets)
  }

  /** All directly composed roles: every block they have runs in the consumer, once, role
      after role, and each is relocated for its provider. */
  method ComposeAdjust(mine: seq<Block>, roles: seq<seq<Block>>, offsets: Relocation)
    returns (blocks: seq<Block>, ghost places: seq<(nat, nat)>)
    ensures mine <= blocks && (DistinctRoots(mine) ==> DistinctRoots(blocks))
    ensures forall root :: HasRoot(blocks, root) <==> HasRoot(mine, root) || InSomeRole(roles, root)
    ensures FirstPlaces(mine, roles, places) && |blocks| == |mine| + |places|
    ensures forall k :: 0 <= k < |places| ==> TakenFrom(blocks[|mine| + k], roles, places[k], offsets)
  {
    hide HasRoot, DistinctRoots, Fresh, FirstPlaces, TakenFrom;
    blocks, places := mine, [];
    FirstPlacesNone(mine);
    for ri := 0 to |roles|
      invariant mine <= blocks && (DistinctRoots(mine) ==> DistinctRoots(blocks))
      invariant forall root :: HasRoot(blocks, root) <==> HasRoot(mine, root) || InSomeRole(roles[..ri], root)
      invariant FirstPlaces(mine, roles[..ri], places) && |blocks| == |mine| + |places|
      invariant forall k :: 0 <= k < |places| ==> TakenFrom(blocks[|mine| + k], roles[..ri], places[k], offsets)
    {
      ghost var before, was := blocks, places;
      ghost var added: seq<nat>;
      blocks, added := ComposeRole(blocks, roles[ri], offsets);
      forall root ensures InSomeRole(roles[..ri + 1], root) <==> InSomeRole(roles[..ri], root) || HasRoot(roles[ri], root) {
        InSomeRoleNext(roles, ri, root);
      }
      places := NextPlaces(was, ri, added);
      FirstPlacesNext(mine, roles[..ri], roles[ri], before, was, added);
      assert roles[..ri + 1] == roles[..ri] + [roles[ri]];
      forall k | 0 <= k < |places| ensures TakenFrom(blocks[|mine| + k], roles[..ri + 1], places[k], offsets) {
        TakenNext(mine, roles[..ri], roles[ri], before, blocks, was, added, offsets, k);
      }
    }
    assert roles[..|roles|] == roles;
  }

  ghost function NextPlaces(places: seq<(nat, nat)>, r: nat, added: seq<nat>): seq<(nat, nat)> {
    places + seq(|added|, k requires 0 <= k < |added| => (r, added[k]))
  }

  lemma FirstPlacesNone(mine: seq<Block>)
    ensures FirstPlaces(mine, [], [])
  {}

  lemma TakenNext(mine: seq<Block>, roles: seq<seq<Block>>, role: seq<Block>, before: seq<Block>, blocks: seq<Block>,
                  places: seq<(nat, nat)>, added: seq<nat>, offsets: Relocation, k: nat)
    requires |before| == |mine| + |places| && |blocks| == |before| + |added| && before <= blocks
    requires forall i :: 0 <= i < |places| ==> TakenFrom(before[|mine| + i], roles, places[i], offsets)
    requires forall i :: 0 <= i < |added| ==> added[i] < |role| && Relocates(blocks[|before| + i], role[added[i]], offsets)
    requires k < |places| + |added|
    ensures TakenFrom(blocks[|mine| + k], roles + [role], NextPlaces(places, |roles|, added)[k], offsets)
  {
    hide Relocates;
    if k < |places| {
      assert TakenFrom(before[|mine| + k], roles, places[k], offsets);
      assert blocks[|mine| + k] == before[|mine| + k];
    } else {
      assert Relocates(blocks[|before| + (k - |places|)], role[added[k - |places|]], offsets);
    }
  }

  lemma FirstInNext(mine: seq<Block>, roles: seq<seq<Block>>, role: seq<Block>, before: seq<Block>, r: nat, i: nat)
    requires forall root :: HasRoot(before, root) <==> HasRoot(mine, root) || InSomeRole(roles, root)
    ensures FirstIn(mine, roles + [role], r, i) <==> FirstIn(mine, roles, r, i) || (r == |roles| && Fresh(before, role, i))
  {
    hide HasRoot, InSomeRole;
    var all := roles + [role];
    if r < |roles| {
      assert all[..r] == roles[..r] && all[r] == roles[r];
    } else if r == |roles| {
      assert all[..r] == roles;
    }
  }

  lemma InNextPlaces(places: seq<(nat, nat)>, n: nat, added: seq<nat>, r: nat, i: nat)
    ensures (r, i) in NextPlaces(places, n, added) <==> (r, i) in places || (r == n && i in added)
  {
    var next := NextPlaces(places, n, added);
    if (r, i) in places {
      var k :| 0 <= k < |places| && places[k] == (r, i);
      assert next[k] == (r, i);
    }
    if r == n && i in added {
      var k :| 0 <= k < |added| && added[k] == i;
      assert next[|places| + k] == (r, i);
    }
  }

  lemma FirstPlacesNext(mine: seq<Block>, roles: seq<seq<Block>>, role: seq<Block>, before: seq<Block>,
                        places: seq<(nat, nat)>, added: seq<nat>)
    requires forall root :: HasRoot(before, root) <==> HasRoot(mine, root) || InSomeRole(roles, root)
    requires FirstPlaces(mine, roles, places) && FreshPlaces(before, role, added)
    ensures FirstPlaces(mine, roles + [role], NextPlaces(places, |roles|, added))
  {
    hide HasRoot, InSomeRole, Fresh;
    var all, next := roles + [role], NextPlaces(places, |roles|, added);
    forall r: nat, i: nat ensures FirstIn(mine, all, r, i) <==> (r, i) in next {
      FirstInNext(mine, roles, role, before, r, i);
      InNextPlaces(places, |roles|, added, r, i);
      assert FirstIn(mine, roles, r, i) <==> (r, i) in places;
      assert Fresh(before, role, i) <==> i in added;
    }
    forall i, j | 0 <= i < j < |next| ensures Earlier(next[i], next[j]) {
      if i < |places| {
        assert places[i] in places && FirstIn(mine, roles, places[i].0, places[i].1);
      }
    }
  }

  lemma InSomeRoleNext(roles: seq<seq<Block>>, ri: nat, root: nat)
    requires ri < |roles|
    ensures InSomeRole(roles[..ri + 1], root) <==> InSomeRole(roles[..ri], root) || HasRoot(roles[ri], root)
  {
    if InSomeRole(roles[..ri], root) {
      var r :| 0 <= r < ri && HasRoot(roles[..ri][r], root);
      assert HasRoot(roles[..ri + 1][r], root);
    }
    assert roles[..ri + 1][ri] == roles[ri];
    if InSomeRole(roles[..ri + 1], root) && !HasRoot(roles[ri], root) {
      var r :| 0 <= r < ri + 1 && HasRoot(roles[..ri + 1][r], root);
      assert HasRoot(roles[..ri][r], root);
    }
  }

  /** Every block that composition adds is what entering it expects: it carries the
      relocation that leads from sealing to the slot its fields are read from. */
  lemma AdjustForMethodStart(t: Table, s: Stash, roles: seq<seq<Block>>, place: (nat, nat), offsets: Relocation, b: Block, bound: seq<nat>)
    requires TableOk(t) && ClassReady(t, s) && t[s].sealed && SealedOk(t, s) && RelocationsOf(t, s, offsets)
    requires TakenFrom(b, roles, place, offsets)
    requires b.provider in t[s].roles && b.provider in t && forall i :: i in bound ==> OwnField(t, b.provider, i)
    ensures Installed(t, MethodCv(b.provider, s, Some(b.offset), bound))
  {
    hide TableOk, SealedOk, ClassReady, RelocationsOf, Installed, OwnField;
    RelocationFits(t, s, offsets, b.provider, bound);
  }
}
