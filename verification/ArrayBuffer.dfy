/** The growable buffer behind a Perl array. */
module ArrayBuffer {
  import opened ObjectLayout
  import opened ArrayOps

  /** Reference counts. */
  type Counts = map<Sv, int>

  function CountOf(rc: Counts, x: Sv): int {
    if x in rc then rc[x] else 0
  }

  /** The counts went up by the values in `gained` and down by those in `lost`. */
  ghost predicate Moved(before: Counts, after: Counts, gained: seq<Slot>, lost: seq<Slot>) {
    forall x {:trigger CountOf(after, x)} :: x != SV_UNDEF ==>
      CountOf(after, x) == CountOf(before, x) + Owned(gained, x) - Owned(lost, x)
  }

  lemma {:induction false} AllBelow(s: set<Sv>) returns (bound: nat)
    ensures forall x :: x in s ==> x < bound
    decreases s
  {
    if s == {} {
      bound := 0;
    } else {
      var x :| x in s;
      bound := AllBelow(s - {x});
      assert forall y :: y in s ==> y == x || y in s - {x};
      bound := if x < bound then bound else x + 1;
    }
  }

  /** There are always scalars that are not in use. */
  lemma UnusedExists(s: set<Sv>)
    ensures exists x: Sv :: x !in s
  {
    var bound := AllBelow(s);
    assert bound !in s;
  }

  class Heap {
    var rc: Counts
    var copyOf: map<Sv, Sv>    // what a scalar was copied from

    constructor ()
      ensures rc == map[] && copyOf == map[]
    {
      rc, copyOf := map[], map[];
    }

    method Inc(x: Sv)
      modifies this`rc
      ensures Moved(old(rc), rc, [Some(x)], [])
    {
      rc := rc[x := CountOf(rc, x) + 1];
    }

    /** A new scalar, a copy of `x`, with one reference. */
    method NewCopy(x: Sv) returns (copy: Sv)
      modifies this
      ensures copy !in old(rc) && copy != SV_UNDEF
      ensures rc == old(rc)[copy := 1] && copyOf == old(copyOf)[copy := x]
    {
      UnusedExists(rc.Keys + {SV_UNDEF});
      copy :| copy !in rc && copy != SV_UNDEF;
      rc := rc[copy := 1];
      copyOf := copyOf[copy := x];
    }

    method Dec(v: Slot)
      modifies this`rc
      ensures Moved(old(rc), rc, [], [v])
    {
      if v.Some? { rc := rc[v.value := CountOf(rc, v.value) - 1]; }
    }
  }

  lemma MovedNothing(rc: Counts, gained: seq<Slot>, lost: seq<Slot>)
    requires gained == [] && lost == []
    ensures Moved(rc, rc, gained, lost)
  {}

  /** Releasing one more value. */
  lemma MovedOneMore(a: Counts, b: Counts, c: Counts, v: Slot, lost: seq<Slot>)
    requires Moved(a, b, [], lost) && Moved(b, c, [], [v])
    ensures Moved(a, c, [], [v] + lost)
  {
    forall x | x != SV_UNDEF ensures CountOf(c, x) == CountOf(a, x) - Owned([v] + lost, x) {
      OwnedConcat([v], lost, x);
      assert CountOf(b, x) == CountOf(a, x) + Owned([], x) - Owned(lost, x);
    }
  }

  lemma MovedOneMoreIn(a: Counts, b: Counts, c: Counts, v: Slot, gained: seq<Slot>)
    requires Moved(a, b, gained, []) && Moved(b, c, [v], [])
    ensures Moved(a, c, [v] + gained, [])
  {
    forall x | x != SV_UNDEF ensures CountOf(c, x) == CountOf(a, x) + Owned([v] + gained, x) {
      OwnedConcat([v], gained, x);
      assert CountOf(b, x) == CountOf(a, x) + Owned(gained, x) - Owned([], x);
    }
  }

  /** What the rest of the program owns of `x`: its count less what the array owns. */
  function Outside(rc: Counts, mine: seq<Slot>, x: Sv): int {
    CountOf(rc, x) - Owned(mine, x)
  }

  /** Between two states the rest of the program gave the array its references to
      `received` and took over those to `returned`; nothing else was gained or lost. */
  ghost predicate Balanced(rc0: Counts, mine0: seq<Slot>, rc1: Counts, mine1: seq<Slot>, received: seq<Slot>, returned: seq<Slot>) {
    forall x {:trigger CountOf(rc1, x)} :: x != SV_UNDEF ==>
      Outside(rc1, mine1, x) == Outside(rc0, mine0, x) - Owned(received, x) + Owned(returned, x)
  }

  lemma StoreBalances(rc0: Counts, c: seq<Slot>, rc1: Counts, k: nat, v: Slot)
    requires Moved(rc0, rc1, [], if k < |c| then [c[k]] else [])
    ensures Balanced(rc0, c, rc1, Stored(c, k, v), [v], [])
  {
    hide Stored;
    forall x | x != SV_UNDEF ensures Outside(rc1, Stored(c, k, v), x) == Outside(rc0, c, x) - Owned([v], x) + Owned([], x) {
      StoredOwns(c, k, v, x);
      assert CountOf(rc1, x) == CountOf(rc0, x) + Owned([], x) - Owned(if k < |c| then [c[k]] else [], x);
    }
  }

  lemma ReifyBalances(rc0: Counts, rc1: Counts, c: seq<Slot>)
    requires Moved(rc0, rc1, c, [])
    ensures Balanced(rc0, [], rc1, c, [], [])
  {}

  /** Dropping the tail of the contents. */
  lemma CutBalances(rc0: Counts, c: seq<Slot>, rc1: Counts, n: nat)
    requires Moved(rc0, rc1, [], if n <= |c| then c[n..] else [])
    ensures Balanced(rc0, c, rc1, Resized(c, n), [], [])
  {
    hide Resized;
    forall x | x != SV_UNDEF ensures Outside(rc1, Resized(c, n), x) == Outside(rc0, c, x) - Owned([], x) + Owned([], x) {
      ResizedOwns(c, n, x);
      assert CountOf(rc1, x) == CountOf(rc0, x) + Owned([], x) - Owned(if n <= |c| then c[n..] else [], x);
    }
  }

  lemma DeleteBalances(rc0: Counts, c: seq<Slot>, rc1: Counts, k: nat, discarded: bool)
    requires k < |c| && Moved(rc0, rc1, [], if discarded then [c[k]] else [])
    ensures Balanced(rc0, c, rc1, Deleted(c, k), [], if discarded then [] else [c[k]])
  {
    hide Deleted;
    forall x | x != SV_UNDEF
      ensures Outside(rc1, Deleted(c, k), x) == Outside(rc0, c, x) - Owned([], x) + Owned(if discarded then [] else [c[k]], x)
    {
      DeletedOwns(c, k, x);
      assert CountOf(rc1, x) == CountOf(rc0, x) + Owned([], x) - Owned(if discarded then [c[k]] else [], x);
    }
  }

  /** Taking one element out at an end, with its reference. */
  lemma EndBalances(rc: Counts, c: seq<Slot>)
    requires c != []
    ensures Balanced(rc, c, rc, c[..|c| - 1], [], [c[|c| - 1]]) && Balanced(rc, c, rc, c[1..], [], [c[0]])
  {
    forall x | x != SV_UNDEF
      ensures Outside(rc, c[..|c| - 1], x) == Outside(rc, c, x) + Owned([c[|c| - 1]], x)
      ensures Outside(rc, c[1..], x) == Outside(rc, c, x) + Owned([c[0]], x)
    {
      OwnedSplit(c, |c| - 1, x);
      OwnedSplit(c, 1, x);
      assert c[|c| - 1..] == [c[|c| - 1]] && c[..1] == [c[0]];
    }
  }

  lemma PadBalances(rc: Counts, c: seq<Slot>, n: nat)
    ensures Balanced(rc, c, rc, Nulls(n) + c, [], [])
  {
    forall x | x != SV_UNDEF ensures Outside(rc, Nulls(n) + c, x) == Outside(rc, c, x) {
      OwnedConcat(Nulls(n), c, x);
      OwnedNulls(Nulls(n), x);
    }
  }

  lemma BalancedTwice(rc0: Counts, m0: seq<Slot>, rc1: Counts, m1: seq<Slot>, rc2: Counts, m2: seq<Slot>, received: seq<Slot>, returned: seq<Slot>)
    requires Balanced(rc0, m0, rc1, m1, [], []) && Balanced(rc1, m1, rc2, m2, received, returned)
    ensures Balanced(rc0, m0, rc2, m2, received, returned)
  {
    forall x | x != SV_UNDEF ensures Outside(rc2, m2, x) == Outside(rc0, m0, x) - Owned(received, x) + Owned(returned, x) {
      assert CountOf(rc1, x) == CountOf(rc1, x);
    }
  }

  datatype Extension = Extended | IndexPanic | SizeOverflow

  class Av {
    var alloc: array<Slot>     // AvALLOC; an empty array stands for NULL
    var off: nat               // AvARRAY - AvALLOC
    var max: int               // AvMAX
    var fill: int              // AvFILLp
    var owns: bool             // the array owns its elements
    var canOwn: bool            // it can start to own them
    ghost var copies: nat      // slots moved or copied so far

    constructor ()
      ensures Valid() && fresh(alloc) && Contents() == [] && owns && alloc.Length == 0 && off == 0 && copies == 0
    {
      alloc := new Slot[0];
      off, max, fill, owns, canOwn, copies := 0, -1, -1, true, false, 0;
    }

    /** The window lies in the allocation, and outside of it an owning array holds NULL. */
    ghost predicate Valid()
      reads this, alloc
    {
      && -1 <= fill <= max && off + max + 1 == alloc.Length <= MAX_SLOTS + 1
      && (owns ==> OutsideNull())
    }

    ghost predicate OutsideNull()
      reads this, alloc
    {
      forall i :: 0 <= i < alloc.Length && !(off <= i <= off + fill) ==> alloc[i] == None
    }

    function Contents(): seq<Slot>
      requires -1 <= fill && off + fill + 1 <= alloc.Length
      reads this, alloc
    {
      alloc[off..off + fill + 1]
    }

    // ----- growing

    method CopySlot(to: nat, from: nat)
      requires to < alloc.Length && from < alloc.Length
      modifies alloc, this`copies
      ensures alloc[..] == old(alloc[..])[to := old(alloc[..])[from]] && copies == old(copies) + 1
    {
      alloc[to] := alloc[from];
      copies := copies + 1;
    }

    /** `Move` to a lower place: front to back. */
    method MoveDown(n: nat)
      requires off + n <= alloc.Length
      modifies alloc, this`copies
      ensures copies == old(copies) + n
      ensures alloc[..] == Lowered(old(alloc[..]), off, n)
    {
      ghost var a := alloc[..];
      hide Lowered;
      LoweredNothing(a, off);
      for i := 0 to n
        invariant alloc[..] == Lowered(a, off, i)
        invariant copies == old(copies) + i
      {
        LoweredMore(a, off, i);
        CopySlot(i, off + i);
      }
    }

    method Zero(from: nat, n: nat)
      requires from + n <= alloc.Length
      modifies alloc
      ensures forall i :: 0 <= i < alloc.Length ==> alloc[i] == if from <= i < from + n then None else old(alloc[i])
    {
      for i := from to from + n
        invariant forall k :: 0 <= k < alloc.Length ==> alloc[k] == if from <= k < i then None else old(alloc[k])
      {
        alloc[i] := None;
      }
    }

    /** `Renew`: the old slots are copied, the new ones hold anything. */
    method Renew(size: nat)
      requires size >= alloc.Length
      modifies this`alloc, this`copies
      ensures fresh(alloc) && alloc.Length == size && copies == old(copies) + old(alloc.Length)
      ensures alloc[..old(alloc.Length)] == old(alloc[..])
    {
      var a := new Slot[size];
      for i := 0 to alloc.Length
        invariant alloc == old(alloc) && copies == old(copies) + i
        invariant forall k :: 0 <= k < i ==> a[k] == alloc[k]
      {
        a[i] := alloc[i];
        copies := copies + 1;
      }
      alloc := a;
    }

    /** The resize: a larger buffer, whose slots from `start` on are cleared.  Fails
        before anything changes when the size would wrap. */
    method Resize(key: int, start: nat, toNull: nat) returns (ok: bool)
      requires 0 <= max < key <= SSIZE_MAX && max + 1 == alloc.Length <= MAX_SLOTS + 1
      requires start + toNull == max + 1
      modifies this`alloc, this`max, this`copies
      ensures ok <==> NewMax(key, old(max)) <= MAX_SLOTS
      ensures !ok ==> alloc == old(alloc) && max == old(max) && copies == old(copies)
      ensures ok ==> fresh(alloc) && max == NewMax(key, old(max)) && alloc.Length == max + 1 && max >= key
      ensures ok ==> copies == old(copies) + old(alloc.Length)
      ensures ok ==> alloc[..start] == old(alloc[..start])
      ensures ok && owns ==> forall i :: start <= i < alloc.Length ==> alloc[i] == None
    {
      var newmax := NewMax(key, max);
      NewMaxCovers(key, max);
      if newmax > MAX_SLOTS { return false; }
      Renew(newmax + 1);
      assert alloc[..start] == old(alloc[..start]);
      if owns { Zero(start, toNull + (newmax - max)); }
      max := newmax;
      return true;
    }

    /** A shifted array moves its elements back to the start of the allocation. */
    method MoveBack()
      requires Valid() && off > 0
      modifies alloc, this`max, this`copies
      ensures max == alloc.Length - 1 && copies == old(copies) + fill + 1
      ensures alloc[..fill + 1] == old(Contents())
      ensures owns ==> forall i :: fill + 1 + off <= i < alloc.Length ==> alloc[i] == None
    {
      max := max + off;
      MoveDown(fill + 1);
    }

    /** A shifted array takes its slack back, and grows only if that is not enough. */
    method ExtendShifted(key: int) returns (ok: bool)
      requires Valid() && off > 0 && max < key <= SSIZE_MAX
      modifies this, alloc
      ensures fill == old(fill) && owns == old(owns) && canOwn == old(canOwn)
      ensures alloc == old(alloc) || fresh(alloc)
      ensures ok ==> Valid() && off == 0 && Contents() == old(Contents()) && key <= max && old(max) <= max
      ensures !ok ==> alloc == old(alloc) && !Valid()
      ensures ok <==> !Overflows(old(off), old(alloc.Length), key)
    {
      hide NewMax;
      var toNull := off;
      MoveBack();
      if key > max {
        ok := Resize(key, fill + 1, max - fill);
        if !ok { return; }
      } else if owns {
        Zero(fill + 1, toNull);
      }
      off := 0;
      assert Contents() == alloc[..fill + 1];
      return true;
    }

    /** An array that is not shifted grows, or gets its first allocation; the latter
        sets the maximum before it checks the size. */
    method ExtendFlat(key: nat) returns (ok: bool)
      requires Valid() && off == 0 && max < key <= SSIZE_MAX
      modifies this`alloc, this`max, this`copies
      ensures alloc == old(alloc) || fresh(alloc)
      ensures ok ==> Valid() && Contents() == old(Contents()) && key <= max && old(max) <= max
      ensures ok ==> CopyStep(old(copies), old(alloc.Length), copies, alloc.Length, key)
      ensures !ok ==> alloc == old(alloc) && copies == old(copies) && (Valid() <==> old(alloc.Length) > 0)
      ensures !ok && Valid() ==> Contents() == old(Contents())
      ensures ok <==> !Overflows(old(off), old(alloc.Length), key)
    {
      hide NewMax;
      if alloc.Length > 0 {
        ok := Resize(key, max + 1, 0);
        if !ok { return; }
        assert alloc[..fill + 1] == alloc[..old(max) + 1][..fill + 1] == old(alloc[..max + 1])[..fill + 1] == old(Contents());
      } else {
        max := if key < ARRAY_NEW_MIN_KEY then ARRAY_NEW_MIN_KEY else key;
        if max > MAX_SLOTS { return false; }
        alloc := new Slot[max + 1];
        Zero(0, max + 1);
        ok := true;
      }
    }

    /** Makes room for index `key`.  When more slots are asked for than can be allocated
        the error comes too late: an array that was shifted, or had no allocation yet, is broken. */
    method Extend(key: int) returns (r: Extension)
      requires Valid() && key <= SSIZE_MAX
      modifies this, alloc
      ensures r == IndexPanic <==> key < -1
      ensures r == SizeOverflow <==> key >= -1 && Overflows(old(off), old(alloc.Length), key)
      ensures r != Extended ==> alloc == old(alloc)
      ensures r != SizeOverflow ==> Valid() && Contents() == old(Contents())
      ensures r == SizeOverflow ==> (Valid() <==> old(off) == 0 && old(alloc.Length) > 0)
      ensures r == SizeOverflow && old(off) == 0 ==> copies == old(copies) && (Valid() ==> Contents() == old(Contents()))
      ensures r == Extended ==> key <= max && old(max) <= max
      ensures alloc == old(alloc) || fresh(alloc)
      ensures fill == old(fill) && owns == old(owns) && canOwn == old(canOwn)
      ensures key <= old(max) ==> alloc == old(alloc) && off == old(off) && copies == old(copies)
      ensures key > old(max) && r == Extended ==> off == 0
      ensures r == Extended && old(off) == 0 ==> off == 0 && CopyStep(old(copies), old(alloc.Length), copies, alloc.Length, key)
    {
      hide OutsideNull, NewMax;
      if key < -1 { return IndexPanic; }
      if key <= max { return Extended; }
      var ok;
      if off > 0 {
        ok := ExtendShifted(key);
      } else {
        ok := ExtendFlat(key);
      }
      return if ok then Extended else SizeOverflow;
    }

    // ----- ownership

    /** What the array owns references to. */
    ghost function Mine(): seq<Slot>
      requires -1 <= fill && off + fill + 1 <= alloc.Length
      reads this, alloc
    {
      if owns then Contents() else []
    }

    /** Counts every live element, from the last one down. */
    method CountElements(heap: Heap)
      requires Valid()
      modifies heap
      ensures Moved(old(heap.rc), heap.rc, Contents(), [])
    {
      ghost var c := Contents();
      var key := fill + 1;
      MovedNothing(heap.rc, c[key..], []);
      while key > 0
        invariant 0 <= key <= fill + 1
        invariant Moved(old(heap.rc), heap.rc, c[key..], [])
      {
        key := key - 1;
        var sv := alloc[off + key];
        assert c[key..] == [sv] + c[key + 1..];
        ghost var rc := heap.rc;
        if sv.Some? && sv.value != SV_UNDEF {
          heap.Inc(sv.value);
        } else {
          UncountedMoves(heap.rc, sv);
        }
        MovedOneMoreIn(old(heap.rc), rc, heap.rc, sv, c[key + 1..]);
      }
      assert c[0..] == c;
    }

    /** `av_reify`: clears what lies outside the window and counts what lies inside. */
    method Reify(heap: Heap)
      requires Valid()
      modifies this`owns, this`canOwn, alloc, heap
      ensures Valid() && owns && (old(owns) ==> canOwn == old(canOwn)) && (!old(owns) ==> !canOwn)
      ensures Contents() == old(Contents())
      ensures Balanced(old(heap.rc), old(Mine()), heap.rc, Mine(), [], [])
    {
      if owns { return; }
      ghost var c := Contents();
      Zero(off + fill + 1, max - fill);
      assert Contents() == c;
      CountElements(heap);
      Zero(0, off);
      assert Contents() == c;
      canOwn, owns := false, true;
      ReifyBalances(old(heap.rc), heap.rc, c);
    }

    // ----- the operations

    /** Puts NULL into the slots up to `key` of an array that does not own its elements. */
    method FillWithNulls(key: int)
      requires Valid() && !owns && fill <= key <= max
      modifies this`fill, alloc
      ensures Valid() && fill == key && Contents() == old(Contents()) + Nulls(key - old(fill))
    {
      while fill < key
        invariant old(fill) <= fill <= key && Valid()
        invariant Contents() == old(Contents()) + Nulls(fill - old(fill))
      {
        ghost var c := Contents();
        fill := fill + 1;
        alloc[off + fill] := None;
        assert Contents() == c + [None];
      }
    }

    /** Releases what is stored under `key`, or makes the array reach up to it. */
    method Vacate(heap: Heap, key: nat)
      requires Valid() && key <= max
      modifies this`fill, alloc, heap
      ensures Valid() && key <= fill
      ensures Contents() == if key < |old(Contents())| then old(Contents()) else old(Contents()) + Nulls(key + 1 - |old(Contents())|)
      ensures owns ==> Moved(old(heap.rc), heap.rc, [], if key < |old(Contents())| then [old(Contents())[key]] else [])
      ensures !owns ==> heap.rc == old(heap.rc)
    {
      ghost var c := Contents();
      if fill < key {
        MovedNothing(heap.rc, [], []);
        if owns {
          fill := key;
          assert Contents() == c + Nulls(key + 1 - |c|);
        } else {
          FillWithNulls(key);
        }
      } else if owns {
        heap.Dec(alloc[off + key]);
        assert Contents() == c;
      }
    }

    method Place(heap: Heap, key: nat, v: Slot)
      requires Valid() && key <= max
      modifies this`fill, alloc, heap
      ensures Valid() && Contents() == Stored(old(Contents()), key, v)
      ensures Balanced(old(heap.rc), old(Mine()), heap.rc, Mine(), if owns then [v] else [], [])
    {
      hide Moved, Owned, Balanced, Stored;
      ghost var c := Contents();
      NoChange(heap.rc, Mine());
      Vacate(heap, key);
      ghost var d := Contents();
      alloc[off + key] := v;
      assert Contents() == d[key := v];
      StoredInPlace(c, d, key, v);
      if owns { StoreBalances(old(heap.rc), c, heap.rc, key, v); }
    }

    /** `av_store`.  A negative index counts from the end; one that still is negative
        is refused.  The array takes over the caller's reference to the value. */
    method Store(heap: Heap, index: int, v: Slot) returns (r: Outcome)
      requires Valid() && -SSIZE_MAX <= index <= SSIZE_MAX
      modifies this, alloc, heap
      ensures alloc == old(alloc) || fresh(alloc)
      ensures r == Refused <==> Index(|old(Contents())|, index) < 0
      ensures r == Refused ==> Valid() && Contents() == old(Contents()) && owns == old(owns) && canOwn == old(canOwn) && heap.rc == old(heap.rc)
      ensures r == Performed ==> Valid() && Contents() == Stored(old(Contents()), Index(|old(Contents())|, index), v)
      ensures r == Performed ==> owns == (old(owns) || old(canOwn)) && Balanced(old(heap.rc), old(Mine()), heap.rc, Mine(), if owns then [v] else [], [])
      ensures r == Performed && old(owns) && old(off) == 0 && index >= 0 ==>
        off == 0 && CopyStep(old(copies), old(alloc.Length), copies, alloc.Length, index)
      ensures r == Overflowed <==> Index(|old(Contents())|, index) >= 0 &&
                                   Overflows(old(off), old(alloc.Length), Index(|old(Contents())|, index))
      ensures r == Overflowed ==> (Valid() <==> old(off) == 0 && old(alloc.Length) > 0)
      ensures r == Overflowed && old(off) == 0 ==> copies == old(copies)
    {
      hide CopyStep, OutsideNull, Balanced, Stored, Overflows;
      var key := if index < 0 then index + fill + 1 else index;
      NoChange(heap.rc, Mine());
      if key < 0 { return Refused; }
      if !owns && canOwn { Reify(heap); }
      ghost var rc := heap.rc;
      ghost var mine := Mine();
      var room := Extend(key);
      if room == SizeOverflow { return Overflowed; }
      assert Mine() == mine;
      Place(heap, key, v);
      BalancedTwice(old(heap.rc), old(Mine()), rc, mine, heap.rc, Mine(), if owns then [v] else [], []);
      return Performed;
    }

    method Push(heap: Heap, v: Slot) returns (r: Outcome)
      requires Valid()
      modifies this, alloc, heap
      ensures alloc == old(alloc) || fresh(alloc)
      ensures r == Performed || r == Overflowed
      ensures r == Performed ==> Valid() && Contents() == old(Contents()) + [v]
      ensures r == Performed ==> owns == (old(owns) || old(canOwn)) && Balanced(old(heap.rc), old(Mine()), heap.rc, Mine(), if owns then [v] else [], [])
      ensures r == Performed && old(owns) && old(off) == 0 ==>
        off == 0 && CopyStep(old(copies), old(alloc.Length), copies, alloc.Length, |old(Contents())|)
      ensures r == Overflowed <==> Overflows(old(off), old(alloc.Length), |old(Contents())|)
      ensures r == Overflowed ==> (Valid() <==> old(off) == 0 && old(alloc.Length) > 0)
      ensures r == Overflowed && old(off) == 0 ==> copies == old(copies)
    {
      hide CopyStep, OutsideNull, Balanced, Stored, Overflows;
      ghost var c := Contents();
      StoredAtEnd(c, v);
      r := Store(heap, fill + 1, v);
    }

    /** `av_pop`: an empty array and a hole give undef. */
    method Pop() returns (value: Sv)
      requires Valid()
      modifies this`fill, alloc
      ensures Valid() && Contents() == Apply(old(Contents()), Op.Pop)
      ensures var c := old(Contents()); value == if c != [] && c[|c| - 1].Some? then c[|c| - 1].value else SV_UNDEF
    {
      if fill < 0 { return SV_UNDEF; }
      ghost var c := Contents();
      var retval := alloc[off + fill];
      alloc[off + fill] := None;
      fill := fill - 1;
      assert Contents() == c[..|c| - 1];
      return if retval.Some? then retval.value else SV_UNDEF;
    }

    /** `av_shift`: the window slides up, nothing moves. */
    method Shift() returns (value: Sv)
      requires Valid()
      modifies this`fill, this`off, this`max, alloc
      ensures Valid() && Contents() == Apply(old(Contents()), Op.Shift)
      ensures var c := old(Contents()); value == if c != [] && c[0].Some? then c[0].value else SV_UNDEF
      ensures old(fill) >= 0 ==> off == old(off) + 1
    {
      if fill < 0 { return SV_UNDEF; }
      ghost var c := Contents();
      var retval := alloc[off];
      if owns { alloc[off] := None; }
      off, max, fill := off + 1, max - 1, fill - 1;
      assert Contents() == c[1..];
      return if retval.Some? then retval.value else SV_UNDEF;
    }

    /** `Move` to a higher place: back to front. */
    method MoveUp(n: nat, up: nat)
      requires off + up + n <= alloc.Length
      modifies alloc, this`copies
      ensures forall k :: off + up <= k < off + up + n ==> alloc[k] == old(alloc[..])[k - up]
      ensures forall k :: off + up + n <= k < alloc.Length ==> alloc[k] == old(alloc[..])[k]
    {
      ghost var a := alloc[..];
      var i := n;
      while i > 0
        invariant 0 <= i <= n
        invariant forall k :: off + up + i <= k < off + up + n ==> alloc[k] == a[k - up]
        invariant forall k :: 0 <= k < off + up + i ==> alloc[k] == a[k]
        invariant forall k :: off + up + n <= k < alloc.Length ==> alloc[k] == a[k]
      {
        i := i - 1;
        alloc[off + up + i] := alloc[off + i];
        copies := copies + 1;
      }
    }

    /** The slack in front of the window becomes elements: whatever it holds, which is
        NULL when the array owns its elements. */
    method TakeSlack(n: nat)
      requires Valid() && n <= off
      modifies this`off, this`max, this`fill
      ensures Valid() && off == old(off) - n && fill == old(fill) + n && max == old(max) + n
      ensures Contents() == old(alloc[off - n..off]) + old(Contents())
      ensures owns ==> Contents() == Nulls(n) + old(Contents())
    {
      ghost var c, slack := Contents(), alloc[off - n..off];
      max, fill, off := max + n, fill + n, off - n;
      assert Contents() == slack + c;
      if owns { assert slack == Nulls(n); }
    }

    method SlideSlots(total: nat)
      requires Valid() && off == 0 && fill + total <= max
      modifies this`copies, alloc
      ensures forall k :: 0 <= k < total ==> alloc[k] == None
      ensures forall k :: total <= k <= total + fill ==> alloc[k] == old(alloc[..])[k - total]
      ensures forall k :: total + fill < k < alloc.Length ==> alloc[k] == old(alloc[..])[k]
    {
      ghost var a := alloc[..];
      MoveUp(fill + 1, total);
      Zero(0, total);
    }

    /** Moves the elements up past `num` new ones and `slide` slots of slack. */
    method SlideUp(num: nat, slide: nat)
      requires Valid() && off == 0 && 0 < num && fill + num + slide <= max
      modifies this`off, this`max, this`fill, this`copies, alloc
      ensures Valid() && off == slide && Contents() == Nulls(num) + old(Contents())
    {
      ghost var a, c := alloc[..], Contents();
      assert forall k :: 0 <= k <= fill ==> c[k] == a[k];
      SlideSlots(num + slide);
      max, fill, off := max - slide, fill + num, slide;
      ghost var moved := Nulls(num) + c;
      hide Nulls;
      forall k | 0 <= k < |moved| ensures alloc[off + k] == moved[k] {}
      assert Contents() == moved;
    }

    /** Creates `num` elements in front, and as much slack again as there were elements. */
    method MakeFront(num: nat) returns (r: Outcome)
      requires Valid() && off == 0 && 0 < num && FrontReach(fill, 0, num) <= SSIZE_MAX
      modifies this, alloc
      ensures alloc == old(alloc) || fresh(alloc)
      ensures owns == old(owns) && canOwn == old(canOwn) && (r == Performed || r == Overflowed)
      ensures r == Performed ==> Valid() && Contents() == Nulls(num) + old(Contents())
      ensures r == Overflowed <==> Overflows(0, old(alloc.Length), FrontReach(old(fill), 0, num))
      ensures r == Overflowed ==> (Valid() <==> old(alloc.Length) > 0)
    {
      hide OutsideNull, NewMax, Overflows;
      ghost var c := Contents();
      var i := fill;
      var slide := if i > 0 then i else 0;
      var total := num + slide;
      var room := Extend(i + total);
      if room == SizeOverflow { return Overflowed; }
      assert Contents() == c;
      SlideUp(num, slide);
      return Performed;
    }

    /** What stands in front after `num` elements were made there. */
    ghost function Front(num: nat): seq<Slot>
      requires Valid()
      reads this, alloc
    {
      var i := if off > num then num else off;
      Nulls(num - i) + alloc[off - i..off]
    }

    /** Takes what slack there is, then makes the rest. */
    method UnshiftSome(num: nat) returns (r: Outcome)
      requires Valid() && 0 < num && (num > off ==> FrontReach(fill, off, num) <= SSIZE_MAX)
      modifies this, alloc
      ensures alloc == old(alloc) || fresh(alloc)
      ensures owns == old(owns) && canOwn == old(canOwn) && (r == Performed || r == Overflowed)
      ensures r == Performed ==> Valid() && Contents() == old(Front(num)) + old(Contents())
      ensures r == Overflowed <==> num > old(off) && Overflows(0, old(alloc.Length), FrontReach(old(fill), old(off), num))
      ensures r == Overflowed ==> (Valid() <==> old(alloc.Length) > 0)
    {
      hide OutsideNull, NewMax, Overflows;
      ghost var c, front := Contents(), Front(num);
      var i := if off > num then num else off;
      ghost var slack := alloc[off - i..off];
      assert front == Nulls(num - i) + slack;
      hide Front;
      TakeSlack(i);
      if num > i {
        r := MakeFront(num - i);
        if r == Overflowed { return; }
        assert Nulls(num - i) + (slack + c) == front + c;
      } else {
        assert front == slack;
        r := Performed;
      }
    }

    lemma FrontIsNull(num: nat)
      requires Valid() && owns
      ensures Front(num) == Nulls(num)
    {}

    /** `av_unshift`, as far as the signed sum that it forms fits its type.  An array that
        does not own its elements and cannot start to gets its slack back as it was left. */
    method Unshift(heap: Heap, num: int) returns (r: Outcome)
      requires Valid() && (num > off ==> FrontReach(fill, off, num) <= SSIZE_MAX)
      modifies this, alloc, heap
      ensures alloc == old(alloc) || fresh(alloc)
      ensures r == Performed || r == Overflowed
      ensures r == Performed ==> Valid()
      ensures r == Performed && (old(owns) || old(canOwn) || num <= 0) ==> Contents() == Apply(old(Contents()), Op.Unshift(num))
      ensures r == Performed && !old(owns) && !old(canOwn) && num > 0 ==> Contents() == old(Front(num)) + old(Contents())
      ensures r == Performed ==> Balanced(old(heap.rc), old(Mine()), heap.rc, Mine(), [], [])
      ensures r == Performed ==> owns == (old(owns) || (old(canOwn) && num > 0))
      ensures r == Overflowed <==> num > old(off) && Overflows(0, old(alloc.Length), FrontReach(old(fill), old(off), num))
      ensures r == Overflowed ==> (Valid() <==> old(alloc.Length) > 0)
    {
      hide Balanced, OutsideNull, Overflows;
      if num <= 0 {
        NoChange(heap.rc, Mine());
        return Performed;
      }
      ghost var c := Contents();
      NoChange(heap.rc, Mine());
      if !owns && canOwn { Reify(heap); }
      ghost var rc, mine := heap.rc, Mine();
      if owns { FrontIsNull(num); }
      r := UnshiftSome(num);
      if r == Overflowed { return; }
      if owns {
        PadBalances(rc, c, num);
        BalancedTwice(old(heap.rc), old(Mine()), rc, c, heap.rc, Mine(), [], []);
      }
    }

    method ReleaseSlot(heap: Heap, i: nat)
      requires i < alloc.Length
      modifies alloc, heap
      ensures Moved(old(heap.rc), heap.rc, [], [old(alloc[i])])
      ensures alloc[..] == old(alloc[..])[i := None]
    {
      heap.Dec(alloc[i]);
      alloc[i] := None;
    }

    /** Releases the elements above `top`, from the last one down, and leaves NULL. */
    method ReleaseElements(heap: Heap, top: int)
      requires Valid() && -1 <= top <= fill
      modifies alloc, heap
      ensures alloc[..] == Holed(old(alloc[..]), off + top + 1, off + fill + 1)
      ensures Moved(old(heap.rc), heap.rc, [], old(Contents())[top + 1..])
    {
      hide Moved, OutsideNull, Holed;
      ghost var a, c := alloc[..], Contents();
      MovedNothing(heap.rc, [], c[fill + 1..]);
      HoledNothing(a, off + fill + 1);
      var key := fill;
      while key > top
        invariant top <= key <= fill
        invariant alloc[..] == Holed(a, off + key + 1, off + fill + 1)
        invariant Moved(old(heap.rc), heap.rc, [], c[key + 1..])
      {
        ghost var rc := heap.rc;
        HoledMore(a, off + key, off + fill + 1);
        assert alloc[off + key] == alloc[..][off + key];
        ReleaseSlot(heap, off + key);
        ReleasedFrom(old(heap.rc), rc, heap.rc, c, key);
        key := key - 1;
      }
    }

    /** Sets the end of the window; the slots outside hold NULL already. */
    method SetFill(top: int)
      requires -1 <= top <= max && off + max + 1 == alloc.Length <= MAX_SLOTS + 1 && NullOutside(alloc[..], off, top)
      modifies this`fill
      ensures Valid() && fill == top && Contents() == alloc[..][off..off + top + 1]
    {
      fill := top;
      OutsideNullIs();
    }

    method ReleaseAbove(heap: Heap, top: int)
      requires Valid() && owns && -1 <= top <= fill
      modifies this`fill, alloc, heap
      ensures Valid() && fill == top && Contents() == old(Contents())[..top + 1]
      ensures Moved(old(heap.rc), heap.rc, [], old(Contents())[top + 1..])
    {
      OutsideNullIs();
      HoledWindow(alloc[..], off, top, fill);
      hide Moved, Holed, OutsideNull, NullOutside;
      ReleaseElements(heap, top);
      SetFill(top);
    }

    lemma OutsideNullIs()
      ensures OutsideNull() <==> NullOutside(alloc[..], off, fill)
    {
      if NullOutside(alloc[..], off, fill) {
        forall i | 0 <= i < alloc.Length && !(off <= i <= off + fill) ensures alloc[i] == None { assert alloc[..][i] == alloc[i]; }
      }
    }

    /** An owning array grows over slots that already hold NULL. */
    method GrowOver(top: int)
      requires Valid() && owns && fill <= top <= max
      modifies this`fill
      ensures Valid() && fill == top && Contents() == old(Contents()) + Nulls(top - old(fill))
    {
      ghost var c := Contents();
      fill := top;
      assert Contents() == c + Nulls(top + 1 - |c|);
    }

    /** `av_fill` when there is room. */
    method FillWithin(heap: Heap, top: int)
      requires Valid() && -1 <= top <= max
      modifies this`fill, alloc, heap
      ensures Valid() && Contents() == Resized(old(Contents()), top + 1)
      ensures Balanced(old(heap.rc), old(Mine()), heap.rc, Mine(), [], [])
    {
      hide Balanced, OutsideNull, Owned;
      ghost var c := Contents();
      NoChange(heap.rc, Mine());
      if owns && top < fill {
        ReleaseAbove(heap, top);
        CutBalances(old(heap.rc), c, heap.rc, top + 1);
      } else if owns {
        GrowOver(top);
        PaddedBalances(heap.rc, c, top + 1);
      } else if fill < top {
        FillWithNulls(top);
      } else {
        CutFake(top);
      }
    }

    method CutFake(top: int)
      requires Valid() && !owns && -1 <= top <= fill
      modifies this`fill
      ensures Valid() && Contents() == old(Contents())[..top + 1]
    {
      ghost var c := Contents();
      fill := top;
      assert Contents() == c[..top + 1];
    }

    /** `av_fill`: the new highest index. */
    method Fill(heap: Heap, index: int) returns (r: Outcome)
      requires Valid() && index <= SSIZE_MAX
      modifies this, alloc, heap
      ensures alloc == old(alloc) || fresh(alloc)
      ensures r == Performed || r == Overflowed
      ensures r == Performed ==> Valid() && Contents() == Apply(old(Contents()), Op.Fill(index)) && (old(owns) ==> owns)
      ensures r == Performed ==> Balanced(old(heap.rc), old(Mine()), heap.rc, Mine(), [], [])
      ensures r == Overflowed <==> index >= 0 && Overflows(old(off), old(alloc.Length), index)
      ensures r == Overflowed ==> (Valid() <==> old(off) == 0 && old(alloc.Length) > 0)
    {
      NoOverflowWithin(off, alloc.Length, index);
      hide Overflows, Balanced, OutsideNull;
      ghost var c := Contents();
      var top := if index < 0 then -1 else index;
      if top <= max {
        FillWithin(heap, top);
        return Performed;
      }
      r := Store(heap, top, None);
      if r == Performed {
        assert Stored(c, top, None) == Resized(c, top + 1);
        NullIsFree(old(heap.rc), old(Mine()), heap.rc, Mine(), if owns then [None] else []);
      }
    }

    /** The index of the last element that is not a hole. */
    method LastUsed() returns (key: int)
      requires Valid()
      ensures -1 <= key <= fill && Trimmed(Contents()) == Contents()[..key + 1]
      ensures forall i :: off + key < i <= off + fill ==> alloc[i] == None
    {
      hide Trimmed;
      ghost var c := Contents();
      assert c == c[..fill + 1];
      key := fill;
      while key >= 0 && alloc[off + key].None?
        invariant -1 <= key <= fill
        invariant forall i :: off + key < i <= off + fill ==> alloc[i] == None
        invariant Trimmed(c[..key + 1]) == Trimmed(c)
      {
        assert alloc[off + key] == c[key];
        TrimmedPastHole(c, key);
        key := key - 1;
      }
      if key >= 0 { assert alloc[off + key] == c[key]; }
      TrimmedDone(c, key + 1);
    }

    /** Shortens the array past its trailing holes. */
    method Trim()
      requires Valid()
      modifies this`fill
      ensures Valid() && Contents() == Trimmed(old(Contents()))
    {
      hide Trimmed;
      ghost var c := Contents();
      var key := LastUsed();
      fill := key;
      assert Contents() == c[..key + 1];
    }

    method Remove(key: nat)
      requires Valid() && key <= fill
      modifies this`fill, alloc
      ensures Valid() && Contents() == Deleted(old(Contents()), key)
    {
      ghost var c := Contents();
      alloc[off + key] := None;
      assert Contents() == c[key := None];
      if key == fill {
        fill := fill - 1;
        assert Contents() == c[..key];
        Trim();
      }
    }

    method DeleteAt(heap: Heap, key: nat, discard: bool) returns (value: Slot)
      requires Valid() && key <= fill
      modifies this`fill, this`owns, this`canOwn, alloc, heap
      ensures Valid() && Contents() == Deleted(old(Contents()), key) && (old(owns) ==> owns)
      ensures value == if discard then None else old(Contents())[key]
      ensures owns ==> Balanced(old(heap.rc), old(Mine()), heap.rc, Mine(), [], if discard then [] else [old(Contents())[key]])
      ensures !owns ==> Moved(old(heap.rc), heap.rc, [], if discard then [old(Contents())[key]] else [])
    {
      hide Deleted, Owned, CountOf, Balanced;
      ghost var c := Contents();
      MovedNothing(heap.rc, [], []);
      NoChange(heap.rc, Mine());
      if !owns && canOwn { Reify(heap); }
      ghost var rc := heap.rc;
      var sv := alloc[off + key];
      assert sv == c[key];
      MovedNothing(heap.rc, [], []);
      Remove(key);
      if discard { ReleaseValue(heap, sv); }
      if owns { DeletedBalance(old(heap.rc), old(Mine()), rc, heap.rc, c, key, discard); }
      return if discard then None else sv;
    }

    /** `av_delete`: a hole appears; at the end the array gets shorter, down to the
        last element that is not a hole.  The removed element is released or handed over. */
    method Delete(heap: Heap, index: int, discard: bool) returns (value: Slot)
      requires Valid() && -SSIZE_MAX <= index <= SSIZE_MAX
      modifies this`fill, this`owns, this`canOwn, alloc, heap
      ensures Valid() && Contents() == Apply(old(Contents()), Op.Delete(index, discard)) && (old(owns) ==> owns)
      ensures DeletesAt(old(Contents()), index, Contents())
      ensures var c, key := old(Contents()), Index(|old(Contents())|, index);
              value == if 0 <= key < |c| && !discard then c[key] else None
      ensures var c, key := old(Contents()), Index(|old(Contents())|, index);
              owns ==> Balanced(old(heap.rc), old(Mine()), heap.rc, Mine(), [], if 0 <= key < |c| && !discard then [c[key]] else [])
      ensures var c, key := old(Contents()), Index(|old(Contents())|, index);
              !owns ==> Moved(old(heap.rc), heap.rc, [], if 0 <= key < |c| && discard then [c[key]] else [])
    {
      hide Deleted, Owned, CountOf, Balanced, Moved, OutsideNull, DeletesAt;
      DeletedMeans(Contents(), index);
      var key := if index < 0 then index + fill + 1 else index;
      if key < 0 || key > fill {
        MovedNothing(heap.rc, [], []);
        NoChange(heap.rc, Mine());
        return None;
      }
      value := DeleteAt(heap, key, discard);
    }

    method ReleaseValue(heap: Heap, sv: Slot)
      modifies heap
      ensures Moved(old(heap.rc), heap.rc, [], [sv])
    {
      if sv.Some? {
        heap.Dec(sv);
      } else {
        NullMoves(heap.rc);
      }
    }

    /** `av_exists`. */
    method Exists(index: int) returns (r: bool)
      requires Valid()
      ensures var c, key := Contents(), Index(|Contents()|, index); r <==> 0 <= key < |c| && c[key].Some?
    {
      var key := if index < 0 then index + fill + 1 else index;
      if key < 0 { return false; }
      return key <= fill && alloc[off + key].Some?;
    }

    /** `av_fetch`: the value of an element; an lvalue fetch of a hole, or beyond the
        end, stores a new empty scalar there.  A negative index beyond the start gives nothing. */
    method Fetch(heap: Heap, index: int, lval: bool, newSv: Sv) returns (value: Slot, r: Outcome)
      requires Valid() && -SSIZE_MAX <= index <= SSIZE_MAX
      modifies this, alloc, heap
      ensures alloc == old(alloc) || fresh(alloc)
      ensures var c, key := old(Contents()), Index(|old(Contents())|, index);
              var there := 0 <= key < |c| && c[key].Some?;
              && (r == Refused <==> !there && (key < 0 || !lval))
              && (r == Overflowed <==> !there && lval && key >= 0 && Overflows(old(off), old(alloc.Length), key))
              && (there ==> value == c[key])
              && (r == Refused || there ==> Valid() && Contents() == c && heap.rc == old(heap.rc) && owns == old(owns))
              && (r == Performed && !there ==>
                    Valid() && value == Some(newSv) && Contents() == Stored(c, key, value) && owns == (old(owns) || old(canOwn))
                    && Balanced(old(heap.rc), old(Mine()), heap.rc, Mine(), if owns then [value] else [], []))
    {
      hide Balanced, Owned, Stored, OutsideNull, CopyStep, Overflows;
      var size := fill + 1;
      var key := if index < 0 then index + size else index;
      var create := lval && (0 <= key < size || index >= 0);
      if 0 <= key < size && alloc[off + key].Some? { return alloc[off + key], Performed; }
      if !create { return None, Refused; }
      r := Store(heap, key, Some(newSv));
      value := Some(newSv);
    }

    /** `av_clear`: the elements go, the window returns to the start of the allocation. */
    method Clear(heap: Heap)
      requires Valid()
      modifies this`fill, this`off, this`max, alloc, heap
      ensures Valid() && Contents() == [] && alloc.Length == old(alloc.Length)
      ensures Balanced(old(heap.rc), old(Mine()), heap.rc, Mine(), [], [])
      ensures old(max) >= 0 ==> off == 0
    {
      if max < 0 {
        assert Contents() == [];
        NoChange(heap.rc, Mine());
        return;
      }
      FillWithin(heap, -1);
      max, off := max + off, 0;
    }

    /** `av_undef`: the allocation goes as well. */
    method Undef(heap: Heap)
      requires Valid()
      modifies this`fill, this`off, this`max, this`alloc, alloc, heap
      ensures Valid() && Contents() == [] && fresh(alloc) && alloc.Length == 0
      ensures Balanced(old(heap.rc), old(Mine()), heap.rc, Mine(), [], [])
    {
      FillWithin(heap, -1);
      alloc := new Slot[0];
      off, max, fill := 0, -1, -1;
    }

    /** `av_make`: an array of new scalars, copies of the arguments in order.  It owns
        them; the counts of the arguments stay as they were. */
    constructor Make(heap: Heap, values: seq<Sv>)
      requires |values| <= MAX_SLOTS
      modifies heap
      ensures Valid() && fresh(alloc) && owns && off == 0 && |Contents()| == |values|
      ensures forall x :: x in old(heap.rc) ==> x in heap.rc && heap.rc[x] == old(heap.rc)[x]
      ensures forall i {:trigger CopyAt(heap.rc, heap.copyOf, Contents(), values, i)} :: 0 <= i < |values| ==>
        CopyAt(heap.rc, heap.copyOf, Contents(), values, i) && Contents()[i].value !in old(heap.rc)
      ensures forall i, j :: 0 <= i < j < |values| ==> Contents()[i] != Contents()[j]
    {
      var size := |values|;
      alloc := new Slot[size];
      off, max, fill, owns, canOwn, copies := 0, size - 1, -1, true, false, 0;
      new;
      for i := 0 to size
        invariant off == 0 && max == size - 1 && fill == i - 1 && owns && fresh(alloc) && alloc.Length == size
        invariant forall x :: x in old(heap.rc) ==> x in heap.rc && heap.rc[x] == old(heap.rc)[x]
        invariant forall k {:trigger CopyAt(heap.rc, heap.copyOf, alloc[..i], values, k)} :: 0 <= k < i ==>
          CopyAt(heap.rc, heap.copyOf, alloc[..i], values, k) && alloc[k].value !in old(heap.rc)
        invariant forall j, k :: 0 <= j < k < i ==> alloc[j] != alloc[k]
      {
        ghost var before, rc, copyOf := alloc[..i], heap.rc, heap.copyOf;
        var copy := heap.NewCopy(values[i]);
        alloc[i] := Some(copy);
        fill := i;
        assert alloc[..i + 1] == before + [Some(copy)];
        forall k | 0 <= k < i + 1
          ensures CopyAt(heap.rc, heap.copyOf, alloc[..i + 1], values, k) && alloc[k].value !in old(heap.rc)
          ensures k < i ==> alloc[k] != alloc[i]
        {
          assert k < i ==> CopyAt(rc, copyOf, before, values, k);
        }
      }
      ghost var c := alloc[..size];
      assert Contents() == c;
      forall i | 0 <= i < size ensures CopyAt(heap.rc, heap.copyOf, c, values, i) && c[i].value !in old(heap.rc) {
        assert c[i] == alloc[i];
      }
      assert forall i, j :: 0 <= i < j < size ==> c[i] == alloc[i] && c[j] == alloc[j];
    }

    // ----- sequences of operations

    method Perform(heap: Heap, op: Op) returns (ok: bool)
      requires Valid() && owns && InRange(op)
      modifies this, alloc, heap
      ensures alloc == old(alloc) || fresh(alloc)
      ensures ok ==> Valid() && owns && Contents() == Apply(old(Contents()), op)
      ensures ok ==> Balanced(old(heap.rc), old(Contents()), heap.rc, Contents(), Taken(old(Contents()), op), Given(old(Contents()), op))
      ensures ok <==> !OpOverflows(old(off), old(alloc.Length), old(fill), op)
    {
      hide OutsideNull, Moved, Owned, Stored, Deleted, Resized, Overflows;
      ok := true;
      ghost var c := Contents();
      match op
      case Store(key, v) =>
        var r := Store(heap, key, v);
        ok := r != Overflowed;
        NoChange(heap.rc, c);
      case Push(v) =>
        var r := Push(heap, v);
        ok := r != Overflowed;
      case Pop =>
        var _ := Pop();
        NoChange(heap.rc, c);
        if c != [] { EndBalances(heap.rc, c); }
      case Shift =>
        var _ := Shift();
        NoChange(heap.rc, c);
        if c != [] { EndBalances(heap.rc, c); }
      case Unshift(count) =>
        var r := Unshift(heap, count);
        ok := r != Overflowed;
      case Fill(top) =>
        var r := Fill(heap, top);
        ok := r != Overflowed;
      case Delete(key, discard) =>
        var _ := Delete(heap, key, discard);
      case Clear => Clear(heap);
      case Undef => Undef(heap);
      case ExtendTo(key) =>
        var r := Extend(key);
        ok := r == Extended;
        NoChange(heap.rc, c);
    }

    /** Any sequence of operations acts on the buffer as on a sequence of optional
        values, and conserves references.  It succeeds when no operation reaches beyond
        half of what can be allocated. */
    method PerformAll(heap: Heap, ops: seq<Op>) returns (ok: bool)
      requires Valid() && owns && forall i :: 0 <= i < |ops| ==> InRange(ops[i])
      modifies this, alloc, heap
      ensures ok ==> Valid() && owns && Contents() == ApplyAll(old(Contents()), ops)
      ensures ok ==> LeadsTo(old(Contents()), ops, Contents())
      ensures ok ==> Balanced(old(heap.rc), old(Contents()), heap.rc, Contents(), TakenAll(old(Contents()), ops), GivenAll(old(Contents()), ops))
      ensures (forall i :: 0 <= i < |ops| ==> Reach(ApplyAll(old(Contents()), ops[..i]), ops[i]) <= MAX_SLOTS / 2) ==> ok
    {
      hide OutsideNull, Apply, Taken, Given, Owned, Reach, OpOverflows, LeadsTo;
      ghost var c := Contents();
      NoChange(heap.rc, c);
      for i := 0 to |ops|
        invariant Valid() && owns && (alloc == old(alloc) || fresh(alloc))
        invariant Contents() == ApplyAll(c, ops[..i])
        invariant Balanced(old(heap.rc), c, heap.rc, Contents(), TakenAll(c, ops[..i]), GivenAll(c, ops[..i]))
      {
        ghost var rc, d := heap.rc, Contents();
        if Reach(d, ops[i]) <= MAX_SLOTS / 2 { ReachSuffices(d, off, alloc.Length, ops[i]); }
        ok := Perform(heap, ops[i]);
        if !ok { return; }
        assert ops[..i + 1][..i] == ops[..i] && ops[..i + 1][i] == ops[i];
        BalancedSum(old(heap.rc), c, rc, d, heap.rc, Contents(), TakenAll(c, ops[..i]), GivenAll(c, ops[..i]), Taken(d, ops[i]), Given(d, ops[i]));
      }
      assert ops[..|ops|] == ops;
      var _ := ApplyAllMeans(c, ops);
      return true;
    }

    /** Starting empty, `n` pushes copy at most `6n` elements, and all of them succeed
        while the array stays within half of what can be allocated. */
    method PushAll(heap: Heap, values: seq<Slot>) returns (done: nat)
      requires Valid() && owns && alloc.Length == 0
      modifies this, alloc, heap
      ensures done <= |values|
      ensures done == |values| ==> Valid() && Contents() == values
      ensures done < |values| ==> done > MAX_SLOTS / 2
      ensures copies <= old(copies) + 6 * |values|
    {
      hide OutsideNull, Moved, Owned, NewMax, Balanced, Overflows;
      ghost var c0 := copies;
      for i := 0 to |values|
        invariant Valid() && owns && off == 0 && (alloc == old(alloc) || fresh(alloc))
        invariant Contents() == values[..i]
        invariant c0 <= copies <= c0 + 5 * alloc.Length && copies <= c0 + 6 * i
      {
        ghost var before, n0 := copies, alloc.Length;
        OverflowBounds(off, alloc.Length, i);
        var r := Push(heap, values[i]);
        if r == Overflowed { return i; }
        assert values[..i + 1] == values[..i] + [values[i]];
        CopiesGrow(before, n0, copies, alloc.Length, i);
        PushStaysCheap(before - c0, n0, copies - c0, alloc.Length, i);
      }
      return |values|;
    }
  }

  datatype Outcome = Performed | Refused | Overflowed

  lemma UncountedMoves(rc: Counts, v: Slot)
    requires v == None || v == Some(SV_UNDEF)
    ensures Moved(rc, rc, [v], [])
  {
    forall x | x != SV_UNDEF ensures Owned([v], x) == 0 { OwnedOne(v, x); }
  }

  lemma NoChange(rc: Counts, m: seq<Slot>)
    ensures Balanced(rc, m, rc, m, [], [])
  {}

  lemma NullIsFree(rc0: Counts, m0: seq<Slot>, rc1: Counts, m1: seq<Slot>, nulls: seq<Slot>)
    requires Balanced(rc0, m0, rc1, m1, nulls, []) && (nulls == [None] || nulls == [])
    ensures Balanced(rc0, m0, rc1, m1, [], [])
  {
    forall x | x != SV_UNDEF ensures Outside(rc1, m1, x) == Outside(rc0, m0, x) {
      OwnedNulls(nulls, x);
      assert CountOf(rc1, x) == CountOf(rc1, x);
    }
  }

  lemma NullMoves(rc: Counts)
    ensures Moved(rc, rc, [], [None])
  {
    forall x | x != SV_UNDEF ensures Owned([None], x) == 0 { OwnedNulls([None], x); }
  }

  lemma DeletedBalance(rc0: Counts, m0: seq<Slot>, rc: Counts, rc1: Counts, c: seq<Slot>, k: nat, discarded: bool)
    requires k < |c| && Balanced(rc0, m0, rc, c, [], []) && Moved(rc, rc1, [], if discarded then [c[k]] else [])
    ensures Balanced(rc0, m0, rc1, Deleted(c, k), [], if discarded then [] else [c[k]])
  {
    DeleteBalances(rc, c, rc1, k, discarded);
    BalancedTwice(rc0, m0, rc, c, rc1, Deleted(c, k), [], if discarded then [] else [c[k]]);
  }

  lemma TrimmedPastHole(c: seq<Slot>, k: nat)
    requires k < |c| && c[k] == None
    ensures Trimmed(c[..k + 1]) == Trimmed(c[..k])
  {
    assert c[..k + 1][..k] == c[..k];
  }

  lemma TrimmedDone(c: seq<Slot>, n: nat)
    requires n <= |c| && (n > 0 ==> c[n - 1].Some?)
    ensures Trimmed(c[..n]) == c[..n]
  {}

  /** Element `i` is a scalar of its own, copied from argument `i`, with one reference. */
  ghost predicate CopyAt(rc: Counts, copyOf: map<Sv, Sv>, c: seq<Slot>, values: seq<Sv>, i: nat) {
    && i < |c| && i < |values| && c[i].Some? && c[i].value != SV_UNDEF
    && c[i].value in rc && rc[c[i].value] == 1
    && c[i].value in copyOf && copyOf[c[i].value] == values[i]
  }

  lemma NoOverflowWithin(off: nat, size: nat, key: int)
    ensures off + key < size ==> !Overflows(off, size, key)
  {}

  // ----- two requests that break an array

  /** An array that has been shifted: the request moves the elements back and raises
      the maximum before it fails. */
  method BreakShifted(heap: Heap, x: Sv) returns (av: Av)
    modifies heap
    ensures fresh(av) && !av.Valid()
  {
    av := new Av();
    var stored := av.Store(heap, 0, Some(x));
    var _ := av.Shift();
    assert av.off == 1;
    var r := av.Extend(SSIZE_MAX);
    OverflowBounds(1, 4, SSIZE_MAX);
  }

  /** An array without an allocation: the maximum is set before the size is checked. */
  method BreakEmpty() returns (av: Av)
    ensures fresh(av) && !av.Valid()
  {
    av := new Av();
    OverflowBounds(0, 0, SSIZE_MAX);
    var r := av.Extend(SSIZE_MAX);
  }

  lemma BalancedSum(rc0: Counts, m0: seq<Slot>, rc1: Counts, m1: seq<Slot>, rc2: Counts, m2: seq<Slot>,
                    received: seq<Slot>, returned: seq<Slot>, received': seq<Slot>, returned': seq<Slot>)
    requires Balanced(rc0, m0, rc1, m1, received, returned) && Balanced(rc1, m1, rc2, m2, received', returned')
    ensures Balanced(rc0, m0, rc2, m2, received + received', returned + returned')
  {
    forall x | x != SV_UNDEF
      ensures Outside(rc2, m2, x) == Outside(rc0, m0, x) - Owned(received + received', x) + Owned(returned + returned', x)
    {
      OwnedConcat(received, received', x);
      OwnedConcat(returned, returned', x);
      assert CountOf(rc1, x) == CountOf(rc1, x);
    }
  }

  lemma CopiesGrow(c0: nat, n0: nat, c1: nat, n1: nat, key: int)
    requires CopyStep(c0, n0, c1, n1, key)
    ensures c1 >= c0
  {}

  lemma StoredAtEnd(c: seq<Slot>, v: Slot)
    ensures Stored(c, |c|, v) == c + [v]
  {}

  lemma PaddedBalances(rc: Counts, c: seq<Slot>, n: nat)
    requires n >= |c|
    ensures Resized(c, n) == c + Nulls(n - |c|) && Balanced(rc, c, rc, Resized(c, n), [], [])
  {
    assert n == |c| ==> c[..n] == c + Nulls(0) && c[n..] == [];
    MovedNothing(rc, [], if n <= |c| then c[n..] else []);
    CutBalances(rc, c, rc, n);
  }

  /** The first `n` slots are those that stood `down` places above. */
  function Lowered(a: seq<Slot>, down: nat, n: nat): seq<Slot>
    requires down + n <= |a|
  {
    a[down..down + n] + a[n..]
  }

  lemma LoweredNothing(a: seq<Slot>, down: nat)
    requires down <= |a|
    ensures Lowered(a, down, 0) == a
  {}

  lemma LoweredMore(a: seq<Slot>, down: nat, n: nat)
    requires down + n < |a|
    ensures |Lowered(a, down, n)| == |a|
    ensures Lowered(a, down, n)[down + n] == a[down + n]
    ensures Lowered(a, down, n + 1) == Lowered(a, down, n)[n := a[down + n]]
  {}

  ghost predicate NullOutside(a: seq<Slot>, off: nat, fill: int) {
    forall i :: 0 <= i < |a| && !(off <= i <= off + fill) ==> a[i] == None
  }

  /** Nothing but the window is left after its end was released. */
  lemma HoledWindow(a: seq<Slot>, off: nat, top: int, fill: int)
    requires -1 <= top <= fill && off + fill + 1 <= |a|
    requires NullOutside(a, off, fill)
    ensures var b := Holed(a, off + top + 1, off + fill + 1);
            && |b| == |a| && b[off..off + top + 1] == a[off..off + fill + 1][..top + 1] && NullOutside(b, off, top)
  {}

  /** The slots from `lo` up to `hi` hold NULL, the others are left as they were. */
  function Holed(a: seq<Slot>, lo: nat, hi: nat): seq<Slot>
    requires lo <= hi <= |a|
  {
    a[..lo] + Nulls(hi - lo) + a[hi..]
  }

  lemma HoledNothing(a: seq<Slot>, at: nat)
    requires at <= |a|
    ensures Holed(a, at, at) == a
  {}

  lemma HoledMore(a: seq<Slot>, lo: nat, hi: nat)
    requires lo < hi <= |a|
    ensures Holed(a, lo + 1, hi)[lo] == a[lo] && Holed(a, lo, hi) == Holed(a, lo + 1, hi)[lo := None]
  {}

  lemma ReleasedFrom(rc0: Counts, rc1: Counts, rc2: Counts, c: seq<Slot>, key: nat)
    requires key < |c| && Moved(rc0, rc1, [], c[key + 1..]) && Moved(rc1, rc2, [], [c[key]])
    ensures Moved(rc0, rc2, [], c[key..])
  {
    assert c[key..] == [c[key]] + c[key + 1..];
    MovedOneMore(rc0, rc1, rc2, c[key], c[key + 1..]);
  }

  lemma StoredInPlace(c: seq<Slot>, d: seq<Slot>, key: nat, v: Slot)
    requires d == if key < |c| then c else c + Nulls(key + 1 - |c|)
    ensures d[key := v] == Stored(c, key, v)
  {}
}
