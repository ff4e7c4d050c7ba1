/** Arrays as Perl sees them: sequences of optional values. */
module ArrayOps {
  import opened ObjectLayout

  type Sv = nat

  /** `&PL_sv_undef`, which is immortal: its references are not counted. */
  const SV_UNDEF: Sv := 0

  type Slot = Option<Sv>

  const SSIZE_MAX := 0x7FFF_FFFF_FFFF_FFFF
  const ARRAY_NEW_MIN_KEY := 3
  /** The largest number of slots whose size in bytes does not wrap. */
  const MAX_SLOTS := 0x1FFF_FFFF_FFFF_FFFF

  function Nulls(n: nat): (r: seq<Slot>)
    ensures |r| == n && forall i :: 0 <= i < n ==> r[i] == None
  {
    seq(n, _ => None)
  }

  /** A negative index counts from the end. */
  function Index(size: nat, key: int): int {
    if key < 0 then key + size else key
  }

  function Stored(c: seq<Slot>, key: nat, v: Slot): seq<Slot> {
    if key < |c| then c[key := v] else c + Nulls(key - |c|) + [v]
  }

  function Resized(c: seq<Slot>, n: nat): seq<Slot> {
    if n <= |c| then c[..n] else c + Nulls(n - |c|)
  }

  /** Without the trailing holes. */
  function Trimmed(c: seq<Slot>): (r: seq<Slot>)
    ensures r <= c && (r != [] ==> r[|r| - 1].Some?)
    ensures forall i :: |r| <= i < |c| ==> c[i] == None
  {
    if c == [] || c[|c| - 1].Some? then c else Trimmed(c[..|c| - 1])
  }

  function Deleted(c: seq<Slot>, key: nat): seq<Slot>
    requires key < |c|
  {
    if key == |c| - 1 then Trimmed(c[..key]) else c[key := None]
  }

  // ----- growth

  /** The new highest index when a full buffer of highest index `max` must reach `key`. */
  function NewMax(key: int, max: int): int {
    var slack := max / 5;
    var k := if slack < 5 && key - max < 8 then max + 8 else key;
    if k > SSIZE_MAX - slack then SSIZE_MAX else k + slack
  }

  /** The new maximum reaches the key, cannot overflow, and leaves room that is at
      least a fifth of the old capacity. */
  lemma NewMaxCovers(key: int, max: int)
    requires 0 <= max < key <= SSIZE_MAX && max <= MAX_SLOTS
    ensures key <= NewMax(key, max) <= SSIZE_MAX
    ensures max + 1 <= 5 * (NewMax(key, max) - max)
  {}

  /** The room beyond what is asked for is a fifth of the old maximum, rounded down.  A
      small array that needs fewer than eight more slots gets eight. */
  lemma NewMaxExact(key: int, max: int)
    requires 0 <= max < key <= SSIZE_MAX && max <= MAX_SLOTS
    ensures var small := max < 25 && key < max + 8;
            var asked := if small then max + 8 else key;
            if 5 * (SSIZE_MAX - asked) < max - max % 5 then NewMax(key, max) == SSIZE_MAX
            else 5 * (NewMax(key, max) - asked) <= max < 5 * (NewMax(key, max) - asked) + 5
  {}

  /** Reaching index `key` in a buffer of `size` slots, `off` of them in front of the
      window, asks for more slots than can be allocated. */
  predicate Overflows(off: nat, size: nat, key: int) {
    var max := size - off - 1;
    if key <= max then false
    else if size == 0 then (if key < ARRAY_NEW_MIN_KEY then ARRAY_NEW_MIN_KEY else key) > MAX_SLOTS
    else key > size - 1 && NewMax(key, size - 1) > MAX_SLOTS
  }

  /** An index up to half of what can be allocated never overflows; one that cannot
      be allocated at all always does. */
  lemma OverflowBounds(off: nat, size: nat, key: int)
    requires off <= size <= MAX_SLOTS + 1
    ensures key <= MAX_SLOTS / 2 ==> !Overflows(off, size, key)
    ensures key > MAX_SLOTS ==> Overflows(off, size, key)
  {}

  /** The index up to which making `num` elements in front extends a buffer whose last element is `fill`. */
  function FrontReach(fill: int, off: nat, num: nat): int
    requires num >= off
  {
    var i := fill + off;
    i + (num - off) + if i > 0 then i else 0
  }

  // ----- ownership

  /** How many of the slots hold `x`. */
  function Owned(c: seq<Slot>, x: Sv): nat {
    if c == [] then 0 else Owned(c[..|c| - 1], x) + if c[|c| - 1] == Some(x) then 1 else 0
  }

  lemma {:induction false} OwnedConcat(a: seq<Slot>, b: seq<Slot>, x: Sv)
    ensures Owned(a + b, x) == Owned(a, x) + Owned(b, x)
  {
    if b == [] {
      assert a + b == a;
    } else {
      var n := |b| - 1;
      assert (a + b)[..|a + b| - 1] == a + b[..n];
      OwnedConcat(a, b[..n], x);
    }
  }

  lemma {:induction false} OwnedNulls(c: seq<Slot>, x: Sv)
    requires forall i :: 0 <= i < |c| ==> c[i] == None
    ensures Owned(c, x) == 0
  {
    if c != [] { OwnedNulls(c[..|c| - 1], x); }
  }

  lemma OwnedOne(v: Slot, x: Sv)
    ensures Owned([v], x) == if v == Some(x) then 1 else 0
  {
    assert [v][..0] == [];
  }

  lemma OwnedUpdate(c: seq<Slot>, k: nat, v: Slot, x: Sv)
    requires k < |c|
    ensures Owned(c[k := v], x) == Owned(c, x) - Owned([c[k]], x) + Owned([v], x)
  {
    assert c == c[..k] + [c[k]] + c[k + 1..];
    assert c[k := v] == c[..k] + [v] + c[k + 1..];
    OwnedConcat(c[..k] + [c[k]], c[k + 1..], x);
    OwnedConcat(c[..k] + [v], c[k + 1..], x);
    OwnedConcat(c[..k], [c[k]], x);
    OwnedConcat(c[..k], [v], x);
  }

  lemma OwnedSplit(c: seq<Slot>, k: nat, x: Sv)
    requires k <= |c|
    ensures Owned(c, x) == Owned(c[..k], x) + Owned(c[k..], x)
  {
    assert c == c[..k] + c[k..];
    OwnedConcat(c[..k], c[k..], x);
  }

  /** Storing replaces one owned value by another. */
  lemma StoredOwns(c: seq<Slot>, key: nat, v: Slot, x: Sv)
    ensures Owned(Stored(c, key, v), x) == Owned(c, x) - (if key < |c| then Owned([c[key]], x) else 0) + Owned([v], x)
  {
    if key < |c| {
      OwnedUpdate(c, key, v, x);
    } else {
      OwnedConcat(c + Nulls(key - |c|), [v], x);
      OwnedConcat(c, Nulls(key - |c|), x);
      OwnedNulls(Nulls(key - |c|), x);
    }
  }

  lemma ResizedOwns(c: seq<Slot>, n: nat, x: Sv)
    ensures Owned(Resized(c, n), x) == Owned(c, x) - (if n <= |c| then Owned(c[n..], x) else 0)
  {
    if n <= |c| {
      OwnedSplit(c, n, x);
    } else {
      OwnedConcat(c, Nulls(n - |c|), x);
      OwnedNulls(Nulls(n - |c|), x);
    }
  }

  lemma DeletedOwns(c: seq<Slot>, key: nat, x: Sv)
    requires key < |c|
    ensures Owned(Deleted(c, key), x) == Owned(c, x) - Owned([c[key]], x)
  {
    if key == |c| - 1 {
      var r := Trimmed(c[..key]);
      OwnedSplit(c, key, x);
      assert c[key..] == [c[key]];
      OwnedSplit(c[..key], |r|, x);
      assert c[..key][..|r|] == r;
      OwnedNulls(c[..key][|r|..], x);
    } else {
      OwnedUpdate(c, key, None, x);
      OwnedOne(None, x);
    }
  }

  // ----- sequences of operations

  datatype Op =
    | Store(key: int, value: Slot) | Push(value: Slot) | Pop | Shift | Unshift(count: int)
    | Fill(top: int) | Delete(key: int, discard: bool) | Clear | Undef | ExtendTo(key: int)

  function Apply(c: seq<Slot>, op: Op): seq<Slot> {
    match op
    case Store(key, v) => if Index(|c|, key) < 0 then c else Stored(c, Index(|c|, key), v)
    case Push(v) => c + [v]
    case Pop => if c == [] then c else c[..|c| - 1]
    case Shift => if c == [] then c else c[1..]
    case Unshift(n) => if n <= 0 then c else Nulls(n) + c
    case Fill(top) => Resized(c, if top < 0 then 0 else top + 1)
    case Delete(key, _) => if 0 <= Index(|c|, key) < |c| then Deleted(c, Index(|c|, key)) else c
    case Clear => []
    case Undef => []
    case ExtendTo(_) => c
  }

  // ----- the operations slot by slot

  /** What the contents hold at an index, with holes beyond the end. */
  ghost predicate Holds(c: seq<Slot>, i: int, v: Slot) {
    if 0 <= i < |c| then v == c[i] else v == None
  }

  /** Storing at an index changes that slot alone; holes appear up to it.  An index in
      front of the first element changes nothing. */
  ghost predicate StoresAt(c: seq<Slot>, index: int, v: Slot, d: seq<Slot>) {
    var k := if index < 0 then |c| + index else index;
    if k < 0 then d == c
    else
      && |d| == (if k < |c| then |c| else k + 1) && d[k] == v
      && forall i :: 0 <= i < |d| && i != k ==> Holds(c, i, d[i])
  }

  /** Deleting the last element leaves the elements below it up to the last one that is
      not a hole; deleting any other leaves a hole in its place and changes nothing else. */
  ghost predicate DeletesAt(c: seq<Slot>, index: int, d: seq<Slot>) {
    var k := if index < 0 then |c| + index else index;
    if k < 0 || k >= |c| then d == c
    else if k < |c| - 1 then
      |d| == |c| && d[k] == None && forall i :: 0 <= i < |c| && i != k ==> d[i] == c[i]
    else
      && |d| <= k && (forall i :: 0 <= i < |d| ==> d[i] == c[i])
      && (d == [] || d[|d| - 1].Some?)
      && (forall i :: |d| <= i < k ==> c[i] == None)
  }

  /** What each operation makes of the contents. */
  ghost predicate Means(c: seq<Slot>, op: Op, d: seq<Slot>) {
    match op
    case Store(index, v) => StoresAt(c, index, v, d)
    case Push(v) => |d| == |c| + 1 && d[|c|] == v && forall i :: 0 <= i < |c| ==> d[i] == c[i]
    case Pop => |d| == (if |c| == 0 then 0 else |c| - 1) && forall i :: 0 <= i < |d| ==> d[i] == c[i]
    case Shift => |d| == (if |c| == 0 then 0 else |c| - 1) && forall i :: 0 <= i < |d| ==> d[i] == c[i + 1]
    case Unshift(n) =>
      |d| == |c| + (if n < 0 then 0 else n) && forall i :: 0 <= i < |d| ==> Holds(c, if n < 0 then i else i - n, d[i])
    case Fill(top) => |d| == (if top < 0 then 0 else top + 1) && forall i :: 0 <= i < |d| ==> Holds(c, i, d[i])
    case Delete(index, _) => DeletesAt(c, index, d)
    case Clear => |d| == 0
    case Undef => |d| == 0
    case ExtendTo(_) => d == c
  }

  lemma DeletedMeans(c: seq<Slot>, index: int)
    ensures var k := Index(|c|, index); DeletesAt(c, index, if 0 <= k < |c| then Deleted(c, k) else c)
  {
    var k := Index(|c|, index);
    if 0 <= k == |c| - 1 {
      var d := Trimmed(c[..k]);
      assert forall i :: |d| <= i < k ==> c[..k][i] == c[i];
    }
  }

  lemma StoredMeans(c: seq<Slot>, index: int, v: Slot)
    ensures var k := Index(|c|, index); StoresAt(c, index, v, if k < 0 then c else Stored(c, k, v))
  {}

  /** Applying an operation changes the contents as it should, slot by slot. */
  lemma ApplyMeans(c: seq<Slot>, op: Op)
    ensures Means(c, op, Apply(c, op))
  {
    match op
    case Store(index, v) =>
      hide Stored;
      StoredMeans(c, index, v);
    case Delete(index, _) =>
      hide Deleted;
      DeletedMeans(c, index);
    case _ =>
  }

  function ApplyAll(c: seq<Slot>, ops: seq<Op>): seq<Slot> {
    if ops == [] then c else Apply(ApplyAll(c, ops[..|ops| - 1]), ops[|ops| - 1])
  }

  /** A sequence of operations goes through the contents that each of them makes. */
  ghost predicate Steps(states: seq<seq<Slot>>, ops: seq<Op>) {
    |states| == |ops| + 1 && forall i :: 0 <= i < |ops| ==> Means(states[i], ops[i], states[i + 1])
  }

  ghost predicate LeadsTo(c: seq<Slot>, ops: seq<Op>, d: seq<Slot>) {
    exists states :: Steps(states, ops) && states[0] == c && states[|ops|] == d
  }

  lemma {:induction false} ApplyAllMeans(c: seq<Slot>, ops: seq<Op>) returns (states: seq<seq<Slot>>)
    ensures Steps(states, ops) && states[0] == c && states[|ops|] == ApplyAll(c, ops)
    ensures LeadsTo(c, ops, ApplyAll(c, ops))
  {
    hide Means, Apply;
    if ops == [] {
      states := [c];
    } else {
      var n := |ops| - 1;
      var before := ApplyAllMeans(c, ops[..n]);
      var d := Apply(before[n], ops[n]);
      ApplyMeans(before[n], ops[n]);
      states := before + [d];
      forall i | 0 <= i < |ops| ensures Means(states[i], ops[i], states[i + 1]) {
        if i < n { assert ops[..n][i] == ops[i]; }
      }
    }
  }

  /** The references an owning array takes over from its caller. */
  function Taken(c: seq<Slot>, op: Op): seq<Slot> {
    if op.Push? then [op.value]
    else if op.Store? && Index(|c|, op.key) >= 0 then [op.value]
    else []
  }

  /** The references it hands over to its caller. */
  function Given(c: seq<Slot>, op: Op): seq<Slot> {
    if op.Pop? && c != [] then [c[|c| - 1]]
    else if op.Shift? && c != [] then [c[0]]
    else if op.Delete? && !op.discard && 0 <= Index(|c|, op.key) < |c| then [c[Index(|c|, op.key)]]
    else []
  }

  function TakenAll(c: seq<Slot>, ops: seq<Op>): seq<Slot> {
    if ops == [] then []
    else TakenAll(c, ops[..|ops| - 1]) + Taken(ApplyAll(c, ops[..|ops| - 1]), ops[|ops| - 1])
  }

  function GivenAll(c: seq<Slot>, ops: seq<Op>): seq<Slot> {
    if ops == [] then []
    else GivenAll(c, ops[..|ops| - 1]) + Given(ApplyAll(c, ops[..|ops| - 1]), ops[|ops| - 1])
  }

  /** Indices fit the original's signed size type, and so do the sums formed with counts. */
  predicate InRange(op: Op) {
    && (op.Store? || op.Delete? ==> -SSIZE_MAX <= op.key <= SSIZE_MAX)
    && (op.Fill? ==> op.top <= SSIZE_MAX) && (op.Unshift? ==> op.count <= SSIZE_MAX - 2 * MAX_SLOTS)
    && (op.ExtendTo? ==> -1 <= op.key <= SSIZE_MAX)
  }

  /** The operation ends in the size-overflow error. */
  predicate OpOverflows(off: nat, size: nat, fill: int, op: Op) {
    match op
    case Store(key, _) => fill >= -1 && Index(fill + 1, key) >= 0 && Overflows(off, size, Index(fill + 1, key))
    case Push(_) => Overflows(off, size, fill + 1)
    case Unshift(n) => n > off && Overflows(0, size, FrontReach(fill, off, n))
    case Fill(top) => top >= 0 && Overflows(off, size, top)
    case ExtendTo(key) => Overflows(off, size, key)
    case _ => false
  }

  /** An index that the operation never goes beyond, told from the contents alone. */
  function Reach(c: seq<Slot>, op: Op): int {
    match op
    case Store(key, _) => Index(|c|, key)
    case Push(_) => |c|
    case Unshift(n) => if n <= 0 then 0 else 2 * (|c| + n)
    case Fill(top) => top
    case ExtendTo(key) => key
    case _ => 0
  }

  lemma ReachSuffices(c: seq<Slot>, off: nat, size: nat, op: Op)
    requires off + |c| <= size <= MAX_SLOTS + 1 && Reach(c, op) <= MAX_SLOTS / 2
    ensures !OpOverflows(off, size, |c| - 1, op)
  {
    hide NewMax, Overflows;
    OverflowBounds(off, size, Reach(c, op));
    if op.Unshift? && op.count > off { OverflowBounds(0, size, FrontReach(|c| - 1, off, op.count)); }
  }

  // ----- the cost of growing

  /** What reaching index `key` costs an unshifted buffer of `n0` slots. */
  ghost predicate CopyStep(c0: nat, n0: nat, c1: nat, n1: nat, key: int) {
    if key < n0 then c1 == c0 && n1 == n0
    else if n0 == 0 then c1 == c0 && n1 > key
    else c1 == c0 + n0 && n1 == NewMax(key, n0 - 1) + 1
  }

  /** One push onto `i` elements keeps the copies within six per push, since each
      growth pays for the next with at least a fifth of the capacity. */
  lemma PushStaysCheap(c0: nat, n0: nat, c1: nat, n1: nat, i: nat)
    requires i <= n0 <= MAX_SLOTS + 1 && CopyStep(c0, n0, c1, n1, i)
    requires c0 <= 5 * n0 && c0 <= 6 * i
    ensures c1 <= 5 * n1 && c1 <= 6 * (i + 1)
  {
    if i == n0 > 0 { NewMaxCovers(i, n0 - 1); }
  }
}
