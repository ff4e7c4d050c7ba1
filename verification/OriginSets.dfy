/** Masks over 32-bit words. */
module BitMasks {

  type OriginSet = bv32

  predicate Meets(o: OriginSet, m: OriginSet) {
    o & m != 0
  }

  function Compose(a: OriginSet, b: OriginSet): OriginSet {
    a | b
  }

  lemma MaskOr(a: OriginSet, b: OriginSet, m: OriginSet)
    ensures (a | b) & m != 0 <==> a & m != 0 || b & m != 0
  {}

  lemma MeetsOr(a: OriginSet, b: OriginSet, m: OriginSet)
    ensures Meets(a | b, m) <==> Meets(a, m) || Meets(b, m)
  {
    MaskOr(a, b, m);
  }

  lemma ComposeMeets(a: OriginSet, b: OriginSet, m: OriginSet)
    ensures Meets(Compose(a, b), m) <==> Meets(a, m) || Meets(b, m)
  {
    hide Meets;
    MeetsOr(a, b, m);
  }

  /** Below the mask the two words agree. */
  predicate Agree(a: OriginSet, b: OriginSet, m: OriginSet) {
    a & m == b & m
  }

  /** At most one bit, and at least one. */
  predicate Single(m: OriginSet) {
    m != 0 && m & (m - 1) == 0
  }

  lemma SingleMask(a: OriginSet, m: OriginSet)
    requires m & (m - 1) == 0
    ensures a & m == 0 || a & m == m
  {}

  /** Words that both meet a single bit, or both miss it, agree on it. */
  lemma SingleAgree(a: OriginSet, b: OriginSet, m: OriginSet)
    requires Single(m) && (Meets(a, m) <==> Meets(b, m))
    ensures a & m == b & m
  {
    SingleMask(a, m);
    SingleMask(b, m);
  }

  lemma AgreeOr(a: OriginSet, b: OriginSet, low: OriginSet, m: OriginSet)
    requires Agree(a, b, low) && Single(m) && (Meets(a, m) <==> Meets(b, m))
    ensures Agree(a, b, Compose(low, m))
  {
    hide Single, Meets;
    SingleAgree(a, b, m);
    OrAgree(a, b, low, m);
  }

  lemma OrAgree(a: OriginSet, b: OriginSet, low: OriginSet, m: OriginSet)
    requires a & low == b & low && a & m == b & m
    ensures a & (low | m) == b & (low | m)
  {}

  lemma AgreeAll(a: OriginSet, b: OriginSet)
    requires Agree(a, b, 0xFFFF_FFFF)
    ensures a == b
  {}

  lemma AgreeNone(a: OriginSet, b: OriginSet)
    ensures Agree(a, b, 0)
  {}

  lemma ZeroMeets(m: OriginSet)
    ensures !Meets(0, m)
  {}
}

/** Sets of method or field providers, one bit for each participant of a composition. */
module OriginSets {
  import opened BitMasks

  const MAX_BITS := 32

  function Bit(i: nat): OriginSet
    requires i < MAX_BITS
  {
    1 << i
  }

  predicate Has(o: OriginSet, i: nat)
    requires i < MAX_BITS
  {
    Meets(o, Bit(i))
  }

  lemma ComposeHas(a: OriginSet, b: OriginSet, i: nat)
    requires i < MAX_BITS
    ensures Has(Compose(a, b), i) <==> Has(a, i) || Has(b, i)
  {
    hide Meets, Bit, Compose;
    ComposeMeets(a, b, Bit(i));
  }

  lemma BitHas(i: nat, j: nat)
    requires i < MAX_BITS && j < MAX_BITS
    ensures Has(Bit(i), j) <==> i == j
  {}

  /** The bits below `k`. */
  function Low(k: nat): OriginSet
    requires k <= MAX_BITS
  {
    (1 << k) - 1
  }

  lemma LowNext(k: nat)
    requires k < MAX_BITS
    ensures Low(k + 1) == Compose(Low(k), Bit(k))
  {}

  lemma BitSingle(k: nat)
    requires k < MAX_BITS
    ensures Single(Bit(k))
  {}

  lemma LowEnds()
    ensures Low(0) == 0 && Low(MAX_BITS) == 0xFFFF_FFFF
  {}

  /** An origin set is determined by its bits. */
  lemma SameBits(a: OriginSet, b: OriginSet)
    requires forall i: nat {:trigger Has(a, i)} :: i < MAX_BITS ==> (Has(a, i) <==> Has(b, i))
    ensures a == b
  {
    hide Bit, Low, Agree, Compose, Single, Meets;
    LowEnds();
    AgreeNone(a, b);
    for k := 0 to MAX_BITS
      invariant Agree(a, b, Low(k))
    {
      LowNext(k);
      BitSingle(k);
      assert Has(a, k) <==> Has(b, k);
      AgreeOr(a, b, Low(k), Bit(k));
    }
    AgreeAll(a, b);
  }

  // ----- the set it stands for

  /** The participants in an origin set. */
  function Members(o: OriginSet): set<nat> {
    set i: nat | i < MAX_BITS && Has(o, i)
  }

  lemma ComposeIsUnion(a: OriginSet, b: OriginSet)
    ensures Members(Compose(a, b)) == Members(a) + Members(b)
  {
    hide Has, Compose;
    forall i: nat | i < MAX_BITS ensures Has(Compose(a, b), i) <==> Has(a, i) || Has(b, i) {
      ComposeHas(a, b, i);
    }
  }

  lemma EmptyMembers(o: OriginSet)
    ensures o == 0 <==> Members(o) == {}
  {
    hide Has;
    ZeroHasNone();
    if Members(o) == {} { SameMembers(o, 0); }
  }

  lemma BitMembers(i: nat)
    requires i < MAX_BITS
    ensures Members(Bit(i)) == {i}
  {
    hide Has, Bit;
    forall j: nat | j < MAX_BITS ensures Has(Bit(i), j) <==> i == j { BitHas(i, j); }
  }

  /** The number of bits below `n`; the source counts all 32. */
  function BitCount(o: OriginSet, n: nat): nat
    requires n <= MAX_BITS
  {
    if n == 0 then 0 else BitCount(o, n - 1) + if Has(o, n - 1) then 1 else 0
  }

  predicate IsRequired(o: OriginSet) {
    o == 0
  }

  predicate IsConflicted(o: OriginSet) {
    BitCount(o, MAX_BITS) > 1
  }

  lemma {:induction false} BitCountMembers(o: OriginSet, n: nat)
    requires n <= MAX_BITS
    ensures BitCount(o, n) == |set i: nat | i < n && Has(o, i)|
  {
    hide Has;
    var below := set i: nat | i < n && Has(o, i);
    if n > 0 {
      BitCountMembers(o, n - 1);
      var rest := set i: nat | i < n - 1 && Has(o, i);
      assert below == rest + if Has(o, n - 1) then {n - 1} else {};
    } else {
      assert below == {};
    }
  }

  /** Required, defined and conflicted are the empty, singleton and larger sets. */
  lemma StatusBySize(o: OriginSet)
    ensures IsRequired(o) <==> Members(o) == {}
    ensures IsConflicted(o) <==> |Members(o)| > 1
  {
    hide Has;
    EmptyMembers(o);
    BitCountMembers(o, MAX_BITS);
    assert Members(o) == set i: nat | i < MAX_BITS && Has(o, i);
  }

  /** An origin set is determined by its members. */
  lemma SameMembers(a: OriginSet, b: OriginSet)
    requires Members(a) == Members(b)
    ensures a == b
  {
    hide Has;
    forall i: nat | i < MAX_BITS ensures Has(a, i) <==> Has(b, i) {
      assert i in Members(a) <==> i in Members(b);
    }
    SameBits(a, b);
  }

  lemma ZeroHasNone()
    ensures Members(0) == {}
  {
    hide Bit, Meets;
    forall i: nat | i < MAX_BITS ensures !Has(0, i) { ZeroMeets(Bit(i)); }
  }
}
