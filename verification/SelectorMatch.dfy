/** Matching packed selector keys against patterns with wildcards. */
module SelectorMatch {
  import opened ObjectLayout

  // ----- words of bits, lowest first

  type Word = w: seq<bool> | |w| == 64 witness seq(64, _ => false)

  function Zero(): Word {
    seq(64, _ => false)
  }

  function Or(a: Word, b: Word): Word {
    seq(64, i requires 0 <= i < 64 => a[i] || b[i])
  }

  function And(a: Word, b: Word): Word {
    seq(64, i requires 0 <= i < 64 => a[i] && b[i])
  }

  function ShiftLeft(a: Word, k: nat): Word {
    seq(64, i requires 0 <= i < 64 => i >= k && a[i - k])
  }

  function ShiftRight(a: Word, k: nat): Word {
    seq(64, i requires 0 <= i < 64 => i + k < 64 && a[i + k])
  }

  /** The lowest `n` bits. */
  function Low(n: nat): Word {
    seq(64, i => i < n)
  }

  // ----- selectors

  datatype Selector = Selector(shift: nat, valueWidth: nat)

  function Width(s: Selector): nat {
    if s.valueWidth == 16 then 16 else 8
  }

  function Field(key: Word, s: Selector): Word {
    And(ShiftRight(key, s.shift), Low(Width(s)))
  }

  /** An id that fits the field of its selector. */
  predicate Fits(v: Word, s: Selector) {
    forall i :: Width(s) <= i < 64 ==> !v[i]
  }

  predicate Apart(s: Selector, t: Selector) {
    s.shift + Width(s) <= t.shift || t.shift + Width(t) <= s.shift
  }

  /** The fields lie within the word and do not overlap. */
  predicate Disjoint(sels: seq<Selector>) {
    && (forall i :: 0 <= i < |sels| ==> sels[i].shift + Width(sels[i]) <= 64)
    && (forall i, j :: 0 <= i < j < |sels| ==> Apart(sels[i], sels[j]))
  }

  predicate AllFit(sels: seq<Selector>, ids: seq<Word>) {
    |ids| == |sels| && forall i :: 0 <= i < |ids| ==> Fits(ids[i], sels[i])
  }

  /** How keys and patterns are composed. */
  function Pack(sels: seq<Selector>, ids: seq<Word>): Word
    requires |sels| == |ids|
  {
    if sels == [] then Zero()
    else
      var n := |sels| - 1;
      Or(Pack(sels[..n], ids[..n]), ShiftLeft(ids[n], sels[n].shift))
  }

  /** Other selectors leave a field clear. */
  lemma {:induction false} PackedClear(sels: seq<Selector>, ids: seq<Word>, s: Selector)
    requires AllFit(sels, ids) && forall i :: 0 <= i < |sels| ==> Apart(sels[i], s)
    ensures forall b :: s.shift <= b < s.shift + Width(s) && b < 64 ==> !Pack(sels, ids)[b]
  {
    if sels != [] {
      var n := |sels| - 1;
      PackedClear(sels[..n], ids[..n], s);
      assert Apart(sels[n], s) && Fits(ids[n], sels[n]);
    }
  }

  /** Packing keeps every id: its field in the packed word is the id. */
  lemma {:induction false} PackedField(sels: seq<Selector>, ids: seq<Word>, i: nat)
    requires Disjoint(sels) && AllFit(sels, ids) && i < |sels|
    ensures Field(Pack(sels, ids), sels[i]) == ids[i]
  {
    PackedBits(sels, ids, i);
    assert Fits(ids[i], sels[i]);
    forall b | 0 <= b < 64 ensures Field(Pack(sels, ids), sels[i])[b] == ids[i][b] {
      if b < Width(sels[i]) {
        assert Pack(sels, ids)[b + sels[i].shift] == ids[i][b];
      }
    }
  }

  lemma {:induction false} PackedBits(sels: seq<Selector>, ids: seq<Word>, i: nat)
    requires Disjoint(sels) && AllFit(sels, ids) && i < |sels|
    ensures forall b :: sels[i].shift <= b < sels[i].shift + Width(sels[i]) ==> Pack(sels, ids)[b] == ids[i][b - sels[i].shift]
  {
    var n := |sels| - 1;
    assert Fits(ids[n], sels[n]);
    if i == n {
      PackedClear(sels[..n], ids[..n], sels[n]);
    } else {
      PackedBits(sels[..n], ids[..n], i);
      assert Apart(sels[i], sels[n]);
    }
  }

  // ----- matching

  /** Bit `i` of the mask of invalid selectors, which has eight. */
  predicate IsInvalid(invalid: seq<bool>, i: nat) {
    i < |invalid| && invalid[i]
  }

  predicate FieldMatches(sels: seq<Selector>, key: Word, pattern: Word, invalid: seq<bool>, i: nat)
    requires i < |sels|
  {
    var wanted := Field(pattern, sels[i]);
    !IsInvalid(invalid, i) && (wanted == Zero() || wanted == Field(key, sels[i]))
  }

  predicate Matches(sels: seq<Selector>, key: Word, pattern: Word, invalid: seq<bool>) {
    forall i :: 0 <= i < |sels| ==> FieldMatches(sels, key, pattern, invalid, i)
  }

  method PatternMatches(sels: seq<Selector>, key: Word, pattern: Word, invalid: seq<bool>) returns (r: bool)
    ensures r == Matches(sels, key, pattern, invalid)
  {
    for i := 0 to |sels|
      invariant forall j :: 0 <= j < i ==> FieldMatches(sels, key, pattern, invalid, j)
    {
      var wanted, have := Field(pattern, sels[i]), Field(key, sels[i]);
      if IsInvalid(invalid, i) || (wanted != Zero() && wanted != have) {
        assert !FieldMatches(sels, key, pattern, invalid, i);
        return false;
      }
    }
    return true;
  }

  predicate Accepts(pats: seq<Word>, ids: seq<Word>, invalid: seq<bool>, i: nat)
    requires i < |pats| && i < |ids|
  {
    !IsInvalid(invalid, i) && (pats[i] == Zero() || pats[i] == ids[i])
  }

  /** Matching packed words is matching selector by selector: none is invalid, and
      every pattern id is the wildcard or the id of the key. */
  lemma PackedMatch(sels: seq<Selector>, ids: seq<Word>, pats: seq<Word>, invalid: seq<bool>)
    requires Disjoint(sels) && AllFit(sels, ids) && AllFit(sels, pats)
    ensures Matches(sels, Pack(sels, ids), Pack(sels, pats), invalid) <==> forall i :: 0 <= i < |sels| ==> Accepts(pats, ids, invalid, i)
  {
    SameLength(sels, ids);
    SameLength(sels, pats);
    hide Disjoint, AllFit, Pack, Field, Fits;
    forall i | 0 <= i < |sels|
      ensures FieldMatches(sels, Pack(sels, ids), Pack(sels, pats), invalid, i) == Accepts(pats, ids, invalid, i)
    {
      PackedField(sels, ids, i);
      PackedField(sels, pats, i);
    }
  }

  lemma SameLength(sels: seq<Selector>, ids: seq<Word>)
    requires AllFit(sels, ids)
    ensures |sels| == |ids|
  {}

  // ----- finding a case

  datatype Case = Case(diagnostic: nat, pattern: Word)

  predicate Hits(cases: seq<Case>, sels: seq<Selector>, key: Word, invalid: seq<bool>, k: nat)
    requires k < |cases|
  {
    Matches(sels, key, cases[k].pattern, invalid)
  }

  /** The run of a diagnostic at the start of its table, which an entry of another
      diagnostic ends; the search gives the first match in that run. */
  method CaseFind(cases: seq<Case>, diagnostic: nat, sels: seq<Selector>, key: Word, invalid: seq<bool>) returns (r: Option<nat>)
    requires exists e :: 0 <= e < |cases| && cases[e].diagnostic != diagnostic
    ensures r.Some? ==> r.value < |cases| && Hits(cases, sels, key, invalid, r.value)
    ensures r.Some? ==> forall k :: 0 <= k <= r.value ==> cases[k].diagnostic == diagnostic && (k < r.value ==> !Hits(cases, sels, key, invalid, k))
    ensures r.None? ==> exists e: nat :: EndsRun(cases, diagnostic, e) && forall k :: 0 <= k < e ==> !Hits(cases, sels, key, invalid, k)
  {
    var i := 0;
    while cases[i].diagnostic == diagnostic
      invariant 0 <= i < |cases|
      invariant exists e :: i <= e < |cases| && cases[e].diagnostic != diagnostic
      invariant forall k :: 0 <= k < i ==> cases[k].diagnostic == diagnostic && !Hits(cases, sels, key, invalid, k)
      decreases |cases| - i
    {
      var found := PatternMatches(sels, key, cases[i].pattern, invalid);
      if found { return Some(i); }
      i := i + 1;
    }
    assert EndsRun(cases, diagnostic, i);
    return None;
  }

  /** The run of the diagnostic has length `e`. */
  predicate EndsRun(cases: seq<Case>, diagnostic: nat, e: nat) {
    && e < |cases| && cases[e].diagnostic != diagnostic
    && forall k :: 0 <= k < e ==> cases[k].diagnostic == diagnostic
  }

  // ----- ids and names

  /** The wildcard is 0, an unknown value is -1, the others count from 1. */
  method ValueId(values: seq<string>, value: Option<string>) returns (id: int)
    ensures id == 0 <==> value == Some("*") || value == Some("any")
    ensures id > 0 ==> id <= |values| && value == Some(values[id - 1]) && forall k :: 0 <= k < id - 1 ==> values[k] != value.value
    ensures id < 0 ==> id == -1 && (value.Some? ==> value.value !in values)
  {
    if value.None? { return -1; }
    if value.value == "*" || value.value == "any" { return 0; }
    for i := 0 to |values|
      invariant forall k :: 0 <= k < i ==> values[k] != value.value
    {
      if values[i] == value.value { return i + 1; }
    }
    return -1;
  }

  function ValueName(values: seq<string>, id: int): Option<string> {
    if id == 0 then Some("*")
    else if id < 0 || id > |values| then None
    else Some(values[id - 1])
  }

  /** Names of their own: distinct, and none that means the wildcard. */
  predicate ProperNames(values: seq<string>) {
    && (forall i, j :: 0 <= i < j < |values| ==> values[i] != values[j])
    && "*" !in values && "any" !in values
  }

  /** Looking up the name of an id and then its id comes back, for every id there is. */
  method NameThenId(values: seq<string>, id: int) returns (again: int)
    requires ProperNames(values) && 0 <= id <= |values|
    ensures again == id
  {
    var name := ValueName(values, id);
    again := ValueId(values, name);
  }

  /** Looking up the id of a value and then its name comes back, except that the long
      wildcard gives the short one and an unknown value gives nothing. */
  method IdThenName(values: seq<string>, value: Option<string>) returns (again: Option<string>)
    requires ProperNames(values)
    ensures again == if value == Some("any") || value == Some("*") then Some("*")
                     else if value.Some? && value.value in values then value else None
  {
    var id := ValueId(values, value);
    again := ValueName(values, id);
  }
}
