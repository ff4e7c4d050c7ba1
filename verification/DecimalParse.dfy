/** Parsing an unsigned decimal number with an upper limit. */
module DecimalParse {
  const U64_MAX := 0xFFFF_FFFF_FFFF_FFFF

  /** The original's machine word: every operation on it is checked to stay in range. */
  newtype U64 = n: int | 0 <= n <= 0xFFFF_FFFF_FFFF_FFFF

  datatype Parsed = Number(value: U64) | Invalid | TooLarge

  predicate IsDigit(c: char) {
    '0' <= c <= '9'
  }

  predicate AllDigits(s: string) {
    forall i :: 0 <= i < |s| ==> IsDigit(s[i])
  }

  function Value(s: string): nat
    requires AllDigits(s)
  {
    if s == [] then 0 else Value(s[..|s| - 1]) * 10 + (s[|s| - 1] - '0') as nat
  }

  /** More digits never make a smaller number. */
  lemma {:induction false} ValueGrows(s: string, k: nat)
    requires AllDigits(s) && k <= |s|
    ensures Value(s[..k]) <= Value(s)
    decreases |s| - k
  {
    if k < |s| {
      assert s[..k + 1][..k] == s[..k];
      ValueGrows(s, k + 1);
    } else {
      assert s[..k] == s;
    }
  }

  /** Digits in front, up to `k`, that already exceed the limit. */
  predicate ExceedsAt(s: string, limit: U64, k: nat) {
    k <= |s| && AllDigits(s[..k]) && Value(s[..k]) > limit as int
  }

  /** Accepts exactly the non-empty digit strings whose value is at most the limit and
      returns that value.  Too large is reported when the digits in front exceed the
      limit, whatever follows; anything else is invalid.  No intermediate product or
      sum exceeds the limit. */
  method Parse(digits: string, limit: U64) returns (r: Parsed)
    requires limit >= 9
    ensures r.Number? <==> digits != [] && AllDigits(digits) && Value(digits) <= limit as int
    ensures r.Number? ==> r.value as int == Value(digits)
    ensures r.TooLarge? <==> exists k: nat :: ExceedsAt(digits, limit, k)
  {
    if digits == [] { return Invalid; }
    var number: U64 := 0;
    for i := 0 to |digits|
      invariant AllDigits(digits[..i]) && number as int == Value(digits[..i]) && number <= limit
    {
      assert digits[..i + 1][..i] == digits[..i];
      if !IsDigit(digits[i]) {
        forall k: nat ensures !ExceedsAt(digits, limit, k) {
          if k <= i {
            assert digits[..i][..k] == digits[..k];
            ValueGrows(digits[..i], k);
          } else if k <= |digits| {
            assert digits[..k][i] == digits[i];
          }
        }
        return Invalid;
      }
      var digit := (digits[i] - '0') as U64;
      if number > (limit - digit) / 10 {
        assert ExceedsAt(digits, limit, i + 1);
        if AllDigits(digits) { ValueGrows(digits, i + 1); }
        return TooLarge;
      }
      assert number * 10 <= limit && number * 10 + digit <= limit;
      number := number * 10 + digit;
    }
    assert digits[..|digits|] == digits;
    forall k: nat ensures !ExceedsAt(digits, limit, k) {
      if k <= |digits| { ValueGrows(digits, k); }
    }
    return Number(number);
  }
}
