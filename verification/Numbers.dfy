// JavaScript number operations on exact reals: Math.round, Math.min and Math.max.
module Numbers {

  // Math.round: the closest integer, halves going towards plus infinity
  // (section 15.8.2.15 of ECMA-262 edition 5.1).
  function Round(x: real): (r: int)
    ensures x - 0.5 < r as real <= x + 0.5
  {
    (x + 0.5).Floor
  }

  function Min(x: real, y: real): real {
    if x <= y then x else y
  }

  function Max(x: real, y: real): real {
    if x <= y then y else x
  }

  function Abs(x: real): real {
    if x < 0.0 then -x else x
  }

  // How many elements slice(0, limit) keeps of a list: a negative limit counts from its end.
  function SliceLength(length: nat, limit: int): (kept: nat)
    ensures kept <= length
  {
    if limit < 0 then (if length + limit < 0 then 0 else length + limit)
    else if limit < length then limit
    else length
  }

  // Only one integer lies within the half-open interval that defines Round.
  lemma RoundIsTheOnly(x: real, n: int)
    requires n as real - 0.5 <= x < n as real + 0.5
    ensures Round(x) == n
  {
  }

  lemma RoundOfInteger(n: int)
    ensures Round(n as real) == n
  {
  }

  lemma RoundMonotone(x: real, y: real)
    requires x <= y
    ensures Round(x) <= Round(y)
  {
  }

  // A product by name, so that proofs can speak of it without multiplying.
  function Times(x: real, y: real): real {
    x * y
  }

  lemma TimesMonotone(x: real, y: real, rate: real)
    requires x <= y && 0.0 <= rate
    ensures Times(x, rate) <= Times(y, rate)
  {
    assert 0.0 <= (y - x) * rate;
  }

  lemma TimesAdds(x: real, y: real, rate: real)
    ensures Times(x + y, rate) == Times(x, rate) + Times(y, rate)
  {
  }

  lemma TimesSign(x: real, y: real)
    requires 0.0 <= x
    ensures 0.0 <= y ==> 0.0 <= Times(x, y)
    ensures y <= 0.0 ==> Times(x, y) <= 0.0
  {
  }

  lemma TimesZero(x: real)
    ensures Times(0.0, x) == 0.0 == Times(x, 0.0)
  {
  }

  // A rate is the share of part in whole, in units of which scale make up the whole, up to rounding.
  predicate IsShare(rate: int, part: int, whole: int, scale: real) {
    Abs(Times(rate as real, whole as real) - Times(part as real, scale)) <= whole as real / 2.0
  }

  lemma RoundedShare(part: int, whole: int, scale: real)
    requires whole > 0
    ensures IsShare(Round(part as real / whole as real * scale), part, whole, scale)
  {
    var exact := part as real / whole as real * scale;
    var rate, w := Round(exact) as real, whole as real;
    ShareTimes(part as real, w, scale);
    TimesMonotone(exact - 0.5, rate, w);
    TimesMonotone(rate, exact + 0.5, w);
    TimesAdds(exact, -0.5, w);
    TimesAdds(exact, 0.5, w);
    assert Times(0.5, w) == w / 2.0 == -Times(-0.5, w);
  }

  lemma ShareTimes(part: real, whole: real, scale: real)
    requires whole > 0.0
    ensures Times(part / whole * scale, whole) == Times(part, scale)
  {
    var share := part / whole;
    assert share * whole == part;
    assert share * scale * whole == share * whole * scale;
  }

  // ---------- Integers among the reals ----------

  predicate IsInteger(x: real) {
    x == x.Floor as real
  }

  lemma IntegerValue(x: real, n: int)
    requires x == n as real
    ensures IsInteger(x)
  {
  }

  lemma IntegerDifference(x: real, y: real)
    requires IsInteger(x) && IsInteger(y)
    ensures IsInteger(x - y)
  {
    IntegerValue(x - y, x.Floor - y.Floor);
  }

  lemma IntegerTimes(x: real, y: real)
    requires IsInteger(x) && IsInteger(y)
    ensures IsInteger(Times(x, y))
  {
    IntegerValue(Times(x, y), x.Floor * y.Floor);
  }

  // An integer part passes through rounding unchanged.
  lemma RoundSplits(sum: real, x: real, whole: real)
    requires sum == x + whole && IsInteger(whole)
    ensures Round(sum) as real == Round(x) as real + whole
  {
    RoundIsTheOnly(sum, Round(x) + whole.Floor);
  }
}
