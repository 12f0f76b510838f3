/**
 Exact decimal printing (packages/explorer/lib/format.ts): amounts arrive as integers in a token's
 smallest unit and never pass through a float.
 */
module Format {
  import opened Common
  import opened Digits

  /** A number's absolute value: the sign is printed apart. */
  function Abs(n: int): nat {
    if n < 0 then -n else n
  }

  function Quotient(v: nat, p: nat): nat
    requires p >= 1
  {
    v / p
  }

  function Remainder(v: nat, p: nat): (r: nat)
    requires p >= 1
    ensures r < p
  {
    v % p
  }

  lemma Divides(v: nat, p: nat)
    requires p >= 1
    ensures v == Quotient(v, p) * p + Remainder(v, p)
  {
  }

  function Zeros(n: nat): (s: string)
    ensures |s| == n && AllDigits(s)
  {
    seq(n, _ => '0')
  }

  function PadStart(s: string, n: nat): string {
    if |s| < n then Zeros(n - |s|) + s else s
  }

  function StripZeros(s: string): string {
    if s != "" && s[|s| - 1] == '0' then StripZeros(s[..|s| - 1]) else s
  }

  function Fraction(v: nat, decimals: nat): string {
    if decimals == 0 then "" else StripZeros(PadStart(Print(Remainder(v, Pow10(decimals))), decimals))
  }

  function Printed(neg: bool, whole: string, frac: string): string {
    (if neg then "-" else "") + whole + if frac == "" then "" else "." + frac
  }

  function UnitsToDecimal(raw: int, decimals: nat): string {
    var v := Abs(raw);
    var frac := Fraction(v, decimals);
    Printed(raw < 0, Print(Quotient(v, Pow10(decimals))), frac)
  }

  // ----- reading a decimal -----------------------------------------------------------------------

  datatype Dec = Dec(neg: bool, whole: string, frac: string)

  function Find(s: string, c: char): (i: Option<nat>)
    ensures i.Some? ==> i.value < |s| && s[i.value] == c && forall k :: 0 <= k < i.value ==> s[k] != c
    ensures i.None? ==> forall k :: 0 <= k < |s| ==> s[k] != c
  {
    if s == "" then None
    else
      var first := Find(s[..|s| - 1], c);
      if first.Some? then first else if s[|s| - 1] == c then Some(|s| - 1) else None
  }

  predicate SomeDigits(s: string) {
    s != "" && AllDigits(s)
  }

  function ParseBody(neg: bool, body: string): (d: Option<Dec>)
    ensures d.Some? ==> SomeDigits(d.value.whole) && AllDigits(d.value.frac)
  {
    var dot := Find(body, '.');
    if dot.None? then if SomeDigits(body) then Some(Dec(neg, body, "")) else None
    else
      var whole, frac := body[..dot.value], body[dot.value + 1..];
      if SomeDigits(whole) && SomeDigits(frac) then Some(Dec(neg, whole, frac)) else None
  }

  /** An optional minus, digits, and optionally a point and digits. */
  function Parse(s: string): (d: Option<Dec>)
    ensures d.Some? ==> SomeDigits(d.value.whole) && AllDigits(d.value.frac)
  {
    if s != "" && s[0] == '-' then ParseBody(true, s[1..]) else ParseBody(false, s)
  }

  /** What JavaScript's trim takes off. */
  predicate IsSpace(c: char) {
    var n := c as int;
    || 9 <= n <= 13 || n == 0x20 || n == 0xA0 || n == 0x1680 || 0x2000 <= n <= 0x200A || n == 0x2028 || n == 0x2029
    || n == 0x202F || n == 0x205F || n == 0x3000 || n == 0xFEFF
  }

  function Trim(s: string): string {
    if s != "" && IsSpace(s[0]) then Trim(s[1..])
    else if s != "" && IsSpace(s[|s| - 1]) then Trim(s[..|s| - 1])
    else s
  }

  predicate Spaces(s: string, from: nat, to: nat)
    requires from <= to <= |s|
  {
    forall i :: from <= i < to ==> IsSpace(s[i])
  }

  /** Of `s` the part in [from, to) is left: only spaces come off, and none is left at either end. */
  ghost predicate Trimmed(s: string, from: nat, to: nat) {
    && from <= to <= |s| && Spaces(s, 0, from) && Spaces(s, to, |s|)
    && (from < to ==> !IsSpace(s[from]) && !IsSpace(s[to - 1]))
  }

  lemma TrimmedAfter(s: string, rest: string, from: nat, to: nat)
    requires s != "" && IsSpace(s[0]) && rest == s[1..] && Trimmed(rest, from, to)
    ensures Trimmed(s, from + 1, to + 1) && s[from + 1..to + 1] == rest[from..to]
  {
    assert forall i :: 1 <= i < |s| ==> s[i] == rest[i - 1];
  }

  lemma TrimmedBefore(s: string, rest: string, from: nat, to: nat)
    requires s != "" && IsSpace(s[|s| - 1]) && rest == s[..|s| - 1] && Trimmed(rest, from, to)
    ensures Trimmed(s, from, to) && s[from..to] == rest[from..to]
  {
    assert forall i :: 0 <= i < |rest| ==> s[i] == rest[i];
  }

  lemma {:induction false} TrimTakesSpaces(s: string) returns (from: nat, to: nat)
    ensures Trimmed(s, from, to) && Trim(s) == s[from..to]
    decreases |s|
  {
    from, to := 0, |s|;
    if s != "" && IsSpace(s[0]) {
      from, to := TrimTakesSpaces(s[1..]);
      TrimmedAfter(s, s[1..], from, to);
      from, to := from + 1, to + 1;
    } else if s != "" && IsSpace(s[|s| - 1]) {
      from, to := TrimTakesSpaces(s[..|s| - 1]);
      TrimmedBefore(s, s[..|s| - 1], from, to);
    }
  }

  /** The digits' number, without its point: the value is this over ten to the fraction's length. */
  function Unscaled(d: Dec): nat
    requires AllDigits(d.whole) && AllDigits(d.frac)
  {
    Value(d.whole + d.frac)
  }

  /** The amount a decimal denotes, in units of ten to the minus `decimals`. */
  function Amount(d: Dec, decimals: nat): int
    requires AllDigits(d.whole) && AllDigits(d.frac) && |d.frac| <= decimals
  {
    (if d.neg then -1 else 1) * (Unscaled(d) * Pow10(decimals - |d.frac|))
  }

  // ----- printing is exact -----------------------------------------------------------------------

  lemma {:induction false} ValueOfConcat(a: string, b: string)
    requires AllDigits(a) && AllDigits(b)
    ensures AllDigits(a + b) && Value(a + b) == Value(a) * Pow10(|b|) + Value(b)
    decreases |b|
  {
    if b == "" {
      assert a + b == a;
    } else {
      var init, c := b[..|b| - 1], b[|b| - 1];
      ValueOfConcat(a, init);
      assert a + b == a + init + [c];
      ValueStep(a + init, c);
      Distribute(Value(a), Pow10(|init|), Value(init), DigitValue(c));
    }
  }

  lemma Distribute(x: nat, p: nat, y: nat, d: nat)
    ensures 10 * (x * p + y) + d == x * (10 * p) + (10 * y + d)
  {
  }

  lemma {:induction false} ValueOfZeros(n: nat)
    ensures Value(Zeros(n)) == 0
  {
    if n > 0 {
      ValueOfZeros(n - 1);
      assert Zeros(n)[..n - 1] == Zeros(n - 1);
    }
  }

  lemma PadKeepsValue(s: string, n: nat)
    requires AllDigits(s) && |s| <= n
    ensures AllDigits(PadStart(s, n)) && |PadStart(s, n)| == n && Value(PadStart(s, n)) == Value(s)
  {
    if |s| < n {
      ValueOfConcat(Zeros(n - |s|), s);
      ValueOfZeros(n - |s|);
    }
  }

  lemma {:induction false} StripKeepsValue(s: string)
    requires AllDigits(s)
    ensures var t := StripZeros(s);
            && AllDigits(t) && |t| <= |s| && (t == "" || t[|t| - 1] != '0')
            && Value(s) == Value(t) * Pow10(|s| - |t|)
  {
    if s != "" && s[|s| - 1] == '0' {
      var init := s[..|s| - 1];
      StripKeepsValue(init);
      TenTimes(Value(StripZeros(init)), Pow10(|init| - |StripZeros(init)|));
    }
  }

  lemma TenTimes(x: nat, p: nat)
    ensures 10 * (x * p) == x * (10 * p)
  {
  }

  lemma FractionIsExact(v: nat, decimals: nat)
    ensures var frac := Fraction(v, decimals);
            && AllDigits(frac) && |frac| <= decimals && (frac == "" || frac[|frac| - 1] != '0')
            && Remainder(v, Pow10(decimals)) == Value(frac) * Pow10(decimals - |frac|)
  {
    if decimals > 0 {
      var r := Remainder(v, Pow10(decimals));
      ValueOfPrint(r);
      PrintLength(r, decimals);
      PadKeepsValue(Print(r), decimals);
      var padded := PadStart(Print(r), decimals);
      StripKeepsValue(padded);
    }
  }

  lemma NoSpace(c: char)
    requires IsDigit(c) || c == '-'
    ensures !IsSpace(c)
  {
  }

  lemma PrintedEnds(neg: bool, whole: string, frac: string, s: string)
    requires SomeDigits(whole) && AllDigits(frac) && s == Printed(neg, whole, frac)
    ensures s != "" && (IsDigit(s[0]) || s[0] == '-') && IsDigit(s[|s| - 1])
    ensures s[0] == '-' <==> neg
  {
    assert s[|s| - 1] == if frac == "" then whole[|whole| - 1] else frac[|frac| - 1];
  }

  lemma FindPoint(whole: string, frac: string, body: string)
    requires SomeDigits(whole) && AllDigits(frac) && body == Printed(false, whole, frac)
    ensures frac == "" ==> Find(body, '.') == None && body == whole
    ensures frac != "" ==> Find(body, '.') == Some(|whole|) && body[..|whole|] == whole && body[|whole| + 1..] == frac
  {
    assert forall k :: 0 <= k < |whole| ==> body[k] == whole[k] && body[k] != '.';
    if frac != "" {
      assert body[|whole|] == '.';
      var dot := Find(body, '.');
      assert dot.Some?;
    }
  }

  lemma ParseBodyPrinted(neg: bool, whole: string, frac: string, body: string)
    requires SomeDigits(whole) && AllDigits(frac) && body == Printed(false, whole, frac)
    ensures ParseBody(neg, body) == Some(Dec(neg, whole, frac))
  {
    FindPoint(whole, frac, body);
  }

  lemma SignOff(whole: string, frac: string)
    ensures Printed(true, whole, frac) == "-" + Printed(false, whole, frac)
  {
  }

  lemma ParsePrinted(neg: bool, whole: string, frac: string)
    requires SomeDigits(whole) && AllDigits(frac)
    ensures Parse(Printed(neg, whole, frac)) == Some(Dec(neg, whole, frac))
  {
    var body := Printed(false, whole, frac);
    ParseBodyPrinted(neg, whole, frac, body);
    PrintedEnds(neg, whole, frac, Printed(neg, whole, frac));
    SignOff(whole, frac);
    assert ("-" + body)[1..] == body;
  }

  lemma TrimPrinted(neg: bool, whole: string, frac: string)
    requires SomeDigits(whole) && AllDigits(frac)
    ensures Trim(Printed(neg, whole, frac)) == Printed(neg, whole, frac)
  {
    var s := Printed(neg, whole, frac);
    PrintedEnds(neg, whole, frac, s);
    NoSpace(s[0]);
    NoSpace(s[|s| - 1]);
  }

  lemma Regroup(q: nat, a: nat, f: nat, p: nat)
    ensures (q * a + f) * p == q * (a * p) + f * p
  {
  }

  lemma Recompose(v: nat, decimals: nat, frac: string)
    requires AllDigits(frac) && |frac| <= decimals && Remainder(v, Pow10(decimals)) == Value(frac) * Pow10(decimals - |frac|)
    ensures Value(Print(Quotient(v, Pow10(decimals))) + frac) * Pow10(decimals - |frac|) == v
  {
    var q := Quotient(v, Pow10(decimals));
    ValueOfPrint(q);
    ValueOfConcat(Print(q), frac);
    Pow10Sum(|frac|, decimals - |frac|);
    Divides(v, Pow10(decimals));
    Regroup(q, Pow10(|frac|), Value(frac), Pow10(decimals - |frac|));
  }

  lemma {:induction false} Pow10Sum(a: nat, b: nat)
    ensures Pow10(a + b) == Pow10(a) * Pow10(b)
  {
    if a > 0 {
      Pow10Sum(a - 1, b);
      assert 10 * (Pow10(a - 1) * Pow10(b)) == (10 * Pow10(a - 1)) * Pow10(b);
    }
  }

  function DecOf(raw: int, decimals: nat): Dec {
    Dec(raw < 0, Print(Quotient(Abs(raw), Pow10(decimals))), Fraction(Abs(raw), decimals))
  }

  lemma DecIsExact(raw: int, decimals: nat)
    ensures var d := DecOf(raw, decimals);
            && SomeDigits(d.whole) && AllDigits(d.frac) && |d.frac| <= decimals
            && Amount(d, decimals) == raw
  {
    FractionIsExact(Abs(raw), decimals);
    Recompose(Abs(raw), decimals, Fraction(Abs(raw), decimals));
  }

  lemma DecIsRead(raw: int, decimals: nat)
    ensures Parse(UnitsToDecimal(raw, decimals)) == Some(DecOf(raw, decimals))
    ensures Trim(UnitsToDecimal(raw, decimals)) == UnitsToDecimal(raw, decimals)
  {
    FractionIsExact(Abs(raw), decimals);
    ParsePrinted(raw < 0, Print(Quotient(Abs(raw), Pow10(decimals))), Fraction(Abs(raw), decimals));
    TrimPrinted(raw < 0, Print(Quotient(Abs(raw), Pow10(decimals))), Fraction(Abs(raw), decimals));
  }

  lemma DecIsCanonical(raw: int, decimals: nat)
    ensures var d := DecOf(raw, decimals);
            && (|d.whole| > 1 ==> d.whole[0] != '0') && (d.frac != "" ==> d.frac[|d.frac| - 1] != '0')
  {
    FractionIsExact(Abs(raw), decimals);
    NoLeadingZero(Quotient(Abs(raw), Pow10(decimals)));
  }

  /**
   Every amount is printed in canonical form (no leading zero, no trailing zero after the point, a minus
   only before a nonzero number) and reads back as exactly raw over ten to the decimals.
   */
  lemma PrintingIsExact(raw: int, decimals: nat) returns (d: Dec)
    ensures Parse(UnitsToDecimal(raw, decimals)) == Some(d) && Trim(UnitsToDecimal(raw, decimals)) == UnitsToDecimal(raw, decimals)
    ensures |d.frac| <= decimals && Amount(d, decimals) == raw && (d.neg <==> raw < 0)
    ensures |d.whole| > 1 ==> d.whole[0] != '0'
    ensures d.frac != "" ==> d.frac[|d.frac| - 1] != '0'
  {
    d := DecOf(raw, decimals);
    DecIsExact(raw, decimals);
    DecIsCanonical(raw, decimals);
    DecIsRead(raw, decimals);
  }

  // ----- and every canonical decimal is printed --------------------------------------------------

  /** No leading zero, no trailing zero after the point, at most `decimals` places, a minus only before a nonzero number. */
  predicate Canonical(d: Dec, decimals: nat) {
    && SomeDigits(d.whole) && (|d.whole| > 1 ==> d.whole[0] != '0')
    && AllDigits(d.frac) && |d.frac| <= decimals && (d.frac != "" ==> d.frac[|d.frac| - 1] != '0')
    && (d.neg ==> Unscaled(d) > 0)
  }

  /** The fraction's digits, to all the token's places. */
  function Places(d: Dec, decimals: nat): (s: string)
    requires AllDigits(d.frac) && |d.frac| <= decimals
    ensures AllDigits(s) && |s| == decimals
  {
    d.frac + Zeros(decimals - |d.frac|)
  }

  /** The amount is the whole part and the places, side by side. */
  lemma AmountSplits(d: Dec, decimals: nat)
    requires AllDigits(d.whole) && AllDigits(d.frac) && |d.frac| <= decimals
    ensures Unscaled(d) * Pow10(decimals - |d.frac|) == Value(d.whole) * Pow10(decimals) + Value(Places(d, decimals))
  {
    var k := decimals - |d.frac|;
    ValueOfZeros(k);
    ValueOfConcat(d.whole + d.frac, Zeros(k));
    assert d.whole + d.frac + Zeros(k) == d.whole + Places(d, decimals);
    ValueOfConcat(d.whole, Places(d, decimals));
  }

  lemma {:induction false} NextMultiple(q: nat, q': nat, p: nat)
    requires q < q'
    ensures q * p + p <= q' * p
    decreases q'
  {
    assert q' * p == (q' - 1) * p + p;
    if q < q' - 1 { NextMultiple(q, q' - 1, p); }
  }

  lemma QuotientIs(q: nat, r: nat, q': nat, r': nat, p: nat)
    requires r < p && r' < p && q * p + r == q' * p + r'
    ensures q == q' && r == r'
  {
    if q < q' {
      NextMultiple(q, q', p);
    } else if q' < q {
      NextMultiple(q', q, p);
    }
  }

  lemma {:induction false} StripOfZeros(frac: string, k: nat)
    requires frac != "" ==> frac[|frac| - 1] != '0'
    ensures StripZeros(frac + Zeros(k)) == frac
  {
    if k == 0 {
      assert frac + Zeros(0) == frac;
    } else {
      assert (frac + Zeros(k))[..|frac| + k - 1] == frac + Zeros(k - 1);
      StripOfZeros(frac, k - 1);
    }
  }

  lemma SameSign(d: Dec, e: Dec, decimals: nat)
    requires Canonical(d, decimals) && Canonical(e, decimals) && Amount(d, decimals) == Amount(e, decimals)
    ensures d.neg == e.neg
    ensures Unscaled(d) * Pow10(decimals - |d.frac|) == Unscaled(e) * Pow10(decimals - |e.frac|)
  {
    NonzeroScales(Unscaled(d), Pow10(decimals - |d.frac|));
    NonzeroScales(Unscaled(e), Pow10(decimals - |e.frac|));
  }

  lemma SameParts(d: Dec, e: Dec, decimals: nat)
    requires Canonical(d, decimals) && Canonical(e, decimals)
    requires Unscaled(d) * Pow10(decimals - |d.frac|) == Unscaled(e) * Pow10(decimals - |e.frac|)
    ensures Value(d.whole) == Value(e.whole) && Value(Places(d, decimals)) == Value(Places(e, decimals))
  {
    AmountSplits(d, decimals);
    AmountSplits(e, decimals);
    ValueBounded(Places(d, decimals));
    ValueBounded(Places(e, decimals));
    QuotientIs(Value(d.whole), Value(Places(d, decimals)), Value(e.whole), Value(Places(e, decimals)), Pow10(decimals));
  }

  lemma SameFraction(d: Dec, e: Dec, decimals: nat)
    requires Canonical(d, decimals) && Canonical(e, decimals) && Value(Places(d, decimals)) == Value(Places(e, decimals))
    ensures d.frac == e.frac
  {
    SameDigits(Places(d, decimals), Places(e, decimals));
    StripOfZeros(d.frac, decimals - |d.frac|);
    StripOfZeros(e.frac, decimals - |e.frac|);
  }

  /** One amount has one canonical form. */
  lemma CanonicalIsUnique(d: Dec, e: Dec, decimals: nat)
    requires Canonical(d, decimals) && Canonical(e, decimals) && Amount(d, decimals) == Amount(e, decimals)
    ensures d == e
  {
    SameSign(d, e, decimals);
    SameParts(d, e, decimals);
    SameFraction(d, e, decimals);
    PrintOfValue(d.whole);
    PrintOfValue(e.whole);
  }

  lemma MinusIsOfNonzero(d: Dec, decimals: nat)
    requires AllDigits(d.whole) && AllDigits(d.frac) && |d.frac| <= decimals && Amount(d, decimals) != 0
    ensures Unscaled(d) > 0
  {
  }

  lemma DecOfIsCanonical(raw: int, decimals: nat)
    ensures Canonical(DecOf(raw, decimals), decimals) && Amount(DecOf(raw, decimals), decimals) == raw
  {
    DecIsExact(raw, decimals);
    DecIsCanonical(raw, decimals);
    if raw < 0 { MinusIsOfNonzero(DecOf(raw, decimals), decimals); }
  }

  /** So printing undoes reading too: every canonical decimal is what its own amount is printed as. */
  lemma CanonicalIsPrinted(d: Dec, decimals: nat, raw: int)
    requires Canonical(d, decimals) && raw == Amount(d, decimals)
    ensures UnitsToDecimal(raw, decimals) == Printed(d.neg, d.whole, d.frac)
  {
    DecOfIsCanonical(raw, decimals);
    CanonicalIsUnique(d, DecOf(raw, decimals), decimals);
  }

  /** Different amounts of a token print differently. */
  lemma PrintingTells(a: int, b: int, decimals: nat)
    requires UnitsToDecimal(a, decimals) == UnitsToDecimal(b, decimals)
    ensures a == b
  {
    var d := PrintingIsExact(a, decimals);
    var e := PrintingIsExact(b, decimals);
  }

  // ----- rounding --------------------------------------------------------------------------------

  predicate HasNonzero(s: string) {
    exists i :: 0 <= i < |s| && s[i] != '0'
  }

  datatype Scaled = Scaled(neg: bool, v: nat, nonzero: bool)

  /** The digits kept at `places`, and whether the first one cut off rounds them up. */
  function Kept(d: Dec, places: nat): string {
    d.whole + (d.frac + Zeros(places))[..places]
  }

  predicate RoundsUp(d: Dec, places: nat) {
    places < |d.frac| && d.frac[places] >= '5'
  }

  lemma KeptDigits(d: Dec, places: nat)
    requires SomeDigits(d.whole) && AllDigits(d.frac)
    ensures AllDigits(Kept(d, places))
  {
  }

  function ScaledDec(d: Dec, places: nat): Scaled
    requires SomeDigits(d.whole) && AllDigits(d.frac)
  {
    KeptDigits(d, places);
    var nonzero := HasNonzero(d.whole + d.frac);
    Scaled(d.neg && nonzero, Value(Kept(d, places)) + if RoundsUp(d, places) then 1 else 0, nonzero)
  }

  /** `scaled`; None where it throws. */
  function ScaledOf(dec: string, places: nat): Option<Scaled> {
    var m := Parse(Trim(dec));
    if m.None? then None else Some(ScaledDec(m.value, places))
  }

  /** `v` is n / 10^f times 10^places rounded half up: no further from it than a half, and a half goes up. */
  ghost predicate HalfUp(v: nat, n: nat, f: nat, places: nat) {
    (2 * v - 1) * Pow10(f) <= 2 * n * Pow10(places) < (2 * v + 1) * Pow10(f)
  }

  lemma {:induction false} NonzeroIsValue(s: string)
    requires AllDigits(s)
    ensures HasNonzero(s) <==> Value(s) > 0
  {
    if s != "" {
      var init := s[..|s| - 1];
      NonzeroIsValue(init);
      if HasNonzero(init) {
        var i :| 0 <= i < |init| && init[i] != '0';
        assert s[i] != '0';
      }
      if s[|s| - 1] != '0' { assert HasNonzero(s); }
    }
  }

  /** Nothing cut off: the number times a power of ten. */
  lemma KeptWhole(d: Dec, places: nat)
    requires SomeDigits(d.whole) && AllDigits(d.frac) && |d.frac| <= places
    ensures AllDigits(Kept(d, places)) && Value(Kept(d, places)) == Unscaled(d) * Pow10(places - |d.frac|)
  {
    var zeros := Zeros(places - |d.frac|);
    assert (d.frac + Zeros(places))[..places] == d.frac + zeros;
    assert Kept(d, places) == d.whole + d.frac + zeros;
    ValueOfConcat(d.whole + d.frac, zeros);
    ValueOfZeros(|zeros|);
  }

  /** What is cut off, as a number of its own. */
  lemma KeptAndCut(d: Dec, places: nat)
    requires SomeDigits(d.whole) && AllDigits(d.frac) && places < |d.frac|
    ensures AllDigits(Kept(d, places)) && AllDigits(d.frac[places..])
    ensures Unscaled(d) == Value(Kept(d, places)) * Pow10(|d.frac| - places) + Value(d.frac[places..])
  {
    assert (d.frac + Zeros(places))[..places] == d.frac[..places];
    assert d.whole + d.frac == d.whole + d.frac[..places] + d.frac[places..];
    ValueOfConcat(d.whole + d.frac[..places], d.frac[places..]);
  }

  /** The first digit decides which side of a half the rest is on. */
  lemma FirstDigitDecides(s: string)
    requires SomeDigits(s)
    ensures s[0] >= '5' <==> 2 * Value(s) >= Pow10(|s|)
    ensures Value(s) < Pow10(|s|)
  {
    var head, tail := s[..1], s[1..];
    assert s == head + tail;
    ValueOfConcat(head, tail);
    ValueBounded(tail);
    assert head[..0] == "" && Value(head) == DigitValue(s[0]);
    Decides(DigitValue(s[0]), Pow10(|tail|), Value(tail));
  }

  lemma Decides(c: nat, p: nat, t: nat)
    requires c < 10 && t < p
    ensures c >= 5 <==> 2 * (c * p + t) >= 10 * p
    ensures c * p + t < 10 * p
  {
    if c >= 5 {
      assert c * p >= 5 * p;
      assert c * p <= 9 * p;
    } else {
      assert c * p <= 4 * p;
    }
  }

  lemma ScaleUp(v: nat, n: nat, t: nat, p: nat)
    requires (2 * v - 1) * t <= 2 * n < (2 * v + 1) * t && p >= 1
    ensures (2 * v - 1) * (t * p) <= 2 * n * p < (2 * v + 1) * (t * p)
  {
    assert ((2 * v - 1) * t) * p == (2 * v - 1) * (t * p);
    assert ((2 * v + 1) * t) * p == (2 * v + 1) * (t * p);
  }

  lemma CutIsHalfUp(kept: nat, cut: nat, t: nat, n: nat, up: bool)
    requires n == kept * t + cut && cut < t && (up <==> 2 * cut >= t)
    ensures var v := kept + if up then 1 else 0; (2 * v - 1) * t <= 2 * n < (2 * v + 1) * t
  {
    assert 2 * n == 2 * (kept * t) + 2 * cut;
    assert (2 * kept + 1) * t == 2 * (kept * t) + t;
    assert (2 * kept - 1) * t == 2 * (kept * t) - t;
    assert (2 * kept + 3) * t == 2 * (kept * t) + 3 * t;
  }

  /** Scaling rounds half up, whatever the decimal and the places. */
  lemma ScaledIsHalfUp(d: Dec, places: nat, v: nat)
    requires SomeDigits(d.whole) && AllDigits(d.frac) && AllDigits(Kept(d, places))
    requires v == Value(Kept(d, places)) + if RoundsUp(d, places) then 1 else 0
    ensures HalfUp(v, Unscaled(d), |d.frac|, places)
  {
    var f, n := |d.frac|, Unscaled(d);
    if f <= places {
      KeptWhole(d, places);
      Pow10Sum(places - f, f);
      WholeIsHalfUp(v, n, Pow10(places - f), Pow10(f));
    } else {
      KeptAndCut(d, places);
      FirstDigitDecides(d.frac[places..]);
      CutIsHalfUp(Value(Kept(d, places)), Value(d.frac[places..]), Pow10(f - places), n, RoundsUp(d, places));
      ScaleUp(v, n, Pow10(f - places), Pow10(places));
      Pow10Sum(f - places, places);
    }
  }

  lemma WholeIsHalfUp(v: nat, n: nat, q: nat, p: nat)
    requires v == n * q && p >= 1
    ensures (2 * v - 1) * p <= 2 * n * (q * p) < (2 * v + 1) * p
  {
    assert 2 * n * (q * p) == 2 * (n * q) * p;
  }

  // ----- thousands separators --------------------------------------------------------------------

  function Group(digits: string): string {
    if |digits| <= 3 then digits else Group(digits[..|digits| - 3]) + "," + digits[|digits| - 3..]
  }

  function Ungroup(s: string): string {
    if s == "" then "" else Ungroup(s[..|s| - 1]) + if s[|s| - 1] == ',' then "" else [s[|s| - 1]]
  }

  lemma {:induction false} UngroupConcat(a: string, b: string)
    ensures Ungroup(a + b) == Ungroup(a) + Ungroup(b)
    decreases |b|
  {
    if b == "" {
      assert a + b == a;
    } else {
      assert (a + b)[..|a + b| - 1] == a + b[..|b| - 1];
      UngroupConcat(a, b[..|b| - 1]);
    }
  }

  lemma {:induction false} UngroupDigits(s: string)
    requires AllDigits(s)
    ensures Ungroup(s) == s
  {
    if s != "" {
      UngroupDigits(s[..|s| - 1]);
      assert IsDigit(s[|s| - 1]);
      assert s == s[..|s| - 1] + [s[|s| - 1]];
    }
  }

  lemma UngroupJoined(a: string, sep: string, b: string, c: char)
    requires sep == [c]
    ensures Ungroup(a + sep + b) == Ungroup(a) + (if c == ',' then "" else sep) + Ungroup(b)
  {
    UngroupConcat(a + sep, b);
    UngroupConcat(a, sep);
    assert sep[..0] == "";
  }

  lemma UngroupTwo(a: string, b: string)
    requires AllDigits(b)
    ensures Ungroup(a + "," + b) == Ungroup(a) + b
  {
    UngroupJoined(a, ",", b, ',');
    UngroupDigits(b);
    assert Ungroup(a) + "" == Ungroup(a);
  }

  /** The separators come off again. */
  lemma {:induction false} UngroupOfGroup(digits: string)
    requires AllDigits(digits)
    ensures Ungroup(Group(digits)) == digits
  {
    if |digits| <= 3 {
      UngroupDigits(digits);
    } else {
      var head, tail := digits[..|digits| - 3], digits[|digits| - 3..];
      UngroupOfGroup(head);
      UngroupTwo(Group(head), tail);
      assert head + tail == digits;
    }
  }

  function FromRight(s: string, k: nat): char
    requires k < |s|
  {
    s[|s| - 1 - k]
  }

  lemma FromRightOfConcat(a: string, b: string, k: nat)
    requires k < |a + b|
    ensures FromRight(a + b, k) == if k < |b| then FromRight(b, k) else FromRight(a, k - |b|)
  {
    assert k < |b| ==> (a + b)[|a + b| - 1 - k] == b[|b| - 1 - k];
  }

  /** The place before every third digit, counted from the right. */
  predicate BeforeThird(k: nat) {
    if k < 4 then k == 3 else BeforeThird(k - 4)
  }

  /** A separator stands before every third digit from the right, and nowhere else. */
  lemma {:induction false} GroupsAreOfThree(digits: string, k: nat)
    requires SomeDigits(digits) && k < |Group(digits)|
    ensures FromRight(Group(digits), k) == ',' <==> BeforeThird(k)
    decreases |digits|
  {
    if |digits| > 3 {
      var head, tail := digits[..|digits| - 3], digits[|digits| - 3..];
      FromRightOfConcat(Group(head) + ",", tail, k);
      if k >= 3 { FromRightOfConcat(Group(head), ",", k - 3); }
      if k >= 4 { GroupsAreOfThree(head, k - 4); }
    }
  }

  // ----- amounts ---------------------------------------------------------------------------------

  const MINUS := "\U{2212}"

  function Sign(neg: bool): string {
    if neg then MINUS else ""
  }

  /** Cents as units and two digits. */
  function Cents(c: nat): string {
    Group(Print(Quotient(c, 100))) + "." + PadStart(Print(Remainder(c, 100)), 2)
  }

  /** `fmtAmount`; None where it throws. */
  function FmtAmount(dec: string): Option<string> {
    var s := ScaledOf(dec, 2);
    if s.None? then None
    else if s.value.v == 0 then Some(if s.value.nonzero then Sign(s.value.neg) + "<0.01" else "0.00")
    else Some(Sign(s.value.neg) + Cents(s.value.v))
  }

  /** `fmtWhole`. */
  function FmtWhole(dec: string): Option<string> {
    var s := ScaledOf(dec, 0);
    if s.None? then None else Some(Sign(s.value.neg && s.value.v > 0) + Group(Print(s.value.v)))
  }

  lemma Pad2(r: nat)
    requires r < 100
    ensures var p := PadStart(Print(r), 2); |p| == 2 && AllDigits(p) && Value(p) == r
  {
    PrintLength(r, 2);
    assert Pow10(2) == 100;
    PadKeepsValue(Print(r), 2);
    ValueOfPrint(r);
  }

  lemma CentsUngrouped(c: nat)
    ensures Ungroup(Cents(c)) == Print(Quotient(c, 100)) + "." + PadStart(Print(Remainder(c, 100)), 2)
  {
    var whole, frac := Print(Quotient(c, 100)), PadStart(Print(Remainder(c, 100)), 2);
    Pad2(Remainder(c, 100));
    UngroupOfGroup(whole);
    UngroupJoined(Group(whole), ".", frac, '.');
    UngroupDigits(frac);
  }

  function CentsDec(c: nat): Dec {
    Dec(false, Print(Quotient(c, 100)), PadStart(Print(Remainder(c, 100)), 2))
  }

  lemma CentsValue(c: nat)
    ensures var d := CentsDec(c);
            SomeDigits(d.whole) && AllDigits(d.frac) && |d.frac| == 2 && Unscaled(d) == c
  {
    var d := CentsDec(c);
    Pad2(Remainder(c, 100));
    ValueOfPrint(Quotient(c, 100));
    ValueOfConcat(d.whole, d.frac);
    Pow10Of2();
    Divides(c, 100);
  }

  lemma Pow10Of2()
    ensures Pow10(2) == 100
  {
    assert Pow10(1) == 10;
  }

  /** Without its separators, what is shown reads back as exactly the cents. */
  lemma CentsReadBack(c: nat)
    ensures var d := CentsDec(c);
            AllDigits(d.whole) && AllDigits(d.frac) && |d.frac| == 2 && Parse(Ungroup(Cents(c))) == Some(d) && Unscaled(d) == c
  {
    var d := CentsDec(c);
    CentsUngrouped(c);
    CentsValue(c);
    PrintedPlain(d.whole, d.frac);
    ParsePrinted(false, d.whole, d.frac);
  }

  lemma PrintedPlain(whole: string, frac: string)
    requires frac != ""
    ensures Printed(false, whole, frac) == whole + "." + frac
  {
  }

  lemma ScaledIsPrinted(raw: int, decimals: nat, places: nat)
    ensures var d := DecOf(raw, decimals);
            SomeDigits(d.whole) && AllDigits(d.frac) &&
            ScaledOf(UnitsToDecimal(raw, decimals), places) == Some(ScaledDec(d, places))
  {
    DecIsExact(raw, decimals);
    DecIsRead(raw, decimals);
  }

  lemma RoundedIsHalfUp(raw: int, decimals: nat, places: nat)
    ensures var d := DecOf(raw, decimals);
            SomeDigits(d.whole) && AllDigits(d.frac) && HalfUp(ScaledDec(d, places).v, Abs(raw), decimals, places)
  {
    var d := DecOf(raw, decimals);
    DecIsExact(raw, decimals);
    ScaledIsHalfUp(d, places, ScaledDec(d, places).v);
    AmountIs(d, decimals);
    HalfUpRescaled(ScaledDec(d, places).v, Unscaled(d), |d.frac|, places, decimals);
  }

  lemma HalfUpRescaled(v: nat, n: nat, f: nat, places: nat, decimals: nat)
    requires HalfUp(v, n, f, places) && f <= decimals
    ensures HalfUp(v, n * Pow10(decimals - f), decimals, places)
  {
    Pow10Sum(f, decimals - f);
    HalfUpScales(v, n, Pow10(f), Pow10(places), Pow10(decimals - f));
  }

  lemma AmountIs(d: Dec, decimals: nat)
    requires AllDigits(d.whole) && AllDigits(d.frac) && |d.frac| <= decimals
    ensures Abs(Amount(d, decimals)) == Unscaled(d) * Pow10(decimals - |d.frac|)
  {
  }

  lemma RoundedIsNonzero(raw: int, decimals: nat, places: nat)
    ensures var d := DecOf(raw, decimals);
            SomeDigits(d.whole) && AllDigits(d.frac) && (ScaledDec(d, places).nonzero <==> raw != 0)
  {
    var d := DecOf(raw, decimals);
    DecIsExact(raw, decimals);
    ValueOfConcat(d.whole, d.frac);
    NonzeroIsValue(d.whole + d.frac);
    AmountIs(d, decimals);
    NonzeroScales(Unscaled(d), Pow10(decimals - |d.frac|));
  }

  /** What a decimal is rounded to, against the raw amount it prints. */
  lemma RoundedAmount(raw: int, decimals: nat, places: nat) returns (s: Scaled)
    ensures ScaledOf(UnitsToDecimal(raw, decimals), places) == Some(s)
    ensures HalfUp(s.v, Abs(raw), decimals, places) && (s.nonzero <==> raw != 0) && (s.neg <==> raw < 0)
  {
    ScaledIsPrinted(raw, decimals, places);
    RoundedIsHalfUp(raw, decimals, places);
    RoundedIsNonzero(raw, decimals, places);
    s := ScaledDec(DecOf(raw, decimals), places);
  }

  lemma NonzeroScales(n: nat, p: nat)
    requires p >= 1
    ensures n > 0 <==> n * p > 0
  {
  }

  lemma HalfUpScales(v: nat, n: nat, f: nat, q: nat, p: nat)
    requires (2 * v - 1) * f <= 2 * n * q < (2 * v + 1) * f && p >= 1
    ensures (2 * v - 1) * (f * p) <= 2 * (n * p) * q < (2 * v + 1) * (f * p)
  {
    assert ((2 * v - 1) * f) * p == (2 * v - 1) * (f * p);
    assert ((2 * v + 1) * f) * p == (2 * v + 1) * (f * p);
    assert (2 * n * q) * p == 2 * (n * p) * q;
  }

  /**
   Every amount is shown as the half-up rounding of its exact value to cents, with its sign; a nonzero
   amount under half a cent as "<0.01", and zero alone as "0.00". Without its separators, what is shown
   of the cents reads back as exactly them.
   */
  lemma AmountsAreRounded(raw: int, decimals: nat) returns (cents: nat, shown: Dec)
    ensures HalfUp(cents, Abs(raw), decimals, 2)
    ensures AllDigits(shown.whole) && AllDigits(shown.frac) && |shown.frac| == 2
    ensures Parse(Ungroup(Cents(cents))) == Some(shown) && Unscaled(shown) == cents
    ensures FmtAmount(UnitsToDecimal(raw, decimals)) ==
            Some(if raw == 0 then "0.00" else (if raw < 0 then MINUS else "") + if cents == 0 then "<0.01" else Cents(cents))
  {
    var s := RoundedAmount(raw, decimals, 2);
    cents, shown := s.v, CentsDec(s.v);
    CentsReadBack(cents);
    if raw == 0 { ZeroRoundsToZero(cents, decimals, 2); }
  }

  lemma ZeroRoundsToZero(v: nat, decimals: nat, places: nat)
    requires HalfUp(v, 0, decimals, places)
    ensures v == 0
  {
    if v > 0 {
      assert (2 * v - 1) * Pow10(decimals) >= 1;
    }
  }

  /** Whole amounts likewise, to units; a minus is shown only before a nonzero figure. */
  lemma WholesAreRounded(raw: int, decimals: nat) returns (units: nat)
    ensures HalfUp(units, Abs(raw), decimals, 0)
    ensures FmtWhole(UnitsToDecimal(raw, decimals)) == Some((if raw < 0 && units > 0 then MINUS else "") + Group(Print(units)))
    ensures Ungroup(Group(Print(units))) == Print(units) && Value(Print(units)) == units
  {
    var s := RoundedAmount(raw, decimals, 0);
    units := s.v;
    WholeShown(UnitsToDecimal(raw, decimals), s, raw);
    UngroupOfGroup(Print(units));
    ValueOfPrint(units);
  }

  lemma WholeShown(dec: string, s: Scaled, raw: int)
    requires ScaledOf(dec, 0) == Some(s) && (s.neg <==> raw < 0)
    ensures FmtWhole(dec) == Some(Sign(raw < 0 && s.v > 0) + Group(Print(s.v)))
  {
  }
}
