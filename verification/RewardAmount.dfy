/** The two decimal printers of reward amounts, and a parser that inverts them. */
module RewardAmount {
  import opened Common

  const REWARD_SCALE: nat := 10000000

  function DigitChar(d: nat): char
    requires d < 10
  {
    ('0' as int + d) as char
  }

  /** `bigint.toString()` for a non-negative value. */
  function Digits(n: nat): string {
    if n < 10 then [DigitChar(n)] else Digits(n / 10) + [DigitChar(n % 10)]
  }

  function Zeros(n: nat): string {
    if n == 0 then "" else Zeros(n - 1) + "0"
  }

  function PadStart(s: string, width: nat): string {
    if |s| >= width then s else Zeros(width - |s|) + s
  }

  /** `replace(/0+$/, '')`. */
  function StripZeros(s: string): string {
    if s != "" && s[|s| - 1] == '0' then StripZeros(s[..|s| - 1]) else s
  }

  function Abs(m: int): nat {
    if m < 0 then -m else m
  }

  function Sign(m: int): string {
    if m < 0 then "-" else ""
  }

  function FormatRewardAmount(micros: int): string {
    var whole := Abs(micros) / REWARD_SCALE;
    var fraction := StripZeros(PadStart(Digits(Abs(micros) % REWARD_SCALE), 7));
    if fraction != "" then Sign(micros) + Digits(whole) + "." + fraction else Sign(micros) + Digits(whole)
  }

  /** The amount put into the Stellar payment: always seven decimals. */
  function StellarAmount(micros: int): string {
    Sign(micros) + Digits(Abs(micros) / REWARD_SCALE) + "." + PadStart(Digits(Abs(micros) % REWARD_SCALE), 7)
  }

  // ---- reading decimals ----

  predicate AllDigits(s: string) {
    forall i :: 0 <= i < |s| ==> IsDigit(s[i])
  }

  function Value(s: string): nat
    requires AllDigits(s)
  {
    if s == "" then 0 else Value(s[..|s| - 1]) * 10 + (s[|s| - 1] as int - '0' as int)
  }

  function Pow10(n: nat): nat {
    if n == 0 then 1 else 10 * Pow10(n - 1)
  }

  function DotAt(s: string): nat
    ensures DotAt(s) <= |s| && (DotAt(s) < |s| ==> s[DotAt(s)] == '.')
    ensures forall i :: 0 <= i < DotAt(s) ==> s[i] != '.'
  {
    if s == "" || s[0] == '.' then 0 else 1 + DotAt(s[1..])
  }

  /** Digits, or digits with a point and one to seven decimals; in units of 1/REWARD_SCALE. */
  function ParseUnsigned(s: string): Option<nat> {
    var d := DotAt(s);
    if d == |s| then
      if s != "" && AllDigits(s) then Some(Value(s) * REWARD_SCALE) else None
    else
      var whole, fraction := s[..d], s[d + 1..];
      if whole != "" && AllDigits(whole) && 1 <= |fraction| <= 7 && AllDigits(fraction)
      then Some(Denoted(whole, fraction))
      else None
  }

  function Negated(n: nat): int {
    0 - n
  }

  function ParseAmount(s: string): Option<int> {
    if s != "" && s[0] == '-' then
      var r := ParseUnsigned(s[1..]);
      if r.Some? then Some(Negated(r.value)) else None
    else
      var r := ParseUnsigned(s);
      if r.Some? then Some(r.value) else None
  }

  lemma {:induction false} DigitsValue(n: nat)
    ensures AllDigits(Digits(n)) && Digits(n) != "" && Value(Digits(n)) == n
  {
    if n >= 10 {
      DigitsValue(n / 10);
      assert Digits(n)[..|Digits(n)| - 1] == Digits(n / 10);
    }
  }

  lemma {:induction false} DigitsLength(n: nat, w: nat)
    requires n < Pow10(w) && w >= 1
    ensures |Digits(n)| <= w
  {
    if n >= 10 {
      DigitsLength(n / 10, w - 1);
    }
  }

  lemma {:induction false} ZerosValue(n: nat, s: string)
    requires AllDigits(s)
    ensures |Zeros(n)| == n && AllDigits(Zeros(n) + s) && Value(Zeros(n) + s) == Value(s)
    decreases n, |s|
  {
    if s == "" {
      if n > 0 {
        ZerosValue(n - 1, "");
        assert Zeros(n) + "" == Zeros(n) && Zeros(n - 1) + "" == Zeros(n - 1);
        assert Zeros(n)[..n - 1] == Zeros(n - 1);
      }
    } else {
      ZerosValue(n, s[..|s| - 1]);
      assert (Zeros(n) + s)[..|Zeros(n) + s| - 1] == Zeros(n) + s[..|s| - 1];
    }
  }

  lemma Rescale(v: nat, p: nat)
    ensures v * (10 * p) == v * p * 10
  {}

  /** Stripping trailing zeros divides by the matching power of ten. */
  lemma {:induction false} StripValue(s: string)
    requires AllDigits(s)
    ensures AllDigits(StripZeros(s)) && |StripZeros(s)| <= |s|
    ensures Value(StripZeros(s)) * Pow10(|s| - |StripZeros(s)|) == Value(s)
    ensures StripZeros(s) != "" ==> StripZeros(s)[|StripZeros(s)| - 1] != '0'
  {
    if s != "" && s[|s| - 1] == '0' {
      var init := s[..|s| - 1];
      StripValue(init);
      var k := |init| - |StripZeros(init)|;
      assert Pow10(k + 1) == 10 * Pow10(k);
      Rescale(Value(StripZeros(init)), Pow10(k));
    }
  }

  lemma FractionDigits(f: nat)
    requires f < REWARD_SCALE
    ensures var p := PadStart(Digits(f), 7); |p| == 7 && AllDigits(p) && Value(p) == f
  {
    assert Pow10(3) == 1000 && Pow10(5) == 100 * Pow10(3) && Pow10(7) == 100 * Pow10(5);
    DigitsLength(f, 7);
    DigitsValue(f);
    ZerosValue(7 - |Digits(f)|, Digits(f));
  }

  /** In digits, a point and decimals, the point found is that one. */
  lemma PointFound(whole: string, fraction: string)
    requires forall i :: 0 <= i < |whole| ==> whole[i] != '.'
    ensures var s := whole + "." + fraction;
            DotAt(s) == |whole| && |s| == |whole| + 1 + |fraction| && s[..|whole|] == whole
                && s[|whole| + 1..] == fraction
  {
    var s := whole + "." + fraction;
    assert s[|whole|] == '.';
  }

  /** What a whole part and decimals denote. */
  function Denoted(whole: string, fraction: string): nat
    requires AllDigits(whole) && AllDigits(fraction) && |fraction| <= 7
  {
    Value(whole) * REWARD_SCALE + Value(fraction) * Pow10(7 - |fraction|)
  }

  /** Reading back what is written as whole digits, a point and decimals. */
  lemma ParseParts(whole: string, fraction: string)
    requires whole != "" && AllDigits(whole) && AllDigits(fraction) && 1 <= |fraction| <= 7
    ensures ParseUnsigned(whole + "." + fraction) == Some(Denoted(whole, fraction))
  {
    forall i | 0 <= i < |whole|
      ensures whole[i] != '.'
    {
      assert IsDigit(whole[i]);
    }
    PointFound(whole, fraction);
  }

  lemma ParseWhole(whole: string)
    requires whole != "" && AllDigits(whole)
    ensures ParseUnsigned(whole) == Some(Value(whole) * REWARD_SCALE)
  {
    if DotAt(whole) < |whole| { assert IsDigit(whole[DotAt(whole)]); }
  }

  lemma ParseSigned(m: int, unsigned: string)
    requires unsigned != "" && IsDigit(unsigned[0]) && ParseUnsigned(unsigned) == Some(Abs(m))
    ensures ParseAmount(Sign(m) + unsigned) == Some(m)
  {
    if m < 0 {
      assert ("-" + unsigned)[1..] == unsigned;
    } else {
      assert "" + unsigned == unsigned;
    }
  }

  function Fraction(f: nat): string {
    StripZeros(PadStart(Digits(f), 7))
  }

  /** The stripped decimals still denote the fraction; they are empty exactly for zero. */
  lemma FractionDenotes(w: nat, f: nat)
    requires f < REWARD_SCALE
    ensures AllDigits(Digits(w)) && Digits(w) != "" && AllDigits(Fraction(f)) && |Fraction(f)| <= 7
    ensures Denoted(Digits(w), Fraction(f)) == w * REWARD_SCALE + f && Value(Digits(w)) == w
    ensures Fraction(f) == "" <==> f == 0
    ensures Fraction(f) != "" ==> Fraction(f)[|Fraction(f)| - 1] != '0'
  {
    DigitsValue(w);
    FractionDigits(f);
    var p := PadStart(Digits(f), 7);
    StripValue(p);
    var q := StripZeros(p);
    if q != "" {
      ZeroValue(q);
      Pow10Positive(7 - |q|);
      PositiveProduct(Value(q), Pow10(7 - |q|));
    }
  }

  /** Whole digits, with a point and decimals if there are any. */
  function Joined(d: string, q: string): string {
    if q != "" then d + "." + q else d
  }

  lemma PartsInverted(d: string, q: string)
    requires d != "" && AllDigits(d) && AllDigits(q) && |q| <= 7
    ensures var s := Joined(d, q); s != "" && IsDigit(s[0]) && ParseUnsigned(s) == Some(Denoted(d, q))
  {
    if q != "" {
      ParseParts(d, q);
    } else {
      ParseWhole(d);
    }
  }

  lemma SignedPartsInverted(m: int, d: string, q: string)
    requires d != "" && AllDigits(d) && AllDigits(q) && |q| <= 7 && Denoted(d, q) == Abs(m)
    ensures ParseAmount(Sign(m) + Joined(d, q)) == Some(m)
  {
    PartsInverted(d, q);
    ParseSigned(m, Joined(d, q));
  }

  lemma JoinedSigned(sign: string, d: string, q: string)
    ensures sign + Joined(d, q) == if q != "" then sign + d + "." + q else sign + d
  {
    if q != "" { assert sign + (d + "." + q) == sign + d + "." + q; }
  }

  /** A decimal parser inverts the displayed amount, for every integer. */
  lemma FormatInverted(m: int)
    ensures ParseAmount(FormatRewardAmount(m)) == Some(m)
  {
    var w, f := Abs(m) / REWARD_SCALE, Abs(m) % REWARD_SCALE;
    FractionDenotes(w, f);
    JoinedSigned(Sign(m), Digits(w), Fraction(f));
    SignedPartsInverted(m, Digits(w), Fraction(f));
  }

  /** The unstripped decimals denote the fraction as well. */
  lemma PaddedDenotes(w: nat, f: nat)
    requires f < REWARD_SCALE
    ensures var d, p := Digits(w), PadStart(Digits(f), 7);
            d != "" && AllDigits(d) && AllDigits(p) && |p| == 7 && Denoted(d, p) == w * REWARD_SCALE + f
  {
    DigitsValue(w);
    FractionDigits(f);
    assert Pow10(0) == 1;
  }

  /** The same parser inverts the amount sent to Stellar. */
  lemma StellarInverted(m: int)
    ensures ParseAmount(StellarAmount(m)) == Some(m)
  {
    var w, f := Abs(m) / REWARD_SCALE, Abs(m) % REWARD_SCALE;
    PaddedDenotes(w, f);
    JoinedSigned(Sign(m), Digits(w), PadStart(Digits(f), 7));
    SignedPartsInverted(m, Digits(w), PadStart(Digits(f), 7));
  }

  /** Different amounts never print alike, and the display and the payment denote the same value. */
  lemma PrintersInjective(m: int, n: int)
    ensures FormatRewardAmount(m) == FormatRewardAmount(n) ==> m == n
    ensures StellarAmount(m) == StellarAmount(n) ==> m == n
    ensures ParseAmount(FormatRewardAmount(m)) == ParseAmount(StellarAmount(m))
  {
    FormatInverted(m);
    FormatInverted(n);
    StellarInverted(m);
    StellarInverted(n);
  }

  /** A printed amount ends in a digit, and in a non-zero one if it has decimals, of which there are at most seven. */
  lemma ShortestForm(m: int)
    ensures var s := FormatRewardAmount(m);
            && s != "" && IsDigit(s[|s| - 1])
            && ('.' in s ==> s[|s| - 1] != '0' && 1 <= |s| - 1 - DotAt(s) <= 7)
            && ('.' in s <==> m % REWARD_SCALE != 0)
  {
    var w, f := Abs(m) / REWARD_SCALE, Abs(m) % REWARD_SCALE;
    FractionDenotes(w, f);
    NegativeRemainder(m);
    var front, q := Sign(m) + Digits(w), Fraction(f);
    NoDot(front);
    if q != "" {
      assert FormatRewardAmount(m) == front + "." + q;
      PointFound(front, q);
      assert (front + "." + q)[|front|] == '.';
      assert (front + "." + q)[|front + "." + q| - 1] == q[|q| - 1];
    } else {
      assert FormatRewardAmount(m) == front;
    }
  }

  lemma PositiveProduct(a: nat, b: nat)
    requires a > 0
    ensures a * b == 0 ==> b == 0
  {}

  lemma Pow10Positive(n: nat)
    ensures Pow10(n) > 0
  {}

  lemma NoDot(s: string)
    requires forall i :: 0 <= i < |s| ==> IsDigit(s[i]) || s[i] == '-'
    ensures '.' !in s
  {}

  lemma NegativeRemainder(m: int)
    ensures m % REWARD_SCALE != 0 <==> Abs(m) % REWARD_SCALE != 0
  {}

  /** Digits that end in a non-zero one do not denote zero. */
  lemma ZeroValue(q: string)
    requires q != "" && AllDigits(q) && q[|q| - 1] != '0'
    ensures Value(q) > 0
  {}
}
