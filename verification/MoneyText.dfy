/** Printing and parsing money as decimal dollars (crates/penny-types/src/lib.rs). The printer writes a
    minus sign where there is one, the whole dollars, a point and six digits; the parser takes fewer
    digits or none, surrounding blanks and a plus sign as well, and then the whole part may bring a
    sign of its own. */
module MoneyText {
  import opened Outcomes
  import opened Amounts
  import opened Text

  datatype MoneyError = OutOfRange | InvalidFormat

  // ---------------------------------------------------------------- decimal digits

  predicate IsDigit(c: char) {
    '0' <= c <= '9'
  }

  predicate AllDigits(s: string) {
    forall i :: 0 <= i < |s| ==> IsDigit(s[i])
  }

  function DigitValue(c: char): int {
    c as int - '0' as int
  }

  function DigitChar(d: int): char
    requires 0 <= d <= 9
  {
    '0' + d as char
  }

  /** The number a digit string denotes. */
  function Value(s: string): int {
    if s == [] then 0 else Value(s[..|s| - 1]) * 10 + DigitValue(s[|s| - 1])
  }

  function Decimal(n: nat): string {
    if n < 10 then [DigitChar(n)] else Decimal(n / 10) + [DigitChar(n % 10)]
  }

  function Zeros(n: nat): (s: string)
    ensures |s| == n
  {
    seq(n, i => '0')
  }

  function Pow10(n: nat): nat {
    if n == 0 then 1 else 10 * Pow10(n - 1)
  }

  /** A non-negative number in at least six digits, padded with leading zeros. */
  function SixDigits(n: nat): string {
    var s := Decimal(n);
    if |s| < 6 then Zeros(6 - |s|) + s else s
  }

  // ---------------------------------------------------------------- printing

  function Display(m: Money): string {
    var abs: nat := if m < 0 then -(m as int) else m;
    (if m < 0 then "-" else "") + Decimal(abs / SCALE) + "." + SixDigits(abs % SCALE)
  }

  // ---------------------------------------------------------------- parsing

  /** The standard library's signed parse: an optional sign, at least one digit, in range. */
  function ParseI64(s: string): Option<int> {
    if s == [] then None
    else
      var negative := s[0] == '-';
      var digits := if negative || s[0] == '+' then s[1..] else s;
      if digits == [] || !AllDigits(digits) then None
      else
        var v := if negative then 0 - Value(digits) else Value(digits);
        if InI64(v) then Some(v) else None
  }

  function Without(s: string): string {
    if s != [] && (s[0] == '-' || s[0] == '+') then s[1..] else s
  }

  /** The fraction after the point in micros, `None` when it is not one to six digits. */
  function Fraction(raw: string): Option<int> {
    if raw == [] || |raw| > 6 || !AllDigits(raw) then None else Some(Value(raw) * Pow10(6 - |raw|))
  }

  function Assemble(negative: bool, whole: int, frac: int): Result<Money, MoneyError> {
    var micros := whole * SCALE + frac;
    if !InI64(whole * SCALE) || !InI64(micros) then Err(OutOfRange)
    else if !negative then Ok(micros)
    else if InI64(0 - micros) then Ok(0 - micros)
    else Err(OutOfRange)
  }

  function ParseUnsigned(negative: bool, digits: string): Result<Money, MoneyError> {
    var dot := IndexOf(digits, '.');
    if dot < |digits| && '.' in digits[dot + 1..] then Err(InvalidFormat)
    else
      var whole := ParseI64(digits[..dot]);
      var frac := if dot < |digits| then Fraction(digits[dot + 1..]) else Some(0);
      if whole.None? || frac.None? then Err(InvalidFormat) else Assemble(negative, whole.value, frac.value)
  }

  function ParseTrimmed(trimmed: string): Result<Money, MoneyError> {
    var digits := Without(trimmed);
    if digits == [] then Err(InvalidFormat) else ParseUnsigned(trimmed[0] == '-', digits)
  }

  function Parse(value: string): Result<Money, MoneyError> {
    ParseTrimmed(Trim(value))
  }

  method ParseMoneyStr(value: string) returns (r: Result<Money, MoneyError>)
    ensures r == Parse(value)
  {
    var trimmed := Trim(value);
    if trimmed == [] {
      return Err(InvalidFormat);
    }
    var negative := trimmed[0] == '-';
    var digits := if negative || trimmed[0] == '+' then trimmed[1..] else trimmed;
    if digits == [] {
      return Err(InvalidFormat);
    }
    r := ParseParts(negative, digits);
  }

  method ParseParts(negative: bool, digits: string) returns (r: Result<Money, MoneyError>)
    ensures r == ParseUnsigned(negative, digits)
  {
    var dot := IndexOf(digits, '.');
    if dot < |digits| && '.' in digits[dot + 1..] {
      return Err(InvalidFormat);
    }
    var whole := ParseI64(digits[..dot]);
    if whole.None? {
      return Err(InvalidFormat);
    }
    var frac := 0;
    if dot < |digits| {
      var parsed := PadAndParse(digits[dot + 1..]);
      if parsed.None? {
        return Err(InvalidFormat);
      }
      frac := parsed.value;
    }
    r := Combine(negative, whole.value, frac);
  }

  method PadAndParse(raw: string) returns (frac: Option<int>)
    ensures frac == Fraction(raw)
  {
    if raw == [] || |raw| > 6 || !AllDigits(raw) {
      return None;
    }
    var padded := raw;
    while |padded| < 6
      invariant |raw| <= |padded| <= 6 && AllDigits(padded)
      invariant Value(padded) * Pow10(6 - |padded|) == Value(raw) * Pow10(6 - |raw|)
    {
      ghost var before := padded;
      padded := padded + "0";
      assert padded[..|before|] == before;
      PadStep(Value(before), 6 - |before|);
    }
    frac := ParseI64(padded);
    SixDigitsFit(padded);
  }

  method Combine(negative: bool, whole: int, frac: int) returns (r: Result<Money, MoneyError>)
    ensures r == Assemble(negative, whole, frac)
  {
    var wholeScaled := whole * SCALE;
    if !InI64(wholeScaled) {
      return Err(OutOfRange);
    }
    var micros := wholeScaled + frac;
    if !InI64(micros) {
      return Err(OutOfRange);
    }
    if negative {
      if !InI64(0 - micros) {
        return Err(OutOfRange);
      }
      micros := 0 - micros;
    }
    r := Ok(micros);
  }

  lemma PadStep(v: int, n: nat)
    requires n > 0
    ensures (v * 10) * Pow10(n - 1) == v * Pow10(n)
  {
    var p := Pow10(n - 1);
    assert v * 10 * p == v * (10 * p);
  }

  lemma SixDigitsFit(s: string)
    requires |s| == 6 && AllDigits(s)
    ensures ParseI64(s) == Some(Value(s)) && Pow10(0) == 1
  {
    ValueBounds(s);
    assert Pow10(6) == 1_000_000;
    assert IsDigit(s[0]);
  }

  lemma {:induction false} ValueBounds(s: string)
    requires AllDigits(s)
    ensures 0 <= Value(s) < Pow10(|s|)
  {
    if s != [] {
      assert IsDigit(s[|s| - 1]);
      ValueBounds(s[..|s| - 1]);
    }
  }

  // ---------------------------------------------------------------- the grammar

  /** What the grammar `[sign]digits[.1-6 digits]` denotes, in micros, without the sign. */
  function Magnitude(whole: string, frac: string): int
    requires |frac| <= 6
  {
    Value(whole) * SCALE + Value(frac) * Pow10(6 - |frac|)
  }

  predicate IsSign(sign: string) {
    sign == "" || sign == "+" || sign == "-"
  }

  function Written(sign: string, whole: string, frac: string): string {
    sign + whole + if frac == "" then "" else "." + frac
  }

  lemma FractionValue(frac: string)
    requires AllDigits(frac) && |frac| <= 6
    ensures 0 <= Value(frac) * Pow10(6 - |frac|) < SCALE
    ensures Value(frac) * Pow10(6 - |frac|) == 0 <==> Value(frac) == 0
  {
    ValueBounds(frac);
    SixPlaces(|frac|);
    PowPositive(6 - |frac|);
    PartOfProduct(Value(frac), Pow10(|frac|), Pow10(6 - |frac|));
  }

  lemma PartOfProduct(v: int, whole: int, p: int)
    requires 0 <= v < whole && p >= 1
    ensures 0 <= v * p < whole * p
    ensures v * p == 0 <==> v == 0
  {
    assert (whole - v) * p > 0;
  }

  lemma SixPlaces(n: nat)
    requires n <= 6
    ensures Pow10(n) * Pow10(6 - n) == SCALE
  {
    PowSum(n, 6 - n);
    PowSum(3, 3);
    assert Pow10(3) == 1000;
  }

  lemma {:induction false} PowPositive(n: nat)
    ensures Pow10(n) >= 1
  {
    if n > 0 {
      PowPositive(n - 1);
    }
  }

  lemma {:induction false} PowSum(a: nat, b: nat)
    ensures Pow10(a) * Pow10(b) == Pow10(a + b)
  {
    if a > 0 {
      PowSum(a - 1, b);
      assert Pow10(a) * Pow10(b) == 10 * (Pow10(a - 1) * Pow10(b));
    }
  }

  // ---------------------------------------------------------------- everything that parses

  /** The strings the parser reads: the grammar, with an optional second sign after a first one,
      because the whole part is read with a sign of its own. */
  datatype Numeral = Numeral(pre: string, sign: string, inner: string, whole: string, frac: string, post: string)

  predicate IsNumeral(n: Numeral) {
    && IsBlank(n.pre) && IsBlank(n.post)
    && IsSign(n.sign) && IsSign(n.inner) && (n.sign == "" ==> n.inner == "")
    && n.whole != "" && AllDigits(n.whole) && AllDigits(n.frac) && |n.frac| <= 6
  }

  function Body(n: Numeral): string {
    Written(n.sign, n.inner + n.whole, n.frac)
  }

  function Spelled(n: Numeral): string {
    n.pre + Body(n) + n.post
  }

  function Signed(sign: string, x: int): int {
    if sign == "-" then 0 - x else x
  }

  /** What the parser makes of it. The second sign belongs to the whole part alone: the fraction is
      added to the whole part as signed, and the first sign applies to the sum. */
  function Denoted(n: Numeral): Result<Money, MoneyError>
    requires |n.frac| <= 6
  {
    var whole := Signed(n.inner, Value(n.whole));
    var micros := whole * SCALE + Value(n.frac) * Pow10(6 - |n.frac|);
    if !InI64(whole) then Err(InvalidFormat)
    else if !InI64(whole * SCALE) || !InI64(micros) || !InI64(Signed(n.sign, micros)) then Err(OutOfRange)
    else Ok(Signed(n.sign, micros))
  }

  lemma BodyEnds(n: Numeral)
    requires IsNumeral(n)
    ensures var body := Body(n);
            && body != "" && !IsWhitespace(body[0]) && !IsWhitespace(body[|body| - 1])
            && Without(body) == Written("", n.inner + n.whole, n.frac)
            && (body[0] == '-' <==> n.sign == "-")
  {
    var unsigned := Written("", n.inner + n.whole, n.frac);
    assert IsDigit(n.whole[0]) && IsDigit(n.whole[|n.whole| - 1]);
    assert n.frac != "" ==> IsDigit(n.frac[|n.frac| - 1]);
    assert Body(n) == n.sign + unsigned;
    assert n.sign == "" ==> unsigned[0] == n.whole[0];
  }

  lemma SignedWholeParses(inner: string, whole: string)
    requires IsSign(inner) && whole != "" && AllDigits(whole)
    ensures var w := Signed(inner, Value(whole));
            ParseI64(inner + whole) == if InI64(w) then Some(w) else None
    ensures '.' !in inner + whole
  {
    var s := inner + whole;
    assert IsDigit(whole[0]);
    if inner == "" {
      assert s == whole;
    } else {
      assert s[1..] == whole;
    }
    forall i | 0 <= i < |s|
      ensures s[i] != '.'
    {
      assert i >= |inner| ==> IsDigit(whole[i - |inner|]);
    }
  }

  lemma PointAfter(whole: string, frac: string)
    requires '.' !in whole && AllDigits(frac)
    ensures var s := Written("", whole, frac);
            var dot := IndexOf(s, '.');
            && dot == |whole| && s[..dot] == whole
            && (if frac == "" then dot == |s| else dot < |s| && s[dot + 1..] == frac)
            && '.' !in frac
  {
    var s := Written("", whole, frac);
    assert forall i :: 0 <= i < |whole| ==> s[i] == whole[i];
    forall i | 0 <= i < |frac|
      ensures frac[i] != '.'
    {
      assert IsDigit(frac[i]);
    }
    assert frac != "" ==> s[|whole|] == '.';
  }

  lemma UnsignedParts(negative: bool, whole: string, frac: string)
    requires '.' !in whole && AllDigits(frac) && |frac| <= 6
    ensures var w := ParseI64(whole);
            ParseUnsigned(negative, Written("", whole, frac))
            == if w.None? then Err(InvalidFormat) else Assemble(negative, w.value, Value(frac) * Pow10(6 - |frac|))
  {
    PointAfter(whole, frac);
    FractionRead(frac);
    PartsAt(negative, Written("", whole, frac), whole, frac);
  }

  lemma PartsAt(negative: bool, s: string, whole: string, frac: string)
    requires var dot := IndexOf(s, '.');
             && s[..dot] == whole && (if frac == "" then dot == |s| else dot < |s| && s[dot + 1..] == frac)
    requires '.' !in frac
    ensures var w, f := ParseI64(whole), if frac == "" then Some(0) else Fraction(frac);
            ParseUnsigned(negative, s)
            == if w.None? || f.None? then Err(InvalidFormat) else Assemble(negative, w.value, f.value)
  {
  }

  lemma FractionRead(frac: string)
    requires AllDigits(frac) && |frac| <= 6
    ensures (if frac == "" then Some(0) else Fraction(frac)) == Some(Value(frac) * Pow10(6 - |frac|))
  {
    FractionValue(frac);
  }

  lemma Assembled(sign: string, whole: int, frac: int)
    ensures var micros := whole * SCALE + frac;
            Assemble(sign == "-", whole, frac)
            == if !InI64(whole * SCALE) || !InI64(micros) || !InI64(Signed(sign, micros)) then Err(OutOfRange)
               else Ok(Signed(sign, micros))
  {
  }

  lemma NumeralParts(n: Numeral)
    requires IsNumeral(n)
    ensures ParseUnsigned(n.sign == "-", Written("", n.inner + n.whole, n.frac)) == Denoted(n)
  {
    SignedWholeParses(n.inner, n.whole);
    UnsignedParts(n.sign == "-", n.inner + n.whole, n.frac);
    DenotedParts(n);
  }

  lemma DenotedParts(n: Numeral)
    requires |n.frac| <= 6
    ensures var whole, frac := Signed(n.inner, Value(n.whole)), Value(n.frac) * Pow10(6 - |n.frac|);
            Denoted(n) == if InI64(whole) then Assemble(n.sign == "-", whole, frac) else Err(InvalidFormat)
  {
    Assembled(n.sign, Signed(n.inner, Value(n.whole)), Value(n.frac) * Pow10(6 - |n.frac|));
  }

  /** Every numeral parses to what it denotes, or to the error it denotes. */
  lemma ParsesEveryNumeral(n: Numeral)
    requires IsNumeral(n)
    ensures Parse(Spelled(n)) == Denoted(n)
  {
    BodyEnds(n);
    TrimRemovesSurroundings(n.pre, Body(n), n.post);
    NumeralParts(n);
  }

  /** Every string of the grammar, with any surrounding whitespace, parses to exactly the value it
      denotes, or fails when its digits or the scaled value do not fit 64 bits. */
  lemma ParsesTheGrammarExactly(pre: string, sign: string, whole: string, frac: string, post: string)
    requires IsBlank(pre) && IsBlank(post) && IsSign(sign)
    requires whole != "" && AllDigits(whole) && AllDigits(frac) && |frac| <= 6
    ensures var m := Magnitude(whole, frac);
            Parse(pre + Written(sign, whole, frac) + post)
            == if Value(whole) > I64_MAX then Err(InvalidFormat)
               else if m > I64_MAX then Err(OutOfRange)
               else Ok(if sign == "-" then 0 - m else m)
  {
    var n := Numeral(pre, sign, "", whole, frac, post);
    assert "" + whole == whole;
    ParsesEveryNumeral(n);
    OneSignDenotes(n);
  }

  lemma OneSignDenotes(n: Numeral)
    requires IsNumeral(n) && n.inner == ""
    ensures var m := Magnitude(n.whole, n.frac);
            Denoted(n)
            == if Value(n.whole) > I64_MAX then Err(InvalidFormat)
               else if m > I64_MAX then Err(OutOfRange)
               else Ok(if n.sign == "-" then 0 - m else m)
  {
    ValueBounds(n.whole);
    FractionValue(n.frac);
    RangeOfMagnitude(n.sign, Value(n.whole), Value(n.frac) * Pow10(6 - |n.frac|));
  }

  lemma RangeOfMagnitude(sign: string, whole: int, frac: int)
    requires whole >= 0 && 0 <= frac < SCALE
    ensures InI64(whole) <==> whole <= I64_MAX
    ensures var m := whole * SCALE + frac;
            InI64(whole * SCALE) && InI64(m) && InI64(Signed(sign, m)) <==> m <= I64_MAX
  {
  }

  lemma ParsedWholeHasShape(s: string) returns (inner: string, whole: string)
    requires ParseI64(s).Some?
    ensures s == inner + whole && IsSign(inner) && whole != "" && AllDigits(whole)
  {
    if s[0] == '-' || s[0] == '+' {
      inner, whole := s[..1], s[1..];
    } else {
      inner, whole := "", s;
    }
  }

  lemma SplitAtPoint(negative: bool, digits: string) returns (whole: string, frac: string)
    requires ParseUnsigned(negative, digits) != Err(InvalidFormat)
    ensures digits == Written("", whole, frac) && ParseI64(whole).Some?
    ensures AllDigits(frac) && |frac| <= 6
  {
    var dot := IndexOf(digits, '.');
    PartsParse(negative, digits, dot);
    whole, frac := digits[..dot], if dot < |digits| then digits[dot + 1..] else "";
    AroundThePoint(digits, dot);
  }

  lemma PartsParse(negative: bool, digits: string, dot: nat)
    requires ParseUnsigned(negative, digits) != Err(InvalidFormat) && dot == IndexOf(digits, '.')
    ensures ParseI64(digits[..dot]).Some?
    ensures dot < |digits| ==> digits[dot + 1..] != "" && |digits[dot + 1..]| <= 6 && AllDigits(digits[dot + 1..])
  {
  }

  lemma AroundThePoint(digits: string, dot: nat)
    requires dot <= |digits| && (dot < |digits| ==> digits[dot] == '.')
    ensures digits == "" + digits[..dot] + if dot < |digits| then "." + digits[dot + 1..] else ""
  {
  }

  lemma UnsignedHasShape(negative: bool, digits: string) returns (inner: string, whole: string, frac: string)
    requires ParseUnsigned(negative, digits) != Err(InvalidFormat)
    ensures digits == Written("", inner + whole, frac)
    ensures IsSign(inner) && whole != "" && AllDigits(whole) && AllDigits(frac) && |frac| <= 6
  {
    var signed: string;
    signed, frac := SplitAtPoint(negative, digits);
    inner, whole := ParsedWholeHasShape(signed);
  }

  lemma SplitSign(trimmed: string) returns (sign: string)
    ensures trimmed == sign + Without(trimmed) && IsSign(sign)
    ensures sign == "" <==> Without(trimmed) == trimmed
  {
    sign := "";
    if Without(trimmed) != trimmed {
      sign := trimmed[..1];
    }
  }

  lemma TrimmedHasShape(trimmed: string) returns (n: Numeral)
    requires ParseTrimmed(trimmed) != Err(InvalidFormat)
    ensures n.pre == n.post == "" && IsNumeral(n) && Body(n) == trimmed
  {
    var digits := Without(trimmed);
    var sign := SplitSign(trimmed);
    var inner, whole, frac := UnsignedHasShape(trimmed[0] == '-', digits);
    FirstSignComesFirst(digits, inner, whole, frac);
    n := Numeral("", sign, inner, whole, frac, "");
    UnsignedThenSigned(sign, inner + whole, frac);
  }

  lemma UnsignedThenSigned(sign: string, whole: string, frac: string)
    ensures Written(sign, whole, frac) == sign + Written("", whole, frac)
  {
  }

  /** Nothing but a numeral gets past the format checks. */
  lemma OnlyNumeralsParse(value: string) returns (n: Numeral)
    requires Parse(value) != Err(InvalidFormat)
    ensures IsNumeral(n) && Spelled(n) == value
  {
    var pre, post := TrimSplits(value);
    var bare := TrimmedHasShape(Trim(value));
    n := bare.(pre := pre, post := post);
  }

  // A sign at the front is taken as the first sign, so a second one needs a first.
  lemma FirstSignComesFirst(digits: string, inner: string, whole: string, frac: string)
    requires digits == Written("", inner + whole, frac) && IsSign(inner) && whole != ""
    ensures inner != "" ==> Without(digits) != digits
  {
    assert inner != "" ==> digits[0] == inner[0] && |Without(digits)| < |digits|;
  }

  /** The parser accepts a string exactly when some numeral of a value in range spells it. */
  lemma ParserAcceptsExactlyTheNumerals(value: string)
    ensures Parse(value).Ok? <==> exists n: Numeral :: IsNumeral(n) && Spelled(n) == value && Denoted(n).Ok?
  {
    if Parse(value).Ok? {
      var n := OnlyNumeralsParse(value);
      ParsesEveryNumeral(n);
    }
    forall n: Numeral | IsNumeral(n) && Spelled(n) == value
      ensures Parse(value) == Denoted(n)
    {
      ParsesEveryNumeral(n);
    }
  }

  /** A numeral means what its signs and digits say, both signs applied to the whole of it, exactly
      when it has no second minus or no fraction. */
  lemma SignsCombineWithoutAFraction(n: Numeral)
    requires IsNumeral(n) && Denoted(n).Ok?
    ensures Parse(Spelled(n)) == Ok(Signed(n.sign, Signed(n.inner, Magnitude(n.whole, n.frac))))
            <==> n.inner != "-" || Value(n.frac) == 0
  {
    ParsesEveryNumeral(n);
    FractionValue(n.frac);
    SignsCombine(n.sign, n.inner, Value(n.whole), Value(n.frac) * Pow10(6 - |n.frac|));
  }

  lemma SignsCombine(sign: string, inner: string, whole: int, frac: int)
    ensures Signed(sign, Signed(inner, whole) * SCALE + frac) == Signed(sign, Signed(inner, whole * SCALE + frac))
            <==> inner != "-" || frac == 0
  {
  }

  lemma SecondSignIsAccepted()
    ensures Parse("--5") == Ok(5_000_000)
  {
    var n := Numeral("", "-", "-", "5", "", "");
    assert Spelled(n) == "--5";
    assert Value("5") == 5;
    ParsesEveryNumeral(n);
  }

  /** `--5.5` parses to 4.5, and `+-5.5` to -4.5. */
  lemma TwoSignsAndAFraction()
    ensures Parse("--5.5") == Ok(4_500_000)
    ensures Parse("+-5.5") == Ok(-4_500_000)
  {
    var n := Numeral("", "-", "-", "5", "5", "");
    var m := Numeral("", "+", "-", "5", "5", "");
    assert Spelled(n) == "--5.5" && Spelled(m) == "+-5.5";
    assert Value("5") == 5;
    FivePlaces();
    ParsesEveryNumeral(n);
    ParsesEveryNumeral(m);
  }

  lemma FivePlaces()
    ensures Pow10(5) == 100_000
  {
    assert Pow10(2) == 100;
    PowSum(2, 2);
    PowSum(4, 1);
  }

  // ---------------------------------------------------------------- parsing undoes printing

  lemma {:induction false} DecimalFacts(n: nat)
    ensures Decimal(n) != "" && AllDigits(Decimal(n)) && Value(Decimal(n)) == n
    ensures n < SCALE ==> |Decimal(n)| <= 6
  {
    if n < 10 {
      assert Value([DigitChar(n)]) == n;
    } else {
      DecimalFacts(n / 10);
      assert Decimal(n)[..|Decimal(n)| - 1] == Decimal(n / 10);
      if n < SCALE {
        DecimalLength(n, 6);
      }
    }
  }

  lemma {:induction false} DecimalLength(n: nat, k: nat)
    requires k >= 1 && n < Pow10(k)
    ensures |Decimal(n)| <= k
  {
    if n >= 10 {
      DecimalLength(n / 10, k - 1);
    }
  }

  lemma {:induction false} LeadingZeros(k: nat, s: string)
    requires AllDigits(s)
    ensures Value(Zeros(k) + s) == Value(s) && AllDigits(Zeros(k) + s)
    decreases |s| + k
  {
    var z := Zeros(k) + s;
    if s != [] {
      LeadingZeros(k, s[..|s| - 1]);
      assert z[..|z| - 1] == Zeros(k) + s[..|s| - 1];
    } else if k > 0 {
      assert z[..k - 1] == Zeros(k - 1) + [];
      LeadingZeros(k - 1, []);
    }
  }

  lemma SixDigitFacts(n: nat)
    requires n < SCALE
    ensures |SixDigits(n)| == 6 && AllDigits(SixDigits(n)) && Value(SixDigits(n)) == n
  {
    DecimalFacts(n);
    LeadingZeros(6 - |Decimal(n)|, Decimal(n));
  }

  /** Parsing undoes printing for every amount but the smallest, whose magnitude has no positive
      64-bit form: it prints but does not parse back. */
  lemma ParsingUndoesPrinting(m: Money)
    ensures Parse(Display(m)) == if m == I64_MIN then Err(OutOfRange) else Ok(m)
  {
    var abs: nat := if m < 0 then -(m as int) else m;
    var sign, whole, frac := if m < 0 then "-" else "", Decimal(abs / SCALE), SixDigits(abs % SCALE);
    PrintedParts(m);
    assert "" + Display(m) + "" == Display(m);
    ParsesTheGrammarExactly("", sign, whole, frac, "");
  }

  lemma {:induction false} NoLeadingZero(n: nat)
    ensures |Decimal(n)| > 1 ==> Decimal(n)[0] != '0'
    ensures n > 0 ==> Decimal(n)[0] != '0'
  {
    if n >= 10 {
      NoLeadingZero(n / 10);
    }
  }

  /** An amount prints as a minus when it is negative, its whole dollars without a leading zero, a point, and
      its six digits of micros. */
  lemma PrintsCanonically(m: Money) returns (whole: string, frac: string)
    ensures Display(m) == (if m < 0 then "-" else "") + whole + "." + frac
    ensures whole != "" && AllDigits(whole) && (|whole| > 1 ==> whole[0] != '0')
    ensures |frac| == 6 && AllDigits(frac)
    ensures Value(whole) * SCALE + Value(frac) == if m < 0 then 0 - m else m
  {
    var abs: nat := if m < 0 then -(m as int) else m;
    whole, frac := Decimal(abs / SCALE), SixDigits(abs % SCALE);
    DecimalFacts(abs / SCALE);
    SixDigitFacts(abs % SCALE);
    NoLeadingZero(abs / SCALE);
    assert abs / SCALE * SCALE + abs % SCALE == abs;
  }

  lemma PrintedParts(m: Money)
    ensures var abs: nat := if m < 0 then -(m as int) else m;
            var sign, whole, frac := if m < 0 then "-" else "", Decimal(abs / SCALE), SixDigits(abs % SCALE);
            && Display(m) == Written(sign, whole, frac)
            && whole != "" && AllDigits(whole) && |frac| == 6 && AllDigits(frac)
            && Magnitude(whole, frac) == abs
            && Value(whole) <= I64_MAX && abs <= I64_MAX + 1 && (abs == I64_MAX + 1 <==> m == I64_MIN)
  {
    var abs: nat := if m < 0 then -(m as int) else m;
    assert InI64(m);
    DecimalFacts(abs / SCALE);
    SixDigitFacts(abs % SCALE);
    assert Pow10(0) == 1;
    assert (abs / SCALE) * SCALE + abs % SCALE == abs;
  }
}
