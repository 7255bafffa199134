/** The canonical-decimal recogniser: a string is canonical when it is what its own parse
    renders to.  The recogniser is described against any parser that reads canonical
    strings correctly; what else the parser accepts turns out not to matter. */
module CanonicalDecimal {
  import opened Outcomes

  /** A finite decimal as a sign, a coefficient and a power of ten. */
  datatype Decimal = Decimal(negative: bool, coefficient: nat, exponent: int)

  // ---------------------------------------------------------------------------
  // Digits
  // ---------------------------------------------------------------------------

  predicate IsDigit(c: char) {
    '0' <= c <= '9'
  }

  predicate AllDigits(s: string) {
    forall i :: 0 <= i < |s| ==> IsDigit(s[i])
  }

  function DigitValue(c: char): (d: nat)
    requires IsDigit(c)
    ensures d < 10
  {
    (c as int) - ('0' as int)
  }

  function DigitChar(d: nat): (c: char)
    requires d < 10
    ensures IsDigit(c) && DigitValue(c) == d
  {
    (('0' as int) + d) as char
  }

  function Number(s: string): nat
    requires AllDigits(s)
  {
    if s == "" then 0 else 10 * Number(s[..|s| - 1]) + DigitValue(s[|s| - 1])
  }

  function Less(width: nat): nat {
    if width == 0 then 0 else width - 1
  }

  /** The digits of n, filled up with leading zeros to at least `width`. */
  function Padded(n: nat, width: nat): (s: string)
    ensures AllDigits(s) && |s| >= width
    decreases n, width
  {
    if n == 0 && width == 0 then "" else Padded(n / 10, Less(width)) + [DigitChar(n % 10)]
  }

  function Zeros(n: nat): (s: string)
    ensures |s| == n && AllDigits(s) && forall i :: 0 <= i < n ==> s[i] == '0'
  {
    seq(n, _ => '0')
  }

  function Ten(n: nat): (p: nat)
    ensures p > 0
  {
    if n == 0 then 1 else 10 * Ten(n - 1)
  }

  lemma DigitOfValue(c: char)
    requires IsDigit(c)
    ensures DigitChar(DigitValue(c)) == c
  {
  }

  lemma {:induction false} PaddedReads(n: nat, width: nat)
    ensures Number(Padded(n, width)) == n
    decreases n, width
  {
    if !(n == 0 && width == 0) {
      PaddedReads(n / 10, Less(width));
      var front := Padded(n / 10, Less(width));
      assert (front + [DigitChar(n % 10)])[..|front|] == front;
    }
  }

  /** Only padding starts with a zero. */
  lemma {:induction false} PaddedLeads(n: nat, width: nat)
    requires |Padded(n, width)| > width
    ensures Padded(n, width)[0] != '0'
    decreases n, width
  {
    var front := Padded(n / 10, Less(width));
    if front == "" {
      assert n / 10 == 0 by { PaddedReads(n / 10, Less(width)); }
      assert n % 10 == n != 0;
      DigitOfValue('0');
      assert Padded(n, width) == [DigitChar(n)];
    } else if |front| > Less(width) {
      PaddedLeads(n / 10, Less(width));
    }
  }

  /** Writing a number back on as many digits as it was read from gives the digits back. */
  lemma {:induction false} PaddedInverse(s: string, width: nat)
    requires AllDigits(s) && width <= |s|
    requires width == |s| || (s != "" && s[0] != '0')
    ensures Padded(Number(s), width) == s
    decreases |s|
  {
    if s != "" {
      var n := |s| - 1;
      var front, d := s[..n], DigitValue(s[n]);
      assert Number(s) == 10 * Number(front) + d;
      assert Number(s) / 10 == Number(front) && Number(s) % 10 == d;
      DigitOfValue(s[n]);
      if width == 0 && n == 0 {
        assert s[0] != '0' && d != 0 by { DigitOfValue('0'); DigitOfValue(s[0]); }
      }
      if width == 0 && n > 0 {
        NonZeroLead(front);
      }
      PaddedInverse(front, Less(width));
      assert front + [s[n]] == s;
    }
  }

  lemma {:induction false} NonZeroLead(s: string)
    requires AllDigits(s) && s != "" && s[0] != '0'
    ensures Number(s) > 0
  {
    if |s| == 1 {
      assert s[..0] == "";
      DigitOfValue(s[0]);
      DigitOfValue('0');
    } else {
      NonZeroLead(s[..|s| - 1]);
    }
  }

  /** The number with m more zeros at its end. */
  function Shift(c: nat, m: nat): nat {
    c * Ten(m)
  }

  lemma ShiftStep(c: nat, m: nat)
    ensures Shift(c, 0) == c && Shift(c, m + 1) == 10 * Shift(c, m)
  {
  }

  lemma NumberAppend(s: string, c: char)
    requires AllDigits(s) && IsDigit(c)
    ensures AllDigits(s + [c]) && Number(s + [c]) == 10 * Number(s) + DigitValue(c)
  {
  }

  lemma {:induction false} NumberOfZeros(s: string, n: nat)
    requires AllDigits(s)
    ensures AllDigits(s + Zeros(n))
    ensures Number(s + Zeros(n)) == Shift(Number(s), n)
  {
    hide Number, Shift;
    ShiftStep(Number(s), if n == 0 then 0 else n - 1);
    if n == 0 {
      assert s + Zeros(0) == s;
    } else {
      NumberOfZeros(s, n - 1);
      NumberAppend(s + Zeros(n - 1), '0');
      assert s + Zeros(n) == (s + Zeros(n - 1)) + ['0'];
    }
  }

  lemma {:induction false} ZeroNumber(s: string)
    requires AllDigits(s) && Number(s) == 0
    ensures s == Zeros(|s|)
  {
    if s != "" {
      var n := |s| - 1;
      ZeroNumber(s[..n]);
      DigitOfValue(s[n]);
      assert s == s[..n] + [s[n]];
    }
  }

  // ---------------------------------------------------------------------------
  // Rendering
  // ---------------------------------------------------------------------------

  function StripEnd(s: string, c: char): (r: string)
    ensures |r| <= |s| && r == s[..|r|]
    ensures forall i :: |r| <= i < |s| ==> s[i] == c
    ensures r != "" ==> r[|r| - 1] != c
  {
    if s != "" && s[|s| - 1] == c then StripEnd(s[..|s| - 1], c) else s
  }

  function Sign(negative: bool): string {
    if negative then "-" else ""
  }

  /** Fixed-point notation with every digit of the coefficient. */
  function Fixed(d: Decimal): string {
    Sign(d.negative) +
    if d.exponent >= 0 then Padded(d.coefficient, 1) + Zeros(d.exponent)
    else
      var k := -d.exponent;
      var digits := Padded(d.coefficient, k + 1);
      digits[..|digits| - k] + "." + digits[|digits| - k..]
  }

  function Render(d: Decimal): string {
    var rendered := if d.coefficient == 0 then "0" else Fixed(d);
    if '.' in rendered then StripEnd(StripEnd(rendered, '0'), '.') else rendered
  }

  type Parser = string -> Option<Decimal>

  predicate Accepts(parse: Parser, value: string) {
    value != "" && parse(value).Some? && value == Render(parse(value).value)
  }

  // ---------------------------------------------------------------------------
  // The canonical grammar
  // ---------------------------------------------------------------------------

  predicate Whole(s: string) {
    AllDigits(s) && s != "" && (s == "0" || s[0] != '0')
  }

  predicate Fraction(s: string) {
    AllDigits(s) && (s == "" || s[|s| - 1] != '0')
  }

  /** A canonical string, taken apart. */
  datatype Parts = Parts(negative: bool, whole: string, fraction: string)

  predicate CanonicalParts(p: Parts) {
    Whole(p.whole) && Fraction(p.fraction) && !(p.negative && p.whole == "0" && p.fraction == "")
  }

  function Join(p: Parts): string {
    Sign(p.negative) + p.whole + (if p.fraction == "" then "" else "." + p.fraction)
  }

  /** Optional minus, no leading zeros, no trailing fractional zeros, no exponent, no
      negative zero. */
  ghost predicate Canonical(s: string) {
    exists p :: CanonicalParts(p) && Join(p) == s
  }

  function ReadParts(p: Parts): Decimal
    requires CanonicalParts(p)
  {
    Decimal(p.negative, Number(p.whole + p.fraction), -|p.fraction|)
  }

  /** The parser reads every canonical string as the number it spells. */
  ghost predicate ReadsCanonical(parse: Parser) {
    forall p :: CanonicalParts(p) ==> parse(Join(p)) == Some(ReadParts(p))
  }

  lemma RenderWhole(p: Parts)
    requires CanonicalParts(p) && p.fraction == ""
    ensures Render(ReadParts(p)) == Join(p)
  {
    assert p.whole + p.fraction == p.whole;
    PaddedInverse(p.whole, 1);
    NoPoint(p);
    var d := ReadParts(p);
    if d.coefficient == 0 {
      ZeroNumber(p.whole);
      assert p.whole[0] == '0';
    } else {
      assert Fixed(d) == Join(p);
    }
  }

  /** With a fraction the fixed-point notation is already the whole string. */
  lemma FixedFraction(p: Parts)
    requires CanonicalParts(p) && p.fraction != ""
    ensures ReadParts(p).coefficient != 0 && Fixed(ReadParts(p)) == Join(p)
  {
    hide Padded, Number;
    var digits, k := p.whole + p.fraction, |p.fraction|;
    assert digits[..|digits| - k] == p.whole && digits[|digits| - k..] == p.fraction;
    PaddedInverse(digits, k + 1);
    assert digits[|digits| - 1] == p.fraction[k - 1];
    if Number(digits) == 0 {
      ZeroNumber(digits);
    }
    assert p.whole + "." + p.fraction == p.whole + ("." + p.fraction);
  }

  lemma StripsNothing(p: Parts)
    requires CanonicalParts(p) && p.fraction != ""
    ensures '.' in Join(p) && StripEnd(StripEnd(Join(p), '0'), '.') == Join(p)
  {
  }

  /** Rendering what was read gives the string back. */
  lemma RenderOfRead(p: Parts)
    requires CanonicalParts(p)
    ensures Render(ReadParts(p)) == Join(p)
  {
    hide ReadParts, Join, Fixed, CanonicalParts;
    if p.fraction == "" {
      RenderWhole(p);
    } else {
      FixedFraction(p);
      StripsNothing(p);
    }
  }

  lemma NoPoint(p: Parts)
    requires CanonicalParts(p) && p.fraction == ""
    ensures '.' !in Join(p)
  {
  }

  // ---------------------------------------------------------------------------
  // Every rendering is canonical
  // ---------------------------------------------------------------------------

  /** The parts of what a decimal renders to. */
  function PartsOf(d: Decimal): Parts {
    if d.coefficient == 0 then Parts(false, "0", "")
    else if d.exponent >= 0 then Parts(d.negative, Padded(d.coefficient, 1) + Zeros(d.exponent), "")
    else
      var k := -d.exponent;
      var digits := Padded(d.coefficient, k + 1);
      Parts(d.negative, digits[..|digits| - k], StripEnd(digits[|digits| - k..], '0'))
  }

  lemma LeadingDigit(c: nat, width: nat)
    requires c > 0
    ensures |Padded(c, width)| >= 1
    ensures |Padded(c, width)| > width ==> Padded(c, width)[0] != '0'
    ensures |Padded(c, width)| == 1 ==> Padded(c, width)[0] != '0'
  {
    var digits := Padded(c, width);
    PaddedReads(c, width);
    if |digits| > width {
      PaddedLeads(c, width);
    }
    if digits == "0" {
      DigitOfValue('0');
      assert digits[..0] == "";
    }
  }

  lemma PartsAreCanonical(d: Decimal)
    ensures CanonicalParts(PartsOf(d))
  {
    if d.coefficient == 0 {
    } else if d.exponent >= 0 {
      LeadingDigit(d.coefficient, 1);
      assert PartsOf(d).whole[0] == Padded(d.coefficient, 1)[0];
    } else {
      FractionalPartsAreCanonical(d);
    }
  }

  lemma WholePart(digits: string, k: nat)
    requires AllDigits(digits) && |digits| >= k + 1
    requires |digits| > k + 1 ==> digits[0] != '0'
    ensures Whole(digits[..|digits| - k])
  {
  }

  /** Digits that are all zero spell zero. */
  lemma NotAllZeros(digits: string, k: nat)
    requires AllDigits(digits) && |digits| >= k + 1 && Number(digits) > 0
    ensures !(digits[..|digits| - k] == "0" && StripEnd(digits[|digits| - k..], '0') == "")
  {
    if digits[..|digits| - k] == "0" && StripEnd(digits[|digits| - k..], '0') == "" {
      assert digits == "0" + digits[|digits| - k..];
      assert digits == Zeros(k + 1);
      ZerosAreZero(k + 1);
      assert false;
    }
  }

  lemma RenderPointed(d: Decimal)
    requires d.coefficient != 0 && '.' in Fixed(d)
    ensures Render(d) == StripEnd(StripEnd(Fixed(d), '0'), '.')
  {
  }

  lemma PartsPointed(d: Decimal)
    requires d.coefficient != 0 && d.exponent < 0
    ensures var k := -d.exponent;
            var digits := Padded(d.coefficient, k + 1);
            PartsOf(d) == Parts(d.negative, digits[..|digits| - k], StripEnd(digits[|digits| - k..], '0'))
  {
  }

  lemma FractionalPartsAreCanonical(d: Decimal)
    requires d.coefficient > 0 && d.exponent < 0
    ensures CanonicalParts(PartsOf(d))
  {
    hide Padded, Number, PartsOf, Whole, StripEnd;
    var k := -d.exponent;
    var digits := Padded(d.coefficient, k + 1);
    LeadingDigit(d.coefficient, k + 1);
    PaddedReads(d.coefficient, k + 1);
    WholePart(digits, k);
    NotAllZeros(digits, k);
    PartsPointed(d);
    StrippedFraction(digits[|digits| - k..]);
  }

  lemma StrippedFraction(tail: string)
    requires AllDigits(tail)
    ensures Fraction(StripEnd(tail, '0'))
  {
  }

  lemma ZerosAreZero(n: nat)
    ensures Number(Zeros(n)) == 0
  {
    NumberOfZeros("", n);
    assert "" + Zeros(n) == Zeros(n);
  }

  lemma RenderIsJoin(d: Decimal)
    ensures Render(d) == Join(PartsOf(d))
  {
    var p := PartsOf(d);
    PartsAreCanonical(d);
    if d.coefficient == 0 {
    } else if d.exponent >= 0 {
      NoPoint(p);
      assert Fixed(d) == Join(p);
    } else {
      RenderFraction(d);
    }
  }

  lemma {:induction false} StripAppend(head: string, tail: string, c: char)
    requires head != "" && head[|head| - 1] != c
    ensures StripEnd(head + tail, c) == head + StripEnd(tail, c)
  {
    if tail == "" {
      assert head + tail == head;
    } else {
      var s := head + tail;
      assert s[..|s| - 1] == head + tail[..|tail| - 1];
      assert s[|s| - 1] == tail[|tail| - 1];
      if tail[|tail| - 1] == c {
        StripAppend(head, tail[..|tail| - 1], c);
      }
    }
  }

  lemma RenderFraction(d: Decimal)
    requires d.coefficient > 0 && d.exponent < 0
    ensures Render(d) == Join(PartsOf(d))
  {
    hide Render, PartsOf, Fixed, Join, Padded, StripEnd, Sign;
    var k := -d.exponent;
    var digits := Padded(d.coefficient, k + 1);
    var whole, tail := digits[..|digits| - k], digits[|digits| - k..];
    FixedPoint(d, Sign(d.negative) + whole, tail);
    PartsPointed(d);
    RenderDigits(d, whole, tail);
  }

  lemma RenderDigits(d: Decimal, whole: string, tail: string)
    requires d.coefficient > 0 && whole != "" && AllDigits(whole) && AllDigits(tail)
    requires Fixed(d) == Sign(d.negative) + whole + "." + tail
    requires PartsOf(d) == Parts(d.negative, whole, StripEnd(tail, '0'))
    ensures Render(d) == Join(PartsOf(d))
  {
    hide Render, PartsOf, Fixed, Join, StripEnd, Sign;
    var head := Sign(d.negative) + whole;
    StripPoint(head, tail);
    RenderPointed(d);
    JoinPoint(d.negative, whole, StripEnd(tail, '0'), head);
  }

  lemma FixedPoint(d: Decimal, head: string, tail: string)
    requires d.exponent < 0
    requires var k := -d.exponent;
             var digits := Padded(d.coefficient, k + 1);
             head == Sign(d.negative) + digits[..|digits| - k] && tail == digits[|digits| - k..]
    ensures Fixed(d) == head + "." + tail
  {
  }

  lemma JoinPoint(negative: bool, whole: string, fraction: string, head: string)
    requires head == Sign(negative) + whole
    ensures Join(Parts(negative, whole, fraction)) == if fraction == "" then head else head + "." + fraction
  {
  }

  /** Stripping zeros and then the point, on digits with a point in them. */
  lemma StripPoint(head: string, tail: string)
    requires head != "" && IsDigit(head[|head| - 1]) && AllDigits(tail)
    ensures var s, fraction := head + "." + tail, StripEnd(tail, '0');
            && '.' in s
            && StripEnd(StripEnd(s, '0'), '.') == if fraction == "" then head else head + "." + fraction
  {
    var pointed, fraction := head + ".", StripEnd(tail, '0');
    assert (pointed + tail)[|head|] == '.';
    StripAppend(pointed, tail, '0');
    if fraction == "" {
      assert pointed + fraction == pointed && pointed[..|head|] == head;
    } else {
      var s := pointed + fraction;
      assert s[|s| - 1] == fraction[|fraction| - 1];
    }
  }

  // ---------------------------------------------------------------------------
  // The recogniser
  // ---------------------------------------------------------------------------

  /** The recogniser accepts exactly the canonical strings. */
  lemma AcceptsIffCanonical(parse: Parser, value: string)
    requires ReadsCanonical(parse)
    ensures Accepts(parse, value) <==> Canonical(value)
  {
    if Accepts(parse, value) {
      var d := parse(value).value;
      RenderIsJoin(d);
      PartsAreCanonical(d);
    }
    if Canonical(value) {
      var p :| CanonicalParts(p) && Join(p) == value;
      RenderOfRead(p);
      assert parse(Join(p)) == Some(ReadParts(p));
    }
  }

  // ---------------------------------------------------------------------------
  // Values
  // ---------------------------------------------------------------------------

  function Magnitude(coefficient: nat, exponent: int): real {
    if exponent >= 0 then (coefficient * Ten(exponent)) as real
    else (coefficient as real) / (Ten(-exponent) as real)
  }

  function Value(d: Decimal): real {
    if d.negative then -Magnitude(d.coefficient, d.exponent) else Magnitude(d.coefficient, d.exponent)
  }

  lemma {:induction false} TenAdds(a: nat, b: nat)
    ensures Ten(a + b) == Ten(a) * Ten(b)
  {
    if a > 0 {
      TenAdds(a - 1, b);
    }
  }

  /** Dropping m trailing zeros of the fraction changes nothing. */
  lemma ShortenedFraction(c: nat, k: nat, m: nat)
    requires m <= k
    ensures Magnitude(Shift(c, m), -(k as int)) == Magnitude(c, -((k - m) as int))
  {
    hide Magnitude, Ten;
    TenAdds(k - m, m);
    WholeMagnitude(Shift(c, m), k);
    WholeMagnitude(c, k - m);
    RealProduct(c, Ten(m));
    RealProduct(Ten(k - m), Ten(m));
    CancelQuotient(c as real, Ten(k - m) as real, Ten(m) as real);
  }

  lemma RealProduct(a: nat, b: nat)
    ensures (a * b) as real == (a as real) * (b as real)
  {
  }

  lemma WholeMagnitude(c: nat, k: nat)
    ensures Magnitude(c, -(k as int)) == (c as real) / (Ten(k) as real)
  {
  }

  lemma CancelQuotient(x: real, y: real, z: real)
    requires y > 0.0 && z > 0.0
    ensures (x * z) / (y * z) == x / y
  {
  }

  /** Rendering keeps the value. */
  lemma RenderKeepsValue(d: Decimal)
    ensures CanonicalParts(PartsOf(d)) && Render(d) == Join(PartsOf(d))
    ensures Value(ReadParts(PartsOf(d))) == Value(d)
  {
    PartsAreCanonical(d);
    RenderIsJoin(d);
    hide CanonicalParts, Render, Join, Padded, Number;
    if d.coefficient == 0 {
      ZeroMagnitude(d.exponent);
      ZeroRead();
    } else if d.exponent >= 0 {
      PaddedReads(d.coefficient, 1);
      NumberOfZeros(Padded(d.coefficient, 1), d.exponent);
      var p := PartsOf(d);
      assert p.whole + p.fraction == p.whole;
      assert Ten(0) == 1;
    } else {
      FractionKeepsValue(d);
    }
  }

  lemma ZeroMagnitude(exponent: int)
    ensures Magnitude(0, exponent) == 0.0
  {
  }

  lemma ZeroRead()
    ensures CanonicalParts(Parts(false, "0", "")) && Value(ReadParts(Parts(false, "0", ""))) == 0.0
  {
    DigitOfValue('0');
    assert "0" + "" == "0" && "0"[..0] == "";
    assert Number("0") == 0;
    ZeroMagnitude(0);
  }

  lemma FractionKeepsValue(d: Decimal)
    requires d.coefficient > 0 && d.exponent < 0 && CanonicalParts(PartsOf(d))
    ensures Value(ReadParts(PartsOf(d))) == Value(d)
  {
    hide Padded, Number, Magnitude, PartsOf, CanonicalParts, StripEnd;
    var k := -d.exponent;
    var digits := Padded(d.coefficient, k + 1);
    PaddedReads(d.coefficient, k + 1);
    PartsPointed(d);
    StrippedDigits(digits, k);
    var p := PartsOf(d);
    DigitsKeepValue(digits, p.whole + p.fraction, k, k - |p.fraction|);
  }

  /** Digits are what is left of them and the zeros stripped from their end. */
  lemma StrippedDigits(digits: string, k: nat)
    requires AllDigits(digits) && |digits| >= k
    ensures var whole, fraction := digits[..|digits| - k], StripEnd(digits[|digits| - k..], '0');
            && |fraction| <= k
            && AllDigits(whole + fraction)
            && digits == (whole + fraction) + Zeros(k - |fraction|)
  {
  }

  lemma DigitsKeepValue(digits: string, kept: string, k: nat, m: nat)
    requires AllDigits(digits) && AllDigits(kept) && digits == kept + Zeros(m) && m <= k
    ensures Magnitude(Number(kept), -((k - m) as int)) == Magnitude(Number(digits), -(k as int))
  {
    hide Number, Magnitude;
    NumberOfZeros(kept, m);
    ShortenedFraction(Number(kept), k, m);
  }

  /** Different canonical strings spell different values. */
  lemma CanonicalIsUnique(p: Parts, q: Parts)
    requires CanonicalParts(p) && CanonicalParts(q)
    requires Value(ReadParts(p)) == Value(ReadParts(q))
    ensures Join(p) == Join(q)
  {
    hide CanonicalParts, ReadParts, Join, Value;
    if |p.fraction| >= |q.fraction| {
      SameRead(p, q);
    } else {
      SameRead(q, p);
    }
    RenderOfRead(p);
    RenderOfRead(q);
  }

  lemma SameRead(p: Parts, q: Parts)
    requires CanonicalParts(p) && CanonicalParts(q) && |p.fraction| >= |q.fraction|
    requires Value(ReadParts(p)) == Value(ReadParts(q))
    ensures ReadParts(p) == ReadParts(q)
  {
    hide CanonicalParts, Number, Magnitude;
    var c, d := ReadParts(p), ReadParts(q);
    MagnitudeSign(c.coefficient, c.exponent);
    MagnitudeSign(d.coefficient, d.exponent);
    if c.coefficient == 0 {
      ReadZero(p);
      ReadZero(q);
    } else {
      SameCoefficients(p, q);
    }
  }

  lemma SameCoefficients(p: Parts, q: Parts)
    requires CanonicalParts(p) && CanonicalParts(q) && |p.fraction| >= |q.fraction|
    requires Magnitude(ReadParts(p).coefficient, -|p.fraction|)
             == Magnitude(ReadParts(q).coefficient, -|q.fraction|)
    ensures ReadParts(p).coefficient == ReadParts(q).coefficient && |p.fraction| == |q.fraction|
  {
    hide CanonicalParts, ReadParts, Magnitude, Shift;
    var c, d := ReadParts(p).coefficient, ReadParts(q).coefficient;
    SameMagnitude(c, |p.fraction|, d, |q.fraction|);
    var m := |p.fraction| - |q.fraction|;
    if m > 0 {
      ShiftStep(d, m - 1);
      LastFractionDigit(p);
    } else {
      ShiftStep(d, 0);
    }
  }

  lemma MagnitudeSign(c: nat, exponent: int)
    ensures Magnitude(c, exponent) >= 0.0
    ensures Magnitude(c, exponent) == 0.0 <==> c == 0
  {
  }

  /** Zero has one canonical string. */
  lemma ReadZero(p: Parts)
    requires CanonicalParts(p) && ReadParts(p).coefficient == 0
    ensures p == Parts(false, "0", "")
  {
    var digits := p.whole + p.fraction;
    ZeroNumber(digits);
    assert digits[0] == p.whole[0];
    assert p.fraction == digits[|p.whole|..];
  }

  lemma LastFractionDigit(p: Parts)
    requires CanonicalParts(p) && p.fraction != ""
    ensures ReadParts(p).coefficient % 10 != 0
  {
  }

  lemma SameMagnitude(c: nat, k: nat, d: nat, l: nat)
    requires k >= l && Magnitude(c, -(k as int)) == Magnitude(d, -(l as int))
    ensures c == Shift(d, k - l)
  {
    ShortenedFraction(d, k, k - l);
    WholeMagnitude(c, k);
    WholeMagnitude(Shift(d, k - l), k);
    hide Magnitude, Shift;
    var t := Ten(k) as real;
    assert (c as real) / t == (Shift(d, k - l) as real) / t;
    EqualQuotients(c as real, Shift(d, k - l) as real, t);
  }

  lemma EqualQuotients(x: real, y: real, t: real)
    requires t > 0.0 && x / t == y / t
    ensures x == y
  {
  }

  /** Accepted strings and finite values correspond one to one: the only accepted string
      that spells a value is the rendering of that value. */
  lemma OneStringPerValue(parse: Parser, d: Decimal, s: string)
    requires ReadsCanonical(parse)
    ensures Accepts(parse, s) && Value(parse(s).value) == Value(d) <==> s == Render(d)
  {
    hide Render, Join, Value, CanonicalParts, ReadParts;
    RenderKeepsValue(d);
    AcceptsIffCanonical(parse, s);
    assert parse(Join(PartsOf(d))) == Some(ReadParts(PartsOf(d)));
    if Accepts(parse, s) && Value(parse(s).value) == Value(d) {
      var p :| CanonicalParts(p) && Join(p) == s;
      assert parse(Join(p)) == Some(ReadParts(p));
      CanonicalIsUnique(p, PartsOf(d));
    }
  }

  // ---------------------------------------------------------------------------
  // A parser of this kind
  // ---------------------------------------------------------------------------

  function PointAt(s: string): (i: nat)
    ensures i <= |s|
  {
    if s == "" || s[0] == '.' then 0 else 1 + PointAt(s[1..])
  }

  function ParseBody(negative: bool, body: string): Option<Decimal> {
    var i := PointAt(body);
    var whole, fraction := body[..i], if i < |body| then body[i + 1..] else "";
    if AllDigits(whole + fraction) && whole + fraction != ""
    then Some(Decimal(negative, Number(whole + fraction), -|fraction|))
    else None
  }

  /** Fixed-point notation with an optional minus; it also reads strings such as "-00.50". */
  function ParseFixed(s: string): Option<Decimal> {
    if s != "" && s[0] == '-' then ParseBody(true, s[1..]) else ParseBody(false, s)
  }

  lemma {:induction false} PointAfter(whole: string, rest: string)
    requires AllDigits(whole) && (rest == "" || rest[0] == '.')
    ensures PointAt(whole + rest) == |whole|
  {
    if whole == "" {
      assert whole + rest == rest;
    } else {
      assert (whole + rest)[1..] == whole[1..] + rest;
      PointAfter(whole[1..], rest);
    }
  }

  lemma ParsesBody(whole: string, fraction: string)
    requires Whole(whole) && AllDigits(fraction)
    ensures var rest := if fraction == "" then "" else "." + fraction;
            var body := whole + rest;
            && PointAt(body) == |whole| && body[..|whole|] == whole
            && (if |whole| < |body| then body[|whole| + 1..] else "") == fraction
            && body[0] != '-'
  {
    PointAfter(whole, if fraction == "" then "" else "." + fraction);
    hide PointAt;
    assert (whole + ("." + fraction))[|whole| + 1..] == fraction;
  }

  lemma ParsesParts(p: Parts)
    requires CanonicalParts(p)
    ensures ParseFixed(Join(p)) == Some(ReadParts(p))
  {
    var body := p.whole + (if p.fraction == "" then "" else "." + p.fraction);
    ParsesBody(p.whole, p.fraction);
    BodyReads(p, body);
    SignedBody(p.negative, body);
    assert Join(p) == Sign(p.negative) + body;
    hide ParseBody, ReadParts, PointAt, CanonicalParts, ParseFixed, Join, Sign;
  }

  lemma BodyReads(p: Parts, body: string)
    requires CanonicalParts(p)
    requires PointAt(body) == |p.whole| <= |body| && body[..|p.whole|] == p.whole
    requires (if |p.whole| < |body| then body[|p.whole| + 1..] else "") == p.fraction
    ensures ParseBody(p.negative, body) == Some(ReadParts(p))
  {
  }

  lemma SignedBody(negative: bool, body: string)
    requires body != "" && body[0] != '-'
    ensures ParseFixed(Sign(negative) + body) == ParseBody(negative, body)
  {
    hide ParseBody;
    if negative {
      assert ("-" + body)[1..] == body;
    } else {
      assert "" + body == body;
    }
  }

  /** The recogniser's one assumption about its parser is met by this one. */
  lemma FixedReadsCanonical()
    ensures ReadsCanonical(ParseFixed)
  {
    forall p | CanonicalParts(p)
      ensures ParseFixed(Join(p)) == Some(ReadParts(p))
    {
      ParsesParts(p);
    }
  }
}
