/**
 * Which JSON numbers fit PostgreSQL's numeric type: the digit-counting check of the metadata validator, against the
 * true value of the number.
 */
module NumericRange {
  import opened Prelude
  import opened Decimal

  const MAX_INTEGER_DIGITS: nat := 131072
  const MAX_FRACTIONAL_DIGITS: nat := 16383
  const MAX_METADATA_BYTES: nat := 0x4000

  // ---------------------------------------------------------------- the check

  /** Position of the first character of s that occurs in chars, or -1. */
  function IndexAny(s: string, chars: string): int {
    if s == "" then -1
    else if s[0] in chars then 0
    else
      var rest := IndexAny(s[1..], chars);
      if rest < 0 then -1 else rest + 1
  }

  function TrimLeftZeros(s: string): string {
    if s != "" && s[0] == '0' then TrimLeftZeros(s[1..]) else s
  }

  /** The exponent, or None when it is malformed or has more than six significant digits. */
  function ParseExponent(text: string): Option<int> {
    if text == "" then None
    else
      var negative := text[0] == '-';
      var unsigned := if text[0] == '+' || text[0] == '-' then text[1..] else text;
      if unsigned == "" || !AllDigits(unsigned) then None
      else
        var digits := TrimLeftZeros(unsigned);
        TrimmedDenotes(unsigned);
        if digits == "" then Some(0)
        else if |digits| > 6 then None
        else if negative then Some(0 - Value(digits))
        else Some(Value(digits))
  }

  predicate FitsDigits(integerPart: string, fractionalPart: string, exponent: int) {
    var digits := integerPart + fractionalPart;
    var significant := TrimLeftZeros(digits);
    var leadingZeros := |digits| - |significant|;
    if significant == "" then true
    else
      var decimalPoint := |integerPart| + exponent - leadingZeros;
      var significantDigits := |digits| - leadingZeros;
      var integerDigits := if decimalPoint > 0 then decimalPoint else 0;
      var fractionalDigits := if decimalPoint < significantDigits then significantDigits - decimalPoint else 0;
      integerDigits <= MAX_INTEGER_DIGITS && fractionalDigits <= MAX_FRACTIONAL_DIGITS
  }

  predicate AcceptsMantissa(raw: string, exponent: int) {
    var point := IndexAny(raw, ".");
    IndexAnyBounds(raw, ".");
    if point >= 0 && IndexAny(raw[point + 1..], ".") >= 0 then false
    else
      var integerPart := if point >= 0 then raw[..point] else raw;
      var fractionalPart := if point >= 0 then raw[point + 1..] else "";
      if integerPart == "" || !AllDigits(integerPart) || !AllDigits(fractionalPart) then false
      else FitsDigits(integerPart, fractionalPart, exponent)
  }

  predicate AcceptsUnsigned(raw: string) {
    var mark := IndexAny(raw, "eE");
    IndexAnyBounds(raw, "eE");
    if raw == "" then false
    else if mark < 0 then AcceptsMantissa(raw, 0)
    else if IndexAny(raw[mark + 1..], "eE") >= 0 then false
    else
      match ParseExponent(raw[mark + 1..])
      case None => false
      case Some(exponent) => AcceptsMantissa(raw[..mark], exponent)
  }

  /** The validator: true means no error. */
  predicate Accepts(number: string) {
    if number == "" then false else AcceptsUnsigned(if number[0] == '-' then number[1..] else number)
  }

  // ---------------------------------------------------------------- JSON numbers and their values

  datatype Exponent = Exponent(mark: char, sign: string, digits: string)

  /** A decimal number in its parts. */
  datatype JsonNumber = JsonNumber(negative: bool, integer: string, fraction: Option<string>,
                                   exponent: Option<Exponent>)

  /** What the validator can take apart: leading zeros and an empty fraction are no obstacle. */
  ghost predicate Readable(n: JsonNumber) {
    && n.integer != "" && AllDigits(n.integer)
    && (n.fraction.Some? ==> AllDigits(n.fraction.value))
    && (n.exponent.Some? ==>
          var e := n.exponent.value;
          && (e.mark == 'e' || e.mark == 'E')
          && (e.sign == "" || e.sign == "+" || e.sign == "-")
          && e.digits != "" && AllDigits(e.digits))
  }

  /** A number by the grammar of RFC 8259, section 6. */
  ghost predicate WellFormed(n: JsonNumber) {
    Readable(n) && Canonical(n.integer) && (n.fraction.Some? ==> n.fraction.value != "")
  }

  function ExponentText(n: JsonNumber): string {
    if n.exponent.None? then "" else n.exponent.value.sign + n.exponent.value.digits
  }

  function MantissaText(n: JsonNumber): string {
    n.integer + if n.fraction.None? then "" else "." + n.fraction.value
  }

  function Text(n: JsonNumber): string {
    (if n.negative then "-" else "") + MantissaText(n)
    + (if n.exponent.None? then "" else [n.exponent.value.mark] + ExponentText(n))
  }

  function FractionDigits(n: JsonNumber): string {
    if n.fraction.None? then "" else n.fraction.value
  }

  /** The mantissa without its point. */
  function Digits(n: JsonNumber): string {
    n.integer + FractionDigits(n)
  }

  ghost function ExponentValue(n: JsonNumber): int
    requires Readable(n)
  {
    if n.exponent.None? then 0
    else
      var magnitude: int := Value(n.exponent.value.digits);
      if n.exponent.value.sign == "-" then 0 - magnitude else magnitude
  }

  /** value * 10^k. */
  ghost function Tenfold(value: nat, k: nat): nat {
    if k == 0 then value else 10 * Tenfold(value, k - 1)
  }

  /** By how many places the exponent moves the digits of the mantissa, read as one integer. */
  ghost function Shift(n: JsonNumber): int
    requires Readable(n)
  {
    ExponentValue(n) - |FractionDigits(n)|
  }

  /** The absolute value of the number as an exact fraction: Numerator / Denominator. */
  ghost function Numerator(n: JsonNumber): nat
    requires Readable(n)
  {
    DigitsDenote(n);
    if Shift(n) >= 0 then Tenfold(Value(Digits(n)), Shift(n)) else Value(Digits(n))
  }

  ghost function Denominator(n: JsonNumber): nat
    requires Readable(n)
  {
    if Shift(n) >= 0 then 1 else Pow10(-Shift(n))
  }

  /** Digits after the point once the exponent is applied; trailing zeros count, as they do in PostgreSQL. */
  ghost function Scale(n: JsonNumber): nat
    requires Readable(n)
  {
    var scale := |FractionDigits(n)| - ExponentValue(n);
    if scale > 0 then scale else 0
  }

  /** The absolute value lies below 10^limit. */
  ghost predicate Below(n: JsonNumber, limit: nat)
    requires Readable(n)
  {
    Numerator(n) < Tenfold(Denominator(n), limit)
  }

  ghost predicate InRange(n: JsonNumber)
    requires Readable(n)
  {
    Below(n, MAX_INTEGER_DIGITS) && Scale(n) <= MAX_FRACTIONAL_DIGITS
  }

  lemma DigitsDenote(n: JsonNumber)
    requires Readable(n)
    ensures AllDigits(Digits(n))
  {
  }

  // ---------------------------------------------------------------- text

  lemma {:induction false} IndexAnyBounds(s: string, chars: string)
    ensures -1 <= IndexAny(s, chars) < |s|
  {
    if s != "" { IndexAnyBounds(s[1..], chars); }
  }

  lemma {:induction false} IndexAnyAbsent(s: string, chars: string)
    requires forall i :: 0 <= i < |s| ==> s[i] !in chars
    ensures IndexAny(s, chars) == -1
  {
    if s != "" { IndexAnyAbsent(s[1..], chars); }
  }

  lemma {:induction false} IndexAnyFirst(s: string, c: char, t: string, chars: string)
    requires c in chars && forall i :: 0 <= i < |s| ==> s[i] !in chars
    ensures IndexAny(s + [c] + t, chars) == |s|
  {
    if s != "" {
      IndexAnyFirst(s[1..], c, t, chars);
      assert (s + [c] + t)[1..] == s[1..] + [c] + t;
    }
  }

  lemma {:induction false} TrimmedDenotes(s: string)
    requires AllDigits(s)
    ensures var t := TrimLeftZeros(s);
            && |t| <= |s| && AllDigits(t) && Value(t) == Value(s) && (t != "" ==> t[0] != '0')
            && (t == "" <==> Value(s) == 0)
  {
    if s != "" && s[0] == '0' {
      TrimmedDenotes(s[1..]);
      assert s == [s[0]] + s[1..];
      ValueOfConcat([s[0]], s[1..]);
      assert [s[0]][..0] == "";
    } else if s != "" {
      PositiveValue(s);
    }
  }

  lemma MantissaSplits(n: JsonNumber, exponent: int)
    requires Readable(n)
    ensures AcceptsMantissa(MantissaText(n), exponent) == FitsDigits(n.integer, FractionDigits(n), exponent)
  {
    var raw := MantissaText(n);
    if n.fraction.Some? {
      IndexAnyFirst(n.integer, '.', n.fraction.value, ".");
      IndexAnyAbsent(n.fraction.value, ".");
      assert raw == n.integer + ['.'] + n.fraction.value;
      assert raw[..|n.integer|] == n.integer && raw[|n.integer| + 1..] == n.fraction.value;
    } else {
      IndexAnyAbsent(n.integer, ".");
      assert raw == n.integer;
    }
  }

  lemma MarkSplits(mantissa: string, mark: char, tail: string)
    requires mantissa != "" && mark in "eE"
    requires forall i :: 0 <= i < |mantissa| ==> mantissa[i] !in "eE"
    requires forall i :: 0 <= i < |tail| ==> tail[i] !in "eE"
    ensures var exponent := ParseExponent(tail);
            AcceptsUnsigned(mantissa + [mark] + tail)
            == (exponent.Some? && AcceptsMantissa(mantissa, exponent.value))
  {
    var raw := mantissa + [mark] + tail;
    IndexAnyFirst(mantissa, mark, tail, "eE");
    IndexAnyAbsent(tail, "eE");
    assert raw[..|mantissa|] == mantissa && raw[|mantissa| + 1..] == tail;
  }

  lemma SignDrops(n: JsonNumber)
    requires Readable(n)
    ensures var raw := MantissaText(n) + (if n.exponent.None? then "" else [n.exponent.value.mark] + ExponentText(n));
            Accepts(Text(n)) == AcceptsUnsigned(raw)
  {
    var raw := MantissaText(n) + (if n.exponent.None? then "" else [n.exponent.value.mark] + ExponentText(n));
    assert raw[0] == n.integer[0];
    if n.negative {
      assert Text(n) == "-" + raw;
      assert Text(n)[1..] == raw;
    } else {
      assert Text(n) == raw;
    }
  }

  lemma PlainSplits(n: JsonNumber)
    requires Readable(n) && n.exponent.None?
    ensures Accepts(Text(n)) == FitsDigits(n.integer, FractionDigits(n), 0)
  {
    SignDrops(n);
    IndexAnyAbsent(MantissaText(n), "eE");
    assert MantissaText(n) + "" == MantissaText(n);
    MantissaSplits(n, 0);
  }

  lemma MarkedSplits(n: JsonNumber)
    requires Readable(n) && n.exponent.Some?
    ensures var exponent := ParseExponent(ExponentText(n));
            Accepts(Text(n)) == (exponent.Some? && FitsDigits(n.integer, FractionDigits(n), exponent.value))
  {
    SignDrops(n);
    var mantissa, mark, tail := MantissaText(n), n.exponent.value.mark, ExponentText(n);
    assert mantissa + ([mark] + tail) == mantissa + [mark] + tail;
    MarkSplits(mantissa, mark, tail);
    if ParseExponent(tail).Some? { MantissaSplits(n, ParseExponent(tail).value); }
  }

  /** Trimmed digits count at most six iff they denote less than a million. */
  lemma SixDigits(digits: string)
    requires AllDigits(digits)
    ensures |TrimLeftZeros(digits)| <= 6 <==> Value(digits) < 1_000_000
  {
    TrimmedDenotes(digits);
    var trimmed := TrimLeftZeros(digits);
    assert Pow10(6) == 1_000_000;
    if |trimmed| > 6 {
      ValueAtLeast(trimmed);
      Pow10Monotone(6, |trimmed| - 1);
    } else {
      ValueBelow(trimmed);
      Pow10Monotone(|trimmed|, 6);
    }
  }

  /** The exponent is parsed exactly, except that magnitudes of a million and more are refused. */
  lemma ExponentParses(n: JsonNumber)
    requires Readable(n) && n.exponent.Some?
    ensures ParseExponent(ExponentText(n))
         == if -1_000_000 < ExponentValue(n) < 1_000_000 then Some(ExponentValue(n)) else None
  {
    var e := n.exponent.value;
    SignSplits(e.sign, e.digits);
    TrimmedDenotes(e.digits);
    SixDigits(e.digits);
  }

  lemma SignSplits(sign: string, digits: string)
    requires (sign == "" || sign == "+" || sign == "-") && digits != "" && AllDigits(digits)
    ensures AllDigits(TrimLeftZeros(digits))
    ensures var trimmed := TrimLeftZeros(digits);
            ParseExponent(sign + digits)
            == if trimmed == "" then Some(0)
               else if |trimmed| > 6 then None
               else if sign == "-" then Some(0 - Value(trimmed))
               else Some(Value(trimmed))
  {
    var text := sign + digits;
    if sign == "" {
      assert text == digits && IsDigit(text[0]);
    } else {
      assert text[0] == sign[0] && text[1..] == digits;
    }
    UnsignedParses(text, digits);
  }

  lemma UnsignedParses(text: string, digits: string)
    requires text != "" && digits != "" && AllDigits(digits)
    requires digits == if text[0] == '+' || text[0] == '-' then text[1..] else text
    ensures AllDigits(TrimLeftZeros(digits))
    ensures var trimmed := TrimLeftZeros(digits);
            ParseExponent(text)
            == if trimmed == "" then Some(0)
               else if |trimmed| > 6 then None
               else if text[0] == '-' then Some(0 - Value(trimmed))
               else Some(Value(trimmed))
  {
    TrimmedDenotes(digits);
  }

  // ---------------------------------------------------------------- magnitude

  lemma {:induction false} TenfoldOfPower(m: nat, k: nat)
    ensures Tenfold(Pow10(m), k) == Pow10(m + k)
  {
    if k > 0 { TenfoldOfPower(m, k - 1); }
  }

  lemma {:induction false} TenfoldKeepsDigits(value: nat, d: nat, k: nat)
    requires d > 0 && Pow10(d - 1) <= value < Pow10(d)
    ensures Pow10(d - 1 + k) <= Tenfold(value, k) < Pow10(d + k)
  {
    if k > 0 { TenfoldKeepsDigits(value, d, k - 1); }
  }

  /** A d-digit number lies below a power of ten iff the power is at least d. */
  lemma DigitCount(value: nat, d: nat, limit: nat)
    requires d > 0 && Pow10(d - 1) <= value < Pow10(d)
    ensures value < Pow10(limit) <==> d <= limit
  {
    if d <= limit { Pow10Monotone(d, limit); } else { Pow10Monotone(limit, d - 1); }
  }

  lemma CountUp(value: nat, d: nat, shift: nat, limit: nat)
    requires d > 0 && Pow10(d - 1) <= value < Pow10(d)
    ensures Tenfold(value, shift) < Tenfold(1, limit) <==> d + shift <= limit
  {
    TenfoldKeepsDigits(value, d, shift);
    TenfoldOfPower(0, limit);
    DigitCount(Tenfold(value, shift), d + shift, limit);
  }

  lemma CountDown(value: nat, d: nat, shift: nat, limit: nat)
    requires d > 0 && Pow10(d - 1) <= value < Pow10(d)
    ensures value < Tenfold(Pow10(shift), limit) <==> d - shift <= limit
  {
    TenfoldOfPower(shift, limit);
    DigitCount(value, d, limit + shift);
  }

  /** The range in terms of the number of significant digits. */
  lemma BelowCounts(n: JsonNumber, limit: nat)
    requires Readable(n) && AllDigits(Digits(n)) && Value(Digits(n)) != 0
    ensures TrimLeftZeros(Digits(n)) != ""
    ensures Below(n, limit) <==> |TrimLeftZeros(Digits(n))| + Shift(n) <= limit
  {
    var significant, shift := TrimLeftZeros(Digits(n)), Shift(n);
    TrimmedDenotes(Digits(n));
    ValueAtLeast(significant);
    ValueBelow(significant);
    if shift >= 0 {
      CountUp(Value(significant), |significant|, shift, limit);
    } else {
      CountDown(Value(significant), |significant|, -shift, limit);
    }
  }

  /** What the check computes, in terms of the number of significant digits. */
  lemma FitsCounts(integer: string, fraction: string, exponent: int)
    ensures var d := |TrimLeftZeros(integer + fraction)|;
            FitsDigits(integer, fraction, exponent) <==>
              d == 0 || (d + (exponent - |fraction|) <= MAX_INTEGER_DIGITS
                         && |fraction| - exponent <= MAX_FRACTIONAL_DIGITS)
  {
  }

  /** The digit count decides the range exactly, for a mantissa that is not zero. */
  lemma FitsExactly(n: JsonNumber)
    requires Readable(n) && AllDigits(Digits(n)) && Value(Digits(n)) != 0
    ensures FitsDigits(n.integer, FractionDigits(n), ExponentValue(n)) <==> InRange(n)
  {
    BelowCounts(n, MAX_INTEGER_DIGITS);
    FitsCounts(n.integer, FractionDigits(n), ExponentValue(n));
  }

  /** An exponent of a million or more puts every number short enough to be submitted out of range. */
  lemma HugeExponentsAreOut(n: JsonNumber)
    requires Readable(n) && |Text(n)| <= MAX_METADATA_BYTES
    requires AllDigits(Digits(n)) && Value(Digits(n)) != 0
    requires !(-1_000_000 < ExponentValue(n) < 1_000_000)
    ensures !InRange(n)
  {
    assert |FractionDigits(n)| <= MAX_METADATA_BYTES;
    BelowCounts(n, MAX_INTEGER_DIGITS);
  }

  // ---------------------------------------------------------------- main results

  /**
   * The validator accepts a nonzero decimal number of admissible length iff its absolute value is below 10^131072 and
   * it has at most 16383 digits after the point.
   */
  lemma AcceptsExactlyTheRange(n: JsonNumber)
    requires Readable(n) && |Text(n)| <= MAX_METADATA_BYTES
    requires Numerator(n) != 0
    ensures Accepts(Text(n)) <==> InRange(n)
  {
    ZeroMantissa(n);
    FitsExactly(n);
    if n.exponent.None? {
      PlainSplits(n);
    } else {
      MarkedSplits(n);
      ExponentParses(n);
      if !(-1_000_000 < ExponentValue(n) < 1_000_000) { HugeExponentsAreOut(n); }
    }
  }

  /** A zero is accepted iff its exponent has at most six significant digits; its scale is not looked at. */
  lemma ZeroNeedsSmallExponent(n: JsonNumber)
    requires Readable(n) && Numerator(n) == 0
    ensures Accepts(Text(n)) <==> -1_000_000 < ExponentValue(n) < 1_000_000
  {
    if n.exponent.None? {
      PlainSplits(n);
    } else {
      MarkedSplits(n);
      ExponentParses(n);
    }
    ZeroMantissa(n);
    TrimmedDenotes(Digits(n));
    FitsCounts(n.integer, FractionDigits(n), ExponentValue(n));
  }

  lemma ZeroMantissa(n: JsonNumber)
    requires Readable(n)
    ensures AllDigits(Digits(n)) && (Numerator(n) == 0 <==> Value(Digits(n)) == 0)
  {
    DigitsDenote(n);
    if Shift(n) >= 0 { TenfoldZero(Value(Digits(n)), Shift(n)); }
  }

  lemma {:induction false} TenfoldZero(value: nat, k: nat)
    ensures Tenfold(value, k) == 0 <==> value == 0
  {
    if k > 0 { TenfoldZero(value, k - 1); }
  }

  /** A zero is below every power of ten, so only its scale can take it out of range. */
  lemma ZeroInRangeIff(n: JsonNumber)
    requires Readable(n) && Numerator(n) == 0
    ensures InRange(n) <==> Scale(n) <= MAX_FRACTIONAL_DIGITS
  {
    TenfoldZero(Denominator(n), MAX_INTEGER_DIGITS);
  }

  /**
   * When does the validator decide a zero of admissible length rightly?  Exactly when its exponent is below a million
   * and it has at most 16383 digits after the point, or so many that its exponent is refused.
   */
  lemma ZeroIsDecidedIff(n: JsonNumber)
    requires Readable(n) && |Text(n)| <= MAX_METADATA_BYTES && Numerator(n) == 0
    ensures (Accepts(Text(n)) <==> InRange(n)) <==>
            ExponentValue(n) < 1_000_000 && (Scale(n) <= MAX_FRACTIONAL_DIGITS || ExponentValue(n) <= -1_000_000)
  {
    ZeroNeedsSmallExponent(n);
    ZeroInRangeIff(n);
    assert |FractionDigits(n)| <= MAX_METADATA_BYTES;
  }

  // ---------------------------------------------------------------- what is refused as no number

  lemma {:induction false} IndexAnyFinds(s: string, chars: string)
    ensures IndexAny(s, chars) >= 0 ==> IndexAny(s, chars) < |s| && s[IndexAny(s, chars)] in chars
  {
    if s != "" { IndexAnyFinds(s[1..], chars); }
  }

  lemma CutAt(s: string, i: nat)
    requires i < |s|
    ensures s == s[..i] + ([s[i]] + s[i + 1..])
  {
  }

  lemma IsMark(c: char)
    requires c in "eE"
    ensures c == 'e' || c == 'E'
  {
  }

  lemma MarkAt(raw: string, chars: string, mark: int)
    requires mark == IndexAny(raw, chars)
    ensures -1 <= mark < |raw|
    ensures mark >= 0 ==> raw[mark] in chars && raw == raw[..mark] + ([raw[mark]] + raw[mark + 1..])
  {
    IndexAnyBounds(raw, chars);
    IndexAnyFinds(raw, chars);
    if mark >= 0 { CutAt(raw, mark); }
  }

  lemma MantissaParts(raw: string, exponent: int, point: int)
    requires AcceptsMantissa(raw, exponent) && point == IndexAny(raw, ".") && -1 <= point < |raw|
    ensures point < 0 ==> raw != "" && AllDigits(raw)
    ensures point >= 0 ==> raw[..point] != "" && AllDigits(raw[..point]) && AllDigits(raw[point + 1..])
  {
  }

  lemma MantissaReads(raw: string, exponent: int) returns (integer: string, fraction: Option<string>)
    requires AcceptsMantissa(raw, exponent)
    ensures integer != "" && AllDigits(integer) && (fraction.Some? ==> AllDigits(fraction.value))
    ensures raw == integer + if fraction.None? then "" else "." + fraction.value
  {
    var point := IndexAny(raw, ".");
    MarkAt(raw, ".", point);
    MantissaParts(raw, exponent, point);
    if point >= 0 {
      integer, fraction := raw[..point], Some(raw[point + 1..]);
      assert [raw[point]] == ".";
    } else {
      integer, fraction := raw, None;
      assert raw + "" == raw;
    }
  }

  lemma ExponentReads(text: string) returns (sign: string, digits: string)
    requires ParseExponent(text).Some?
    ensures sign == "" || sign == "+" || sign == "-"
    ensures digits != "" && AllDigits(digits) && text == sign + digits
  {
    if text[0] == '+' || text[0] == '-' {
      sign, digits := [text[0]], text[1..];
    } else {
      sign, digits := "", text;
    }
  }

  /** Where an accepted number without sign has its exponent mark. */
  lemma MarkFound(raw: string) returns (mark: int)
    requires AcceptsUnsigned(raw)
    ensures -1 <= mark < |raw|
    ensures mark < 0 ==> AcceptsMantissa(raw, 0)
    ensures mark >= 0 ==>
              && (raw[mark] == 'e' || raw[mark] == 'E') && ParseExponent(raw[mark + 1..]).Some?
              && AcceptsMantissa(raw[..mark], ParseExponent(raw[mark + 1..]).value)
              && raw == raw[..mark] + ([raw[mark]] + raw[mark + 1..])
  {
    mark := IndexAny(raw, "eE");
    MarkAt(raw, "eE", mark);
    AcceptsParts(raw, mark);
    if mark >= 0 { IsMark(raw[mark]); }
  }

  lemma AcceptsParts(raw: string, mark: int)
    requires AcceptsUnsigned(raw) && mark == IndexAny(raw, "eE") && -1 <= mark < |raw|
    ensures mark < 0 ==> AcceptsMantissa(raw, 0)
    ensures mark >= 0 ==> ParseExponent(raw[mark + 1..]).Some?
    ensures mark >= 0 ==> AcceptsMantissa(raw[..mark], ParseExponent(raw[mark + 1..]).value)
  {
  }

  lemma UnsignedText(integer: string, fraction: Option<string>, exponent: Option<Exponent>)
    ensures var n := JsonNumber(false, integer, fraction, exponent);
            var tail := if exponent.None? then ""
                        else [exponent.value.mark] + (exponent.value.sign + exponent.value.digits);
            Text(n) == MantissaText(n) + tail
  {
    var n := JsonNumber(false, integer, fraction, exponent);
    assert "" + MantissaText(n) == MantissaText(n);
  }

  lemma UnsignedReads(raw: string) returns (n: JsonNumber)
    requires AcceptsUnsigned(raw)
    ensures Readable(n) && !n.negative && Text(n) == raw
  {
    var mark := MarkFound(raw);
    if mark < 0 {
      var integer, fraction := MantissaReads(raw, 0);
      n := JsonNumber(false, integer, fraction, None);
      UnsignedText(integer, fraction, None);
    } else {
      var tail := raw[mark + 1..];
      var sign, digits := ExponentReads(tail);
      var integer, fraction := MantissaReads(raw[..mark], ParseExponent(tail).value);
      var exponent := Some(Exponent(raw[mark], sign, digits));
      n := JsonNumber(false, integer, fraction, exponent);
      UnsignedText(integer, fraction, exponent);
    }
  }

  lemma NegativeText(n: JsonNumber)
    requires !n.negative
    ensures Text(n.(negative := true)) == "-" + Text(n)
  {
    var m := n.(negative := true);
    var tail := if n.exponent.None? then "" else [n.exponent.value.mark] + ExponentText(n);
    assert MantissaText(m) == MantissaText(n) && ExponentText(m) == ExponentText(n);
    Associate("-", MantissaText(n), tail);
    assert "" + MantissaText(n) == MantissaText(n);
  }

  /** Nothing but a decimal number is accepted. */
  lemma AcceptedReads(s: string) returns (n: JsonNumber)
    requires Accepts(s)
    ensures Readable(n) && Text(n) == s
  {
    if s[0] == '-' {
      n := UnsignedReads(s[1..]);
      NegativeText(n);
      n := n.(negative := true);
      assert s == "-" + s[1..];
    } else {
      n := UnsignedReads(s);
    }
  }

  /** A number in range, or a zero whose exponent has at most six significant digits. */
  ghost predicate Admissible(n: JsonNumber) {
    Readable(n) && if Numerator(n) == 0 then -1_000_000 < ExponentValue(n) < 1_000_000 else InRange(n)
  }

  /** Every string of admissible length: it is accepted exactly if it writes such a number. */
  lemma AcceptsExactly(s: string)
    requires |s| <= MAX_METADATA_BYTES
    ensures Accepts(s) <==> exists n :: Admissible(n) && Text(n) == s
  {
    if Accepts(s) {
      var n := AcceptedReads(s);
      AdmissibleAccepted(n);
    }
    if n :| Admissible(n) && Text(n) == s {
      AdmissibleAccepted(n);
    }
  }

  lemma AdmissibleAccepted(n: JsonNumber)
    requires Readable(n) && |Text(n)| <= MAX_METADATA_BYTES
    ensures Accepts(Text(n)) <==> Admissible(n)
  {
    if Numerator(n) == 0 { ZeroNeedsSmallExponent(n); } else { AcceptsExactlyTheRange(n); }
  }

  const ZERO_MILLION := JsonNumber(false, "0", None, Some(Exponent('e', "", "1000000")))
  const TINY_ZERO := JsonNumber(false, "0", None, Some(Exponent('e', "-", "20000")))

  lemma MillionText()
    ensures Text(ZERO_MILLION) == "0e1000000"
  {
  }

  lemma MillionExponent()
    ensures WellFormed(ZERO_MILLION) && ExponentValue(ZERO_MILLION) >= 1_000_000
  {
    ValueAtLeast("1000000");
    assert Pow10(6) == 1_000_000;
  }

  lemma MillionIsZero()
    requires WellFormed(ZERO_MILLION)
    ensures Numerator(ZERO_MILLION) == 0
  {
    ZeroMantissa(ZERO_MILLION);
    assert Digits(ZERO_MILLION) == "0";
    ZerosAreZero("0");
  }

  /** The number 0e1000000 is zero and in range, and is refused. */
  lemma ZeroCanBeRefused()
    ensures WellFormed(ZERO_MILLION) && Numerator(ZERO_MILLION) == 0 && InRange(ZERO_MILLION)
    ensures !Accepts("0e1000000")
  {
    MillionExponent();
    MillionIsZero();
    ZeroInRangeIff(ZERO_MILLION);
    ZeroNeedsSmallExponent(ZERO_MILLION);
    MillionText();
  }

  lemma TinyExponent()
    ensures WellFormed(TINY_ZERO) && ExponentValue(TINY_ZERO) == -20000
  {
    assert "20000" == "2" + "0000" && Pow10(4) == 10_000 && "2"[..0] == "";
    ValueOfConcat("2", "0000");
    ZerosAreZero("0000");
  }

  lemma TinyIsZero()
    requires WellFormed(TINY_ZERO)
    ensures Numerator(TINY_ZERO) == 0
  {
    ZeroMantissa(TINY_ZERO);
    assert Digits(TINY_ZERO) == "0";
    ZerosAreZero("0");
  }

  lemma TinyText()
    ensures Text(TINY_ZERO) == "0e-20000"
  {
  }

  /** The number 0e-20000 has too many digits after the point, and is accepted. */
  lemma ZeroCanBeOutOfRange()
    ensures WellFormed(TINY_ZERO) && Numerator(TINY_ZERO) == 0 && !InRange(TINY_ZERO)
    ensures Accepts("0e-20000")
  {
    TinyExponent();
    TinyIsZero();
    ZeroInRangeIff(TINY_ZERO);
    ZeroNeedsSmallExponent(TINY_ZERO);
    TinyText();
  }

  // ---------------------------------------------------------------- the validator as it executes

  method IsDecimalDigits(value: string) returns (ok: bool)
    ensures ok <==> AllDigits(value)
  {
    for i := 0 to |value|
      invariant forall k :: 0 <= k < i ==> IsDigit(value[k])
    {
      if value[i] < '0' || value[i] > '9' {
        return false;
      }
    }
    ok := true;
  }

  method ParsePostgresNumericExponent(text: string) returns (exponent: Option<int>)
    ensures exponent == ParseExponent(text)
  {
    var raw := text;
    if raw == "" {
      return None;
    }
    var sign := 1;
    if raw[0] == '+' || raw[0] == '-' {
      if raw[0] == '-' {
        sign := -1;
      }
      raw := raw[1..];
    }
    var decimal := IsDecimalDigits(raw);
    if raw == "" || !decimal {
      return None;
    }
    TrimmedDenotes(raw);
    raw := TrimLeftZeros(raw);
    if raw == "" {
      return Some(0);
    }
    if |raw| > 6 {
      return None;
    }
    exponent := Some(sign * Value(raw));
  }

  /** True means no error. */
  method ValidatePostgresJSONBNumber(number: string) returns (ok: bool)
    ensures ok <==> Accepts(number)
  {
    var raw := number;
    if raw == "" {
      return false;
    }
    if raw[0] == '-' {
      raw := raw[1..];
    }
    ok := ValidateUnsigned(raw);
  }

  method ValidateUnsigned(unsigned: string) returns (ok: bool)
    ensures ok <==> AcceptsUnsigned(unsigned)
  {
    var raw := unsigned;
    if raw == "" {
      return false;
    }
    var exponent := 0;
    var exponentIndex := IndexAny(raw, "eE");
    IndexAnyBounds(raw, "eE");
    if exponentIndex >= 0 {
      if IndexAny(raw[exponentIndex + 1..], "eE") >= 0 {
        return false;
      }
      var parsed := ParsePostgresNumericExponent(raw[exponentIndex + 1..]);
      if parsed.None? {
        return false;
      }
      exponent := parsed.value;
      raw := raw[..exponentIndex];
    }
    ok := ValidateMantissa(raw, exponent);
  }

  method ValidateMantissa(raw: string, exponent: int) returns (ok: bool)
    ensures ok <==> AcceptsMantissa(raw, exponent)
  {
    var integerPart, fractionalPart := raw, "";
    var decimalIndex := IndexAny(raw, ".");
    IndexAnyBounds(raw, ".");
    if decimalIndex >= 0 {
      if IndexAny(raw[decimalIndex + 1..], ".") >= 0 {
        return false;
      }
      integerPart := raw[..decimalIndex];
      fractionalPart := raw[decimalIndex + 1..];
    }
    var integerOk := IsDecimalDigits(integerPart);
    var fractionOk := IsDecimalDigits(fractionalPart);
    if integerPart == "" || !integerOk || (fractionalPart != "" && !fractionOk) {
      return false;
    }
    var digits := integerPart + fractionalPart;
    var leadingZeros := |digits| - |TrimLeftZeros(digits)|;
    if leadingZeros == |digits| {
      return true;
    }
    var decimalPoint := |integerPart| + exponent - leadingZeros;
    var significantDigits := |digits| - leadingZeros;
    var integerDigits := 0;
    if decimalPoint > 0 {
      integerDigits := decimalPoint;
    }
    var fractionalDigits := 0;
    if decimalPoint < significantDigits {
      fractionalDigits := significantDigits - decimalPoint;
    }
    if integerDigits > MAX_INTEGER_DIGITS || fractionalDigits > MAX_FRACTIONAL_DIGITS {
      return false;
    }
    ok := true;
  }
}
