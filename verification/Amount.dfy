/** Exact token amounts: an integer count of base units and the number of decimals it is scaled by. */
module Amounts {
  import opened Decimal
  import opened Text
  import opened Wrappers

  const U256_LIMIT: nat := 0x1_0000000000000000_0000000000000000_0000000000000000_0000000000000000

  type U256 = n: nat | n < U256_LIMIT
  type U8 = n: nat | n < 256

  datatype Amount = Amount(raw: U256, decimals: U8)

  datatype DomainError = InvalidAmount | ScaleMismatch | Overflow

  /** The two digit runs around the first dot; without a dot the second one is empty. */
  function SplitPoint(s: string): (string, string) {
    match SplitOnce(s, '.')
    case None => (s, "")
    case Some(parts) => parts
  }

  function ParseUnits(text: string, decimals: U8): Result<Amount, DomainError> {
    var (whole, frac) := SplitPoint(Trim(text));
    if (whole == "" && frac == "") || !AllDigits(whole) || !AllDigits(frac) || |frac| > decimals then
      Err(InvalidAmount)
    else
      var digits := whole + (frac + Zeros(decimals - |frac|));
      ValueAppend(frac, Zeros(decimals - |frac|));
      var raw := Value(if digits == "" then "0" else digits);
      if raw < U256_LIMIT then Ok(Amount(raw, decimals)) else Err(InvalidAmount)
  }

  /** Drops the zeros at the end of a run. */
  function TrimZeros(s: string): (r: string)
    ensures r <= s
    ensures r == "" || r[|r| - 1] != '0'
  {
    if s != "" && s[|s| - 1] == '0' then TrimZeros(s[..|s| - 1]) else s
  }

  /** Puts the point `d` digits from the end and drops the zeros it makes superfluous. */
  function PutPoint(digits: string, d: nat): string
    requires |digits| > d
  {
    var whole, frac := digits[..|digits| - d], TrimZeros(digits[|digits| - d..]);
    if frac == "" then whole else whole + "." + frac
  }

  function FormatUnits(a: Amount): string {
    var digits := Digits(a.raw);
    if a.decimals == 0 then digits else PutPoint(PadLeft(digits, a.decimals + 1), a.decimals)
  }

  function SameScale(a: Amount, b: Amount): Result<(), DomainError> {
    if a.decimals == b.decimals then Ok(()) else Err(ScaleMismatch)
  }

  function CheckedAdd(a: Amount, b: Amount): Result<Amount, DomainError> {
    match SameScale(a, b)
    case Err(e) => Err(e)
    case Ok(_) => if a.raw + b.raw < U256_LIMIT then Ok(Amount(a.raw + b.raw, a.decimals)) else Err(Overflow)
  }

  function CheckedSub(a: Amount, b: Amount): Result<Option<Amount>, DomainError> {
    match SameScale(a, b)
    case Err(e) => Err(e)
    case Ok(_) => Ok(if b.raw > a.raw then None else Some(Amount(a.raw - b.raw, a.decimals)))
  }

  // ----- what a decimal string denotes, independently of the parser

  /** `whole.frac` with at least one digit in all. */
  ghost predicate Plain(whole: string, frac: string) {
    AllDigits(whole) && AllDigits(frac) && whole + frac != ""
  }

  /** `s` is the text of `whole.frac`; the dot may be missing when there is no fraction. */
  ghost predicate Spells(s: string, whole: string, frac: string) {
    Plain(whole, frac) && (s == whole + "." + frac || (frac == "" && s == whole))
  }

  /** `whole.frac` equals raw / 10^decimals, cross-multiplied by powers of ten. */
  ghost predicate Denotes(whole: string, frac: string, raw: nat, decimals: nat)
    requires Plain(whole, frac)
  {
    AllDigits(whole + frac) && Shift(Value(whole + frac), decimals) == Shift(raw, |frac|)
  }

  /** The one way to write an amount: no superfluous zero on either side, no bare dot. */
  ghost predicate Canonical(s: string, whole: string, frac: string) {
    && Spells(s, whole, frac)
    && NoLeadingZero(whole)
    && (if frac == "" then s == whole else s == whole + "." + frac && frac[|frac| - 1] != '0')
  }

  lemma SpelledIsTrimmed(s: string, whole: string, frac: string)
    requires Spells(s, whole, frac)
    ensures Trimmed(s) && Trim(s) == s
    ensures SplitPoint(s) == (whole, frac)
  {
    TrimTrimmed(s);
    forall i | 0 <= i < |s|
      ensures IsDigit(s[i]) || s[i] == '.'
    {
      if s == whole + "." + frac && i > |whole| {
        assert s[i] == frac[i - |whole| - 1];
      }
    }
    assert '.' !in whole;
    if s == whole + "." + frac {
      SplitOnceJoined(whole, '.', frac);
    } else {
      assert SplitOnce(s, '.') == None;
    }
  }

  lemma {:induction false} TrimZerosRest(s: string)
    ensures s == TrimZeros(s) + Zeros(|s| - |TrimZeros(s)|)
  {
    if s != "" && s[|s| - 1] == '0' {
      TrimZerosRest(s[..|s| - 1]);
    }
  }

  lemma ShiftedEqual(value: nat, raw: nat, decimals: nat, fraction: nat)
    requires fraction <= decimals
    ensures Shift(value, decimals) == Shift(raw, fraction) <==> raw == Shift(value, decimals - fraction)
  {
    ShiftTwice(value, decimals - fraction, fraction);
    if Shift(value, decimals) == Shift(raw, fraction) {
      ShiftInjective(raw, Shift(value, decimals - fraction), fraction);
    }
  }

  /** The value of the digits with the fraction padded to `decimals` places. */
  lemma PaddedShift(whole: string, frac: string, decimals: nat)
    requires AllDigits(whole) && AllDigits(frac) && |frac| <= decimals
    ensures AllDigits(frac + Zeros(decimals - |frac|)) && AllDigits(whole + frac)
    ensures AllDigits(whole + (frac + Zeros(decimals - |frac|)))
    ensures Value(whole + (frac + Zeros(decimals - |frac|))) == Shift(Value(whole + frac), decimals - |frac|)
  {
    var zeros := Zeros(decimals - |frac|);
    ValueZeros(decimals - |frac|);
    ValueAppend(whole, frac);
    ValueAppend(frac, zeros);
    ValueAppend(whole + frac, zeros);
    assert whole + (frac + zeros) == (whole + frac) + zeros;
  }

  /** Padding the fraction to `decimals` digits gives the one count that `whole.frac` denotes. */
  lemma PaddedValue(whole: string, frac: string, decimals: nat)
    requires Plain(whole, frac) && |frac| <= decimals
    ensures AllDigits(whole + (frac + Zeros(decimals - |frac|)))
    ensures forall raw: nat :: Denotes(whole, frac, raw, decimals) <==>
                               raw == Value(whole + (frac + Zeros(decimals - |frac|)))
  {
    PaddedShift(whole, frac, decimals);
    forall raw: nat
      ensures Denotes(whole, frac, raw, decimals) <==> raw == Shift(Value(whole + frac), decimals - |frac|)
    {
      ShiftedEqual(Value(whole + frac), raw, decimals, |frac|);
    }
  }

  /**
   * Acceptance and meaning of the parser in one statement: it accepts exactly the trimmed texts that spell a plain
   * decimal with at most `decimals` fraction digits and a base-unit count below 2^256, and what it returns is the one
   * count that the text denotes, never a rounded one.
   */
  lemma ParseExact(text: string, decimals: U8, whole: string, frac: string)
    requires Spells(Trim(text), whole, frac)
    ensures ParseUnits(text, decimals).Ok? <==>
            |frac| <= decimals && exists raw: nat :: raw < U256_LIMIT && Denotes(whole, frac, raw, decimals)
    ensures ParseUnits(text, decimals).Ok? ==>
              && ParseUnits(text, decimals).value.decimals == decimals
              && forall raw: nat :: Denotes(whole, frac, raw, decimals) <==> raw == ParseUnits(text, decimals).value.raw
  {
    SpelledIsTrimmed(Trim(text), whole, frac);
    if |frac| <= decimals {
      PaddedValue(whole, frac, decimals);
      var exact := Value(whole + (frac + Zeros(decimals - |frac|)));
      assert Denotes(whole, frac, exact, decimals);
      ParsedValue(text, decimals, whole, frac);
    }
  }

  lemma ParsedValue(text: string, decimals: U8, whole: string, frac: string)
    requires Plain(whole, frac) && SplitPoint(Trim(text)) == (whole, frac) && |frac| <= decimals
    ensures AllDigits(whole + (frac + Zeros(decimals - |frac|)))
    ensures var exact := Value(whole + (frac + Zeros(decimals - |frac|)));
            ParseUnits(text, decimals) == if exact < U256_LIMIT then Ok(Amount(exact, decimals)) else Err(InvalidAmount)
  {
    ValueAppend(frac, Zeros(decimals - |frac|));
    assert whole + frac != "";
    assert whole + (frac + Zeros(decimals - |frac|)) != "";
  }

  /** Texts that do not spell a plain decimal are refused. */
  lemma ParseRejects(text: string, decimals: U8)
    requires forall whole, frac :: !Spells(Trim(text), whole, frac)
    ensures ParseUnits(text, decimals) == Err(InvalidAmount)
  {
    var (whole, frac) := SplitPoint(Trim(text));
    assert !Spells(Trim(text), whole, frac);
  }

  /** The digit run the printer splits has the amount's value and a digit before the point. */
  lemma PaddedDigits(raw: nat, d: nat)
    ensures AllDigits(PadLeft(Digits(raw), d + 1)) && Value(PadLeft(Digits(raw), d + 1)) == raw
    ensures |PadLeft(Digits(raw), d + 1)| > d
    ensures |PadLeft(Digits(raw), d + 1)| == d + 1 || PadLeft(Digits(raw), d + 1)[0] != '0'
  {
    DigitsDenote(raw);
    PadValue(raw, d + 1);
  }

  lemma PointDenotes(digits: string, d: nat, whole: string, frac: string)
    requires AllDigits(digits) && |digits| > d
    requires whole == digits[..|digits| - d] && frac == TrimZeros(digits[|digits| - d..])
    ensures Plain(whole, frac) && Denotes(whole, frac, Value(digits), d)
  {
    TrimZerosRest(digits[|digits| - d..]);
    assert digits == whole + (frac + Zeros(d - |frac|));
    assert AllDigits(whole) && AllDigits(frac);
    PaddedValue(whole, frac, d);
  }

  lemma PointCanonical(digits: string, d: nat, whole: string, frac: string)
    requires |digits| > d
    requires whole == digits[..|digits| - d] && frac == TrimZeros(digits[|digits| - d..])
    requires Plain(whole, frac)
    requires |digits| == d + 1 || digits[0] != '0'
    ensures Canonical(PutPoint(digits, d), whole, frac)
  {
  }

  /** At scale 0 the point falls behind the last digit and is dropped with the empty fraction. */
  lemma FormatIsPoint(a: Amount, digits: string)
    requires digits == PadLeft(Digits(a.raw), a.decimals as nat + 1) && |digits| > a.decimals
    ensures FormatUnits(a) == PutPoint(digits, a.decimals)
  {
    if a.decimals == 0 {
      assert digits[|digits|..] == "" && digits[..|digits|] == digits;
    }
  }

  /** The parts the printer writes around the point. */
  lemma FormatParts(a: Amount) returns (whole: string, frac: string)
    ensures Canonical(FormatUnits(a), whole, frac)
    ensures |frac| <= a.decimals
    ensures Denotes(whole, frac, a.raw, a.decimals)
  {
    var d: nat := a.decimals;
    PaddedDigits(a.raw, d);
    var digits := PadLeft(Digits(a.raw), d + 1);
    var split := |digits| - d;
    whole, frac := digits[..split], TrimZeros(digits[split..]);
    PointDenotes(digits, d, whole, frac);
    PointCanonical(digits, d, whole, frac);
    FormatIsPoint(a, digits);
  }

  /** Printing then parsing returns the amount, for every count below 2^256 and every scale. */
  lemma ParseFormat(a: Amount)
    ensures ParseUnits(FormatUnits(a), a.decimals) == Ok(a)
  {
    var whole, frac := FormatParts(a);
    SpelledIsTrimmed(FormatUnits(a), whole, frac);
    ParseExact(FormatUnits(a), a.decimals, whole, frac);
  }

  /** With the same number of digits behind the point, the value determines the digits on both sides. */
  lemma PaddedUnique(whole: string, pad: string, whole': string, pad': string, d: nat)
    requires AllDigits(whole) && AllDigits(pad) && AllDigits(whole') && AllDigits(pad') && |pad| == |pad'| == d
    requires NoLeadingZero(whole) && NoLeadingZero(whole')
    requires AllDigits(whole + pad) && AllDigits(whole' + pad') && Value(whole + pad) == Value(whole' + pad')
    ensures whole == whole' && pad == pad'
  {
    hide Value, Shift;
    ValueAppend(whole, pad);
    ValueAppend(whole', pad');
    ValueBelow(pad);
    ValueBelow(pad');
    ShiftQuotient(Value(whole), Value(pad), Value(whole'), Value(pad'), d);
    CanonicalUnique(whole, whole');
    SameLengthUnique(pad, pad');
  }

  /** Two canonical texts with the same value are the same text. */
  lemma CanonicalIsUnique(s: string, whole: string, frac: string, s': string, whole': string, frac': string, raw: nat, d: nat)
    requires Canonical(s, whole, frac) && Canonical(s', whole', frac')
    requires |frac| <= d && |frac'| <= d
    requires Denotes(whole, frac, raw, d) && Denotes(whole', frac', raw, d)
    ensures s == s'
  {
    hide Value, Shift, TrimZeros;
    var pad, pad' := frac + Zeros(d - |frac|), frac' + Zeros(d - |frac'|);
    PaddedValue(whole, frac, d);
    PaddedValue(whole', frac', d);
    PaddedUnique(whole, pad, whole', pad', d);
    TrimZerosAppend(frac, d - |frac|);
    TrimZerosAppend(frac', d - |frac'|);
  }

  lemma {:induction false} TrimZerosAppend(f: string, n: nat)
    requires f == "" || f[|f| - 1] != '0'
    ensures TrimZeros(f + Zeros(n)) == f
  {
    if n == 0 {
      assert f + Zeros(0) == f;
    } else {
      TrimZerosAppend(f, n - 1);
      assert (f + Zeros(n))[..|f| + n - 1] == f + Zeros(n - 1);
    }
  }

  /**
   * Parsing then printing normalises: every accepted text is turned into the only canonical text of its value, and a
   * text that is canonical already comes back unchanged.
   */
  lemma FormatParse(text: string, decimals: U8)
    requires ParseUnits(text, decimals).Ok?
    ensures exists whole, frac :: Canonical(FormatUnits(ParseUnits(text, decimals).value), whole, frac)
    ensures forall whole, frac :: Canonical(text, whole, frac) ==> FormatUnits(ParseUnits(text, decimals).value) == text
  {
    var a := ParseUnits(text, decimals).value;
    var whole', frac' := FormatParts(a);
    forall whole, frac | Canonical(text, whole, frac)
      ensures FormatUnits(a) == text
    {
      SpelledIsTrimmed(text, whole, frac);
      ParseExact(text, decimals, whole, frac);
      CanonicalIsUnique(text, whole, frac, FormatUnits(a), whole', frac', a.raw, decimals);
    }
  }

  /** At one scale no two amounts print alike. */
  lemma FormatInjective(a: Amount, b: Amount)
    requires a.decimals == b.decimals
    requires FormatUnits(a) == FormatUnits(b)
    ensures a == b
  {
    ParseFormat(a);
    ParseFormat(b);
  }

  /** Subtraction undoes addition, and both refuse mixed scales; nothing wraps. */
  lemma AddThenSub(a: Amount, b: Amount)
    ensures CheckedAdd(a, b).Ok? <==> a.decimals == b.decimals && a.raw + b.raw < U256_LIMIT
    ensures CheckedAdd(a, b).Ok? ==> CheckedSub(CheckedAdd(a, b).value, b) == Ok(Some(a))
    ensures CheckedSub(a, b).Ok? && CheckedSub(a, b).value.Some? ==> CheckedAdd(CheckedSub(a, b).value.value, b) == Ok(a)
    ensures CheckedSub(a, b) == Ok(None) <==> a.decimals == b.decimals && a.raw < b.raw
  {
  }

  /** A sum is the sum of the counts at the common scale. */
  lemma AddMeans(a: Amount, b: Amount)
    requires a.decimals == b.decimals
    ensures CheckedAdd(a, b) == if a.raw + b.raw < U256_LIMIT then Ok(Amount(a.raw + b.raw, a.decimals)) else Err(Overflow)
    ensures CheckedSub(a, b) == Ok(if a.raw >= b.raw then Some(Amount(a.raw - b.raw, a.decimals)) else None)
  {
  }
}
