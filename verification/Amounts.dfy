/** Amounts in cents as the payment gateway reads and writes them. */
module Amounts {
  import opened Decimal
  import opened Strings

  const MAX_INT64: int := 0x7fff_ffff_ffff_ffff
  const TWO_64: int := 0x1_0000_0000_0000_0000

  datatype Parsed = Amount(cents: int) | ErrSyntax | ErrRange

  /** centsAmountText: "%d.%02d". */
  function CentsAmountText(amount: nat): string {
    Text(amount / 100) + "." + [Digit(amount % 100 / 10), Digit(amount % 10)]
  }

  // ---------------------------------------------------------------- Go's library

  /** strings.Split(s, "."). */
  function SplitDots(s: string): (parts: seq<string>)
    ensures parts != []
  {
    if s == "" then [""]
    else if s[0] == '.' then [""] + SplitDots(s[1..])
    else
      var rest := SplitDots(s[1..]);
      [[s[0]] + rest[0]] + rest[1..]
  }

  datatype Int64 = Some64(value: int) | None64

  /** strconv.ParseInt(s, 10, 64): an optional sign, then at least one digit. */
  function ParseInt(s: string): (r: Int64)
    ensures r.Some64? ==> -MAX_INT64 - 1 <= r.value <= MAX_INT64
  {
    var signed := s != "" && (s[0] == '-' || s[0] == '+');
    var digits := if signed then s[1..] else s;
    if digits == "" || !AllDigits(digits) then None64
    else if signed && s[0] == '-' then
      if Value(digits) <= MAX_INT64 + 1 then Some64(-(Value(digits) as int)) else None64
    else if Value(digits) <= MAX_INT64 then Some64(Value(digits)) else None64
  }

  /** Subtraction of int64 values, wrapping as Go does. */
  function Sub64(x: int, y: int): int {
    if x - y > MAX_INT64 then x - y - TWO_64 else if x - y < -MAX_INT64 - 1 then x - y + TWO_64 else x - y
  }

  /** Go's division truncates toward zero. */
  function Div(x: int, y: int): int
    requires y > 0
  {
    if x < 0 then -((-x) / y) else x / y
  }

  // ---------------------------------------------------------------- parseAmountCents

  /** The loop that pads the fraction with zeros. */
  function Padded(frac: string): (r: string)
    ensures |r| >= 2 && frac <= r && forall i :: |frac| <= i < |r| ==> r[i] == '0'
    ensures |frac| >= 2 ==> r == frac
    decreases if |frac| < 2 then 2 - |frac| else 0
  {
    if |frac| < 2 then Padded(frac + "0") else frac
  }

  function Combine(whole: Int64, minor: Int64): Parsed {
    if whole.None64? || whole.value < 0 then ErrSyntax
    else if minor.None64? then ErrSyntax
    else if whole.value > Div(Sub64(MAX_INT64, minor.value), 100) then ErrRange
    else Amount(whole.value * 100 + minor.value)
  }

  function FromParts(parts: seq<string>): Parsed
    requires parts != []
  {
    if |parts| > 2 || parts[0] == "" then ErrSyntax
    else
      var frac := if |parts| == 1 then "" else parts[1];
      if |frac| > 2 then ErrSyntax else Combine(ParseInt(parts[0]), ParseInt(Padded(frac)))
  }

  function ParseTrimmed(value: string): Parsed {
    if value == "" || value[0] == '-' || value[0] == '+' then ErrSyntax else FromParts(SplitDots(value))
  }

  function ParseAmountCents(text: string): Parsed {
    ParseTrimmed(TrimSpace(text))
  }

  method Pad(text: string) returns (frac: string)
    ensures frac == Padded(text)
  {
    frac := text;
    while |frac| < 2
      invariant Padded(frac) == Padded(text)
      decreases if |frac| < 2 then 2 - |frac| else 0
    {
      frac := frac + "0";
    }
  }

  method ParseAmount(text: string) returns (r: Parsed)
    ensures r == ParseAmountCents(text)
  {
    var value := TrimSpace(text);
    if value == "" || value[0] == '-' || value[0] == '+' { return ErrSyntax; }
    var parts := SplitDots(value);
    if |parts| > 2 || parts[0] == "" { return ErrSyntax; }
    if |parts| == 1 { parts := parts + [""]; }
    if |parts[1]| > 2 { return ErrSyntax; }
    var frac := Pad(parts[1]);
    var whole := ParseInt(parts[0]);
    if whole.None64? || whole.value < 0 { return ErrSyntax; }
    var minor := ParseInt(frac);
    if minor.None64? { return ErrSyntax; }
    if whole.value > Div(Sub64(MAX_INT64, minor.value), 100) { return ErrRange; }
    return Amount(whole.value * 100 + minor.value);
  }

  // ---------------------------------------------------------------- what parsing means

  predicate DotFree(s: string) {
    forall i :: 0 <= i < |s| ==> s[i] != '.'
  }

  lemma {:induction false} NoDots(s: string)
    requires DotFree(s)
    ensures SplitDots(s) == [s]
  {
    if s != "" {
      NoDots(s[1..]);
      assert [s[0]] + s[1..] == s;
    }
  }

  lemma {:induction false} OneDot(a: string, b: string)
    requires DotFree(a) && DotFree(b)
    ensures SplitDots(a + "." + b) == [a, b]
  {
    if a == "" {
      assert (a + "." + b)[1..] == b;
      NoDots(b);
    } else {
      assert (a + "." + b)[1..] == a[1..] + "." + b;
      OneDot(a[1..], b);
      assert [a[0]] + a[1..] == a;
    }
  }

  /** The hundredths a fraction of at most two digits stands for. */
  function Hundredths(frac: string): (r: nat)
    requires AllDigits(frac) && |frac| <= 2
  {
    if |frac| == 0 then 0 else if |frac| == 1 then 10 * Value(frac) else Value(frac)
  }

  lemma PaddedNone()
    ensures Padded("") == ['0', '0']
  {
    assert "" + "0" == ['0'] && ['0'] + "0" == ['0', '0'];
    assert Padded("") == Padded(['0']) == Padded(['0', '0']);
  }

  lemma PaddedOne(c: char)
    ensures Padded([c]) == [c, '0']
  {
    assert [c] + "0" == [c, '0'];
    assert Padded([c]) == Padded([c, '0']);
  }

  lemma TwoDigits(frac: string)
    requires AllDigits(frac) && |frac| <= 2
    ensures AllDigits(Padded(frac)) && |Padded(frac)| == 2
    ensures Value(Padded(frac)) == Hundredths(frac) < 100
  {
    if |frac| == 0 {
      PaddedNone();
      ValueOfTwo('0', '0');
    } else if |frac| == 1 {
      assert frac == [frac[0]];
      PaddedOne(frac[0]);
      ValueOfTwo(frac[0], '0');
      ValueOfOne(frac[0]);
    } else {
      assert frac == [frac[0], frac[1]];
      ValueOfTwo(frac[0], frac[1]);
    }
  }

  // ---------------------------------------------------------------- the texts that are accepted

  /** A fraction the parser takes: at most two digits, or a sign with what ParseInt makes of it. */
  predicate FractionText(f: string) {
    || (|f| <= 2 && AllDigits(f))
    || f == ['+'] || f == ['-'] || f == ['-', '0']
    || (|f| == 2 && f[0] == '+' && IsDigit(f[1]))
  }

  function FractionCents(f: string): nat
    requires FractionText(f)
  {
    if AllDigits(f) then Hundredths(f) else if |f| == 2 && f[0] == '+' then DigitValue(f[1]) else 0
  }

  /** `value` is one or more digits, optionally followed by a point and a fraction. */
  predicate Spells(value: string, whole: string, frac: string) {
    && whole != "" && AllDigits(whole) && FractionText(frac)
    && (value == whole + "." + frac || (value == whole && frac == ""))
  }

  function Cents(whole: string, frac: string): nat
    requires AllDigits(whole) && FractionText(frac)
  {
    Value(whole) * 100 + FractionCents(frac)
  }

  lemma TwoCharacterInt(a: char, b: char)
    ensures IsDigit(a) && IsDigit(b) ==> ParseInt([a, b]) == Some64(10 * DigitValue(a) + DigitValue(b))
    ensures a == '+' && IsDigit(b) ==> ParseInt([a, b]) == Some64(DigitValue(b))
    ensures a == '-' && IsDigit(b) ==> ParseInt([a, b]) == Some64(-(DigitValue(b) as int))
    ensures !IsDigit(b) || !(IsDigit(a) || a == '+' || a == '-') ==> ParseInt([a, b]).None64?
  {
    assert [a, b][1..] == [b] && [b][0] == b && [a, b][0] == a && [a, b][1] == b;
    if IsDigit(b) {
      ValueOfOne(b);
      if IsDigit(a) { ValueOfTwo(a, b); }
    }
  }

  predicate Minor(f: string, m: Int64) {
    if FractionText(f) then FractionCents(f) <= 99 && m == Some64(FractionCents(f))
    else m.None64? || -9 <= m.value < 0
  }

  lemma OneCharacterFraction(c: char)
    requires !IsDigit(c)
    ensures Minor([c], ParseInt(Padded([c])))
  {
    PaddedOne(c);
    TwoCharacterInt(c, '0');
    assert !AllDigits([c]) by { assert !IsDigit([c][0]); }
  }

  lemma TwoCharacterFraction(a: char, b: char)
    requires !(IsDigit(a) && IsDigit(b))
    ensures Minor([a, b], ParseInt([a, b]))
  {
    TwoCharacterInt(a, b);
    assert [a, b][0] == a && [a, b][1] == b;
    assert !AllDigits([a, b]) by { assert !IsDigit([a, b][0]) || !IsDigit([a, b][1]); }
  }

  lemma DigitFraction(f: string)
    requires AllDigits(f) && |f| <= 2
    ensures Minor(f, ParseInt(Padded(f)))
  {
    TwoDigits(f);
  }

  /** What the padded fraction is worth: the fractions above are worth 0 to 99, a minus before another
      digit is negative, and everything else is no number. */
  lemma FractionParses(f: string)
    requires |f| <= 2
    ensures Minor(f, ParseInt(Padded(f)))
  {
    if AllDigits(f) {
      DigitFraction(f);
    } else if |f| == 1 {
      assert f == [f[0]];
      OneCharacterFraction(f[0]);
    } else {
      assert f == [f[0], f[1]];
      TwoCharacterFraction(f[0], f[1]);
    }
  }

  /** The range guard: exact on what is not negative, and a negative hundredth wraps its bound below zero. */
  lemma CombineIsExact(w: nat, m: int)
    requires w <= MAX_INT64 && -9 <= m <= 99
    ensures Combine(Some64(w), Some64(m))
         == if m >= 0 && w * 100 + m <= MAX_INT64 then Amount(w * 100 + m) else ErrRange
  {
  }

  lemma WholeParses(whole: string)
    requires whole != "" && whole[0] != '+' && whole[0] != '-'
    ensures ParseInt(whole) == if AllDigits(whole) && Value(whole) <= MAX_INT64 then Some64(Value(whole)) else None64
  {
  }

  lemma CombineParts(w: Int64, f: string, m: Int64)
    requires (w.Some64? ==> 0 <= w.value <= MAX_INT64) && Minor(f, m)
    ensures if w.Some64? && FractionText(f) && w.value * 100 + FractionCents(f) <= MAX_INT64
            then Combine(w, m) == Amount(w.value * 100 + FractionCents(f)) else !Combine(w, m).Amount?
  {
    if w.Some64? && m.Some64? { CombineIsExact(w.value, m.value); }
  }

  /** The two parts are accepted exactly when they are digits and a fraction and the amount fits. */
  lemma PartsAccepted(whole: string, frac: string)
    requires whole != "" && whole[0] != '+' && whole[0] != '-' && |frac| <= 2
    ensures var r := Combine(ParseInt(whole), ParseInt(Padded(frac)));
      if AllDigits(whole) && FractionText(frac) && Cents(whole, frac) <= MAX_INT64
      then r == Amount(Cents(whole, frac)) else !r.Amount?
  {
    FractionParses(frac);
    WholeParses(whole);
    CombineParts(ParseInt(whole), frac, ParseInt(Padded(frac)));
  }

  lemma {:induction false} SplitJoins(s: string)
    ensures |SplitDots(s)| == 1 ==> SplitDots(s)[0] == s
    ensures |SplitDots(s)| == 2 ==> s == SplitDots(s)[0] + "." + SplitDots(s)[1]
  {
    if s != "" {
      var rest := SplitDots(s[1..]);
      SplitJoins(s[1..]);
      assert s == [s[0]] + s[1..];
      if s[0] != '.' {
        assert SplitDots(s) == [[s[0]] + rest[0]] + rest[1..];
        if |rest| == 2 { assert [s[0]] + (rest[0] + "." + rest[1]) == ([s[0]] + rest[0]) + "." + rest[1]; }
      } else {
        assert SplitDots(s) == [""] + rest;
        if |rest| == 1 { assert "" + "." + rest[0] == [s[0]] + s[1..]; }
      }
    }
  }

  lemma SpelledParse(value: string, whole: string, frac: string)
    requires Spells(value, whole, frac)
    ensures if Cents(whole, frac) <= MAX_INT64 then ParseTrimmed(value) == Amount(Cents(whole, frac))
            else !ParseTrimmed(value).Amount?
  {
    assert value[0] == whole[0] && IsDigit(whole[0]);
    PartsAccepted(whole, frac);
    if value == whole && frac == "" { NoDots(whole); } else { OneDot(whole, frac); }
  }

  lemma AcceptedIsSpelled(value: string) returns (whole: string, frac: string)
    requires ParseTrimmed(value).Amount?
    ensures Spells(value, whole, frac) && Cents(whole, frac) <= MAX_INT64
  {
    var parts := SplitDots(value);
    SplitJoins(value);
    whole, frac := parts[0], if |parts| == 1 then "" else parts[1];
    assert whole[0] == value[0];
    PartsAccepted(whole, frac);
  }

  /** Exactly which texts are accepted, and at what amount: trimmed, they are digits with an optional
      fraction, and the amount fits an int64. Nothing wraps around. */
  lemma AcceptedTexts(text: string)
    ensures ParseAmountCents(text).Amount? <==>
      exists whole, frac :: Spells(TrimSpace(text), whole, frac) && Cents(whole, frac) <= MAX_INT64
    ensures forall whole, frac :: Spells(TrimSpace(text), whole, frac) && Cents(whole, frac) <= MAX_INT64
              ==> ParseAmountCents(text) == Amount(Cents(whole, frac))
  {
    var value := TrimSpace(text);
    if ParseTrimmed(value).Amount? {
      var whole, frac := AcceptedIsSpelled(value);
    }
    forall whole, frac | Spells(value, whole, frac) && Cents(whole, frac) <= MAX_INT64
      ensures ParseTrimmed(value) == Amount(Cents(whole, frac))
    {
      SpelledParse(value, whole, frac);
    }
  }

  lemma DigitsTrimmed(s: string)
    requires s != "" && IsDigit(s[0]) && !IsSpace(s[|s| - 1])
    ensures TrimSpace(s) == s
  {
  }

  /** So a text without white space parses to its amount if that fits, and is refused if it does not. */
  lemma UntrimmedParse(text: string, whole: string, frac: string)
    requires Spells(text, whole, frac)
    ensures if Cents(whole, frac) <= MAX_INT64 then ParseAmountCents(text) == Amount(Cents(whole, frac))
            else !ParseAmountCents(text).Amount?
  {
    assert text[0] == whole[0] && IsDigit(whole[0]);
    assert IsDigit(whole[|whole| - 1]);
    assert text[|text| - 1]
        == if frac != "" then frac[|frac| - 1] else if text == whole then whole[|whole| - 1] else '.';
    DigitsTrimmed(text);
    SpelledParse(text, whole, frac);
  }

  /** On canonical texts the guard is exact: the parse is the amount when it fits an int64, and is refused
      when it does not. */
  lemma CanonicalParse(whole: string, frac: string)
    requires AllDigits(whole) && whole != "" && AllDigits(frac) && |frac| <= 2
    ensures var cents := Value(whole) * 100 + Hundredths(frac);
      if cents <= MAX_INT64 then ParseAmountCents(whole + "." + frac) == Amount(cents)
      else !ParseAmountCents(whole + "." + frac).Amount?
  {
    UntrimmedParse(whole + "." + frac, whole, frac);
  }

  /** The same for an amount in whole units, written without a point. */
  lemma WholeParse(whole: string)
    requires AllDigits(whole) && whole != ""
    ensures var cents := Value(whole) * 100;
      if cents <= MAX_INT64 then ParseAmountCents(whole) == Amount(cents)
      else !ParseAmountCents(whole).Amount?
  {
    UntrimmedParse(whole, whole, "");
  }

  lemma LastDigit(tens: nat, unit: nat)
    requires unit < 10
    ensures (10 * tens + unit) % 10 == unit
  {
  }

  lemma LastTwoDigits(amount: nat)
    ensures amount % 100 / 10 * 10 + amount % 10 == amount % 100
  {
    var tens, unit := amount % 100 / 10, amount % 100 % 10;
    assert amount == 10 * (10 * (amount / 100) + tens) + unit;
    LastDigit(10 * (amount / 100) + tens, unit);
  }

  function Fraction(amount: nat): string {
    [Digit(amount % 100 / 10), Digit(amount % 10)]
  }

  lemma FractionIsHundredths(amount: nat)
    ensures AllDigits(Fraction(amount)) && |Fraction(amount)| == 2 && Hundredths(Fraction(amount)) == amount % 100
  {
    ValueOfTwo(Digit(amount % 100 / 10), Digit(amount % 10));
    LastTwoDigits(amount);
  }

  /** Parsing what was printed gives the amount back, for every int64 from zero up. */
  lemma PrintedAmountParses(amount: nat)
    requires amount <= MAX_INT64
    ensures ParseAmountCents(CentsAmountText(amount)) == Amount(amount)
  {
    ValueOfText(amount / 100);
    FractionIsHundredths(amount);
    CanonicalParse(Text(amount / 100), Fraction(amount));
  }

  /** Whatever the text, an accepted amount is between zero and the largest int64. */
  lemma ParsedInRange(text: string)
    ensures ParseAmountCents(text).Amount? ==> 0 <= ParseAmountCents(text).cents <= MAX_INT64
  {
    if ParseAmountCents(text).Amount? {
      var whole, frac := AcceptedIsSpelled(TrimSpace(text));
      SpelledParse(TrimSpace(text), whole, frac);
    }
  }

  // ---------------------------------------------------------------- signs inside the fraction

  /** A plus inside the fraction counts as written. */
  lemma PlusInFraction(whole: string, d: char)
    requires AllDigits(whole) && whole != "" && IsDigit(d) && Value(whole) * 100 + DigitValue(d) <= MAX_INT64
    ensures ParseAmountCents(whole + "." + ['+', d]) == Amount(Value(whole) * 100 + DigitValue(d))
  {
    UntrimmedParse(whole + "." + ['+', d], whole, ['+', d]);
  }

  /** A minus is accepted before nothing and before a zero, and counts as nothing. */
  lemma BareMinusInFraction(whole: string)
    requires AllDigits(whole) && whole != "" && Value(whole) * 100 <= MAX_INT64
    ensures ParseAmountCents(whole + "." + ['-']) == Amount(Value(whole) * 100)
    ensures ParseAmountCents(whole + "." + ['-', '0']) == Amount(Value(whole) * 100)
  {
    UntrimmedParse(whole + "." + ['-'], whole, ['-']);
    UntrimmedParse(whole + "." + ['-', '0'], whole, ['-', '0']);
  }

  /** Before any other digit it is out of range, whatever the amount. */
  lemma MinusInFraction(whole: string, d: char)
    requires AllDigits(whole) && whole != "" && IsDigit(d) && d != '0' && Value(whole) <= MAX_INT64
    ensures ParseTrimmed(whole + "." + ['-', d]) == ErrRange
    ensures ParseAmountCents(whole + "." + ['-', d]) == ErrRange
  {
    DigitsTrimmed(whole + "." + ['-', d]);
    OneDot(whole, ['-', d]);
    TwoCharacterInt('-', d);
    CombineIsExact(Value(whole), -(DigitValue(d) as int));
  }

  /** "1.+5" is 105 and "1.-0" is 100. */
  lemma SignedExamples()
    ensures ParseAmountCents(['1'] + "." + ['+', '5']) == Amount(105)
    ensures ParseAmountCents(['1'] + "." + ['-', '0']) == Amount(100)
  {
    ValueOfOne('1');
    PlusInFraction(['1'], '5');
    BareMinusInFraction(['1']);
  }
}
