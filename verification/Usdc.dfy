/** The decimal printer and parser of USDC amounts. */
module Usdc {
  import opened Results

  const MICRO_PER_USDC := 1_000_000
  const MAX_SAFE := 9_007_199_254_740_991

  datatype UsdcError = InvalidAmount | OutOfRange | InvalidMicro

  // ---------------------------------------------------------------- digits

  predicate IsDigit(c: char) {
    '0' <= c <= '9'
  }

  predicate AllDigits(s: string) {
    forall i :: 0 <= i < |s| ==> IsDigit(s[i])
  }

  function DigitValue(c: char): nat
    requires IsDigit(c)
  {
    c as int - '0' as int
  }

  function DigitChar(d: nat): (c: char)
    requires d < 10
    ensures IsDigit(c) && DigitValue(c) == d
  {
    ('0' as int + d) as char
  }

  /** The number a string of digits stands for. */
  function Value(s: string): nat
    requires AllDigits(s)
  {
    if s == "" then 0 else Value(s[..|s| - 1]) * 10 + DigitValue(s[|s| - 1])
  }

  function Digits(n: nat): (s: string)
    ensures |s| >= 1 && AllDigits(s) && (|s| > 1 ==> s[0] != '0')
    ensures n > 0 ==> s[0] != '0'
  {
    if n < 10 then [DigitChar(n)] else Digits(n / 10) + [DigitChar(n % 10)]
  }

  lemma {:induction false} ValueOfDigits(n: nat)
    ensures Value(Digits(n)) == n
  {
    if n >= 10 {
      ValueOfDigits(n / 10);
      assert Digits(n)[..|Digits(n)| - 1] == Digits(n / 10);
    } else {
      assert Digits(n)[..0] == "";
    }
  }

  lemma {:induction false} DigitsOfValue(s: string)
    requires AllDigits(s) && |s| >= 1 && (|s| > 1 ==> s[0] != '0')
    ensures Digits(Value(s)) == s
    ensures s[0] != '0' ==> Value(s) > 0
  {
    var init, last := s[..|s| - 1], s[|s| - 1];
    assert s == init + [last];
    if init == "" {
      assert Value(init) == 0;
    } else {
      DigitsOfValue(init);
    }
  }

  /** Strings of digits of one length are told apart by their values. */
  lemma {:induction false} ValueInjective(a: string, b: string)
    requires AllDigits(a) && AllDigits(b) && |a| == |b| && Value(a) == Value(b)
    ensures a == b
  {
    if a != "" {
      var x, y := a[..|a| - 1], b[..|b| - 1];
      LastDigit(Value(x), DigitValue(a[|a| - 1]), Value(y), DigitValue(b[|b| - 1]));
      ValueInjective(x, y);
      assert a == x + [a[|a| - 1]] && b == y + [b[|b| - 1]];
    }
  }

  lemma LastDigit(x: nat, d: nat, y: nat, e: nat)
    requires d < 10 && e < 10 && x * 10 + d == y * 10 + e
    ensures x == y && d == e
  {
  }

  // ---------------------------------------------------------------- padding

  function Zeros(n: nat): string {
    seq(n, _ => '0')
  }

  function PadStart(s: string, n: nat): string {
    if |s| >= n then s else Zeros(n - |s|) + s
  }

  function PadEnd(s: string, n: nat): string {
    if |s| >= n then s else s + Zeros(n - |s|)
  }

  /** Drops every trailing zero. */
  function StripZeros(s: string): (r: string)
    ensures |r| <= |s| && r == s[..|r|]
    ensures r != "" ==> r[|r| - 1] != '0'
    ensures forall i :: |r| <= i < |s| ==> s[i] == '0'
  {
    if s == "" || s[|s| - 1] != '0' then s else StripZeros(s[..|s| - 1])
  }

  lemma {:induction false} ValueOfPadStart(z: nat, s: string)
    requires AllDigits(s)
    ensures AllDigits(Zeros(z) + s) && Value(Zeros(z) + s) == Value(s)
    decreases |s|, z
  {
    var t := Zeros(z) + s;
    if s != "" {
      ValueOfPadStart(z, s[..|s| - 1]);
      assert t[..|t| - 1] == Zeros(z) + s[..|s| - 1];
    } else if z > 0 {
      ValueOfPadStart(z - 1, "");
      assert t[..|t| - 1] == Zeros(z - 1) + "";
    }
  }

  lemma {:induction false} ValueBound(s: string)
    requires AllDigits(s)
    ensures Value(s) < Pow10(|s|)
  {
    if s != "" {
      ValueBound(s[..|s| - 1]);
    }
  }

  function Pow10(n: nat): nat {
    if n == 0 then 1 else 10 * Pow10(n - 1)
  }

  lemma {:induction false} DigitsShort(n: nat, k: nat)
    requires n < Pow10(k) && k >= 1
    ensures |Digits(n)| <= k
  {
    if n >= 10 {
      DigitsShort(n / 10, k - 1);
    }
  }

  // ---------------------------------------------------------------- printer

  predicate Safe(micro: int) {
    0 <= micro <= MAX_SAFE
  }

  function FractionDigits(frac: nat): string {
    PadStart(Digits(frac), 6)
  }

  function Shorten(f: string): string {
    var stripped := StripZeros(f);
    if |stripped| < 2 then PadEnd(stripped, 2) else stripped
  }

  function MicroToUsdc(micro: int): Result<string, UsdcError> {
    if !Safe(micro) then Failure(InvalidMicro)
    else
      var whole, frac := micro / MICRO_PER_USDC, micro % MICRO_PER_USDC;
      if frac == 0 then Success(Digits(whole) + ".00")
      else Success(Digits(whole) + "." + Shorten(FractionDigits(frac)))
  }

  // ---------------------------------------------------------------- parser

  /** The characters JavaScript's trim removes. */
  predicate IsSpace(c: char) {
    c in {' ', '\t', '\n', '\r', '\U{B}', '\U{C}', '\U{A0}', '\U{1680}', '\U{2028}', '\U{2029}', '\U{202F}',
          '\U{205F}', '\U{3000}', '\U{FEFF}'} || '\U{2000}' <= c <= '\U{200A}'
  }

  function TrimStart(s: string): string {
    if s != "" && IsSpace(s[0]) then TrimStart(s[1..]) else s
  }

  function TrimEnd(s: string): string {
    if s != "" && IsSpace(s[|s| - 1]) then TrimEnd(s[..|s| - 1]) else s
  }

  /** The length of the longest prefix of digits. */
  function DigitPrefix(s: string): (n: nat)
    ensures n <= |s|
  {
    if s == "" || !IsDigit(s[0]) then 0 else 1 + DigitPrefix(s[1..])
  }

  lemma {:induction false} DigitPrefixIsLongest(s: string)
    ensures AllDigits(s[..DigitPrefix(s)])
    ensures DigitPrefix(s) < |s| ==> !IsDigit(s[DigitPrefix(s)])
  {
    if s != "" && IsDigit(s[0]) {
      DigitPrefixIsLongest(s[1..]);
      assert s[..DigitPrefix(s)] == [s[0]] + s[1..][..DigitPrefix(s[1..])];
    }
  }

  /** One or more digits, then optionally a point and one to six digits. */
  function UsdcToMicro(value: string): Result<nat, UsdcError> {
    ParseTrimmed(TrimEnd(TrimStart(value)))
  }

  function ParseTrimmed(s: string): Result<nat, UsdcError> {
    DigitPrefixIsLongest(s);
    ParseAt(s, DigitPrefix(s))
  }

  /** The rest of the match, once the first `n` characters are known to be the leading digits. */
  function ParseAt(s: string, n: nat): Result<nat, UsdcError>
    requires n <= |s| && AllDigits(s[..n])
  {
    if n == 0 then Failure(InvalidAmount)
    else if n == |s| then InRange(Value(s[..n]), "")
    else
      var frac := s[n + 1..];
      if s[n] == '.' && 1 <= |frac| <= 6 && AllDigits(frac) then InRange(Value(s[..n]), frac)
      else Failure(InvalidAmount)
  }

  function InRange(whole: nat, frac: string): Result<nat, UsdcError>
    requires AllDigits(frac)
  {
    CheckSafe(Join(whole, Value(PadEnd(frac, 6))))
  }

  function Join(whole: nat, frac: nat): nat {
    whole * MICRO_PER_USDC + frac
  }

  function CheckSafe(micro: nat): Result<nat, UsdcError> {
    if Safe(micro) then Success(micro) else Failure(OutOfRange)
  }

  // ---------------------------------------------------------------- canonical strings

  /** No superfluous leading zero, two to six decimals, and none of those beyond the second a
      trailing zero. */
  ghost predicate Canonical(s: string) {
    exists whole, frac :: s == whole + "." + frac && CanonicalParts(whole, frac)
  }

  ghost predicate CanonicalParts(whole: string, frac: string) {
    && AllDigits(whole) && |whole| >= 1 && (|whole| > 1 ==> whole[0] != '0')
    && AllDigits(frac) && 2 <= |frac| <= 6 && (|frac| > 2 ==> frac[|frac| - 1] != '0')
  }

  lemma {:induction false} DigitPrefixStops(whole: string, rest: string)
    requires AllDigits(whole) && (rest != "" ==> !IsDigit(rest[0]))
    ensures DigitPrefix(whole + rest) == |whole|
  {
    if whole == "" {
      assert whole + rest == rest;
    } else {
      assert (whole + rest)[1..] == whole[1..] + rest;
      DigitPrefixStops(whole[1..], rest);
    }
  }

  lemma DecimalSplits(whole: string, frac: string)
    requires AllDigits(whole)
    ensures var s := whole + "." + frac;
            && |s| == |whole| + 1 + |frac| && DigitPrefix(s) == |whole|
            && s[..|whole|] == whole && s[|whole|] == '.' && s[|whole| + 1..] == frac
  {
    assert whole + "." + frac == whole + ("." + frac);
    DigitPrefixStops(whole, "." + frac);
  }

  /** A plain decimal with one to six decimals parses to whole * 10^6 plus its padded fraction. */
  lemma {:induction false} ParseParts(whole: string, frac: string)
    requires AllDigits(whole) && |whole| >= 1 && AllDigits(frac) && 1 <= |frac| <= 6
    ensures UsdcToMicro(whole + "." + frac) == InRange(Value(whole), frac)
  {
    var s := whole + "." + frac;
    EndsOfDecimal(whole, frac);
    NothingToTrim(s);
    DecimalSplits(whole, frac);
    ParseAtPoint(s, whole, frac);
  }

  lemma {:induction false} ParseAtPoint(s: string, whole: string, frac: string)
    requires AllDigits(whole) && |whole| >= 1 && AllDigits(frac) && 1 <= |frac| <= 6
    requires |s| == |whole| + 1 + |frac| && s[..|whole|] == whole && s[|whole|] == '.' && s[|whole| + 1..] == frac
    ensures ParseAt(s, |whole|) == InRange(Value(whole), frac)
  {
  }

  lemma EndsOfDecimal(whole: string, frac: string)
    requires AllDigits(whole) && |whole| >= 1 && AllDigits(frac) && |frac| >= 1
    ensures var s := whole + "." + frac;
            s != "" && s[0] == whole[0] && s[|s| - 1] == frac[|frac| - 1]
  {
  }

  lemma {:induction false} NothingToTrim(s: string)
    requires s != "" && IsDigit(s[0]) && IsDigit(s[|s| - 1])
    ensures TrimEnd(TrimStart(s)) == s
  {
  }

  lemma PadEndAt(s: string, n: nat, i: nat)
    requires i < n
    ensures |PadEnd(s, n)| >= n && PadEnd(s, n)[i] == if i < |s| then s[i] else '0'
  {
  }

  /** Padding puts back zeros that were cut off. */
  lemma PadEndOfCut(cut: string, f: string, n: nat)
    requires |cut| <= |f| <= n && cut == f[..|cut|] && forall i :: |cut| <= i < |f| ==> f[i] == '0'
    ensures PadEnd(cut, n) == PadEnd(f, n)
  {
    assert |PadEnd(cut, n)| == |PadEnd(f, n)| == n;
    forall i | 0 <= i < n ensures PadEnd(cut, n)[i] == PadEnd(f, n)[i] {
      PadEndAt(cut, n, i);
      PadEndAt(f, n, i);
    }
  }

  lemma {:induction false} PadEndOfStrip(f: string, n: nat)
    requires |f| <= n
    ensures PadEnd(StripZeros(f), n) == PadEnd(f, n)
  {
    PadEndOfCut(StripZeros(f), f, n);
  }

  lemma {:induction false} StripPadded(s: string, k: nat)
    ensures StripZeros(s + Zeros(k)) == StripZeros(s)
  {
    if k == 0 {
      assert s + Zeros(0) == s;
    } else {
      var t := s + Zeros(k);
      assert t[..|t| - 1] == s + Zeros(k - 1);
      StripPadded(s, k - 1);
    }
  }

  /** Six decimals shorten to between two and six that pad back to them. */
  lemma ShortenPadsBack(f: string)
    requires AllDigits(f) && |f| == 6
    ensures var d := Shorten(f);
            AllDigits(d) && 2 <= |d| <= 6 && (|d| > 2 ==> d[|d| - 1] != '0') && PadEnd(d, 6) == f
  {
    PadEndOfStrip(f, 6);
    assert PadEnd(Shorten(f), 6) == PadEnd(StripZeros(f), 6);
  }

  /** Canonical decimals are what their padding shortens to. */
  lemma ShortenOfPadded(frac: string)
    requires 2 <= |frac| <= 6 && (|frac| > 2 ==> frac[|frac| - 1] != '0')
    ensures Shorten(PadEnd(frac, 6)) == frac
  {
    StripPadded(frac, 6 - |frac|);
    assert frac + Zeros(0) == frac;
    if |frac| == 2 {
      PadEndOfStrip(frac, 2);
    }
  }

  lemma {:induction false} PadStartValue(s: string, n: nat)
    requires AllDigits(s) && |s| <= n
    ensures AllDigits(PadStart(s, n)) && |PadStart(s, n)| == n && Value(PadStart(s, n)) == Value(s)
  {
    ValueOfPadStart(n - |s|, s);
    assert Zeros(0) + s == s;
  }

  lemma FractionValue(frac: nat)
    requires frac < MICRO_PER_USDC
    ensures AllDigits(FractionDigits(frac)) && |FractionDigits(frac)| == 6 && Value(FractionDigits(frac)) == frac
  {
    assert Pow10(6) == MICRO_PER_USDC;
    DigitsShort(frac, 6);
    ValueOfDigits(frac);
    PadStartValue(Digits(frac), 6);
  }

  lemma ZeroFraction()
    ensures Shorten(FractionDigits(0)) == "00"
  {
    FractionValue(0);
    var f := FractionDigits(0);
    assert f == Zeros(5) + "0";
    assert StripZeros(f) == "";
    assert Zeros(2) == "00";
  }

  /** What is printed, for any fraction. */
  lemma {:induction false} PrintedParts(micro: int)
    requires Safe(micro)
    ensures var whole, frac := Digits(micro / MICRO_PER_USDC), Shorten(FractionDigits(micro % MICRO_PER_USDC));
            && MicroToUsdc(micro) == Success(whole + "." + frac)
            && CanonicalParts(whole, frac) && PadEnd(frac, 6) == FractionDigits(micro % MICRO_PER_USDC)
  {
    var frac := micro % MICRO_PER_USDC;
    FractionValue(frac);
    ShortenPadsBack(FractionDigits(frac));
    if frac == 0 {
      ZeroFraction();
      assert Digits(micro / MICRO_PER_USDC) + ".00" == Digits(micro / MICRO_PER_USDC) + "." + "00";
    }
  }

  /** Every safe amount prints in canonical form, and parsing what was printed gives it back. */
  lemma PrintThenParse(micro: int)
    requires Safe(micro)
    ensures var s := MicroToUsdc(micro);
            s.Success? && Canonical(s.value) && UsdcToMicro(s.value) == Success(micro)
  {
    PrintedParts(micro);
    ValueOfDigits(micro / MICRO_PER_USDC);
    FractionValue(micro % MICRO_PER_USDC);
    PartsParseBack(micro, Digits(micro / MICRO_PER_USDC), Shorten(FractionDigits(micro % MICRO_PER_USDC)));
  }

  lemma {:induction false} PartsParseBack(micro: int, whole: string, frac: string)
    requires Safe(micro) && CanonicalParts(whole, frac) && AllDigits(PadEnd(frac, 6))
    requires Value(whole) == micro / MICRO_PER_USDC && Value(PadEnd(frac, 6)) == micro % MICRO_PER_USDC
    ensures Canonical(whole + "." + frac) && UsdcToMicro(whole + "." + frac) == Success(micro)
  {
    PartsAreCanonical(whole, frac);
    ParseParts(whole, frac);
    JoinSplit(micro);
  }

  lemma JoinSplit(micro: nat)
    ensures Join(micro / MICRO_PER_USDC, micro % MICRO_PER_USDC) == micro
  {
  }

  lemma PartsAreCanonical(whole: string, frac: string)
    requires CanonicalParts(whole, frac)
    ensures Canonical(whole + "." + frac)
  {
  }

  lemma SplitMicro(whole: nat, frac: nat)
    requires frac < MICRO_PER_USDC
    ensures Join(whole, frac) / MICRO_PER_USDC == whole && Join(whole, frac) % MICRO_PER_USDC == frac
  {
  }

  /** A canonical string is what its value prints as: printing and parsing are inverse on the safe
      amounts and the canonical strings in range. */
  lemma ParseThenPrint(s: string)
    requires Canonical(s) && UsdcToMicro(s).Success?
    ensures MicroToUsdc(UsdcToMicro(s).value) == Success(s)
  {
    var whole, frac :| s == whole + "." + frac && CanonicalParts(whole, frac);
    ParseParts(whole, frac);
    PartsPrintBack(whole, frac, UsdcToMicro(s).value);
  }

  lemma {:induction false} PartsPrintBack(whole: string, frac: string, micro: nat)
    requires CanonicalParts(whole, frac) && AllDigits(PadEnd(frac, 6))
    requires Safe(micro) && micro == Join(Value(whole), Value(PadEnd(frac, 6)))
    ensures MicroToUsdc(micro) == Success(whole + "." + frac)
  {
    DecimalsPrintBack(frac);
    SplitMicro(Value(whole), Value(PadEnd(frac, 6)));
    DigitsOfValue(whole);
    PrintedParts(micro);
  }

  lemma DecimalsPrintBack(frac: string)
    requires AllDigits(frac) && 2 <= |frac| <= 6 && (|frac| > 2 ==> frac[|frac| - 1] != '0') && AllDigits(PadEnd(frac, 6))
    ensures Value(PadEnd(frac, 6)) < MICRO_PER_USDC && Shorten(FractionDigits(Value(PadEnd(frac, 6)))) == frac
  {
    var f := PadEnd(frac, 6);
    ValueBound(f);
    assert Pow10(6) == MICRO_PER_USDC;
    FractionValue(Value(f));
    ValueInjective(f, FractionDigits(Value(f)));
    ShortenOfPadded(frac);
  }

  /** Printing what any valid string parsed to gives its canonical form, which means the same amount. */
  lemma PrintingCanonicalises(s: string)
    requires UsdcToMicro(s).Success?
    ensures var c := MicroToUsdc(UsdcToMicro(s).value);
            c.Success? && Canonical(c.value) && UsdcToMicro(c.value) == UsdcToMicro(s)
  {
    PrintThenParse(UsdcToMicro(s).value);
  }
}
