/** Exactly which strings are amounts, and of how much. */
module UsdcLaws {
  import opened Results
  import opened Usdc

  /** White space and line terminators of ECMAScript, by code point. */
  predicate White(c: char) {
    var n := c as int;
    n in {9, 10, 11, 12, 13, 32, 160, 5_760, 8_232, 8_233, 8_239, 8_287, 12_288, 65_279} || 8_192 <= n <= 8_202
  }

  predicate AllWhite(s: string) {
    forall i :: 0 <= i < |s| ==> White(s[i])
  }

  lemma WhiteIsSpace(c: char)
    ensures IsSpace(c) <==> White(c)
    ensures IsDigit(c) ==> !White(c)
  {
  }

  /** Digits, or digits, a point and one to six digits. */
  ghost predicate Amount(s: string, micro: nat) {
    || (|s| > 0 && AllDigits(s) && micro == 1_000_000 * Value(s))
    || (exists whole, frac :: s == whole + "." + frac && IsDecimal(whole, frac, micro))
  }

  ghost predicate IsDecimal(whole: string, frac: string, micro: nat) {
    && AllDigits(whole) && AllDigits(frac) && |whole| > 0 && 1 <= |frac| <= 6
    && micro == 1_000_000 * Value(whole) + Pow10(6 - |frac|) * Value(frac)
  }

  /** An amount with white space around it. */
  ghost predicate Reads(s: string, micro: nat) {
    exists before, body, after :: s == before + body + after && AllWhite(before) && AllWhite(after) && Amount(body, micro)
  }

  // ---------------------------------------------------------------- trimming

  lemma {:induction false} TrimsStart(s: string) returns (k: nat)
    ensures k <= |s| && AllWhite(s[..k]) && TrimStart(s) == s[k..]
  {
    if s != "" && IsSpace(s[0]) {
      var i := TrimsStart(s[1..]);
      k := i + 1;
      WhiteIsSpace(s[0]);
      assert s[..k] == [s[0]] + s[1..][..i];
      assert s[k..] == s[1..][i..];
    } else {
      k := 0;
    }
  }

  lemma {:induction false} TrimsEnd(s: string) returns (k: nat)
    ensures k <= |s| && AllWhite(s[k..]) && TrimEnd(s) == s[..k]
  {
    if s != "" && IsSpace(s[|s| - 1]) {
      var init := s[..|s| - 1];
      k := TrimsEnd(init);
      WhiteIsSpace(s[|s| - 1]);
      assert s == init + [s[|s| - 1]];
      assert s[k..] == init[k..] + [s[|s| - 1]];
      assert s[..k] == init[..k];
    } else {
      k := |s|;
    }
  }

  lemma {:induction false} TrimStartOf(before: string, rest: string)
    requires AllWhite(before) && rest != "" && !White(rest[0])
    ensures TrimStart(before + rest) == rest
  {
    if before == "" {
      assert before + rest == rest;
      WhiteIsSpace(rest[0]);
    } else {
      WhiteIsSpace(before[0]);
      assert (before + rest)[1..] == before[1..] + rest;
      TrimStartOf(before[1..], rest);
    }
  }

  lemma {:induction false} TrimEndOf(rest: string, after: string)
    requires AllWhite(after) && rest != "" && !White(rest[|rest| - 1])
    ensures TrimEnd(rest + after) == rest
  {
    var s := rest + after;
    if after == "" {
      assert s == rest;
      WhiteIsSpace(rest[|rest| - 1]);
    } else {
      WhiteIsSpace(after[|after| - 1]);
      assert s[..|s| - 1] == rest + after[..|after| - 1];
      TrimEndOf(rest, after[..|after| - 1]);
    }
  }

  lemma AmountEdges(s: string, micro: nat)
    requires Amount(s, micro)
    ensures |s| > 0 && IsDigit(s[0]) && IsDigit(s[|s| - 1])
  {
    if !AllDigits(s) {
      var whole, frac :| s == whole + "." + frac && IsDecimal(whole, frac, micro);
      assert s[|s| - 1] == frac[|frac| - 1];
    }
  }

  lemma {:induction false} TrimFindsBody(before: string, body: string, after: string, micro: nat)
    requires AllWhite(before) && AllWhite(after) && Amount(body, micro)
    ensures TrimEnd(TrimStart(before + body + after)) == body
  {
    AmountEdges(body, micro);
    WhiteIsSpace(body[0]);
    WhiteIsSpace(body[|body| - 1]);
    assert before + body + after == before + (body + after);
    TrimStartOf(before, body + after);
    TrimEndOf(body, after);
  }

  // ---------------------------------------------------------------- the trimmed string

  lemma {:induction false} PadEndValue(frac: string, zeros: nat)
    requires AllDigits(frac)
    ensures AllDigits(frac + Zeros(zeros)) && Value(frac + Zeros(zeros)) == Pow10(zeros) * Value(frac)
  {
    var s := frac + Zeros(zeros);
    if zeros == 0 {
      assert s == frac;
    } else {
      PadEndValue(frac, zeros - 1);
      assert s[..|s| - 1] == frac + Zeros(zeros - 1);
    }
  }

  lemma {:induction false} FractionValue(frac: string)
    requires AllDigits(frac) && |frac| <= 6
    ensures AllDigits(PadEnd(frac, 6)) && Value(PadEnd(frac, 6)) == Pow10(6 - |frac|) * Value(frac)
  {
    PadEndValue(frac, 6 - |frac|);
    assert frac + Zeros(0) == frac;
  }

  function Checked(micro: nat): Result<nat, UsdcError> {
    if micro <= 9_007_199_254_740_991 then Success(micro) else Failure(OutOfRange)
  }

  lemma {:induction false} InRangeExactly(whole: nat, frac: string)
    requires AllDigits(frac) && |frac| <= 6
    ensures InRange(whole, frac) == Checked(1_000_000 * whole + Pow10(6 - |frac|) * Value(frac))
  {
    FractionValue(frac);
  }

  lemma NoFraction(whole: nat)
    ensures InRange(whole, "") == Checked(1_000_000 * whole)
  {
    FractionValue("");
    assert Value(PadEnd("", 6)) == 0;
  }

  lemma {:induction false} ParseAtEnd(s: string)
    requires |s| > 0 && AllDigits(s)
    ensures AllDigits(s[..|s|]) && ParseAt(s, |s|) == InRange(Value(s), "")
  {
    assert s[..|s|] == s;
  }

  lemma {:induction false} WholeParses(s: string)
    requires |s| > 0 && AllDigits(s)
    ensures ParseTrimmed(s) == Checked(1_000_000 * Value(s))
  {
    assert s + "" == s;
    DigitPrefixStops(s, "");
    ParseAtEnd(s);
    NoFraction(Value(s));
  }

  lemma DecimalParses(whole: string, frac: string, micro: nat)
    requires IsDecimal(whole, frac, micro)
    ensures ParseTrimmed(whole + "." + frac) == Checked(micro)
  {
    var s := whole + "." + frac;
    assert s == whole + ("." + frac);
    DigitPrefixStops(whole, "." + frac);
    assert s[..|whole|] == whole && s[|whole| + 1..] == frac;
    InRangeExactly(Value(whole), frac);
  }

  lemma AmountParses(s: string, micro: nat)
    requires Amount(s, micro)
    ensures ParseTrimmed(s) == Checked(micro)
  {
    if |s| > 0 && AllDigits(s) && micro == 1_000_000 * Value(s) {
      WholeParses(s);
    } else {
      var whole, frac :| s == whole + "." + frac && IsDecimal(whole, frac, micro);
      DecimalParses(whole, frac, micro);
    }
  }

  lemma ParsedAt(s: string, n: nat) returns (micro: nat)
    requires n <= |s| && AllDigits(s[..n]) && ParseAt(s, n) != Failure(InvalidAmount)
    ensures Amount(s, micro)
  {
    var whole := s[..n];
    if n == |s| {
      assert whole == s;
      micro := 1_000_000 * Value(s);
    } else {
      var frac := s[n + 1..];
      micro := 1_000_000 * Value(whole) + Pow10(6 - |frac|) * Value(frac);
      assert s == whole + "." + frac;
      assert IsDecimal(whole, frac, micro);
    }
  }

  lemma ParsedIsAmount(s: string) returns (micro: nat)
    requires ParseTrimmed(s) != Failure(InvalidAmount)
    ensures Amount(s, micro)
  {
    DigitPrefixIsLongest(s);
    micro := ParsedAt(s, DigitPrefix(s));
  }

  // ---------------------------------------------------------------- the whole parser

  /** A string parses to an amount if and only if it reads as one that is a safe integer; a larger amount is out
      of range, and every other string is invalid. */
  lemma ParsesExactly(s: string, micro: nat)
    ensures UsdcToMicro(s) == Success(micro) <==> Reads(s, micro) && micro <= 9_007_199_254_740_991
    ensures UsdcToMicro(s) == Failure(OutOfRange) <==> exists m: nat :: Reads(s, m) && m > 9_007_199_254_740_991
    ensures UsdcToMicro(s) == Failure(InvalidAmount) <==> forall m: nat :: !Reads(s, m)
  {
    forall m: nat | Reads(s, m) ensures UsdcToMicro(s) == Checked(m) {
      ReadsParses(s, m);
    }
    if UsdcToMicro(s) != Failure(InvalidAmount) {
      var m := ParsedReads(s);
      ReadsParses(s, m);
    }
  }

  lemma ReadsParses(s: string, micro: nat)
    requires Reads(s, micro)
    ensures UsdcToMicro(s) == Checked(micro)
  {
    var before, body, after :| s == before + body + after && AllWhite(before) && AllWhite(after) && Amount(body, micro);
    TrimFindsBody(before, body, after, micro);
    AmountParses(body, micro);
  }

  lemma ParsedReads(s: string) returns (micro: nat)
    requires UsdcToMicro(s) != Failure(InvalidAmount)
    ensures Reads(s, micro)
  {
    var i := TrimsStart(s);
    var rest := TrimStart(s);
    var k := TrimsEnd(rest);
    var body := TrimEnd(rest);
    micro := ParsedIsAmount(body);
    assert s == s[..i] + body + rest[k..];
  }

  /** Printing takes exactly the safe integers. */
  lemma PrintsExactly(micro: int)
    ensures MicroToUsdc(micro).Success? <==> 0 <= micro <= 9_007_199_254_740_991
    ensures MicroToUsdc(micro).Failure? ==> MicroToUsdc(micro).error == InvalidMicro
  {
  }
}
