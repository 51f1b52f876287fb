/**
 * `ntlab::Float2String`: number-to-text conversion with a fixed digit budget and with an
 * SI prefix. The standard-library formatting (`setprecision`) is a parameter: `Format(v, d)`
 * is the text `std::ostringstream` produces for `v` at precision `d`; the model is the
 * truncation and padding that runs over that text, the prefix choice and the prefix table.
 */
module Float2String {

  /** A floating point number as the conversions distinguish it. */
  datatype FloatValue = NaN | Inf(negative: bool) | Finite(v: real)

  /** `ostringstream << setprecision (d) << v`. */
  type Format = (real, int) -> string

  /** The prefixes of the `SIPrefix` enum, femto (-5) to peta (5). */
  newtype SIPrefix = i: int | -5 <= i <= 5

  const Femto: SIPrefix := -5
  const Pico: SIPrefix := -4
  const Nano: SIPrefix := -3
  const Micro: SIPrefix := -2
  const Milli: SIPrefix := -1
  const NoPrefix: SIPrefix := 0
  const Kilo: SIPrefix := 1
  const Mega: SIPrefix := 2
  const Giga: SIPrefix := 3
  const Tera: SIPrefix := 4
  const Peta: SIPrefix := 5

  /** Offset of `none` in the prefix table. */
  const SIPrefixArrayOffset: nat := 5

  /** The symbols appended for each prefix, femto first. */
  const SIPrefixes: seq<string> := ["f", "p", "n", "\U{03BC}", "m", "", "k", "M", "G", "T", "P"]

  /** log10 (2) / 3: converts a base-2 exponent into an SI prefix index. */
  const Base2ExponentToPrefixIdx: real := 0.100343331887994

  // ---------------------------------------------------------------------------------------
  // Counting characters of a formatted number

  /** The characters the truncation loop counts as places: everything except '.'. */
  function Places(s: string): int {
    |s| - multiset(s)['.']
  }

  /** Each '-' raises the digit budget by one. */
  function Signs(s: string): int {
    multiset(s)['-']
  }

  /** The number of characters that are neither '.' nor '-'. */
  function Digits(s: string): int {
    |s| - multiset(s)['.'] - multiset(s)['-']
  }

  /** The loop breaks right after copying `text[k - 1]` when the places reach the raised budget. */
  ghost predicate Stops(text: string, budget: int, k: nat) {
    1 <= k <= |text| && Places(text[..k]) == budget + Signs(text[..k])
  }

  /** `text[..k]` is what the loop copies: it stops at the first break point, or copies everything. */
  ghost predicate IsCut(text: string, budget: int, k: nat) {
    && k <= |text|
    && (forall j :: 1 <= j < k ==> !Stops(text, budget, j))
    && (k < |text| ==> Stops(text, budget, k))
  }

  /** Reference definition of the cut: the first break point at or after position `i + 1`. */
  ghost function CutFrom(text: string, budget: int, i: nat): (k: nat)
    requires i <= |text|
    ensures i <= k <= |text|
    decreases |text| - i
  {
    if i == |text| then |text|
    else if Stops(text, budget, i + 1) then i + 1
    else CutFrom(text, budget, i + 1)
  }

  ghost function Cut(text: string, budget: int): nat {
    CutFrom(text, budget, 0)
  }

  /** `juce::String::repeatedString ("0", n)`, which is empty for n <= 0. */
  function ZeroPad(n: int): (r: string)
    ensures |r| == if n <= 0 then 0 else n
    ensures forall i :: 0 <= i < |r| ==> r[i] == '0'
  {
    if n <= 0 then "" else seq(n, _ => '0')
  }

  /**
   * What is appended after the copied prefix: nothing when the budget was met exactly,
   * otherwise a '.' when the prefix has none, then the missing zeros.
   */
  ghost function Padding(copied: string, budget: int): string {
    var missing := budget + Signs(copied) - Places(copied);
    if missing == 0 then ""
    else (if '.' in copied then "" else ".") + ZeroPad(missing)
  }

  /** The result of the truncation and padding for a formatted text and a digit budget. */
  ghost function Fixed(text: string, budget: int): string {
    var k := Cut(text, budget);
    text[..k] + Padding(text[..k], budget)
  }

  /** The reference cut is the first break point, as the loop finds it. */
  lemma {:induction false} CutFromIsFirstStop(text: string, budget: int, i: nat)
    requires i <= |text|
    requires forall j :: 1 <= j <= i ==> !Stops(text, budget, j)
    ensures IsCut(text, budget, CutFrom(text, budget, i))
    decreases |text| - i
  {
    if i < |text| && !Stops(text, budget, i + 1) {
      CutFromIsFirstStop(text, budget, i + 1);
    }
  }

  lemma CutIsFirstStop(text: string, budget: int)
    ensures IsCut(text, budget, Cut(text, budget))
  {
    CutFromIsFirstStop(text, budget, 0);
  }

  lemma DigitsOfAppend(a: string, b: string)
    ensures Digits(a + b) == Digits(a) + Digits(b)
    ensures Places(a + b) == Places(a) + Places(b)
    ensures Signs(a + b) == Signs(a) + Signs(b)
  {
    assert multiset(a + b) == multiset(a) + multiset(b);
  }

  lemma DigitsOfPad(n: int)
    ensures Digits(ZeroPad(n)) == |ZeroPad(n)|
  {
    var z := ZeroPad(n);
    assert '.' !in z && '-' !in z;
    assert multiset(z)['.'] == 0 && multiset(z)['-'] == 0;
  }

  // ---------------------------------------------------------------------------------------
  // withFixedLength

  function Abs(v: real): real {
    if v < 0.0 then -v else v
  }

  /** Numbers closer to zero than 10 ^ -digits are formatted as zero, to avoid exponential notation. */
  function Flushed(v: real, digits: int): real {
    if Abs(v) < Pow10(-digits) then 0.0 else v
  }

  /**
   * The copying loop of `withFixedLength`: copies `text` character by character, counting
   * places (non-'.' characters) and raising the budget for each '-', and stops right after
   * the character at which the places reach the budget.
   */
  method CopyUntilBudget(text: string, digits: int)
    returns (copied: string, numPlacesAppended: int, budget: int, hasDecimalDot: bool)
    ensures copied == text[..Cut(text, digits)] && IsCut(text, digits, |copied|)
    ensures numPlacesAppended == Places(copied) && budget == digits + Signs(copied)
    ensures hasDecimalDot <==> '.' in copied
    ensures digits >= 1 ==> Digits(copied) <= digits
  {
    numPlacesAppended := 0;
    hasDecimalDot := false;
    budget := digits;
    var i := 0;
    copied := "";
    while i < |text|
      invariant 0 <= i <= |text|
      invariant copied == text[..i]
      invariant numPlacesAppended == Places(copied) && budget == digits + Signs(copied)
      invariant hasDecimalDot <==> '.' in copied
      invariant Cut(text, digits) == CutFrom(text, digits, i)
      invariant digits >= 1 ==> Digits(copied) < digits
    {
      var c := text[i];
      DigitsOfAppend(copied, [c]);
      assert text[..i + 1] == copied + [c];
      copied := copied + [c];
      if c == '.' {
        hasDecimalDot := true;
      } else {
        numPlacesAppended := numPlacesAppended + 1;
      }
      if c == '-' {
        budget := budget + 1;
      }
      i := i + 1;
      if numPlacesAppended == budget {
        assert Stops(text, digits, i);
        break;
      }
    }
    CutIsFirstStop(text, digits);
  }

  /**
   * `withFixedLength`: NaN and both infinities become "NaN" and "Inf"; a finite number is
   * formatted at precision `digits`, copied up to the point where the copied places reach
   * the budget, and padded with a '.' (only when none was copied) and the missing zeros.
   */
  method WithFixedLength(x: FloatValue, digits: int, format: Format) returns (r: string)
    ensures x.NaN? ==> r == "NaN"
    ensures x.Inf? ==> r == "Inf"
    ensures x.Finite? ==> r == Fixed(format(Flushed(x.v, digits), digits), digits)
    ensures x.Finite? && Abs(x.v) < Pow10(-digits) ==> r == Fixed(format(0.0, digits), digits)
    ensures x.Finite? && Pow10(-digits) <= Abs(x.v) ==> r == Fixed(format(x.v, digits), digits)
    ensures x.Finite? && digits >= 1 ==> Digits(r) == digits
  {
    if x.NaN? {
      return "NaN";
    }
    if x.Inf? {
      return "Inf";
    }
    var v := x.v;
    if Abs(v) < Pow10(-digits) {
      v := 0.0;
    }
    var text := format(v, digits);
    var numPlacesAppended, budget, hasDecimalDot;
    r, numPlacesAppended, budget, hasDecimalDot := CopyUntilBudget(text, digits);
    var copied := r;
    var missing := budget - numPlacesAppended;
    if missing != 0 {
      if !hasDecimalDot {
        r := r + ".";
      }
      r := r + ZeroPad(missing);
    }
    assert r == copied + Padding(copied, digits);
    if digits >= 1 {
      FixedLengthDigits(copied, digits);
    }
  }

  /** A copied prefix padded as `withFixedLength` does holds `digits` digits when the prefix held at most that many. */
  lemma FixedLengthDigits(copied: string, digits: int)
    requires digits >= 1
    requires Digits(copied) <= digits
    ensures Digits(copied + Padding(copied, digits)) == digits
  {
    var missing := digits + Signs(copied) - Places(copied);
    assert missing == digits - Digits(copied);
    if missing != 0 {
      var dot := if '.' in copied then "" else ".";
      var zeros := ZeroPad(missing);
      assert Padding(copied, digits) == dot + zeros;
      assert Digits(dot) == 0 by {
        if dot == "." {
          assert multiset(dot)['.'] == 1;
        }
      }
      DigitsOfPad(missing);
      DigitsOfAppend(dot, zeros);
      DigitsOfAppend(copied, dot + zeros);
    }
  }

  // ---------------------------------------------------------------------------------------
  // SI prefixes

  /**
   * `getBestSIPrefixForValue`: the prefix index is derived from the base-2 exponent of the
   * (already scaled) number and clamped to femto..peta.
   */
  function BestSIPrefix(exponentBase2: int): (p: SIPrefix)
    ensures var idx := (exponentBase2 as real * Base2ExponentToPrefixIdx).Floor;
            && (-5 <= idx <= 5 ==> p as int == idx)
            && (idx < -5 ==> p == Femto)
            && (idx > 5 ==> p == Peta)
  {
    var idx := (exponentBase2 as real * Base2ExponentToPrefixIdx).Floor;
    if idx < -5 then Femto else if idx > 5 then Peta else idx as SIPrefix
  }

  /** The clamp only acts for base-2 exponents outside -49..59. */
  lemma BestSIPrefixUnclamped(exponentBase2: int)
    requires -49 <= exponentBase2 <= 59
    ensures BestSIPrefix(exponentBase2) as int == (exponentBase2 as real * Base2ExponentToPrefixIdx).Floor
  {
    var x := exponentBase2 as real * Base2ExponentToPrefixIdx;
    assert -5.0 <= x < 6.0;
  }

  /** A larger exponent never gives a smaller prefix. */
  lemma BestSIPrefixMonotone(e: int, e': int)
    requires e <= e'
    ensures BestSIPrefix(e) <= BestSIPrefix(e')
  {
    var x := e as real * Base2ExponentToPrefixIdx;
    var x' := e' as real * Base2ExponentToPrefixIdx;
    assert x <= x';
  }

  /** The symbol appended for a prefix: the table entry at `prefix + 5`. */
  function PrefixSymbol(p: SIPrefix): (s: string)
    ensures p == NoPrefix <==> s == ""
    ensures p == Kilo ==> s == "k"
    ensures p == Milli ==> s == "m"
    ensures p == Micro ==> s == "\U{03BC}"
  {
    SIPrefixes[p as int + SIPrefixArrayOffset]
  }

  /** Every prefix has its own symbol. */
  lemma PrefixSymbolsDistinct(p: SIPrefix, q: SIPrefix)
    requires p != q
    ensures PrefixSymbol(p) != PrefixSymbol(q)
  { }

  /** 10 ^ n for a whole exponent. */
  function Pow10(n: int): (r: real)
    ensures r > 0.0
    decreases if n < 0 then -n else n
  {
    if n == 0 then 1.0 else if n > 0 then 10.0 * Pow10(n - 1) else Pow10(n + 1) / 10.0
  }

  /** Each step of the exponent is a factor of ten, on both sides of zero. */
  lemma Pow10Succ(n: int)
    ensures Pow10(n + 1) == 10.0 * Pow10(n)
  {
  }

  /**
   * `withSIPrefix (x, digits, prefix)`: NaN and infinities as in `withFixedLength`; otherwise
   * the number is divided by 10 ^ (3 * prefix), converted with the fixed length, and the
   * prefix symbol is appended.
   */
  method WithSIPrefix(x: FloatValue, digits: int, prefix: SIPrefix, format: Format) returns (r: string)
    ensures x.NaN? ==> r == "NaN"
    ensures x.Inf? ==> r == "Inf"
    ensures x.Finite? ==>
              var scaled := x.v / Pow10(3 * prefix as int);
              r == Fixed(format(Flushed(scaled, digits), digits), digits) + PrefixSymbol(prefix)
    ensures x.Finite? && digits >= 1 ==> Digits(r[..|r| - |PrefixSymbol(prefix)|]) == digits
  {
    if x.NaN? {
      return "NaN";
    }
    if x.Inf? {
      return "Inf";
    }
    var symbol := PrefixSymbol(prefix);
    var scaled := x.v / Pow10(3 * prefix as int);
    var fixed := WithFixedLength(Finite(scaled), digits, format);
    r := fixed + symbol;
    assert r[..|fixed|] == fixed;
  }

  /**
   * `withSIPrefix (x, digits)`: the prefix is the best one for the number, whose base-2
   * exponent after scaling is given.
   */
  method WithBestSIPrefix(x: FloatValue, digits: int, exponentBase2: int, format: Format) returns (r: string)
    ensures x.NaN? ==> r == "NaN"
    ensures x.Inf? ==> r == "Inf"
    ensures x.Finite? ==>
              var p := BestSIPrefix(exponentBase2);
              var scaled := x.v / Pow10(3 * p as int);
              r == Fixed(format(Flushed(scaled, digits), digits), digits) + PrefixSymbol(p)
  {
    r := WithSIPrefix(x, digits, BestSIPrefix(exponentBase2), format);
  }
}
