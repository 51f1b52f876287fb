/**
 * `ntlab::SerializableRange`: a `juce::Range` that is stored in a `juce::ValueTree` as the
 * text "<start>|<end>". Number formatting (`juce::String (double)`) and parsing
 * (`getDoubleValue`) are parameters; the model is the joining, the tokenising, the checks
 * on the tokens and the way the range is updated from them.
 */
module SerializableRange {
  import opened Types

  /** `juce::String (x)` for a number. */
  type Format = real -> string

  /** `juce::String::getDoubleValue`. */
  type Parse = string -> real

  const Separator: char := '|'

  /** The characters each token is expected to consist of. */
  const NumberChars: string := "-.0123456789"

  /** `juce::Range`: the end never lies below the start. */
  datatype Range = Range(start: real, end: real)

  predicate ValidRange(r: Range) {
    r.start <= r.end
  }

  /** `juce::Range (min, max)`: the end is raised to the start when it lies below it. */
  function MakeRange(min: real, max: real): (r: Range)
    ensures ValidRange(r) && r.start == min
    ensures min <= max ==> r.end == max
  {
    Range(min, if max < min then min else max)
  }

  /** `Range::setStart`: moves the start, dragging the end along when it would lie below it. */
  function SetStart(r: Range, newStart: real): (r': Range)
    ensures ValidRange(r') && r'.start == newStart
    ensures newStart <= r.end ==> r'.end == r.end
  {
    Range(newStart, if r.end < newStart then newStart else r.end)
  }

  /** `Range::setEnd`: moves the end, dragging the start along when it would lie above it. */
  function SetEnd(r: Range, newEnd: real): (r': Range)
    ensures ValidRange(r') && r'.end == newEnd
    ensures r.start <= newEnd ==> r'.start == r.start
  {
    Range(if newEnd < r.start then newEnd else r.start, newEnd)
  }

  // ---------------------------------------------------------------------------------------
  // Tokenising

  /** Splits on every separator, keeping empty tokens: one more token than separators. */
  function SplitAll(s: string): (tokens: seq<string>)
    ensures |tokens| == multiset(s)[Separator] + 1
    ensures forall i :: 0 <= i < |tokens| ==> Separator !in tokens[i]
    decreases |s|
  {
    if s == [] then [""]
    else
      var rest := SplitAll(s[1..]);
      assert s == [s[0]] + s[1..];
      assert multiset(s) == multiset{s[0]} + multiset(s[1..]);
      if s[0] == Separator then [""] + rest
      else [[s[0]] + rest[0]] + rest[1..]
  }

  /** `StringArray::fromTokens (s, "|", "")`: no tokens for the empty text. */
  function Tokens(s: string): (tokens: seq<string>)
    ensures s == [] <==> tokens == []
    ensures s != [] ==> |tokens| == multiset(s)[Separator] + 1
  {
    if s == [] then [] else SplitAll(s)
  }

  /** Text without a separator is a single token. */
  lemma {:induction false} SplitAllPlain(a: string)
    requires Separator !in a
    ensures SplitAll(a) == [a]
    decreases |a|
  {
    if a != [] {
      SplitAllPlain(a[1..]);
      assert [a[0]] + a[1..] == a;
    }
  }

  /** A separator-free text followed by a separator and more text starts a new token. */
  lemma {:induction false} SplitAllJoin(a: string, b: string)
    requires Separator !in a
    ensures SplitAll(a + [Separator] + b) == [a] + SplitAll(b)
    decreases |a|
  {
    var s := a + [Separator] + b;
    if a == [] {
      assert s == [Separator] + b;
      assert s[1..] == b;
    } else {
      var tail := a[1..];
      assert s[1..] == tail + [Separator] + b;
      assert [a[0]] + tail == a;
      SplitAllJoin(tail, b);
    }
  }

  /** `StringArray::operator[]`: an index past the end gives the empty text. */
  function TokenAt(tokens: seq<string>, i: nat): (t: string)
    ensures i < |tokens| ==> t == tokens[i]
    ensures i >= |tokens| ==> t == ""
  {
    if i < |tokens| then tokens[i] else ""
  }

  /** `String::containsOnly`. */
  predicate ContainsOnly(s: string, chars: string) {
    forall i :: 0 <= i < |s| ==> s[i] in chars
  }

  /** The debug assertions of `fromString`: exactly two tokens, each made of number characters. */
  predicate WellFormedText(text: string) {
    var tokens := Tokens(text);
    |tokens| == 2 && ContainsOnly(tokens[0], NumberChars) && ContainsOnly(tokens[1], NumberChars)
  }

  // ---------------------------------------------------------------------------------------
  // Conversions

  /** `toString`: the start text, the separator and the end text, so that it splits back into the two. */
  function ToString(r: Range, format: Format): (s: string)
    ensures |s| == |format(r.start)| + 1 + |format(r.end)|
    ensures Separator !in format(r.start) && Separator !in format(r.end) ==>
              Tokens(s) == [format(r.start), format(r.end)]
    ensures ContainsOnly(format(r.start), NumberChars) && ContainsOnly(format(r.end), NumberChars) ==>
              WellFormedText(s)
  {
    var s := format(r.start) + [Separator] + format(r.end);
    if Separator !in format(r.start) && Separator !in format(r.end) then
      SplitAllJoin(format(r.start), format(r.end));
      SplitAllPlain(format(r.end));
      s
    else s
  }

  /**
   * `fromString`: the start is set from the first token, then the end from the second; a
   * missing token reads as the empty text. The debug assertions are `WellFormedText`.
   */
  function FromString(r: Range, text: string, parse: Parse): (r': Range)
    ensures var tokens := Tokens(text);
            && ValidRange(r')
            && r'.end == parse(TokenAt(tokens, 1))
            && (parse(TokenAt(tokens, 0)) <= parse(TokenAt(tokens, 1)) ==> r'.start == parse(TokenAt(tokens, 0)))
            && (parse(TokenAt(tokens, 1)) < parse(TokenAt(tokens, 0)) ==> r'.start == r'.end)
  {
    var tokens := Tokens(text);
    SetEnd(SetStart(r, parse(TokenAt(tokens, 0))), parse(TokenAt(tokens, 1)))
  }

  /**
   * The text of a `juce::var` as `var::toString` gives it. A double goes through JUCE's
   * `serialiseDouble`, a formatter of its own (`doubleText`), not the range's `format`.
   */
  function VarText(v: Var, doubleText: Format): string {
    match v
    case VString(s) => s
    case VDouble(d) => doubleText(d)
    case VInt(i) => IntText(i)
    case VBool(b) => if b then "1" else "0"
  }

  function NatText(n: nat): (s: string)
    ensures |s| >= 1
  {
    if n < 10 then [DigitChar(n)] else NatText(n / 10) + [DigitChar(n % 10)]
  }

  function DigitChar(d: nat): char
    requires d < 10
  {
    "0123456789"[d]
  }

  function IntText(i: int): string {
    if i < 0 then "-" + NatText(-i) else NatText(i)
  }

  /** `SerializableRange (const String&)`: a default range (0, 0) updated from the text. */
  function FromText(text: string, parse: Parse): (r: Range)
    ensures ValidRange(r)
    ensures var tokens := Tokens(text);
            parse(TokenAt(tokens, 0)) <= parse(TokenAt(tokens, 1)) ==>
              r == Range(parse(TokenAt(tokens, 0)), parse(TokenAt(tokens, 1)))
  {
    FromString(Range(0.0, 0.0), text, parse)
  }

  /** `SerializableRange (const var&)` goes through the var's text. */
  function FromVar(v: Var, doubleText: Format, parse: Parse): (r: Range)
    ensures v.VString? ==> r == FromText(v.s, parse)
    ensures v.VDouble? ==> r == FromText(doubleText(v.d), parse)
  {
    FromText(VarText(v, doubleText), parse)
  }

  /** `operator juce::var()`: the var holds the text of `toString`. */
  function ToVar(r: Range, format: Format): (v: Var)
    ensures v.VString? && Tokens(v.s) == Tokens(ToString(r, format))
  {
    VString(ToString(r, format))
  }

  // ---------------------------------------------------------------------------------------
  // Round trips

  /**
   * A valid range written with `toString` and read back with `fromString` into any range
   * is the same range, when parsing undoes the formatting of its bounds.
   */
  lemma RangeRoundTrip(r: Range, into: Range, format: Format, parse: Parse)
    requires ValidRange(r)
    requires Separator !in format(r.start) && Separator !in format(r.end)
    requires parse(format(r.start)) == r.start && parse(format(r.end)) == r.end
    ensures FromString(into, ToString(r, format), parse) == r
  {
  }

  /** The var conversion round-trips the same way, into the default range. */
  lemma VarRoundTrip(r: Range, format: Format, doubleText: Format, parse: Parse)
    requires ValidRange(r)
    requires Separator !in format(r.start) && Separator !in format(r.end)
    requires parse(format(r.start)) == r.start && parse(format(r.end)) == r.end
    ensures FromVar(ToVar(r, format), doubleText, parse) == r
  {
    RangeRoundTrip(r, Range(0.0, 0.0), format, parse);
  }
}
