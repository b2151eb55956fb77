/** The three segment formatters of a rolling-file pattern (literal, index,
    date) and the date frequency rules. A `StringBuilder` that a formatter
    appends to is modelled as the string it holds before and after the call. */
module Formatters {
  import opened Common

  /** One argument handed to `Formatter.format(StringBuilder, Object...)`. */
  datatype Argument = DateArg(millis: int) | IntegerArg(value: int) | OtherArg

  /** `SimpleDateFormat(pattern).format(new Date(millis))`: library behaviour,
      supplied by the caller. */
  type DateRenderer = (string, int) -> string

  /** The rolling frequency named by a date pattern. */
  datatype Frequency = Minute | Hourly | Daily | Weekly | Monthly | Annually

  /** `Frequency.values()`, in declaration order. */
  const Frequencies: seq<Frequency> := [Minute, Hourly, Daily, Weekly, Monthly, Annually]

  /** The pattern letter each frequency looks for (case-sensitive). */
  function LetterChar(f: Frequency): char
  {
    match f
    case Minute => 'm'
    case Hourly => 'H'
    case Daily => 'd'
    case Weekly => 'w'
    case Monthly => 'M'
    case Annually => 'y'
  }

  /** Position of a frequency in `Frequencies`. */
  function Rank(f: Frequency): nat
  {
    match f
    case Minute => 0
    case Hourly => 1
    case Daily => 2
    case Weekly => 3
    case Monthly => 4
    case Annually => 5
  }

  /** `Frequency.match`: `pattern.contains(letter)`; every letter is a single
      character, so this is "the character occurs somewhere in the pattern". */
  predicate Matches(f: Frequency, pattern: string)
  {
    exists i | 0 <= i < |pattern| :: pattern[i] == LetterChar(f)
  }

  lemma FrequenciesRank(f: Frequency)
    ensures Rank(f) < |Frequencies| && Frequencies[Rank(f)] == f
  {
  }

  /** The first frequency of `fs` whose letter occurs in `pattern`. */
  function FirstMatch(fs: seq<Frequency>, pattern: string): (r: Option<nat>)
    ensures r.Some? ==> r.value < |fs| && Matches(fs[r.value], pattern)
    ensures r.Some? ==> forall i :: 0 <= i < r.value ==> !Matches(fs[i], pattern)
    ensures r.None? ==> forall i :: 0 <= i < |fs| ==> !Matches(fs[i], pattern)
  {
    if |fs| == 0 then None
    else if Matches(fs[0], pattern) then Some(0)
    else
      match FirstMatch(fs[1..], pattern)
      case None => None
      case Some(i) => Some(i + 1)
  }

  datatype PatternError = PatternNotSupported

  /** `Frequency.of`: the first frequency, in the order m, H, d, w, M, y, whose
      letter occurs in the pattern; an IllegalArgumentException when none does. */
  function FrequencyOf(pattern: string): (r: Result<Frequency, PatternError>)
    ensures r.Success? ==> Matches(r.value, pattern)
    ensures r.Success? ==> forall g: Frequency :: Rank(g) < Rank(r.value) ==> !Matches(g, pattern)
    ensures r.Failure? <==> forall g: Frequency :: !Matches(g, pattern)
  {
    match FirstMatch(Frequencies, pattern)
    case None =>
      assert forall g: Frequency :: !Matches(g, pattern) by {
        forall g: Frequency ensures !Matches(g, pattern) { FrequenciesRank(g); }
      }
      Failure(PatternNotSupported)
    case Some(i) =>
      assert forall g: Frequency :: Rank(g) < Rank(Frequencies[i]) ==> !Matches(g, pattern) by {
        forall g: Frequency | Rank(g) < Rank(Frequencies[i]) ensures !Matches(g, pattern) {
          FrequenciesRank(g);
          FrequenciesRank(Frequencies[i]);
        }
      }
      Success(Frequencies[i])
  }

  /** "yyyy-MM-dd" rolls daily; "M" (month) and "m" (minute) are told apart. */
  lemma FrequencyExamples()
    ensures FrequencyOf("yyyy-MM-dd") == Success(Daily)
    ensures FrequencyOf("mm") == Success(Minute)
  {
    assert "yyyy-MM-dd"[8] == 'd';
    assert "mm"[0] == 'm';
  }

  /** A pattern with only month letters rolls monthly; one with no frequency
      letter at all is refused. */
  lemma FrequencyMonthExamples()
    ensures FrequencyOf("MM") == Success(Monthly)
    ensures FrequencyOf("ss").Failure?
  {
    assert "MM"[0] == 'M' && "MM"[1] == 'M';
    assert "ss"[0] == 's' && "ss"[1] == 's';
    assert forall g: Frequency :: !Matches(g, "ss");
  }

  datatype ArithmeticError = DivideByZero

  /** The step `Frequency.increment` adds to a calendar field holding `value`:
      `increment` itself, or with `modulate` the distance to the next multiple
      of `increment`; Java `int` arithmetic, and `%` by zero throws. */
  function Interval(value: int, increment: int, modulate: bool): (r: Result<int, ArithmeticError>)
    requires IsInt32(value) && IsInt32(increment)
    ensures !modulate ==> r == Success(increment)
    ensures modulate ==> (r.Failure? <==> increment == 0)
    ensures r.Success? ==> IsInt32(r.value)
    ensures modulate && increment > 0 && value >= 0 ==>
      r.Success? && 1 <= r.value <= increment && value + r.value == (value / increment + 1) * increment
  {
    if !modulate then Success(increment)
    else if increment == 0 then Failure(DivideByZero)
    else
      var step := Wrap32(increment - JavaRem(value, increment));
      if increment > 0 && value >= 0 then
        NextMultiple(value, increment);
        Success(step)
      else Success(step)
  }

  lemma NextMultiple(value: nat, increment: int)
    requires increment > 0
    ensures 1 <= increment - value % increment <= increment
    ensures value + (increment - value % increment) == (value / increment + 1) * increment
  {
    var q := value / increment;
    var r := value % increment;
    assert value == q * increment + r;
    assert (q + 1) * increment == q * increment + increment;
  }

  lemma MulMonotone(a: int, b: int, n: int)
    requires a <= b && n > 0
    ensures a * n <= b * n
  {
    assert b * n - a * n == (b - a) * n;
  }

  /** With `modulate`, a non-negative field moves to the least multiple of the
      increment that lies strictly above it: no multiple `k * increment` falls
      between the field and its new value. */
  lemma ModulatedIntervalIsLeast(value: int, increment: int, k: int)
    requires IsInt32(value) && IsInt32(increment)
    requires value >= 0 && increment > 0
    requires k * increment > value
    ensures Interval(value, increment, true).Success?
    ensures value + Interval(value, increment, true).value <= k * increment
  {
    var q := value / increment;
    assert q * increment <= value;
    if k <= q {
      MulMonotone(k, q, increment);
    }
    MulMonotone(q + 1, k, increment);
  }

  // ---------------------------------------------------------------------
  // Decimal rendering of an `Integer` argument

  function DigitChar(d: nat): char
    requires d < 10
  {
    (48 + d) as char
  }

  function DigitValue(c: char): int
  {
    (c as int) - 48
  }

  /** The decimal digits of a natural number, most significant first. */
  function Digits(n: nat): (r: string)
    ensures |r| >= 1
    ensures forall k :: 0 <= k < |r| ==> '0' <= r[k] <= '9'
    decreases n
  {
    if n < 10 then [DigitChar(n)] else Digits(n / 10) + [DigitChar(n % 10)]
  }

  /** `String.valueOf(Integer)`: optional minus sign, then the digits. */
  function DecimalString(n: int): string
  {
    if n < 0 then "-" + Digits(-n) else Digits(n)
  }

  function ParseDigits(s: string): int
  {
    if |s| == 0 then 0 else 10 * ParseDigits(s[..|s| - 1]) + DigitValue(s[|s| - 1])
  }

  /** Reads back what `DecimalString` writes. */
  function ParseDecimal(s: string): int
  {
    if |s| > 0 && s[0] == '-' then -ParseDigits(s[1..]) else ParseDigits(s)
  }

  lemma {:induction false} DigitsRoundTrip(n: nat)
    ensures ParseDigits(Digits(n)) == n
    decreases n
  {
    if n >= 10 {
      var prefix := Digits(n / 10);
      var s := prefix + [DigitChar(n % 10)];
      assert s[..|s| - 1] == prefix;
      DigitsRoundTrip(n / 10);
      assert ParseDigits(s) == 10 * ParseDigits(prefix) + DigitValue(DigitChar(n % 10));
      assert ParseDigits(s) == 10 * (n / 10) + n % 10;
    }
  }

  /** Reading the decimal form of an index gives the index back. */
  lemma DecimalRoundTrip(n: int)
    ensures ParseDecimal(DecimalString(n)) == n
  {
    if n < 0 {
      var s := "-" + Digits(-n);
      assert s[1..] == Digits(-n);
      DigitsRoundTrip(-n);
    } else {
      DigitsRoundTrip(n);
    }
  }

  // ---------------------------------------------------------------------
  // The formatters

  /** A parsed pattern segment. */
  datatype Formatter =
    | LiteralFormatter(text: string)
    | IndexFormatter
    | DateFormatter(pattern: string, frequency: Frequency)

  /** The value of the first `Integer` argument, if any. */
  function FirstInteger(arguments: seq<Argument>): (r: Option<int>)
    ensures r.Some? ==> exists i :: (0 <= i < |arguments| && arguments[i] == IntegerArg(r.value) &&
      forall j :: 0 <= j < i ==> !arguments[j].IntegerArg?)
    ensures r.None? ==> forall i :: 0 <= i < |arguments| ==> !arguments[i].IntegerArg?
  {
    if |arguments| == 0 then None
    else if arguments[0].IntegerArg? then Some(arguments[0].value)
    else
      var r := FirstInteger(arguments[1..]);
      if r.Some? then
        var i :| 0 <= i < |arguments[1..]| && arguments[1..][i] == IntegerArg(r.value) &&
          forall j :: 0 <= j < i ==> !arguments[1..][j].IntegerArg?;
        assert arguments[i + 1] == IntegerArg(r.value);
        r
      else r
  }

  /** The time of the first `Date` argument, if any. */
  function FirstDate(arguments: seq<Argument>): (r: Option<int>)
    ensures r.Some? ==> exists i :: (0 <= i < |arguments| && arguments[i] == DateArg(r.value) &&
      forall j :: 0 <= j < i ==> !arguments[j].DateArg?)
    ensures r.None? ==> forall i :: 0 <= i < |arguments| ==> !arguments[i].DateArg?
  {
    if |arguments| == 0 then None
    else if arguments[0].DateArg? then Some(arguments[0].millis)
    else
      var r := FirstDate(arguments[1..]);
      if r.Some? then
        var i :| 0 <= i < |arguments[1..]| && arguments[1..][i] == DateArg(r.value) &&
          forall j :: 0 <= j < i ==> !arguments[1..][j].DateArg?;
        assert arguments[i + 1] == DateArg(r.value);
        r
      else r
  }

  /** What a formatter appends for the given arguments. */
  function FormatterText(f: Formatter, arguments: seq<Argument>, render: DateRenderer): string
  {
    match f
    case LiteralFormatter(text) => text
    case IndexFormatter =>
      (match FirstInteger(arguments) case Some(v) => DecimalString(v) case None => "")
    case DateFormatter(pattern, _) =>
      (match FirstDate(arguments) case Some(t) => render(pattern, t) case None => "")
  }

  /** `DefaultFormatter.format`: appends the stored literal, whatever the arguments. */
  method DefaultFormat(source: string, text: string, arguments: seq<Argument>) returns (out: string)
    ensures |out| == |source| + |text|
    ensures out[..|source|] == source && out[|source|..] == text
  {
    out := source + text;
  }

  /** `IndexFormatter.format`: appends the decimal form of the first `Integer`
      argument and stops there; other arguments are skipped. */
  method IndexFormat(source: string, arguments: seq<Argument>) returns (out: string)
    ensures out == source + FormatterText(IndexFormatter, arguments, (p, t) => "")
    ensures FirstInteger(arguments).Some? ==>
      ParseDecimal(out[|source|..]) == FirstInteger(arguments).value
  {
    out := source;
    var i := 0;
    while i < |arguments|
      invariant 0 <= i <= |arguments|
      invariant forall j :: 0 <= j < i ==> !arguments[j].IntegerArg?
      invariant out == source
    {
      if arguments[i].IntegerArg? {
        out := out + DecimalString(arguments[i].value);
        FirstIntegerAt(arguments, i);
        DecimalRoundTrip(arguments[i].value);
        assert out[|source|..] == DecimalString(arguments[i].value);
        return;
      }
      i := i + 1;
    }
  }

  lemma FirstIntegerAt(arguments: seq<Argument>, i: nat)
    requires i < |arguments| && arguments[i].IntegerArg?
    requires forall j :: 0 <= j < i ==> !arguments[j].IntegerArg?
    ensures FirstInteger(arguments) == Some(arguments[i].value)
  {
    var r := FirstInteger(arguments);
    if r.Some? {
      var k :| 0 <= k < |arguments| && arguments[k] == IntegerArg(r.value) &&
        forall j :: 0 <= j < k ==> !arguments[j].IntegerArg?;
      assert k == i;
    }
  }

  lemma FirstDateAt(arguments: seq<Argument>, i: nat)
    requires i < |arguments| && arguments[i].DateArg?
    requires forall j :: 0 <= j < i ==> !arguments[j].DateArg?
    ensures FirstDate(arguments) == Some(arguments[i].millis)
  {
    var r := FirstDate(arguments);
    if r.Some? {
      var k :| 0 <= k < |arguments| && arguments[k] == DateArg(r.value) &&
        forall j :: 0 <= j < k ==> !arguments[j].DateArg?;
      assert k == i;
    }
  }

  /** `DateFormatter.format`: appends the rendering of the first `Date`
      argument only. */
  method DateFormat(source: string, pattern: string, frequency: Frequency, arguments: seq<Argument>, render: DateRenderer)
    returns (out: string)
    ensures out == source + FormatterText(DateFormatter(pattern, frequency), arguments, render)
  {
    out := source;
    var i := 0;
    while i < |arguments|
      invariant 0 <= i <= |arguments|
      invariant forall j :: 0 <= j < i ==> !arguments[j].DateArg?
      invariant out == source
    {
      if arguments[i].DateArg? {
        out := out + render(pattern, arguments[i].millis);
        FirstDateAt(arguments, i);
        return;
      }
      i := i + 1;
    }
  }

  /** `Formatter.format`, dispatched on the kind of segment. */
  method Format(f: Formatter, source: string, arguments: seq<Argument>, render: DateRenderer) returns (out: string)
    ensures out == source + FormatterText(f, arguments, render)
  {
    match f
    case LiteralFormatter(text) => out := DefaultFormat(source, text, arguments);
    case IndexFormatter => out := IndexFormat(source, arguments);
    case DateFormatter(pattern, frequency) => out := DateFormat(source, pattern, frequency, arguments, render);
  }
}
