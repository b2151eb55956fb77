/** A rolling-file name pattern such as "app.%d{yyyy-MM-dd}.%index.log.gz":
    parsed into `.`-separated formatter segments, rendered for an index, and
    carrying the file times that the time trigger maintains. */
module FilePatterns {
  import opened Common
  import Files
  import opened Formatters

  const Dot: char := '.'

  // ---------------------------------------------------------------------
  // Splitting on '.' and joining with '.'

  /** All the pieces between dots, empty ones included. */
  function SplitAll(s: string): (r: seq<string>)
    ensures |r| >= 1
    ensures forall k, j :: 0 <= k < |r| && 0 <= j < |r[k]| ==> r[k][j] != Dot
    decreases |s|
  {
    var k := Files.LastIndexOf(s, Dot);
    if k == -1 then [s] else SplitAll(s[..k]) + [s[k + 1..]]
  }

  /** The pieces glued back together with a dot between consecutive ones. */
  function Join(parts: seq<string>): string
  {
    if |parts| == 0 then ""
    else if |parts| == 1 then parts[0]
    else Join(parts[..|parts| - 1]) + [Dot] + parts[|parts| - 1]
  }

  /** Appending one more part to a joined string: a dot, unless it is the
      first part, then the part. */
  lemma JoinAppend(prefix: string, parts: seq<string>, part: string)
    ensures prefix + Join(parts + [part]) ==
      (if |parts| == 0 then prefix else prefix + Join(parts) + [Dot]) + part
  {
    assert (parts + [part])[..|parts|] == parts;
    if |parts| != 0 {
      AppendAssoc(prefix + Join(parts), [Dot], part);
      AppendAssoc(prefix, Join(parts), [Dot] + part);
      AppendAssoc(Join(parts), [Dot], part);
    }
  }

  predicate NoDot(s: string) { forall j :: 0 <= j < |s| ==> s[j] != Dot }

  /** Splitting and joining are inverse: joining the pieces restores the string. */
  lemma {:induction false} JoinSplitAll(s: string)
    ensures Join(SplitAll(s)) == s
    decreases |s|
  {
    var k := Files.LastIndexOf(s, Dot);
    if k != -1 {
      JoinSplitAll(s[..k]);
      var left := SplitAll(s[..k]);
      assert SplitAll(s) == left + [s[k + 1..]];
      assert (left + [s[k + 1..]])[..|left|] == left;
      assert s == s[..k] + [Dot] + s[k + 1..];
    }
  }

  lemma {:induction false} JoinHasNoDotWhenSingle(parts: seq<string>)
    requires |parts| >= 1
    requires forall k :: 0 <= k < |parts| ==> NoDot(parts[k])
    ensures |Join(parts)| >= |parts[|parts| - 1]|
    ensures Join(parts)[|Join(parts)| - |parts[|parts| - 1]|..] == parts[|parts| - 1]
    ensures |parts| == 1 <==> NoDot(Join(parts))
    decreases |parts|
  {
    if |parts| > 1 {
      var init := parts[..|parts| - 1];
      JoinHasNoDotWhenSingle(init);
      var j := Join(init);
      assert Join(parts) == j + [Dot] + parts[|parts| - 1];
      assert Join(parts)[|j|] == Dot;
    }
  }

  /** Joining dot-free pieces and splitting again gives the same pieces back. */
  lemma {:induction false} SplitAllJoin(parts: seq<string>)
    requires |parts| >= 1
    requires forall k :: 0 <= k < |parts| ==> NoDot(parts[k])
    ensures SplitAll(Join(parts)) == parts
    decreases |parts|
  {
    var last := parts[|parts| - 1];
    if |parts| == 1 {
      assert Join(parts) == last;
      assert Files.LastIndexOf(last, Dot) == -1;
    } else {
      var init := parts[..|parts| - 1];
      assert Join(parts) == Join(init) + [Dot] + last;
      SplitAllAppend(Join(init), last);
      SplitAllJoin(init);
      assert parts == init + [last];
    }
  }

  /** A dot-free piece after a last dot is split off as the last piece. */
  lemma SplitAllAppend(j: string, last: string)
    requires NoDot(last)
    ensures SplitAll(j + [Dot] + last) == SplitAll(j) + [last]
  {
    var s := j + [Dot] + last;
    assert s[|j|] == Dot;
    assert forall x :: |j| < x < |s| ==> s[x] == last[x - |j| - 1];
    assert Files.LastIndexOf(s, Dot) == |j|;
    assert s[..|j|] == j && s[|j| + 1..] == last;
  }

  function DropTrailingEmpty(parts: seq<string>): (r: seq<string>)
    ensures r <= parts
    ensures forall k :: |r| <= k < |parts| ==> parts[k] == ""
    ensures |r| > 0 ==> r[|r| - 1] != ""
  {
    if |parts| > 0 && parts[|parts| - 1] == "" then DropTrailingEmpty(parts[..|parts| - 1]) else parts
  }

  /** `String.split("\\.")`: a string without a dot is its own single piece;
      otherwise the pieces between dots with trailing empty pieces removed. */
  function JavaSplit(s: string): (r: seq<string>)
    ensures r <= SplitAll(s)
    ensures Files.LastIndexOf(s, Dot) == -1 ==> r == [s]
    ensures Files.LastIndexOf(s, Dot) != -1 ==>
      (forall k :: |r| <= k < |SplitAll(s)| ==> SplitAll(s)[k] == "") && (|r| > 0 ==> r[|r| - 1] != "")
  {
    if Files.LastIndexOf(s, Dot) == -1 then [s] else DropTrailingEmpty(SplitAll(s))
  }

  // ---------------------------------------------------------------------
  // Recognising a segment: `Pattern.compile("%d\\{(.*)\\}").matcher(seg).find()`

  /** The characters a regex `.` does not match. */
  predicate IsLineTerminator(c: char)
  {
    c == '\n' || c == '\r' || c == '\U{0085}' || c == '\U{2028}' || c == '\U{2029}'
  }

  /** "%d{" starts at position `i`. */
  predicate OpensDate(seg: string, i: int)
  {
    0 <= i && i + 3 <= |seg| && seg[i] == '%' && seg[i + 1] == 'd' && seg[i + 2] == '{'
  }

  /** End of the line that starts at `from`: the first line terminator at or
      after `from`, or the end of the segment. */
  function LineEnd(seg: string, from: nat): (e: nat)
    requires from <= |seg|
    ensures from <= e <= |seg|
    ensures forall k :: from <= k < e ==> !IsLineTerminator(seg[k])
    ensures e < |seg| ==> IsLineTerminator(seg[e])
    decreases |seg| - from
  {
    if from == |seg| || IsLineTerminator(seg[from]) then from else LineEnd(seg, from + 1)
  }

  /** The greedy group `(.*)` when the match starts at `i`: everything up to the
      last '}' of the line, or no match from `i` when the line has no '}'. */
  function GroupAt(seg: string, i: nat): (r: Option<string>)
    requires OpensDate(seg, i)
  {
    var e := LineEnd(seg, i + 3);
    var j := Files.LastIndexOf(seg[i + 3..e], '}');
    if j == -1 then None else Some(seg[i + 3..i + 3 + j])
  }

  lemma GroupAtFacts(seg: string, i: nat)
    requires OpensDate(seg, i)
    ensures GroupAt(seg, i).Some? ==>
      var g := GroupAt(seg, i).value;
      i + 3 + |g| < |seg| && seg[i + 3..i + 3 + |g|] == g && seg[i + 3 + |g|] == '}' &&
      (forall k :: 0 <= k < |g| ==> !IsLineTerminator(g[k])) &&
      (forall k :: i + 3 + |g| < k < |seg| && seg[k] == '}' ==>
         exists t :: i + 3 <= t < k && IsLineTerminator(seg[t]))
    ensures GroupAt(seg, i).None? ==>
      forall k :: i + 3 <= k < |seg| && seg[k] == '}' ==> exists t :: i + 3 <= t < k && IsLineTerminator(seg[t])
  {
    var e := LineEnd(seg, i + 3);
    var line := seg[i + 3..e];
    var j := Files.LastIndexOf(line, '}');
    forall k | i + 3 + j < k < |seg| && seg[k] == '}'
      ensures exists t :: i + 3 <= t < k && IsLineTerminator(seg[t])
    {
      if k < e {
        assert false;
      }
      assert IsLineTerminator(seg[e]);
    }
  }

  /** The first match of the date regex at or after position `i`. */
  function FindDateGroup(seg: string, i: nat): (r: Option<string>)
    ensures r.Some? ==> exists s :: i <= s && OpensDate(seg, s) && GroupAt(seg, s) == r
    ensures r.None? ==> forall s :: i <= s && OpensDate(seg, s) ==> GroupAt(seg, s).None?
    decreases |seg| - i
  {
    if i + 3 > |seg| then None
    else if OpensDate(seg, i) && GroupAt(seg, i).Some? then GroupAt(seg, i)
    else FindDateGroup(seg, i + 1)
  }

  /** `FormatterFactory.valueOf`: a segment in which the date regex is found
      becomes a date formatter on the group (checked first); exactly "%index"
      becomes the index formatter; anything else is a literal. The date
      formatter's constructor fails when its pattern names no frequency. */
  function ValueOf(seg: string): (r: Result<Formatter, PatternError>)
    ensures FindDateGroup(seg, 0).Some? ==>
      match FrequencyOf(FindDateGroup(seg, 0).value)
      case Success(f) => r == Success(DateFormatter(FindDateGroup(seg, 0).value, f))
      case Failure(e) => r == Failure(e)
    ensures FindDateGroup(seg, 0).None? && seg == "%index" ==> r == Success(IndexFormatter)
    ensures FindDateGroup(seg, 0).None? && seg != "%index" ==> r == Success(LiteralFormatter(seg))
  {
    match FindDateGroup(seg, 0)
    case Some(g) =>
      (match FrequencyOf(g)
       case Success(f) => Success(DateFormatter(g, f))
       case Failure(e) => Failure(e))
    case None =>
      if seg == "%index" then Success(IndexFormatter) else Success(LiteralFormatter(seg))
  }

  /** One formatter per segment, in order; the first segment that fails fails the parse. */
  function ValueOfAll(segs: seq<string>): (r: Result<seq<Formatter>, PatternError>)
    ensures r.Success? ==>
              |r.value| == |segs| &&
              (forall k :: 0 <= k < |segs| ==> ValueOf(segs[k]) == Success(r.value[k]))
    ensures r.Failure? ==> exists k :: 0 <= k < |segs| && ValueOf(segs[k]).Failure?
    decreases |segs|
  {
    if |segs| == 0 then Success([])
    else
      match ValueOf(segs[0])
      case Failure(e) => Failure(e)
      case Success(f) =>
        match ValueOfAll(segs[1..])
        case Failure(e) => Failure(e)
        case Success(rest) =>
          assert forall k :: 1 <= k < |segs| ==> segs[k] == segs[1..][k - 1];
          Success([f] + rest)
  }

  /** The position of the last date segment, or -1 when there is none. */
  function LastDateIndex(fs: seq<Formatter>): (r: int)
    ensures -1 <= r < |fs|
    ensures r >= 0 ==> fs[r].DateFormatter?
    ensures forall k :: r < k < |fs| ==> !fs[k].DateFormatter?
  {
    if |fs| == 0 then -1
    else if fs[|fs| - 1].DateFormatter? then |fs| - 1
    else LastDateIndex(fs[..|fs| - 1])
  }

  /** The frequency of the last date segment, if there is one: the loop in the
      constructor overwrites the frequency at every date segment. */
  function LastFrequency(fs: seq<Formatter>): (r: Option<Frequency>)
    ensures r.None? <==> forall k :: 0 <= k < |fs| ==> !fs[k].DateFormatter?
    ensures r.Some? ==>
              exists k :: 0 <= k < |fs| && fs[k].DateFormatter? && fs[k].frequency == r.value &&
                          (forall j :: k < j < |fs| ==> !fs[j].DateFormatter?)
  {
    var k := LastDateIndex(fs);
    if k == -1 then None else Some(fs[k].frequency)
  }

  const GunZip: seq<Option<string>> := [Some("gz"), Some("GZ")]

  /** The gzip extensions are "gz" and "GZ", and no other spelling. */
  lemma GunZipListed(ext: string)
    ensures Files.ExtensionListed(ext, GunZip) <==> ext in {"gz", "GZ"}
  {
    if ext == "gz" {
      assert GunZip[0] == Some(ext);
    } else if ext == "GZ" {
      assert GunZip[1] == Some(ext);
    }
  }

  /** What the `FilePattern` constructor computes from the pattern string. */
  datatype PatternSpec = PatternSpec(formatters: seq<Formatter>, frequency: Option<Frequency>, isGunZip: bool)

  /** The `FilePattern` constructor: split on literal dots, one formatter per
      segment, the frequency of the last date segment, and whether the whole
      pattern has the extension "gz" or "GZ". */
  function Parse(pattern: string): (r: Result<PatternSpec, PatternError>)
    ensures r.Success? ==> ValueOfAll(JavaSplit(pattern)) == Success(r.value.formatters)
    ensures r.Failure? <==> ValueOfAll(JavaSplit(pattern)).Failure?
    ensures r.Success? ==> r.value.frequency == LastFrequency(r.value.formatters)
    ensures r.Success? ==> (r.value.isGunZip <==> Files.GetExtension(pattern) in {"gz", "GZ"})
  {
    match ValueOfAll(JavaSplit(pattern))
    case Failure(e) => Failure(e)
    case Success(fs) =>
      GunZipListed(Files.GetExtension(pattern));
      Success(PatternSpec(fs, LastFrequency(fs), Files.HasExtension(Some(pattern), Some(GunZip))))
  }

  // ---------------------------------------------------------------------
  // Rendering a name

  /** What the formatters append, one piece per formatter. */
  function Texts(fs: seq<Formatter>, arguments: seq<Argument>, render: DateRenderer): (r: seq<string>)
    ensures |r| == |fs|
    ensures forall k :: 0 <= k < |fs| ==> r[k] == FormatterText(fs[k], arguments, render)
  {
    if |fs| == 0 then [] else Texts(fs[..|fs| - 1], arguments, render) + [FormatterText(fs[|fs| - 1], arguments, render)]
  }

  /** The name the segments `fs` give file `index` when the file date is `fileTime`. */
  function NameAt(fs: seq<Formatter>, fileTime: int, index: int, render: DateRenderer): string
  {
    Join(Texts(fs, [DateArg(fileTime), IntegerArg(index)], render))
  }

  /** The calendar step `Frequency.getNextTime(millis, increment, modulus)`:
      it answers the next rollover time and the time of the file that the
      rollover closes. */
  type NextTimes = (Frequency, int, int, bool) -> (int, int)

  class FilePattern {
    const formatters: seq<Formatter>
    const frequency: Option<Frequency>
    const isGunZip: bool
    var prevFileTime: int
    var nextFileTime: int

    /** The frequency is that of the last date segment, as `Parse` computes it. */
    predicate Valid()
    {
      frequency == LastFrequency(formatters)
    }

    /** The constructor, over the result of parsing the pattern string; every
        `Parse` result meets the requirement (`Parse`'s third ensures). */
    constructor (spec: PatternSpec)
      requires spec.frequency == LastFrequency(spec.formatters)
      ensures Valid()
      ensures formatters == spec.formatters && frequency == spec.frequency && isGunZip == spec.isGunZip
      ensures prevFileTime == 0 && nextFileTime == 0
    {
      formatters := spec.formatters;
      frequency := spec.frequency;
      isGunZip := spec.isGunZip;
      prevFileTime := 0;
      nextFileTime := 0;
    }

    /** The date `format` renders: the previous file time once one is set,
        otherwise the clock's current time. */
    function FileTime(now: int): int
      reads this
    {
      if prevFileTime == 0 then now else prevFileTime
    }

    /** The name `format` appends for `index` when the clock reads `now`. */
    function Name(index: int, now: int, render: DateRenderer): string
      reads this
    {
      NameAt(formatters, FileTime(now), index, render)
    }

    /** `format(source, index)`: every segment's text, with a dot between
        consecutive segments and none before the first. */
    method Format(source: string, index: int, now: int, render: DateRenderer) returns (out: string)
      ensures out == source + Name(index, now, render)
    {
      var fileTime := FileTime(now);
      var arguments := [DateArg(fileTime), IntegerArg(index)];
      out := source;
      var i := 0;
      while i < |formatters|
        invariant 0 <= i <= |formatters|
        invariant out == source + Join(Texts(formatters[..i], arguments, render))
      {
        ghost var texts := Texts(formatters[..i], arguments, render);
        ghost var text := FormatterText(formatters[i], arguments, render);
        if i != 0 {
          out := out + [Dot];
        }
        out := Formatters.Format(formatters[i], out, arguments, render);
        assert formatters[..i + 1][..i] == formatters[..i];
        assert Texts(formatters[..i + 1], arguments, render) == texts + [text];
        JoinAppend(source, texts, text);
        i := i + 1;
      }
      assert formatters[..|formatters|] == formatters;
    }

    /** `getNextTime`: the previous file time takes the old next file time, and
        the calendar answers the new next file time and the returned rollover time. */
    method GetNextTime(millis: int, increment: int, modulus: bool, nextTimes: NextTimes) returns (r: int)
      requires frequency.Some?
      modifies this
      ensures prevFileTime == old(nextFileTime)
      ensures nextFileTime == nextTimes(frequency.value, millis, increment, modulus).1
      ensures r == nextTimes(frequency.value, millis, increment, modulus).0
    {
      prevFileTime := nextFileTime;
      var pair := nextTimes(frequency.value, millis, increment, modulus);
      nextFileTime := pair.1;
      r := pair.0;
    }

    /** `updateTime`: the next file time becomes the previous one. */
    method UpdateTime()
      modifies this
      ensures prevFileTime == old(nextFileTime) && nextFileTime == old(nextFileTime)
    {
      prevFileTime := nextFileTime;
    }

    /** `containDate`: some segment is a date segment. */
    function ContainDate(): (r: bool)
      requires Valid()
      ensures r <==> exists k :: 0 <= k < |formatters| && formatters[k].DateFormatter?
    {
      frequency.Some?
    }
  }

  lemma ExampleSplit()
    ensures JavaSplit("test.%index.log.gz") == ["test", "%index", "log", "gz"]
  {
    var p := "test.%index.log.gz";
    var parts := ["test", "%index", "log", "gz"];
    assert parts[..1] == ["test"];
    assert parts[..2] == ["test", "%index"];
    assert parts[..3] == ["test", "%index", "log"];
    assert Join(parts[..2]) == "test.%index";
    assert parts[..3][..2] == parts[..2];
    assert Join(parts[..3]) == "test.%index.log";
    assert Join(parts) == p;
    SplitAllJoin(parts);
  }

  lemma ExampleSegments()
    ensures ValueOf("test") == Success(LiteralFormatter("test"))
    ensures ValueOf("%index") == Success(IndexFormatter)
    ensures ValueOf("log") == Success(LiteralFormatter("log"))
    ensures ValueOf("gz") == Success(LiteralFormatter("gz"))
  {
    assert FindDateGroup("test", 0).None?;
    assert FindDateGroup("%index", 0).None?;
    assert FindDateGroup("log", 0).None?;
    assert FindDateGroup("gz", 0).None?;
  }

  lemma ExampleName(render: DateRenderer)
    ensures Join(Texts([LiteralFormatter("test"), IndexFormatter, LiteralFormatter("log"), LiteralFormatter("gz")],
                       [DateArg(0), IntegerArg(3)], render)) == "test.3.log.gz"
  {
    var fs := [LiteralFormatter("test"), IndexFormatter, LiteralFormatter("log"), LiteralFormatter("gz")];
    var arguments := [DateArg(0), IntegerArg(3)];
    assert FirstInteger(arguments) == Some(3);
    assert DecimalString(3) == "3";
    var texts := Texts(fs, arguments, render);
    assert texts[1] == "3";
    assert texts == ["test", "3", "log", "gz"];
    assert texts[..2] == ["test", "3"];
    assert texts[..3] == ["test", "3", "log"];
    assert Join(texts[..2]) == "test.3";
    assert texts[..3][..2] == texts[..2];
    assert Join(texts[..3]) == "test.3.log";
  }

  lemma ExampleGunZip()
    ensures Files.GetExtension("test.%index.log.gz") == "gz"
  {
    Files.JoinSplitsBack("test.%index.log", "gz");
    assert "test.%index.log" + [Files.ExtensionSeparator] + "gz" == "test.%index.log.gz";
  }

  /** The index pattern "test.%index.log.gz" names file 3 "test.3.log.gz". */
  lemma IndexPatternExample(render: DateRenderer)
    ensures Parse("test.%index.log.gz").Success?
    ensures Parse("test.%index.log.gz").value.formatters ==
      [LiteralFormatter("test"), IndexFormatter, LiteralFormatter("log"), LiteralFormatter("gz")]
    ensures Parse("test.%index.log.gz").value.isGunZip
    ensures NameAt(Parse("test.%index.log.gz").value.formatters, 0, 3, render) == "test.3.log.gz"
  {
    var p := "test.%index.log.gz";
    ExampleSplit();
    ExampleSegments();
    var segs := ["test", "%index", "log", "gz"];
    var fs := [LiteralFormatter("test"), IndexFormatter, LiteralFormatter("log"), LiteralFormatter("gz")];
    assert segs[3..] == ["gz"] && segs[3..][1..] == [];
    assert ValueOfAll(segs[3..]).Success? && ValueOfAll(segs[3..]).value == fs[3..];
    assert segs[2..][1..] == segs[3..] && fs[2..] == [fs[2]] + fs[3..];
    assert ValueOfAll(segs[2..]).Success? && ValueOfAll(segs[2..]).value == fs[2..];
    assert segs[1..][1..] == segs[2..] && fs[1..] == [fs[1]] + fs[2..];
    assert ValueOfAll(segs[1..]).Success? && ValueOfAll(segs[1..]).value == fs[1..];
    assert fs == [fs[0]] + fs[1..];
    assert ValueOfAll(segs).Success? && ValueOfAll(segs).value == fs;
    ExampleGunZip();
    ExampleName(render);
  }
}
