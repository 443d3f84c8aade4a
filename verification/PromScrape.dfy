/**
 * parsePromText (src/infra/geo/prom-text.ts): one pass over the lines of an exposition that keeps
 * allowlisted metrics and counts what it could not read. `number` is JavaScript's `Number`.
 */
module PromScrape {
  import opened Prelude
  import opened PromLabels

  datatype Num = NaN | PositiveInfinity | NegativeInfinity | Finite(value: real)

  datatype Sample = Sample(name: string, labels: map<string, string>, value: Num)

  datatype Metric = Metric(name: string, help: Option<string>, kind: Option<string>, samples: seq<Sample>)

  // ── The two regular expressions ───────────────────────────────────────────

  function Leading(s: string, p: char -> bool): (n: nat)
    ensures n <= |s| && (n < |s| ==> !p(s[n]))
  {
    if s != [] && p(s[0]) then 1 + Leading(s[1..], p) else 0
  }

  /** What `.` does not match. */
  predicate IsBreak(c: char) { c == '\n' || c == '\r' || c == '\U{2028}' || c == '\U{2029}' }

  predicate OneLine(s: string) { forall i :: 0 <= i < |s| ==> !IsBreak(s[i]) }

  predicate NameStart(c: char) { 'a' <= c <= 'z' || 'A' <= c <= 'Z' || c == '_' || c == ':' }

  predicate NameChar(c: char) { NameStart(c) || '0' <= c <= '9' }

  function NameLength(s: string): (n: nat)
    ensures n <= |s|
  {
    if s != [] && NameStart(s[0]) then 1 + Leading(s[1..], NameChar) else 0
  }

  /** `\s+(.+)$` */
  function AfterSpace(s: string): Option<string> {
    var n := Leading(s, IsSpace);
    if n == 0 || n == |s| || !OneLine(s[n..]) then None else Some(s[n..])
  }

  /** `\{(.*)\}\s+(.+)$`, the group as long as it can be: the closing brace is sought from `j` down. */
  function Braced(s: string, j: nat): Option<(string, string)>
    requires j < |s|
  {
    if j == 0 then None
    else if s[j] == '}' && OneLine(s[1..j]) && AfterSpace(s[j + 1..]).Some? then
      Some((s[1..j], AfterSpace(s[j + 1..]).value))
    else Braced(s, j - 1)
  }

  datatype Line =
    | Nothing
    | Help(name: string, text: string)
    | Kind(name: string, text: string)
    | Unreadable
    | Reading(name: string, labels: Option<string>, value: Num)

  /** `(\S+)\s+(.*)$` */
  function WordAndRest(s: string): Option<(string, string)> {
    var k := Leading(s, (c: char) => !IsSpace(c));
    var l := Leading(s[k..], IsSpace);
    if k == 0 || l == 0 || !OneLine(s[k + l..]) then None else Some((s[..k], s[k + l..]))
  }

  /** What follows the keyword: a gap, the metric, a gap and the text. */
  function ReadDescription(isHelp: bool, s: string): Line {
    var m := Leading(s, IsSpace);
    match WordAndRest(s[m..])
    case None => Nothing
    case Some((name, rest)) => if m == 0 then Nothing else if isHelp then Help(name, rest) else Kind(name, Trim(rest))
  }

  function ReadMeta(t: string): Line
    requires t != []
  {
    var n := Leading(t[1..], IsSpace);
    var word := t[1 + n..];
    if n == 0 || |word| < 4 || (word[..4] != "HELP" && word[..4] != "TYPE") then Nothing
    else ReadDescription(word[..4] == "HELP", word[4..])
  }

  function ReadSample(t: string): Option<(string, Option<string>, string)> {
    var n := NameLength(t);
    var rest := t[n..];
    if n == 0 || rest == [] then None
    else if rest[0] == '{' then
      match Braced(rest, |rest| - 1)
      case None => None
      case Some((labels, value)) => Some((t[..n], Some(labels), value))
    else
      match AfterSpace(rest)
      case None => None
      case Some(value) => Some((t[..n], None, value))
  }

  function ReadValue(text: string, number: string -> Num): Num {
    if text == "+Inf" then PositiveInfinity else if text == "-Inf" then NegativeInfinity else number(text)
  }

  function ReadLine(line: string, number: string -> Num): Line {
    var t := Trim(line);
    if t == [] then Nothing
    else if t[0] == '#' then ReadMeta(t)
    else
      match ReadSample(t)
      case None => Unreadable
      case Some((name, labels, raw)) =>
        var value := ReadValue(Trim(raw), number);
        if value.NaN? && Trim(raw) != "NaN" then Unreadable else Reading(name, labels, value)
  }

  predicate EndsWith(s: string, suffix: string) {
    |suffix| <= |s| && s[|s| - |suffix|..] == suffix
  }

  /** A histogram's `_bucket`, `_sum` and `_count` belong to their base instrument. */
  function BaseName(name: string): string {
    if EndsWith(name, "_bucket") then name[..|name| - 7]
    else if EndsWith(name, "_sum") then name[..|name| - 4]
    else if EndsWith(name, "_count") then name[..|name| - 6]
    else name
  }

  // ── What becomes of each line ─────────────────────────────────────────────

  datatype Fate =
    | Skipped
    | Ignored
    | Filtered
    | Described(owner: string, isHelp: bool, text: string)
    | Kept(owner: string, sample: Sample)

  function FateOf(line: string, allow: set<string>, number: string -> Num): Fate {
    Judge(ReadLine(line, number), allow)
  }

  function Judge(r: Line, allow: set<string>): Fate {
    match r
    case Nothing => Skipped
    case Help(name, text) => if name in allow then Described(name, true, text) else Skipped
    case Kind(name, text) => if name in allow then Described(name, false, text) else Skipped
    case Unreadable => Ignored
    case Reading(name, labels, value) =>
      var owner := if name in allow then name else BaseName(name);
      if owner in allow then Kept(owner, Sample(name, LabelsOf(labels), value)) else Filtered
  }

  function Judged(lines: seq<string>, f: string -> Fate): seq<Fate> {
    seq(|lines|, i requires 0 <= i < |lines| => f(lines[i]))
  }

  function Fates(lines: seq<string>, allow: set<string>, number: string -> Num): seq<Fate> {
    Judged(lines, (line: string) => FateOf(line, allow, number))
  }

  predicate IsMeta(f: Fate) { f.Skipped? || f.Described? }

  predicate IsIgnored(f: Fate) { f.Ignored? }

  predicate IsFiltered(f: Fate) { f.Filtered? }

  predicate IsKept(f: Fate) { f.Kept? }

  function Count(fs: seq<Fate>, p: Fate -> bool): nat {
    if fs == [] then 0 else Count(fs[..|fs| - 1], p) + if p(fs[|fs| - 1]) then 1 else 0
  }

  /** The metrics mentioned, in order of first mention. */
  function Owners(fs: seq<Fate>): seq<string> {
    if fs == [] then []
    else
      var before, last := Owners(fs[..|fs| - 1]), fs[|fs| - 1];
      if (last.Described? || last.Kept?) && last.owner !in before then before + [last.owner] else before
  }

  /** The last help or type text given for a metric. */
  function TextOf(fs: seq<Fate>, name: string, isHelp: bool): Option<string> {
    if fs == [] then None
    else
      var last := fs[|fs| - 1];
      if last.Described? && last.owner == name && last.isHelp == isHelp then Some(last.text)
      else TextOf(fs[..|fs| - 1], name, isHelp)
  }

  /** A metric's samples, in input order. */
  function SamplesOf(fs: seq<Fate>, name: string): seq<Sample> {
    if fs == [] then []
    else
      var last := fs[|fs| - 1];
      SamplesOf(fs[..|fs| - 1], name) + if last.Kept? && last.owner == name then [last.sample] else []
  }

  function MetricOf(fs: seq<Fate>, name: string): Metric {
    Metric(name, TextOf(fs, name, true), TextOf(fs, name, false), SamplesOf(fs, name))
  }

  function ReportFor(fs: seq<Fate>, names: seq<string>): seq<Metric> {
    seq(|names|, i requires 0 <= i < |names| => MetricOf(fs, names[i]))
  }

  function Report(fs: seq<Fate>): seq<Metric> { ReportFor(fs, Owners(fs)) }

  function Lines(body: string): seq<string>
    decreases |body|
  {
    match IndexOf(body, '\n')
    case None => [body]
    case Some(i) => [body[..i]] + Lines(body[i + 1..])
  }

  /** Lines put back together. */
  function Unlines(lines: seq<string>): string {
    if lines == [] then [] else if |lines| == 1 then lines[0] else lines[0] + "\n" + Unlines(lines[1..])
  }

  /** The body is cut at every newline and nowhere else. */
  lemma {:induction false} LinesRejoin(body: string)
    ensures Lines(body) != [] && Unlines(Lines(body)) == body
    ensures forall i :: 0 <= i < |Lines(body)| ==> '\n' !in Lines(body)[i]
    decreases |body|
  {
    match IndexOf(body, '\n')
    case None =>
    case Some(i) =>
      LinesRejoin(body[i + 1..]);
      assert body == body[..i] + "\n" + body[i + 1..];
      assert Lines(body)[1..] == Lines(body[i + 1..]);
  }

  lemma {:induction false} UnmentionedIsEmpty(fs: seq<Fate>, name: string)
    requires name !in Owners(fs)
    ensures MetricOf(fs, name) == Metric(name, None, None, [])
  {
    if fs != [] {
      UnmentionedIsEmpty(fs[..|fs| - 1], name);
    }
  }

  /** Metrics under construction, a `Map` kept in insertion order. */
  class Scrape {
    var order: seq<string>
    var byName: map<string, Metric>

    ghost predicate Holds(fs: seq<Fate>)
      reads this
    {
      && order == Owners(fs)
      && (forall n :: n in order <==> n in byName)
      && (forall n :: n in byName ==> byName[n] == MetricOf(fs, n))
    }

    constructor ()
      ensures Holds([])
    {
      order, byName := [], map[];
    }

    method Ensure(name: string)
      modifies this
      ensures order == if name in old(byName) then old(order) else old(order) + [name]
      ensures byName == if name in old(byName) then old(byName) else old(byName)[name := Metric(name, None, None, [])]
    {
      if name !in byName {
        byName := byName[name := Metric(name, None, None, [])];
        order := order + [name];
      }
    }

    /** One line that concerns a metric. */
    method Record(ghost before: seq<Fate>, f: Fate)
      requires Holds(before) && (f.Described? || f.Kept?)
      modifies this
      ensures Holds(before + [f])
    {
      ghost var after := before + [f];
      assert after[..|before|] == before;
      if f.owner !in byName {
        UnmentionedIsEmpty(before, f.owner);
      }
      Ensure(f.owner);
      var metric := byName[f.owner];
      match f {
        case Described(_, isHelp, text) =>
          metric := if isHelp then metric.(help := Some(text)) else metric.(kind := Some(text));
        case Kept(_, sample) =>
          metric := metric.(samples := metric.samples + [sample]);
      }
      byName := byName[f.owner := metric];
    }

    /** One line of the exposition. */
    method ReadOne(ghost before: seq<Fate>, line: string, allow: set<string>, number: string -> Num)
      returns (ignored: bool)
      requires Holds(before)
      modifies this
      ensures Holds(before + [FateOf(line, allow, number)])
      ensures ignored == FateOf(line, allow, number).Ignored?
    {
      ignored := false;
      var concerns: Option<Fate> := None;
      match ReadLine(line, number) {
        case Nothing =>
        case Help(name, text) =>
          if name in allow {
            concerns := Some(Described(name, true, text));
          }
        case Kind(name, text) =>
          if name in allow {
            concerns := Some(Described(name, false, text));
          }
        case Unreadable =>
          ignored := true;
        case Reading(name, labels, value) =>
          var owner := if name in allow then name else BaseName(name);
          if owner in allow {
            var parsed := ParseLabels(labels);
            concerns := Some(Kept(owner, Sample(name, parsed, value)));
          }
      }
      if concerns.Some? {
        Record(before, concerns.value);
      } else {
        NothingRecorded(before, FateOf(line, allow, number));
      }
    }
  }

  lemma NothingRecorded(before: seq<Fate>, f: Fate)
    requires !f.Described? && !f.Kept?
    ensures Owners(before + [f]) == Owners(before)
    ensures forall n :: MetricOf(before + [f], n) == MetricOf(before, n)
  {
    assert (before + [f])[..|before|] == before;
  }

  lemma CountSnoc(before: seq<Fate>, f: Fate, p: Fate -> bool)
    ensures Count(before + [f], p) == Count(before, p) + if p(f) then 1 else 0
  {
    assert (before + [f])[..|before|] == before;
  }

  lemma JudgedSnoc(lines: seq<string>, i: nat, f: string -> Fate)
    requires i < |lines|
    ensures Judged(lines[..i + 1], f) == Judged(lines[..i], f) + [f(lines[i])]
  {
  }

  lemma FatesSnoc(lines: seq<string>, i: nat, allow: set<string>, number: string -> Num)
    requires i < |lines|
    ensures Fates(lines[..i + 1], allow, number) == Fates(lines[..i], allow, number) + [FateOf(lines[i], allow, number)]
  {
    JudgedSnoc(lines, i, (line: string) => FateOf(line, allow, number));
  }

  // ── The size limit ────────────────────────────────────────────────────────

  const MAX_BYTES := 262144

  function Utf8(c: char): nat {
    if c < '\U{80}' then 1 else if c < '\U{800}' then 2 else if c < '\U{10000}' then 3 else 4
  }

  function Utf16(c: char): nat { if c < '\U{10000}' then 1 else 2 }

  function Utf8Length(s: string): nat { if s == [] then 0 else Utf8(s[0]) + Utf8Length(s[1..]) }

  function Utf16Length(s: string): nat { if s == [] then 0 else Utf16(s[0]) + Utf16Length(s[1..]) }

  /**
   * `slice(0, n)` counts UTF-16 units. Half of a pair it splits is written as the replacement
   * character: no rule of the parser tells the two apart.
   */
  function Slice(s: string, n: nat): string {
    if s == [] || n == 0 then []
    else if Utf16(s[0]) <= n then [s[0]] + Slice(s[1..], n - Utf16(s[0]))
    else "\U{FFFD}"
  }

  predicate Truncated(text: string) { Utf8Length(text) > MAX_BYTES }

  function Body(text: string): string { if Truncated(text) then Slice(text, MAX_BYTES) else text }

  lemma {:induction false} UnitsWithinBytes(s: string)
    ensures Utf16Length(s) <= Utf8Length(s)
  {
    if s != [] {
      UnitsWithinBytes(s[1..]);
    }
  }

  lemma {:induction false} SliceBounds(s: string, n: nat)
    ensures Utf16Length(Slice(s, n)) <= n
    ensures Slice(s, n) == s <==> Utf16Length(s) <= n
  {
    if s != [] && n > 0 {
      if Utf16(s[0]) <= n {
        SliceBounds(s[1..], n - Utf16(s[0]));
        var rest := Slice(s[1..], n - Utf16(s[0]));
        assert ([s[0]] + rest)[1..] == rest && s == [s[0]] + s[1..];
      } else {
        assert "\U{FFFD}"[0] != s[0] && "\U{FFFD}"[1..] == [];
      }
    }
  }

  /**
   * What is parsed is never longer than the limit, and it is the whole text exactly when that fits in
   * UTF-16 units: the flag counts UTF-8 bytes, so it can be raised with nothing cut.
   */
  lemma BodyIsWholeIff(text: string)
    ensures Utf16Length(Body(text)) <= MAX_BYTES
    ensures Body(text) == text <==> Utf16Length(text) <= MAX_BYTES
    ensures Body(text) != text ==> Truncated(text)
  {
    UnitsWithinBytes(text);
    SliceBounds(text, MAX_BYTES);
  }

  method ParseLines(lines: seq<string>, allow: set<string>, number: string -> Num)
    returns (metrics: seq<Metric>, ignored: nat)
    ensures metrics == Report(Fates(lines, allow, number))
    ensures ignored == Count(Fates(lines, allow, number), IsIgnored)
  {
    var scrape := new Scrape();
    ignored := 0;
    for i := 0 to |lines|
      invariant fresh(scrape)
      invariant scrape.Holds(Fates(lines[..i], allow, number))
      invariant ignored == Count(Fates(lines[..i], allow, number), IsIgnored)
    {
      ghost var before := Fates(lines[..i], allow, number);
      FatesSnoc(lines, i, allow, number);
      CountSnoc(before, FateOf(lines[i], allow, number), IsIgnored);
      var bad := scrape.ReadOne(before, lines[i], allow, number);
      if bad {
        ignored := ignored + 1;
      }
    }
    assert lines[..|lines|] == lines;
    metrics := seq(|scrape.order|, i requires 0 <= i < |scrape.order| && scrape.order[i] in scrape.byName
                                     reads scrape => scrape.byName[scrape.order[i]]);
  }

  method ParsePromText(text: string, allow: set<string>, number: string -> Num)
    returns (metrics: seq<Metric>, truncated: bool, ignored: nat)
    ensures truncated == Truncated(text)
    ensures metrics == Report(Fates(Lines(Body(text)), allow, number))
    ensures ignored == Count(Fates(Lines(Body(text)), allow, number), IsIgnored)
  {
    truncated := Utf8Length(text) > MAX_BYTES;
    var body := if truncated then Slice(text, MAX_BYTES) else text;
    metrics, ignored := ParseLines(Lines(body), allow, number);
  }

  // ── Accounting ────────────────────────────────────────────────────────────

  function SampleCount(ms: seq<Metric>): nat {
    if ms == [] then 0 else SampleCount(ms[..|ms| - 1]) + |ms[|ms| - 1].samples|
  }

  function Tally(fs: seq<Fate>, names: seq<string>): nat {
    if names == [] then 0 else Tally(fs, names[..|names| - 1]) + |SamplesOf(fs, names[|names| - 1])|
  }

  ghost predicate Distinct(names: seq<string>) {
    forall i, j :: 0 <= i < j < |names| ==> names[i] != names[j]
  }

  lemma {:induction false} OwnersAreDistinct(fs: seq<Fate>)
    ensures Distinct(Owners(fs))
    ensures forall f :: f in fs && (f.Described? || f.Kept?) ==> f.owner in Owners(fs)
    ensures forall n :: n in Owners(fs) ==> exists f :: f in fs && (f.Described? || f.Kept?) && f.owner == n
  {
    if fs != [] {
      var before, last := fs[..|fs| - 1], fs[|fs| - 1];
      OwnersAreDistinct(before);
      assert fs == before + [last];
      forall n | n in Owners(fs) ensures exists f :: f in fs && (f.Described? || f.Kept?) && f.owner == n {
        if n in Owners(before) {
          var f :| f in before && (f.Described? || f.Kept?) && f.owner == n;
          assert f in fs;
        } else {
          assert last in fs;
        }
      }
    }
  }

  lemma {:induction false} TallyGrows(before: seq<Fate>, f: Fate, names: seq<string>)
    requires Distinct(names)
    ensures Tally(before + [f], names) == Tally(before, names) + if f.Kept? && f.owner in names then 1 else 0
  {
    assert (before + [f])[..|before|] == before;
    if names != [] {
      var front, last := names[..|names| - 1], names[|names| - 1];
      TallyGrows(before, f, front);
      assert names == front + [last];
      assert last !in front;
    }
  }

  lemma {:induction false} NoneMentioned(fs: seq<Fate>, names: seq<string>)
    requires fs == []
    ensures Tally(fs, names) == 0
  {
    if names != [] {
      NoneMentioned(fs, names[..|names| - 1]);
    }
  }

  lemma {:induction false} KeptAreTallied(fs: seq<Fate>, names: seq<string>)
    requires Distinct(names) && forall f :: f in fs && f.Kept? ==> f.owner in names
    ensures Tally(fs, names) == Count(fs, IsKept)
  {
    if fs == [] {
      NoneMentioned(fs, names);
    } else {
      var before, last := fs[..|fs| - 1], fs[|fs| - 1];
      assert fs == before + [last];
      forall f | f in before && f.Kept? ensures f.owner in names { assert f in fs; }
      KeptAreTallied(before, names);
      TallyGrows(before, last, names);
      assert last in fs;
    }
  }

  lemma {:induction false} ReportTally(fs: seq<Fate>, names: seq<string>)
    ensures SampleCount(ReportFor(fs, names)) == Tally(fs, names)
  {
    if names != [] {
      var front := names[..|names| - 1];
      ReportTally(fs, front);
      assert ReportFor(fs, names)[..|front|] == ReportFor(fs, front);
    }
  }

  lemma {:induction false} FatesPartition(fs: seq<Fate>)
    ensures |fs| == Count(fs, IsMeta) + Count(fs, IsIgnored)
                    + Count(fs, IsFiltered) + Count(fs, IsKept)
  {
    if fs != [] {
      FatesPartition(fs[..|fs| - 1]);
    }
  }

  /** A line that is neither blank nor a comment. */
  predicate IsData(line: string) { Trim(line) != [] && Trim(line)[0] != '#' }

  function DataLines(lines: seq<string>): nat {
    if lines == [] then 0 else DataLines(lines[..|lines| - 1]) + if IsData(lines[|lines| - 1]) then 1 else 0
  }

  lemma MetaIff(line: string, allow: set<string>, number: string -> Num)
    ensures IsMeta(FateOf(line, allow, number)) <==> !IsData(line)
  {
  }

  lemma {:induction false} DataIsNotMeta(lines: seq<string>, allow: set<string>, number: string -> Num)
    ensures |lines| == DataLines(lines) + Count(Fates(lines, allow, number), IsMeta)
  {
    if lines != [] {
      var n := |lines| - 1;
      DataIsNotMeta(lines[..n], allow, number);
      MetaIff(lines[n], allow, number);
      assert lines == lines[..n + 1];
      FatesSnoc(lines, n, allow, number);
      CountSnoc(Fates(lines[..n], allow, number), FateOf(lines[n], allow, number), IsMeta);
    }
  }

  /** Every line that is not blank or a comment is ignored, filtered, or one reported sample. */
  lemma ScrapeAccounts(lines: seq<string>, allow: set<string>, number: string -> Num)
    ensures var fs := Fates(lines, allow, number);
      DataLines(lines) == Count(fs, IsIgnored) + Count(fs, IsFiltered) + SampleCount(Report(fs))
  {
    FatesAccount(Fates(lines, allow, number));
    DataIsNotMeta(lines, allow, number);
  }

  /** The ignored count says what could not be read, whatever is allowlisted. */
  lemma {:induction false} IgnoredWhateverAllowed(
    lines: seq<string>, a: set<string>, b: set<string>, number: string -> Num)
    ensures Count(Fates(lines, a, number), IsIgnored) == Count(Fates(lines, b, number), IsIgnored)
  {
    if lines != [] {
      var n := |lines| - 1;
      IgnoredWhateverAllowed(lines[..n], a, b, number);
      assert lines == lines[..n + 1];
      FatesSnoc(lines, n, a, number);
      FatesSnoc(lines, n, b, number);
      CountSnoc(Fates(lines[..n], a, number), FateOf(lines[n], a, number), IsIgnored);
      CountSnoc(Fates(lines[..n], b, number), FateOf(lines[n], b, number), IsIgnored);
    }
  }

  lemma FatesAccount(fs: seq<Fate>)
    ensures |fs| == Count(fs, IsMeta) + Count(fs, IsIgnored) + Count(fs, IsFiltered) + SampleCount(Report(fs))
  {
    FatesPartition(fs);
    OwnersAreDistinct(fs);
    KeptAreTallied(fs, Owners(fs));
    ReportTally(fs, Owners(fs));
  }

  lemma {:induction false} SamplesComeFromLines(fs: seq<Fate>, name: string)
    ensures forall s :: s in SamplesOf(fs, name) ==> Kept(name, s) in fs
  {
    if fs != [] {
      SamplesComeFromLines(fs[..|fs| - 1], name);
      assert fs == fs[..|fs| - 1] + [fs[|fs| - 1]];
    }
  }

  /** A sample's own name, or that name with one histogram suffix. */
  predicate BelongsTo(sample: string, owner: string) {
    sample == owner || sample == owner + "_bucket" || sample == owner + "_sum" || sample == owner + "_count"
  }

  lemma BaseNameBelongs(name: string)
    ensures BelongsTo(name, BaseName(name))
  {
    if EndsWith(name, "_bucket") {
      assert name == name[..|name| - 7] + "_bucket";
    } else if EndsWith(name, "_sum") {
      assert name == name[..|name| - 4] + "_sum";
    } else if EndsWith(name, "_count") {
      assert name == name[..|name| - 6] + "_count";
    }
  }

  /** A sample stands under its own name when that is allowlisted, else under its base name. */
  predicate Allowed(f: Fate, allow: set<string>) {
    match f
    case Described(owner, _, _) => owner in allow
    case Kept(owner, s) => owner in allow && BelongsTo(s.name, owner) && (s.name in allow ==> s.name == owner)
    case _ => true
  }

  lemma JudgedIsAllowed(r: Line, allow: set<string>)
    ensures Allowed(Judge(r, allow), allow)
  {
    if r.Reading? {
      BaseNameBelongs(r.name);
    }
  }

  lemma ReportOfAllowed(fs: seq<Fate>, allow: set<string>)
    requires forall f :: f in fs ==> Allowed(f, allow)
    ensures var ms := Report(fs);
      && (forall i, j :: 0 <= i < j < |ms| ==> ms[i].name != ms[j].name)
      && (forall i :: 0 <= i < |ms| ==> ms[i].name in allow)
      && (forall i, s :: 0 <= i < |ms| && s in ms[i].samples ==>
            BelongsTo(s.name, ms[i].name) && (s.name in allow ==> s.name == ms[i].name))
  {
    OwnersAreDistinct(fs);
    forall i, s | 0 <= i < |Report(fs)| && s in Report(fs)[i].samples
      ensures Kept(Owners(fs)[i], s) in fs
    {
      SamplesComeFromLines(fs, Owners(fs)[i]);
    }
    forall i | 0 <= i < |Report(fs)| ensures Owners(fs)[i] in allow {
      assert Owners(fs)[i] in Owners(fs);
      var f :| f in fs && (f.Described? || f.Kept?) && f.owner == Owners(fs)[i];
    }
  }

  /** Reported names are distinct and allowlisted, and every sample belongs to the name it is under. */
  lemma ReportIsAllowlisted(lines: seq<string>, allow: set<string>, number: string -> Num)
    ensures var ms := Report(Fates(lines, allow, number));
      && (forall i, j :: 0 <= i < j < |ms| ==> ms[i].name != ms[j].name)
      && (forall i :: 0 <= i < |ms| ==> ms[i].name in allow)
      && (forall i, s :: 0 <= i < |ms| && s in ms[i].samples ==>
            BelongsTo(s.name, ms[i].name) && (s.name in allow ==> s.name == ms[i].name))
  {
    var fs := Fates(lines, allow, number);
    forall f | f in fs ensures Allowed(f, allow) {
      var k :| 0 <= k < |fs| && fs[k] == f;
      JudgedIsAllowed(ReadLine(lines[k], number), allow);
    }
    ReportOfAllowed(fs, allow);
  }
}
