/**
 * What a line of an exposition says, spelled out, and where the report shows it
 * (src/infra/geo/prom-text.ts:85-150).
 */
module PromSamples {
  import opened Prelude
  import opened PromLabels
  import opened PromRoundTrip
  import opened PromScrape

  // ── The shape of a sample line ────────────────────────────────────────────

  predicate MetricName(s: string) {
    s != [] && NameStart(s[0]) && forall i :: 0 <= i < |s| ==> NameChar(s[i])
  }

  predicate Gap(s: string) { s != [] && forall i :: 0 <= i < |s| ==> IsSpace(s[i]) }

  /** The rest of a line after a gap. */
  predicate Text(s: string) { s != [] && !IsSpace(s[0]) && OneLine(s) }

  function Braces(block: Option<string>): string {
    match block
    case None => []
    case Some(b) => "{" + b + "}"
  }

  /** `name value`, or `name{block} value`. */
  predicate Shaped(t: string, name: string, block: Option<string>, gap: string, raw: string) {
    && t == name + Braces(block) + gap + raw
    && MetricName(name) && (block.Some? ==> OneLine(block.value)) && Gap(gap) && Text(raw)
  }

  lemma {:induction false} LeadingIs(a: string, b: string, p: char -> bool)
    requires (forall i :: 0 <= i < |a| ==> p(a[i])) && (b != [] ==> !p(b[0]))
    ensures Leading(a + b, p) == |a|
  {
    if a == [] {
      assert a + b == b;
    } else {
      LeadingIs(a[1..], b, p);
      assert (a + b)[1..] == a[1..] + b;
    }
  }

  lemma {:induction false} LeadingHolds(s: string, p: char -> bool)
    ensures forall i :: 0 <= i < Leading(s, p) ==> p(s[i])
  {
    if s != [] && p(s[0]) {
      LeadingHolds(s[1..], p);
      forall i | 0 <= i < Leading(s, p) ensures p(s[i]) {
        if i > 0 { assert s[i] == s[1..][i - 1]; }
      }
    }
  }

  lemma AfterSpaceIs(gap: string, raw: string)
    requires Gap(gap) && Text(raw)
    ensures AfterSpace(gap + raw) == Some(raw)
  {
    LeadingIs(gap, raw, IsSpace);
    assert (gap + raw)[|gap|..] == raw;
  }

  lemma AfterSpaceSplits(s: string)
    requires AfterSpace(s).Some?
    ensures var n := Leading(s, IsSpace);
      n <= |s| && s == s[..n] + AfterSpace(s).value && Gap(s[..n]) && Text(AfterSpace(s).value)
  {
    LeadingHolds(s, IsSpace);
  }

  lemma NameLengthIs(name: string, rest: string)
    requires MetricName(name) && (rest != [] ==> !NameChar(rest[0]))
    ensures NameLength(name + rest) == |name|
  {
    assert (name + rest)[1..] == name[1..] + rest;
    LeadingIs(name[1..], rest, NameChar);
  }

  lemma NameLengthHolds(t: string)
    requires NameLength(t) > 0
    ensures MetricName(t[..NameLength(t)])
  {
    LeadingHolds(t[1..], NameChar);
    var name := t[..NameLength(t)];
    forall i | 0 <= i < |name| ensures NameChar(name[i]) {
      if i > 0 { assert name[i] == t[1..][i - 1]; }
    }
  }

  lemma SpacesAreNoNames(c: char)
    requires IsSpace(c)
    ensures !NameChar(c) && c != '{'
  {
  }

  // ── Braces ────────────────────────────────────────────────────────────────

  predicate ClosesAt(s: string, j: nat) {
    0 < j < |s| && s[j] == '}' && OneLine(s[1..j]) && AfterSpace(s[j + 1..]).Some?
  }

  /** The block that a brace at `k` closes, and the text after it. */
  function BlockAt(s: string, k: nat): (string, string)
    requires ClosesAt(s, k)
  {
    (s[1..k], AfterSpace(s[k + 1..]).value)
  }

  lemma BracedStep(s: string, j: nat)
    requires 0 < j < |s|
    ensures Braced(s, j) == if ClosesAt(s, j) then Some(BlockAt(s, j)) else Braced(s, j - 1)
  {
  }

  /** The block goes up to a brace that closes it. */
  lemma {:induction false} BracedCloses(s: string, j: nat) returns (k: nat)
    requires j < |s| && Braced(s, j).Some?
    ensures k <= j && ClosesAt(s, k) && Braced(s, j) == Some(BlockAt(s, k))
  {
    BracedStep(s, j);
    k := j;
    if !ClosesAt(s, j) {
      k := BracedCloses(s, j - 1);
    }
  }

  /** And to none before `m` if the one there does. */
  lemma {:induction false} BracedReaches(s: string, j: nat, m: nat) returns (k: nat)
    requires m <= j < |s| && ClosesAt(s, m)
    ensures m <= k <= j && ClosesAt(s, k) && Braced(s, j) == Some(BlockAt(s, k))
  {
    BracedStep(s, j);
    k := j;
    if !ClosesAt(s, j) {
      k := BracedReaches(s, j - 1, m);
    }
  }

  // ── Reading a sample line ─────────────────────────────────────────────────

  lemma PlainIsRead(t: string, name: string, gap: string, raw: string)
    requires Shaped(t, name, None, gap, raw)
    ensures ReadSample(t) == Some((name, None, raw))
  {
    var rest := gap + raw;
    assert t == name + rest && rest[0] == gap[0];
    SpacesAreNoNames(rest[0]);
    NameLengthIs(name, rest);
    assert t[..|name|] == name && t[|name|..] == rest;
    AfterSpaceIs(gap, raw);
  }

  lemma BracesClose(block: string, gap: string, raw: string)
    requires OneLine(block) && Gap(gap) && Text(raw)
    ensures var s := "{" + block + "}" + gap + raw;
      ClosesAt(s, |block| + 1) && s[1..|block| + 1] == block && s[|block| + 2..] == gap + raw
    ensures AfterSpace(gap + raw) == Some(raw)
  {
    AfterSpaceIs(gap, raw);
    var s := "{" + block + "}" + gap + raw;
    assert s[1..|block| + 1] == block && s[|block| + 2..] == gap + raw && s[|block| + 1] == '}';
  }

  lemma GapHasNoBrace(gap: string)
    requires Gap(gap)
    ensures '}' !in gap
  {
  }

  lemma NoLaterBrace(block: string, gap: string, raw: string, k: nat)
    requires '}' !in gap && '}' !in raw && k < |"{" + block + "}" + gap + raw|
    ensures ("{" + block + "}" + gap + raw)[k] == '}' ==> k <= |block| + 1
  {
    var s := "{" + block + "}" + gap + raw;
    if k > |block| + 1 {
      var m := k - |block| - 2;
      assert s[k] == (gap + raw)[m];
    }
  }

  lemma ReadWithBrace(t: string, name: string, rest: string)
    requires t == name + rest && MetricName(name) && rest != [] && rest[0] == '{'
    ensures ReadSample(t) ==
      match Braced(rest, |rest| - 1)
      case None => None
      case Some((block, raw)) => Some((name, Some(block), raw))
  {
    NameLengthIs(name, rest);
    assert t[..|name|] == name && t[|name|..] == rest;
  }

  lemma BlockReaches(s: string, block: string, gap: string, raw: string) returns (k: nat)
    requires OneLine(block) && Gap(gap) && Text(raw) && s == "{" + block + "}" + gap + raw
    ensures |block| + 1 <= k < |s| && s[k] == '}' && Braced(s, |s| - 1).Some?
    ensures Braced(s, |s| - 1).value.0 == s[1..k]
    ensures Some(Braced(s, |s| - 1).value.1) == AfterSpace(s[k + 1..])
  {
    BracesClose(block, gap, raw);
    k := BracedReaches(s, |s| - 1, |block| + 1);
  }

  lemma BlockIsFound(s: string, block: string, gap: string, raw: string, found: Option<(string, string)>)
    requires OneLine(block) && Gap(gap) && Text(raw) && s == "{" + block + "}" + gap + raw
    requires found == Braced(s, |s| - 1)
    ensures found.Some? && |block| <= |found.value.0|
    ensures '}' !in raw ==> found == Some((block, raw))
  {
    var k := BlockReaches(s, block, gap, raw);
    if '}' !in raw {
      GapHasNoBrace(gap);
      NoLaterBrace(block, gap, raw, k);
      CutAtBrace(block, gap, raw);
    }
  }

  lemma CutAtBrace(block: string, gap: string, raw: string)
    requires Gap(gap) && Text(raw)
    ensures var s := "{" + block + "}" + gap + raw;
      s[1..|block| + 1] == block && AfterSpace(s[|block| + 2..]) == Some(raw)
  {
    AfterSpaceIs(gap, raw);
    var s := "{" + block + "}" + gap + raw;
    assert s[|block| + 2..] == gap + raw;
  }

  /** A braced line is read with its own name, and its own block and value unless a later brace could close it. */
  lemma BracedIsRead(t: string, name: string, block: string, gap: string, raw: string)
    requires Shaped(t, name, Some(block), gap, raw)
    ensures ReadSample(t).Some? && ReadSample(t).value.0 == name && ReadSample(t).value.1.Some?
    ensures |block| <= |ReadSample(t).value.1.value|
    ensures '}' !in raw ==> ReadSample(t) == Some((name, Some(block), raw))
  {
    var rest := "{" + block + "}" + gap + raw;
    assert t == name + rest;
    ReadWithBrace(t, name, rest);
    BlockIsFound(rest, block, gap, raw, Braced(rest, |rest| - 1));
  }

  lemma FoundIsBlock(s: string) returns (gap: string)
    requires s != [] && s[0] == '{' && Braced(s, |s| - 1).Some?
    ensures var (block, raw) := Braced(s, |s| - 1).value;
      s == "{" + block + "}" + gap + raw && OneLine(block) && Gap(gap) && Text(raw)
  {
    var k := BracedCloses(s, |s| - 1);
    var tail := s[k + 1..];
    AfterSpaceSplits(tail);
    gap := tail[..Leading(tail, IsSpace)];
    assert s == "{" + s[1..k] + "}" + tail;
  }

  lemma BracedIsShaped(t: string, name: string, rest: string) returns (gap: string)
    requires t == name + rest && MetricName(name) && rest != [] && rest[0] == '{' && Braced(rest, |rest| - 1).Some?
    ensures var (block, raw) := Braced(rest, |rest| - 1).value; Shaped(t, name, Some(block), gap, raw)
  {
    gap := FoundIsBlock(rest);
    var (block, raw) := Braced(rest, |rest| - 1).value;
    Grouped(name, "{" + block + "}" + gap, raw);
    Grouped(name, "{" + block + "}", gap);
  }

  lemma PlainIsShaped(t: string, name: string, rest: string) returns (gap: string)
    requires t == name + rest && MetricName(name) && AfterSpace(rest).Some?
    ensures Shaped(t, name, None, gap, AfterSpace(rest).value)
  {
    AfterSpaceSplits(rest);
    gap := rest[..Leading(rest, IsSpace)];
    Grouped(name, gap, AfterSpace(rest).value);
    assert name + [] == name;
  }

  /** And nothing else is read: what is read has that shape. */
  lemma ReadIsShaped(t: string) returns (gap: string)
    requires ReadSample(t).Some?
    ensures Shaped(t, ReadSample(t).value.0, ReadSample(t).value.1, gap, ReadSample(t).value.2)
  {
    var n := NameLength(t);
    var name, rest := t[..n], t[n..];
    NameLengthHolds(t);
    assert t == name + rest;
    if rest[0] == '{' {
      gap := BracedIsShaped(t, name, rest);
    } else {
      gap := PlainIsShaped(t, name, rest);
    }
  }

  /** Read with the longest block the shape allows. */
  ghost predicate ReadAs(t: string, name: string, block: Option<string>, raw: string) {
    && (exists gap :: Shaped(t, name, block, gap, raw))
    && forall b, gap, r :: Shaped(t, name, Some(b), gap, r) ==> block.Some? && |b| <= |block.value|
  }

  lemma SameCut(a: string, b: string, c: string, d: string)
    requires Gap(a) && Gap(c) && Text(b) && Text(d) && a + b == c + d
    ensures b == d
  {
    AfterSpaceIs(a, b);
    AfterSpaceIs(c, d);
  }

  lemma SameBlock(name: string, b: string, x: string, c: string, y: string)
    requires name + ("{" + b + "}") + x == name + ("{" + c + "}") + y && |b| == |c|
    ensures b == c && x == y
  {
    var t := name + ("{" + b + "}") + x;
    assert t[|name| + 1..|name| + 1 + |b|] == b && t[|name| + 1..|name| + 1 + |c|] == c;
    assert t[|name| + |b| + 2..] == x && t[|name| + |c| + 2..] == y;
  }

  lemma SameShape(t: string, name: string, b: string, g: string, r: string, c: string, h: string, q: string)
    requires Shaped(t, name, Some(b), g, r) && Shaped(t, name, Some(c), h, q) && |b| == |c|
    ensures b == c && r == q
  {
    Grouped(name + ("{" + b + "}"), g, r);
    Grouped(name + ("{" + c + "}"), h, q);
    SameBlock(name, b, g + r, c, h + q);
    SameCut(g, r, h, q);
  }

  lemma Grouped(a: string, b: string, c: string)
    ensures a + b + c == a + (b + c)
  {
  }

  lemma LongestIsRead(t: string, name: string, block: string, gap: string, raw: string)
    requires Shaped(t, name, Some(block), gap, raw) && ReadAs(t, name, Some(block), raw)
    ensures ReadSample(t) == Some((name, Some(block), raw))
  {
    BracedIsRead(t, name, block, gap, raw);
    var g := ReadIsShaped(t);
    SameShape(t, name, ReadSample(t).value.1.value, g, ReadSample(t).value.2, block, gap, raw);
  }

  /** The two patterns of the parser read exactly what has the shape of a sample, the block as long as it can be. */
  lemma ReadAsIff(t: string, name: string, block: Option<string>, raw: string)
    ensures ReadSample(t) == Some((name, block, raw)) <==> ReadAs(t, name, block, raw)
  {
    if ReadAs(t, name, block, raw) {
      var gap :| Shaped(t, name, block, gap, raw);
      if block.None? {
        PlainIsRead(t, name, gap, raw);
      } else {
        LongestIsRead(t, name, block.value, gap, raw);
      }
    }
    if ReadSample(t) == Some((name, block, raw)) {
      var gap := ReadIsShaped(t);
      forall b, g, r | Shaped(t, name, Some(b), g, r) ensures block.Some? && |b| <= |block.value| {
        BracedIsRead(t, name, b, g, r);
      }
    }
  }

  // ── The value ─────────────────────────────────────────────────────────────

  /** `+Inf`, `-Inf`, `NaN`, or what `Number` makes of the text. */
  predicate HasValue(raw: string, number: string -> Num, v: Num) {
    if raw == "+Inf" then v == PositiveInfinity
    else if raw == "-Inf" then v == NegativeInfinity
    else v == number(raw) && (v.NaN? ==> raw == "NaN")
  }

  lemma TrimmedEnds(line: string, name: string, block: Option<string>, gap: string, raw: string)
    requires Shaped(Trim(line), name, block, gap, raw)
    ensures Trim(raw) == raw
  {
    var t := Trim(line);
    assert t[|t| - 1] == raw[|raw| - 1];
    TrimKeeps(raw);
  }

  lemma NamesAreNotComments(t: string, name: string, block: Option<string>, gap: string, raw: string)
    requires Shaped(t, name, block, gap, raw)
    ensures t != [] && t[0] != '#'
  {
    assert t[0] == name[0];
  }

  lemma ReadingIs(line: string, number: string -> Num, name: string, block: Option<string>, raw: string, v: Num)
    requires ReadAs(Trim(line), name, block, raw)
    ensures ReadLine(line, number) == Reading(name, block, v) <==> HasValue(raw, number, v)
    ensures ReadLine(line, number) == Unreadable <==> forall x :: !HasValue(raw, number, x)
  {
    var gap :| Shaped(Trim(line), name, block, gap, raw);
    ReadAsIff(Trim(line), name, block, raw);
    TrimmedEnds(line, name, block, gap, raw);
    NamesAreNotComments(Trim(line), name, block, gap, raw);
    assert HasValue(raw, number, ReadValue(raw, number)) || (ReadValue(raw, number).NaN? && raw != "NaN");
  }

  // ── The owner ─────────────────────────────────────────────────────────────

  predicate Suffixed(name: string, base: string) {
    name == base + "_bucket" || name == base + "_sum" || name == base + "_count"
  }

  /** A sample stands under its own name if that is allowlisted, else under the name it extends, if that is. */
  predicate OwnedBy(name: string, owner: string, allow: set<string>) {
    owner in allow && (name == owner || (name !in allow && Suffixed(name, owner)))
  }

  lemma EndsOnce(name: string)
    ensures EndsWith(name, "_bucket") ==> !EndsWith(name, "_sum") && !EndsWith(name, "_count")
    ensures EndsWith(name, "_sum") ==> !EndsWith(name, "_count")
  {
    if EndsWith(name, "_bucket") { assert name[|name| - 1] == 't' && name[|name| - 2] == 'e'; }
    if EndsWith(name, "_sum") { assert name[|name| - 1] == 'm'; }
    if EndsWith(name, "_count") { assert name[|name| - 1] == 't' && name[|name| - 2] == 'n'; }
  }

  lemma SuffixIs(base: string, suffix: string)
    ensures EndsWith(base + suffix, suffix) && (base + suffix)[..|base + suffix| - |suffix|] == base
  {
  }

  lemma BaseOf(name: string, base: string)
    requires Suffixed(name, base)
    ensures BaseName(name) == base
  {
    EndsOnce(name);
    if name == base + "_bucket" {
      SuffixIs(base, "_bucket");
    } else if name == base + "_sum" {
      SuffixIs(base, "_sum");
    } else {
      SuffixIs(base, "_count");
    }
  }

  lemma OwnerIs(name: string, allow: set<string>, owner: string)
    ensures OwnedBy(name, owner, allow)
      <==> owner in allow && owner == if name in allow then name else BaseName(name)
  {
    BaseNameBelongs(name);
    if Suffixed(name, owner) {
      BaseOf(name, owner);
    }
  }

  /** There is at most one. */
  lemma OneOwner(name: string, allow: set<string>, a: string, b: string)
    requires OwnedBy(name, a, allow) && OwnedBy(name, b, allow)
    ensures a == b
  {
    OwnerIs(name, allow, a);
    OwnerIs(name, allow, b);
  }

  // ── What becomes of a line ────────────────────────────────────────────────

  lemma JudgedByOwner(name: string, block: Option<string>, v: Num, allow: set<string>, owner: string)
    ensures var fate := Judge(Reading(name, block, v), allow);
      && (fate == Kept(owner, Sample(name, LabelsOf(block), v)) <==> OwnedBy(name, owner, allow))
      && (fate == Filtered <==> forall o :: !OwnedBy(name, o, allow))
  {
    var own := if name in allow then name else BaseName(name);
    OwnerIs(name, allow, owner);
    OwnerIs(name, allow, own);
    forall o ensures OwnedBy(name, o, allow) ==> o == own {
      OwnerIs(name, allow, o);
    }
  }

  /** A line that reads as this sample. */
  ghost predicate SaysSample(line: string, number: string -> Num, name: string, block: Option<string>, v: Num) {
    exists raw :: ReadAs(Trim(line), name, block, raw) && HasValue(raw, number, v)
  }

  /**
   * A sample line is kept under its owner with its labels and its value, and left out exactly when it
   * has no owner.
   */
  lemma SampleFate(
    line: string, allow: set<string>, number: string -> Num, name: string, block: Option<string>, v: Num, owner: string)
    requires SaysSample(line, number, name, block, v)
    ensures FateOf(line, allow, number) == Kept(owner, Sample(name, LabelsOf(block), v))
      <==> OwnedBy(name, owner, allow)
    ensures FateOf(line, allow, number) == Filtered <==> forall o :: !OwnedBy(name, o, allow)
  {
    var raw :| ReadAs(Trim(line), name, block, raw) && HasValue(raw, number, v);
    ReadingIs(line, number, name, block, raw, v);
    JudgedByOwner(name, block, v, allow, owner);
  }

  lemma SaysOnly(line: string, number: string -> Num, name: string, block: Option<string>, raw: string)
    requires ReadAs(Trim(line), name, block, raw)
    ensures (forall n, b, v :: !SaysSample(line, number, n, b, v)) <==> forall v :: !HasValue(raw, number, v)
  {
    ReadAsIff(Trim(line), name, block, raw);
    if v :| HasValue(raw, number, v) {
      assert SaysSample(line, number, name, block, v);
    }
    forall n, b, v | SaysSample(line, number, n, b, v) ensures HasValue(raw, number, v) {
      var r :| ReadAs(Trim(line), n, b, r) && HasValue(r, number, v);
      ReadAsIff(Trim(line), n, b, r);
    }
  }

  lemma UnreadSaysNothing(line: string, number: string -> Num)
    requires ReadSample(Trim(line)).None?
    ensures forall name, block, v :: !SaysSample(line, number, name, block, v)
  {
    forall name, block, raw ensures !ReadAs(Trim(line), name, block, raw) {
      ReadAsIff(Trim(line), name, block, raw);
    }
  }

  lemma ReadIsIgnoredIff(line: string, number: string -> Num, read: (string, Option<string>, string))
    requires ReadSample(Trim(line)) == Some(read)
    ensures ReadLine(line, number) == Unreadable <==> forall name, block, v :: !SaysSample(line, number, name, block, v)
  {
    var (name, block, raw) := read;
    ReadAsIff(Trim(line), name, block, raw);
    SaysOnly(line, number, name, block, raw);
    ReadingIs(line, number, name, block, raw, ReadValue(raw, number));
  }

  /** And a line is counted as ignored exactly when it is data and says no sample. */
  lemma IgnoredIff(line: string, allow: set<string>, number: string -> Num)
    ensures FateOf(line, allow, number) == Ignored
      <==> IsData(line) && forall name, block, v :: !SaysSample(line, number, name, block, v)
  {
    var read := ReadSample(Trim(line));
    if IsData(line) {
      if read.None? {
        UnreadSaysNothing(line, number);
      } else {
        ReadIsIgnoredIff(line, number, read.value);
      }
    }
  }

  // ── Descriptions ──────────────────────────────────────────────────────────

  predicate Word(s: string) { s != [] && forall i :: 0 <= i < |s| ==> !IsSpace(s[i]) }

  /** `# HELP name text` or `# TYPE name text`. */
  predicate Describes(t: string, isHelp: bool, a: string, b: string, name: string, c: string, text: string) {
    && t == "#" + (a + ((if isHelp then "HELP" else "TYPE") + (b + (name + (c + text)))))
    && Gap(a) && Gap(b) && Gap(c) && Word(name) && OneLine(text) && (text != [] ==> !IsSpace(text[0]))
  }

  lemma GapThen(gap: string, rest: string)
    requires Gap(gap) && (rest != [] ==> !IsSpace(rest[0]))
    ensures Leading(gap + rest, IsSpace) == |gap| && (gap + rest)[|gap|..] == rest
  {
    LeadingIs(gap, rest, IsSpace);
  }

  lemma WordThen(word: string, rest: string)
    requires Word(word) && (rest != [] ==> IsSpace(rest[0]))
    ensures Leading(word + rest, (c: char) => !IsSpace(c)) == |word|
    ensures (word + rest)[..|word|] == word && (word + rest)[|word|..] == rest
  {
    LeadingIs(word, rest, (c: char) => !IsSpace(c));
  }

  lemma FourThen(word: string, rest: string)
    requires |word| == 4
    ensures (word + rest)[..4] == word && (word + rest)[4..] == rest
  {
  }

  lemma WordAndRestIs(name: string, c: string, text: string)
    requires Gap(c) && Word(name) && OneLine(text) && (text != [] ==> !IsSpace(text[0]))
    ensures WordAndRest(name + (c + text)) == Some((name, text))
  {
    var s := name + (c + text);
    WordThen(name, c + text);
    GapThen(c, text);
    assert s[|name| + |c|..] == (c + text)[|c|..];
  }

  lemma DescribedIs(isHelp: bool, b: string, name: string, c: string, text: string)
    requires Gap(b) && Gap(c) && Word(name) && OneLine(text) && (text != [] ==> !IsSpace(text[0]))
    ensures ReadDescription(isHelp, b + (name + (c + text))) ==
      if isHelp then Help(name, text) else Kind(name, Trim(text))
  {
    var tail := name + (c + text);
    assert tail[0] == name[0];
    GapThen(b, tail);
    WordAndRestIs(name, c, text);
  }

  lemma KeywordsDiffer()
    ensures "HELP" != "TYPE"
  {
    assert "HELP"[0] != "TYPE"[0];
  }

  lemma CommentThen(t: string, a: string, word: string)
    requires Gap(a) && word != [] && !IsSpace(word[0]) && t == "#" + (a + word)
    ensures Leading(t[1..], IsSpace) == |a| && t[1 + |a|..] == word
  {
    assert t[1..] == a + word;
    GapThen(a, word);
    assert t[1 + |a|..] == (a + word)[|a|..];
  }

  lemma KeywordIs(t: string, keyword: string, a: string, after: string)
    requires Gap(a) && (keyword == "HELP" || keyword == "TYPE") && t == "#" + (a + (keyword + after))
    ensures ReadMeta(t) == ReadDescription(keyword == "HELP", after)
  {
    assert (keyword + after)[0] == keyword[0];
    CommentThen(t, a, keyword + after);
    FourThen(keyword, after);
  }

  /** A description is read with its metric and its text, a type without the space around it. */
  lemma DescriptionIsRead(t: string, isHelp: bool, a: string, b: string, name: string, c: string, text: string)
    requires Describes(t, isHelp, a, b, name, c, text)
    ensures ReadMeta(t) == if isHelp then Help(name, text) else Kind(name, Trim(text))
  {
    KeywordsDiffer();
    KeywordIs(t, if isHelp then "HELP" else "TYPE", a, b + (name + (c + text)));
    DescribedIs(isHelp, b, name, c, text);
  }

  /** So it describes its metric exactly when that is allowlisted. */
  lemma DescriptionFate(
    line: string, allow: set<string>, number: string -> Num, isHelp: bool, a: string, b: string, name: string,
    c: string, text: string)
    requires Describes(Trim(line), isHelp, a, b, name, c, text)
    ensures FateOf(line, allow, number) ==
      if name in allow then Described(name, isHelp, if isHelp then text else Trim(text)) else Skipped
  {
    DescriptionIsRead(Trim(line), isHelp, a, b, name, c, text);
  }

  // ── Where the report shows it ─────────────────────────────────────────────

  predicate KeptAt(fs: seq<Fate>, name: string, k: nat) { k < |fs| && fs[k].Kept? && fs[k].owner == name }

  lemma SamplesSnoc(fs: seq<Fate>, last: Fate, name: string)
    ensures SamplesOf(fs + [last], name) ==
      SamplesOf(fs, name) + if last.Kept? && last.owner == name then [last.sample] else []
  {
    assert (fs + [last])[..|fs|] == fs;
  }

  /** A metric's samples are those of its lines, all of them, in line order. */
  ghost predicate InOrder(fs: seq<Fate>, name: string, at: seq<nat>) {
    && Rising(at) && |at| == |SamplesOf(fs, name)|
    && (forall i :: 0 <= i < |at| ==> KeptAt(fs, name, at[i]) && SamplesOf(fs, name)[i] == fs[at[i]].sample)
    && forall k: nat :: KeptAt(fs, name, k) ==> k in at
  }

  lemma KeptAtFront(front: seq<Fate>, last: Fate, name: string, k: nat)
    ensures KeptAt(front + [last], name, k) <==>
      KeptAt(front, name, k) || (k == |front| && last.Kept? && last.owner == name)
    ensures k < |front| ==> (front + [last])[k] == front[k]
  {
  }

  lemma OrderStays(front: seq<Fate>, last: Fate, name: string, at: seq<nat>)
    requires InOrder(front, name, at) && !(last.Kept? && last.owner == name)
    ensures InOrder(front + [last], name, at)
  {
    SamplesSnoc(front, last, name);
    assert SamplesOf(front, name) + [] == SamplesOf(front, name);
    forall k: nat ensures KeptAt(front + [last], name, k) <==> KeptAt(front, name, k) {
      KeptAtFront(front, last, name, k);
    }
    forall i | 0 <= i < |at| ensures (front + [last])[at[i]] == front[at[i]] {
      KeptAtFront(front, last, name, at[i]);
    }
  }

  lemma OrderGrows(front: seq<Fate>, last: Fate, name: string, at: seq<nat>)
    requires InOrder(front, name, at) && last.Kept? && last.owner == name
    ensures InOrder(front + [last], name, at + [|front|])
  {
    var more := at + [|front|];
    SamplesSnoc(front, last, name);
    forall k: nat | KeptAt(front + [last], name, k) ensures k in more {
      KeptAtFront(front, last, name, k);
      if k < |front| { assert k in at; }
    }
    forall i | 0 <= i < |at| ensures KeptAt(front + [last], name, at[i]) && (front + [last])[at[i]] == front[at[i]] {
      KeptAtFront(front, last, name, at[i]);
    }
  }

  lemma {:induction false} SamplesInOrder(fs: seq<Fate>, name: string) returns (at: seq<nat>)
    ensures InOrder(fs, name, at)
  {
    at := [];
    if fs != [] {
      var front, last := fs[..|fs| - 1], fs[|fs| - 1];
      at := SamplesInOrder(front, name);
      assert front + [last] == fs;
      if last.Kept? && last.owner == name {
        OrderGrows(front, last, name, at);
        at := at + [|front|];
      } else {
        OrderStays(front, last, name, at);
      }
    }
  }

  predicate Mentions(f: Fate, name: string) { (f.Described? || f.Kept?) && f.owner == name }

  predicate MentionedFirst(fs: seq<Fate>, name: string, k: nat) {
    k < |fs| && Mentions(fs[k], name) && forall l :: 0 <= l < k ==> !Mentions(fs[l], name)
  }

  /** The metrics come in the order of their first mention. */
  ghost predicate InMentionOrder(fs: seq<Fate>, names: seq<string>, at: seq<nat>) {
    Rising(at) && |at| == |names| && forall i :: 0 <= i < |at| ==> MentionedFirst(fs, names[i], at[i])
  }

  lemma MentionStays(front: seq<Fate>, last: Fate, name: string, k: nat)
    requires MentionedFirst(front, name, k)
    ensures MentionedFirst(front + [last], name, k)
  {
  }

  lemma MentionsStay(front: seq<Fate>, last: Fate, names: seq<string>, at: seq<nat>)
    requires InMentionOrder(front, names, at)
    ensures InMentionOrder(front + [last], names, at)
  {
    forall i | 0 <= i < |at| ensures MentionedFirst(front + [last], names[i], at[i]) {
      MentionStays(front, last, names[i], at[i]);
    }
  }

  lemma MentionIsNew(front: seq<Fate>, last: Fate)
    requires (last.Described? || last.Kept?) && last.owner !in Owners(front)
    ensures MentionedFirst(front + [last], last.owner, |front|)
  {
    OwnersAreDistinct(front);
    forall l | 0 <= l < |front| ensures !Mentions((front + [last])[l], last.owner) { assert front[l] in front; }
  }

  lemma {:induction false} OwnersInOrder(fs: seq<Fate>) returns (at: seq<nat>)
    ensures InMentionOrder(fs, Owners(fs), at)
  {
    at := [];
    if fs != [] {
      var front, last := fs[..|fs| - 1], fs[|fs| - 1];
      at := OwnersInOrder(front);
      MentionsStay(front, last, Owners(front), at);
      assert front + [last] == fs;
      if (last.Described? || last.Kept?) && last.owner !in Owners(front) {
        MentionIsNew(front, last);
        at := at + [|front|];
      }
    }
  }

  /** The help or type shown is the last one given. */
  lemma {:induction false} TextIsLast(fs: seq<Fate>, name: string, isHelp: bool, text: string)
    ensures TextOf(fs, name, isHelp) == Some(text) <==>
      exists k: nat :: k < |fs| && fs[k] == Described(name, isHelp, text) && NoneAfter(fs, name, isHelp, k)
  {
    if fs != [] {
      var n := |fs| - 1;
      TextIsLast(fs[..n], name, isHelp, text);
      forall k: nat | k < n
        ensures NoneAfter(fs, name, isHelp, k) <==> NoneAfter(fs[..n], name, isHelp, k) && !Texts(fs[n], name, isHelp)
      {
        assert forall l :: k < l < n ==> fs[..n][l] == fs[l];
      }
    }
  }

  predicate Texts(f: Fate, name: string, isHelp: bool) { f.Described? && f.owner == name && f.isHelp == isHelp }

  predicate NoneAfter(fs: seq<Fate>, name: string, isHelp: bool, k: nat) {
    forall l :: k < l < |fs| ==> !Texts(fs[l], name, isHelp)
  }

  lemma ReportedUnder(fs: seq<Fate>, k: nat)
    requires k < |fs| && fs[k].Kept?
    ensures exists m :: m in Report(fs) && m.name == fs[k].owner && fs[k].sample in m.samples
  {
    OwnersAreDistinct(fs);
    assert fs[k] in fs;
    var i :| 0 <= i < |Owners(fs)| && Owners(fs)[i] == fs[k].owner;
    var at := SamplesInOrder(fs, fs[k].owner);
    assert KeptAt(fs, fs[k].owner, k);
    var j :| 0 <= j < |at| && at[j] == k;
    assert SamplesOf(fs, fs[k].owner)[j] == fs[k].sample;
    assert Report(fs)[i] == MetricOf(fs, fs[k].owner) && Report(fs)[i] in Report(fs);
  }

  ghost predicate Shows(ms: seq<Metric>, owner: string, s: Sample) {
    exists m :: m in ms && m.name == owner && s in m.samples
  }

  /**
   * Main result. The sample a line says is in the report, under `owner`, exactly when `owner` is its
   * owner: the allowlisted name itself, else the allowlisted name it extends by one suffix.
   */
  lemma SampleIsReportedIff(
    lines: seq<string>, k: nat, allow: set<string>, number: string -> Num, name: string, block: Option<string>, v: Num,
    owner: string)
    requires k < |lines| && SaysSample(lines[k], number, name, block, v)
    ensures Shows(Report(Fates(lines, allow, number)), owner, Sample(name, LabelsOf(block), v))
      <==> OwnedBy(name, owner, allow)
  {
    var fs, s := Fates(lines, allow, number), Sample(name, LabelsOf(block), v);
    SampleFate(lines[k], allow, number, name, block, v, owner);
    if OwnedBy(name, owner, allow) {
      assert fs[k] == Kept(owner, s);
      ReportedUnder(fs, k);
    }
    if Shows(Report(fs), owner, s) {
      ReportIsAllowlisted(lines, allow, number);
      var m :| m in Report(fs) && m.name == owner && s in m.samples;
      var i :| 0 <= i < |Report(fs)| && Report(fs)[i] == m;
      assert BelongsTo(name, owner);
    }
  }

  // ── Printing and reading back ─────────────────────────────────────────────

  /** One sample as the exposition format prints it. */
  function PrintSample(name: string, ls: seq<Label>, text: string): string {
    name + ("{" + Print(ls) + "}") + " " + text
  }

  /** A printed value: a word without a brace. */
  predicate ValueWord(text: string) { Word(text) && OneLine(text) && '}' !in text }

  lemma PrintedIsShaped(name: string, ls: seq<Label>, text: string)
    requires MetricName(name) && ValueWord(text) && OneLine(Print(ls))
    ensures var line := PrintSample(name, ls, text);
      Trim(line) == line && Shaped(line, name, Some(Print(ls)), " ", text)
  {
    var line := PrintSample(name, ls, text);
    assert line[0] == name[0] && line[|line| - 1] == text[|text| - 1];
    if IsSpace(name[0]) { SpacesAreNoNames(name[0]); }
    TrimKeeps(line);
  }

  lemma PrintedIsReadAs(name: string, ls: seq<Label>, text: string)
    requires MetricName(name) && ValueWord(text) && OneLine(Print(ls))
    ensures ReadAs(Trim(PrintSample(name, ls, text)), name, Some(Print(ls)), text)
  {
    PrintedIsShaped(name, ls, text);
    BracedIsRead(PrintSample(name, ls, text), name, Print(ls), " ", text);
    ReadAsIff(PrintSample(name, ls, text), name, Some(Print(ls)), text);
  }

  /**
   * A printed sample comes back under its owner, with its labels and its value, exactly when no label
   * value holds a backslash.
   */
  lemma PrintedSampleReturnsIff(
    name: string, ls: seq<Label>, text: string, allow: set<string>, number: string -> Num, v: Num, owner: string)
    requires MetricName(name) && ValueWord(text) && OneLine(Print(ls)) && PlainKeys(ls)
    requires HasValue(text, number, v) && OwnedBy(name, owner, allow)
    ensures FateOf(PrintSample(name, ls, text), allow, number) == Kept(owner, Sample(name, MapOf(ls), v))
      <==> BackslashFree(ls)
  {
    PrintedIsReadAs(name, ls, text);
    SampleFate(PrintSample(name, ls, text), allow, number, name, Some(Print(ls)), v, owner);
    RoundTripIff(ls);
  }
}
