/** The label block of one sample line of a Prometheus exposition (src/infra/geo/prom-text.ts). */
module PromLabels {
  import opened Prelude

  // ── JavaScript string helpers ─────────────────────────────────────────────

  /** What `trim` and `\s` take for white space. */
  predicate IsSpace(c: char) {
    || '\t' <= c <= '\r' || c == ' ' || c == '\U{A0}' || c == '\U{1680}' || '\U{2000}' <= c <= '\U{200A}'
    || c == '\U{2028}' || c == '\U{2029}' || c == '\U{202F}' || c == '\U{205F}' || c == '\U{3000}' || c == '\U{FEFF}'
  }

  function TrimStart(s: string): (r: string)
    ensures r == [] || !IsSpace(r[0])
  {
    if s != [] && IsSpace(s[0]) then TrimStart(s[1..]) else s
  }

  function TrimEnd(s: string): (r: string)
    ensures r <= s && (r == [] || !IsSpace(r[|r| - 1]))
  {
    if s != [] && IsSpace(s[|s| - 1]) then TrimEnd(s[..|s| - 1]) else s
  }

  function Trim(s: string): string { TrimEnd(TrimStart(s)) }

  predicate Blank(s: string) { Trim(s) == [] }

  function IndexOf(s: string, c: char): (r: Option<nat>)
    ensures r.None? ==> c !in s
    ensures r.Some? ==> r.value < |s| && s[r.value] == c && c !in s[..r.value]
  {
    if s == [] then None
    else if s[0] == c then Some(0)
    else
      match IndexOf(s[1..], c)
      case None => None
      case Some(i) => assert s[..i + 1] == [s[0]] + s[1..][..i]; Some(i + 1)
  }

  /** Every backslash directly followed by `c`, with its `c`, becomes `r`; left to right. */
  function ReplacePair(s: string, c: char, r: char): string {
    if s == [] then []
    else if |s| >= 2 && s[0] == '\\' && s[1] == c then [r] + ReplacePair(s[2..], c, r)
    else [s[0]] + ReplacePair(s[1..], c, r)
  }

  /** One leading and one trailing quote go; a lone quote is its own leading one. */
  function StripQuotes(s: string): string {
    var t := if s != [] && s[0] == '"' then s[1..] else s;
    if t != [] && t[|t| - 1] == '"' then t[..|t| - 1] else t
  }

  function Unescape(raw: string): string {
    ReplacePair(ReplacePair(StripQuotes(raw), '"', '"'), 'n', '\n')
  }

  // ── splitLabels ───────────────────────────────────────────────────────────

  datatype Scanner = Scanner(parts: seq<string>, current: string, inQuotes: bool, escaped: bool) {
    predicate Closed() { !inQuotes && !escaped }
  }

  const FRESH: Scanner := Scanner([], [], false, false)

  function Step(st: Scanner, c: char): Scanner {
    if st.escaped then st.(current := st.current + [c], escaped := false)
    else if c == '\\' then st.(current := st.current + [c], escaped := true)
    else if c == '"' then st.(current := st.current + [c], inQuotes := !st.inQuotes)
    else if c == ',' && !st.inQuotes then st.(parts := st.parts + [st.current], current := [])
    else st.(current := st.current + [c])
  }

  function Scan(st: Scanner, s: string): Scanner {
    if s == [] then st else Step(Scan(st, s[..|s| - 1]), s[|s| - 1])
  }

  /** The pieces between unquoted commas, the last one only when it is not blank. */
  function Split(block: string): seq<string> {
    var end := Scan(FRESH, block);
    if Blank(end.current) then end.parts else end.parts + [end.current]
  }

  method SplitLabels(block: string) returns (parts: seq<string>)
    ensures parts == Split(block)
  {
    parts := [];
    var current: string := [];
    var inQuotes, escaped := false, false;
    for i := 0 to |block|
      invariant Scan(FRESH, block[..i]) == Scanner(parts, current, inQuotes, escaped)
    {
      var c := block[i];
      assert block[..i + 1][..i] == block[..i];
      if escaped {
        current, escaped := current + [c], false;
        continue;
      }
      if c == '\\' {
        current, escaped := current + [c], true;
        continue;
      }
      if c == '"' {
        inQuotes, current := !inQuotes, current + [c];
        continue;
      }
      if c == ',' && !inQuotes {
        parts, current := parts + [current], [];
        continue;
      }
      current := current + [c];
    }
    assert block[..|block|] == block;
    if Trim(current) != [] {
      parts := parts + [current];
    }
  }

  // ── parseLabels ───────────────────────────────────────────────────────────

  /** Assigning a string to `__proto__` of an object literal is ignored. */
  function ReadLabel(part: string): Option<(string, string)> {
    match IndexOf(part, '=')
    case None => None
    case Some(eq) =>
      var key := Trim(part[..eq]);
      if key == [] || key == "__proto__" then None else Some((key, Unescape(Trim(part[eq + 1..]))))
  }

  function Put(labels: map<string, string>, part: string): map<string, string> {
    match ReadLabel(part)
    case None => labels
    case Some((key, value)) => labels[key := value]
  }

  function Labels(parts: seq<string>): map<string, string> {
    if parts == [] then map[] else Put(Labels(parts[..|parts| - 1]), parts[|parts| - 1])
  }

  function LabelsOf(block: Option<string>): map<string, string> {
    if block.None? || block.value == [] then map[] else Labels(Split(block.value))
  }

  method ReadPart(part: string) returns (entry: Option<(string, string)>)
    ensures entry == ReadLabel(part)
  {
    var eq := IndexOf(part, '=');
    if eq.None? {
      return None;
    }
    var key := Trim(part[..eq.value]);
    var raw := Trim(part[eq.value + 1..]);
    if key == [] || key == "__proto__" {
      return None;
    }
    return Some((key, Unescape(raw)));
  }

  method ParseLabels(block: Option<string>) returns (labels: map<string, string>)
    ensures labels == LabelsOf(block)
  {
    labels := map[];
    if block.None? || block.value == [] {
      return;
    }
    var parts := SplitLabels(block.value);
    for i := 0 to |parts|
      invariant labels == Labels(parts[..i])
    {
      assert parts[..i + 1][..i] == parts[..i];
      var entry := ReadPart(parts[i]);
      if entry.Some? {
        labels := labels[entry.value.0 := entry.value.1];
      }
    }
    assert parts[..|parts|] == parts;
  }

  // ── What a split is ───────────────────────────────────────────────────────

  function Joined(pieces: seq<string>): string {
    if pieces == [] then []
    else if |pieces| == 1 then pieces[0]
    else Joined(pieces[..|pieces| - 1]) + "," + pieces[|pieces| - 1]
  }

  /** Holds no comma outside quotes. */
  predicate Atomic(piece: string) { Scan(FRESH, piece).parts == [] }

  lemma {:induction false} ScanConcat(st: Scanner, a: string, b: string)
    ensures Scan(st, a + b) == Scan(Scan(st, a), b)
  {
    if b == [] {
      assert a + b == a;
    } else {
      var init := b[..|b| - 1];
      ScanConcat(st, a, init);
      assert (a + b)[..|a + b| - 1] == a + init;
    }
  }

  lemma StepWithParts(st: Scanner, parts: seq<string>, c: char)
    requires Step(st, c).parts == []
    ensures st.parts == [] && Step(st.(parts := parts), c) == Step(st, c).(parts := parts)
  {
  }

  /** A piece is scanned the same way wherever it starts. */
  lemma {:induction false} ScanPiece(parts: seq<string>, piece: string)
    requires Atomic(piece)
    ensures Scan(FRESH, piece).current == piece
    ensures Scan(FRESH.(parts := parts), piece) == Scan(FRESH, piece).(parts := parts)
  {
    if piece != [] {
      var init, c := piece[..|piece| - 1], piece[|piece| - 1];
      StepWithParts(Scan(FRESH, init), parts, c);
      ScanPiece(parts, init);
      assert piece == init + [c];
    }
  }

  /** The text a scanner has consumed. */
  function Consumed(st: Scanner): string { Joined(st.parts + [st.current]) }

  lemma StepConsumes(st: Scanner, c: char)
    ensures Consumed(Step(st, c)) == Consumed(st) + [c]
  {
    var end := Step(st, c);
    assert (end.parts + [end.current])[..|end.parts|] == end.parts;
    assert (st.parts + [st.current])[..|st.parts|] == st.parts;
    if end.parts == st.parts {
      assert end.current == st.current + [c];
    }
  }

  /** What every scan keeps about the pieces it holds. */
  predicate PiecesOk(st: Scanner) {
    && Scan(FRESH, st.current) == st.(parts := [])
    && forall i :: 0 <= i < |st.parts| ==> Atomic(st.parts[i]) && Scan(FRESH, st.parts[i]).Closed()
  }

  lemma StepKeepsPieces(st: Scanner, c: char)
    requires PiecesOk(st)
    ensures PiecesOk(Step(st, c))
  {
    assert (st.current + [c])[..|st.current|] == st.current;
    var end := Step(st, c);
    if end.parts == st.parts {
      assert end.current == st.current + [c];
    }
  }

  lemma {:induction false} ScanConsumes(s: string)
    ensures Consumed(Scan(FRESH, s)) == s
  {
    if s != [] {
      ScanConsumes(s[..|s| - 1]);
      StepConsumes(Scan(FRESH, s[..|s| - 1]), s[|s| - 1]);
      assert s == s[..|s| - 1] + [s[|s| - 1]];
    }
  }

  lemma {:induction false} ScanKeepsPieces(s: string)
    ensures PiecesOk(Scan(FRESH, s))
  {
    if s != [] {
      ScanKeepsPieces(s[..|s| - 1]);
      StepKeepsPieces(Scan(FRESH, s[..|s| - 1]), s[|s| - 1]);
    }
  }

  /** The pieces rejoin to the block, up to one blank tail; no piece holds an unquoted comma. */
  lemma SplitRejoins(block: string)
    ensures var parts := Split(block);
      && (|| Joined(parts) == block
          || (exists tail :: Blank(tail) && block == (if parts == [] then tail else Joined(parts) + "," + tail)))
      && (forall i :: 0 <= i < |parts| ==> Atomic(parts[i]))
  {
    ScanConsumes(block);
    ScanKeepsPieces(block);
    var end := Scan(FRESH, block);
    if Blank(end.current) {
      assert (end.parts + [end.current])[..|end.parts|] == end.parts;
      assert block == if end.parts == [] then end.current else Joined(end.parts) + "," + end.current;
    }
  }

  /**
   * There is no other way to cut a block: pieces without an unquoted comma, all but the last
   * closed, are what a scan of their join returns.
   */
  lemma {:induction false} PiecesAreUnique(pieces: seq<string>)
    requires pieces != []
    requires forall i :: 0 <= i < |pieces| ==> Atomic(pieces[i])
    requires forall i :: 0 <= i < |pieces| - 1 ==> Scan(FRESH, pieces[i]).Closed()
    ensures var end := Scan(FRESH, Joined(pieces));
      var last := |pieces| - 1;
      end == Scan(FRESH, pieces[last]).(parts := pieces[..last]) && end.current == pieces[last]
  {
    var last := |pieces| - 1;
    ScanPiece(pieces[..last], pieces[last]);
    if last > 0 {
      var front := pieces[..last];
      PiecesAreUnique(front);
      assert front[..last - 1] + [front[last - 1]] == front;
      var text := Joined(front);
      assert Joined(pieces) == text + "," + pieces[last];
      assert (text + ",")[..|text|] == text;
      assert Scan(FRESH, text + ",") == Scanner(front, [], false, false);
      ScanConcat(FRESH, text + ",", pieces[last]);
    }
  }
}
