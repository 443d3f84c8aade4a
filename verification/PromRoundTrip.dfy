/**
 * Printing labels as the Prometheus text exposition format 0.0.4 has it (section "Comments, help
 * text, and type information": `\\`, `\"` and `\n` escapes) and reading them back.
 */
module PromRoundTrip {
  import opened Prelude
  import opened PromLabels

  datatype Label = Label(key: string, value: string)

  function Escaped(c: char): string {
    if c == '\\' then "\\\\" else if c == '"' then "\\\"" else if c == '\n' then "\\n" else [c]
  }

  function Escape(v: string): string {
    if v == [] then [] else Escaped(v[0]) + Escape(v[1..])
  }

  function Quoted(v: string): string { "\"" + Escape(v) + "\"" }

  function PrintLabel(l: Label): string { l.key + "=" + Quoted(l.value) }

  function Printed(ls: seq<Label>): seq<string> { seq(|ls|, i requires 0 <= i < |ls| => PrintLabel(ls[i])) }

  /** One label block, without its braces. */
  function Print(ls: seq<Label>): string { Joined(Printed(ls)) }

  function MapOf(ls: seq<Label>): map<string, string> {
    if ls == [] then map[] else MapOf(ls[..|ls| - 1])[ls[|ls| - 1].key := ls[|ls| - 1].value]
  }

  predicate PlainChar(c: char) { c != '=' && c != ',' && c != '"' && c != '\\' }

  /** A key the block grammar leaves alone. Every label name of the exposition format is one. */
  predicate PlainKey(k: string) {
    k != [] && k != "__proto__" && Trim(k) == k && forall i :: 0 <= i < |k| ==> PlainChar(k[i])
  }

  predicate PlainKeys(ls: seq<Label>) {
    && (forall i :: 0 <= i < |ls| ==> PlainKey(ls[i].key))
    && (forall i, j :: 0 <= i < j < |ls| ==> ls[i].key != ls[j].key)
  }

  predicate BackslashFree(ls: seq<Label>) {
    forall i :: 0 <= i < |ls| ==> '\\' !in ls[i].value
  }

  // ── A printed label is one closed piece ───────────────────────────────────

  lemma {:induction false} ScanPlain(st: Scanner, k: string)
    requires st.Closed() && forall i :: 0 <= i < |k| ==> PlainChar(k[i])
    ensures Scan(st, k) == st.(current := st.current + k)
  {
    if k == [] {
      assert st.current + k == st.current;
    } else {
      ScanPlain(st, k[..|k| - 1]);
      assert k == k[..|k| - 1] + [k[|k| - 1]];
    }
  }

  lemma ScanEscaped(st: Scanner, c: char)
    requires st.inQuotes && !st.escaped
    ensures Appends(st, Escaped(c))
  {
    var e := Escaped(c);
    if |e| == 1 {
      assert e[..0] == [];
    } else {
      assert e[..1][..0] == [] && e[..1] == "\\";
      assert Scan(st, e[..1]) == Step(st, '\\');
      assert st.current + "\\" + [e[1]] == st.current + e;
    }
  }

  /** The scanner only appended `s`. */
  predicate Appends(st: Scanner, s: string) { Scan(st, s) == st.(current := st.current + s) }

  lemma AppendsBoth(st: Scanner, a: string, b: string)
    requires Appends(st, a) && Appends(st.(current := st.current + a), b)
    ensures Appends(st, a + b)
  {
    ScanConcat(st, a, b);
    assert st.current + a + b == st.current + (a + b);
  }

  lemma {:induction false} ScanEscape(st: Scanner, v: string)
    requires st.inQuotes && !st.escaped
    ensures Appends(st, Escape(v))
    decreases v
  {
    if v == [] {
      assert st.current + Escape(v) == st.current;
    } else {
      ScanEscaped(st, v[0]);
      ScanEscape(st.(current := st.current + Escaped(v[0])), v[1..]);
      AppendsBoth(st, Escaped(v[0]), Escape(v[1..]));
    }
  }

  lemma ScanOne(st: Scanner, c: char)
    ensures Scan(st, [c]) == Step(st, c)
  {
    assert [c][..0] == [];
  }

  lemma ScanHead(k: string)
    requires PlainKey(k)
    ensures Scan(FRESH, k + "=\"") == Scanner([], k + "=\"", true, false)
  {
    ScanPlain(FRESH, k);
    ScanConcat(FRESH, k, "=");
    ScanOne(Scan(FRESH, k), '=');
    ScanConcat(FRESH, k + "=", "\"");
    ScanOne(Scan(FRESH, k + "="), '"');
    assert k + "=\"" == k + "=" + "\"";
  }

  lemma ScanTail(head: string, v: string)
    ensures Scan(Scanner([], head, true, false), Escape(v) + "\"") == Scanner([], head + Escape(v) + "\"", false, false)
  {
    var st := Scanner([], head, true, false);
    ScanEscape(st, v);
    ScanConcat(st, Escape(v), "\"");
    ScanOne(Scanner([], head + Escape(v), true, false), '"');
  }

  lemma Spelled(l: Label)
    ensures PrintLabel(l) == (l.key + "=\"") + (Escape(l.value) + "\"")
  {
  }

  lemma PrintedIsClosed(l: Label)
    requires PlainKey(l.key)
    ensures Atomic(PrintLabel(l)) && Scan(FRESH, PrintLabel(l)).Closed()
  {
    Spelled(l);
    ScanHead(l.key);
    ScanTail(l.key + "=\"", l.value);
    ScanConcat(FRESH, l.key + "=\"", Escape(l.value) + "\"");
  }

  lemma TrimKeeps(s: string)
    requires s != [] && !IsSpace(s[0]) && !IsSpace(s[|s| - 1])
    ensures Trim(s) == s
  {
  }

  lemma {:induction false} TrimStartKeepsEnd(s: string)
    requires s != [] && !IsSpace(s[|s| - 1])
    ensures TrimStart(s) != [] && !IsSpace(TrimStart(s)[|TrimStart(s)| - 1])
  {
    if IsSpace(s[0]) {
      TrimStartKeepsEnd(s[1..]);
    }
  }

  lemma SplitOfPrint(ls: seq<Label>)
    requires PlainKeys(ls)
    ensures Split(Print(ls)) == Printed(ls)
    ensures Print(ls) == [] <==> ls == []
  {
    if ls != [] {
      forall i | 0 <= i < |ls| ensures Atomic(Printed(ls)[i]) && Scan(FRESH, Printed(ls)[i]).Closed() {
        PrintedIsClosed(ls[i]);
      }
      PiecesAreUnique(Printed(ls));
      var last := PrintLabel(ls[|ls| - 1]);
      assert last[|last| - 1] == '"';
      TrimStartKeepsEnd(last);
      assert Printed(ls)[..|ls| - 1] + [last] == Printed(ls);
      assert |Print(ls)| >= |last|;
    }
  }

  // ── Reading one printed label ─────────────────────────────────────────────

  lemma ReadPrinted(l: Label)
    requires PlainKey(l.key)
    ensures ReadLabel(PrintLabel(l)) == Some((l.key, Unescape(Quoted(l.value))))
  {
    var part := PrintLabel(l);
    var eq := |l.key|;
    assert part[eq] == '=' && part[..eq] == l.key && part[eq + 1..] == Quoted(l.value);
    assert forall j :: 0 <= j < eq ==> part[j] == l.key[j] && PlainChar(l.key[j]);
    FirstIndex(part, '=', eq);
    TrimKeeps(Quoted(l.value));
  }

  lemma {:induction false} FirstIndex(s: string, c: char, i: nat)
    requires i < |s| && s[i] == c && forall j :: 0 <= j < i ==> s[j] != c
    ensures IndexOf(s, c) == Some(i)
  {
    if i > 0 {
      FirstIndex(s[1..], c, i - 1);
    }
  }

  /** The quote pass undoes the quote escape and nothing else. */
  function EscapedOnce(c: char): string { if c == '"' then "\"" else Escaped(c) }

  function EscapeOnce(v: string): string {
    if v == [] then [] else EscapedOnce(v[0]) + EscapeOnce(v[1..])
  }

  lemma ReplaceSkips(x: char, rest: string, c: char, r: char)
    requires x != '\\' || (rest != [] ==> rest[0] != c)
    ensures ReplacePair([x] + rest, c, r) == [x] + ReplacePair(rest, c, r)
  {
    assert ([x] + rest)[1..] == rest;
  }

  lemma ReplaceHits(rest: string, c: char, r: char)
    ensures ReplacePair(['\\', c] + rest, c, r) == [r] + ReplacePair(rest, c, r)
  {
    assert (['\\', c] + rest)[2..] == rest;
  }

  lemma {:induction false} QuotePass(v: string)
    ensures ReplacePair(Escape(v), '"', '"') == EscapeOnce(v)
  {
    if v != [] {
      QuotePass(v[1..]);
      var rest := Escape(v[1..]);
      NoBareQuote(v[1..]);
      if v[0] == '"' {
        ReplaceHits(rest, '"', '"');
      } else if v[0] == '\\' || v[0] == '\n' {
        var e := Escaped(v[0]);
        ReplaceSkips(e[1], rest, '"', '"');
        ReplaceSkips('\\', [e[1]] + rest, '"', '"');
        assert Escape(v) == ['\\'] + ([e[1]] + rest);
      } else {
        ReplaceSkips(v[0], rest, '"', '"');
      }
    }
  }

  lemma NoBareQuote(v: string)
    ensures Escape(v) != [] ==> Escape(v)[0] != '"'
  {
  }

  lemma UnescapeQuoted(v: string)
    ensures Unescape(Quoted(v)) == ReplacePair(EscapeOnce(v), 'n', '\n')
  {
    var q := Quoted(v);
    assert q[1..] == Escape(v) + "\"" && q[1..][..|q[1..]| - 1] == Escape(v);
    QuotePass(v);
  }

  lemma {:induction false} PlainValueReturns(v: string)
    requires '\\' !in v
    ensures ReplacePair(EscapeOnce(v), 'n', '\n') == v
  {
    if v != [] {
      PlainValueReturns(v[1..]);
      var rest := EscapeOnce(v[1..]);
      assert v == [v[0]] + v[1..];
      if v[0] == '\n' {
        ReplaceHits(rest, 'n', '\n');
      } else {
        assert v[0] in v;
        ReplaceSkips(v[0], rest, 'n', '\n');
      }
    }
  }

  // ── A backslash never comes back ──────────────────────────────────────────

  function Marks(s: string): nat {
    if s == [] then 0 else (if s[0] == '\\' || s[0] == '\n' then 1 else 0) + Marks(s[1..])
  }

  function Backslashes(s: string): nat {
    if s == [] then 0 else (if s[0] == '\\' then 1 else 0) + Backslashes(s[1..])
  }

  lemma {:induction false} NewlinePassKeepsMarks(s: string)
    ensures Marks(ReplacePair(s, 'n', '\n')) == Marks(s)
  {
    if s == [] {
    } else if |s| >= 2 && s[0] == '\\' && s[1] == 'n' {
      NewlinePassKeepsMarks(s[2..]);
      assert s[1..][1..] == s[2..];
    } else {
      NewlinePassKeepsMarks(s[1..]);
    }
  }

  lemma {:induction false} EscapeAddsMarks(v: string)
    ensures Marks(EscapeOnce(v)) == Marks(v) + Backslashes(v)
    ensures Backslashes(v) == 0 <==> '\\' !in v
  {
    if v != [] {
      EscapeAddsMarks(v[1..]);
      var e, rest := EscapedOnce(v[0]), EscapeOnce(v[1..]);
      if |e| == 1 {
        assert EscapeOnce(v)[1..] == rest;
      } else {
        assert EscapeOnce(v)[1..][1..] == rest;
      }
    }
  }

  /** A printed value is read back exactly when it holds no backslash. */
  lemma ValueReturnsIff(v: string)
    ensures Unescape(Quoted(v)) == v <==> '\\' !in v
  {
    UnescapeQuoted(v);
    EscapeAddsMarks(v);
    NewlinePassKeepsMarks(EscapeOnce(v));
    if '\\' !in v {
      PlainValueReturns(v);
    }
  }

  // ── The whole block ───────────────────────────────────────────────────────

  /** What parsing makes of each printed label. */
  function Reread(ls: seq<Label>): seq<Label> {
    seq(|ls|, i requires 0 <= i < |ls| => Label(ls[i].key, Unescape(Quoted(ls[i].value))))
  }

  lemma PutPrinted(parts: seq<string>, l: Label)
    requires PlainKey(l.key)
    ensures Labels(parts + [PrintLabel(l)]) == Labels(parts)[l.key := Unescape(Quoted(l.value))]
  {
    ReadPrinted(l);
    assert (parts + [PrintLabel(l)])[..|parts|] == parts;
  }

  predicate AllPlain(ls: seq<Label>) { forall i :: 0 <= i < |ls| ==> PlainKey(ls[i].key) }

  lemma PrintedSnoc(front: seq<Label>, last: Label)
    ensures Printed(front + [last]) == Printed(front) + [PrintLabel(last)]
    ensures Reread(front + [last]) == Reread(front) + [Label(last.key, Unescape(Quoted(last.value)))]
  {
  }

  lemma MapOfSnoc(front: seq<Label>, last: Label)
    ensures MapOf(front + [last]) == MapOf(front)[last.key := last.value]
  {
    assert (front + [last])[..|front|] == front;
  }

  lemma OneMoreLabel(front: seq<Label>, last: Label)
    requires PlainKey(last.key) && Labels(Printed(front)) == MapOf(Reread(front))
    ensures Labels(Printed(front + [last])) == MapOf(Reread(front + [last]))
  {
    PrintedSnoc(front, last);
    PutPrinted(Printed(front), last);
    MapOfSnoc(Reread(front), Label(last.key, Unescape(Quoted(last.value))));
  }

  lemma {:induction false} LabelsOfPrinted(ls: seq<Label>)
    requires AllPlain(ls)
    ensures Labels(Printed(ls)) == MapOf(Reread(ls))
  {
    if ls != [] {
      var front, last := ls[..|ls| - 1], ls[|ls| - 1];
      LabelsOfPrinted(front);
      assert ls == front + [last];
      OneMoreLabel(front, last);
    }
  }

  lemma {:induction false} KeysOf(ls: seq<Label>, k: string)
    ensures k in MapOf(ls) <==> exists i :: 0 <= i < |ls| && ls[i].key == k
  {
    if ls != [] {
      var front := ls[..|ls| - 1];
      KeysOf(front, k);
      if i :| 0 <= i < |ls| && ls[i].key == k {
        if i < |front| { assert front[i].key == k; }
      }
      if k in MapOf(front) {
        var i :| 0 <= i < |front| && front[i].key == k;
        assert ls[i].key == k;
      }
    }
  }

  lemma PutAgreesIff(m: map<string, string>, n: map<string, string>, k: string, x: string, y: string)
    requires k !in m && k !in n
    ensures m[k := x] == n[k := y] <==> m == n && x == y
  {
    if m[k := x] == n[k := y] {
      assert m[k := x][k] == x && n[k := y][k] == y;
      assert m == m[k := x] - {k} && n == n[k := y] - {k};
    }
  }

  /** Lists with the same distinct keys make the same map exactly when they are the same list. */
  lemma {:induction false} MapsAgreeIff(a: seq<Label>, b: seq<Label>)
    requires |a| == |b| && forall i :: 0 <= i < |a| ==> a[i].key == b[i].key
    requires forall i, j :: 0 <= i < j < |a| ==> a[i].key != a[j].key
    ensures MapOf(a) == MapOf(b) <==> a == b
  {
    if a != [] {
      var n := |a| - 1;
      MapsAgreeIff(a[..n], b[..n]);
      KeysOf(a[..n], a[n].key);
      KeysOf(b[..n], a[n].key);
      PutAgreesIff(MapOf(a[..n]), MapOf(b[..n]), a[n].key, a[n].value, b[n].value);
      assert a == a[..n] + [a[n]];
      assert b == b[..n] + [b[n]];
    }
  }

  /** Parsing what the exposition format prints returns the same labels exactly when no value holds a backslash. */
  lemma RoundTripIff(ls: seq<Label>)
    requires PlainKeys(ls)
    ensures LabelsOf(Some(Print(ls))) == MapOf(ls) <==> BackslashFree(ls)
  {
    SplitOfPrint(ls);
    LabelsOfPrinted(ls);
    MapsAgreeIff(Reread(ls), ls);
    RereadIff(ls);
  }

  lemma RereadIff(ls: seq<Label>)
    ensures Reread(ls) == ls <==> BackslashFree(ls)
  {
    forall i | 0 <= i < |ls| ensures Reread(ls)[i] == ls[i] <==> '\\' !in ls[i].value {
      ValueReturnsIff(ls[i].value);
    }
  }
}
