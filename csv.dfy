/**
 * The CSV text rules shared by every converter: the escaping rule, the way a
 * row of values becomes one line (`row.join(',')`), and the two ways rows are
 * put together (every line ended by LF, or lines separated by LF). A small
 * RFC 4180 record reader and `split('\n')` are the independent references the
 * lemmas read the output back with.
 */
module Csv {
  import opened JsValue

  /** The number of double quotes in `s`. */
  function QuoteCount(s: string): nat {
    if s == [] then 0 else (if s[0] == '"' then 1 else 0) + QuoteCount(s[1..])
  }

  /** `s.replace(/"/g, '""')` */
  function DoubleQuotes(s: string): (r: string)
    ensures |r| == |s| + QuoteCount(s)
    ensures '"' !in s ==> r == s
  {
    if s == [] then []
    else if s[0] == '"' then "\"\"" + DoubleQuotes(s[1..])
    else [s[0]] + DoubleQuotes(s[1..])
  }

  /** The test the converters apply before quoting. */
  predicate NeedsQuoting(s: string) {
    Includes(s, ",") || Includes(s, "\"")
  }

  /**
   * `escapeCSVValue`: a string containing a comma or a double quote is wrapped
   * in double quotes with its quotes doubled; every other value is returned as is.
   */
  function Escape(v: Value): Value {
    if v.Str? && NeedsQuoting(v.s) then Str("\"" + DoubleQuotes(v.s) + "\"") else v
  }

  /** Escape applied to each value of a row. */
  function EscapeAll(vs: seq<Value>): (r: seq<Value>)
    ensures |r| == |vs|
    ensures forall i :: 0 <= i < |vs| ==> r[i] == Escape(vs[i])
  {
    seq(|vs|, i requires 0 <= i < |vs| => Escape(vs[i]))
  }

  /** A prefix one element longer: the shorter prefix and that element. */
  lemma TakeNext<T>(s: seq<T>, k: nat)
    requires k < |s|
    ensures s[..k + 1] == s[..k] + [s[k]]
  {
  }

  lemma EscapeAllAppend(a: seq<Value>, b: seq<Value>)
    ensures EscapeAll(a + b) == EscapeAll(a) + EscapeAll(b)
  {
  }

  /** The escaping rule, stated with plain character membership. */
  lemma EscapeChangesIff(v: Value)
    ensures Escape(v) != v <==> v.Str? && (',' in v.s || '"' in v.s)
  {
    if v.Str? {
      IncludesChar(v.s, ',');
      IncludesChar(v.s, '"');
    }
  }

  lemma EscapeQuoted(s: string)
    requires ',' in s || '"' in s
    ensures Escape(Str(s)) == Str("\"" + DoubleQuotes(s) + "\"")
  {
    IncludesChar(s, ',');
    IncludesChar(s, '"');
  }

  lemma EscapeUnquoted(s: string)
    requires ',' !in s && '"' !in s
    ensures Escape(Str(s)) == Str(s)
  {
    IncludesChar(s, ',');
    IncludesChar(s, '"');
  }

  /** Replaces each `""` with `"`, left to right. */
  function UndoubleQuotes(t: string): string {
    if t == [] then []
    else if |t| >= 2 && t[0] == '"' && t[1] == '"' then "\"" + UndoubleQuotes(t[2..])
    else [t[0]] + UndoubleQuotes(t[1..])
  }

  /** Strips the outer quotes of a quoted field and undoubles its quotes. */
  function Unescape(t: string): string {
    if |t| >= 2 && t[0] == '"' && t[|t| - 1] == '"' then UndoubleQuotes(t[1..|t| - 1]) else t
  }

  /** Every quote occurs twice as often after doubling, and every other character as often as before. */
  lemma {:induction false} DoubleQuotesCounts(s: string)
    ensures |DoubleQuotes(s)| == |s| + multiset(s)['"']
    ensures multiset(DoubleQuotes(s))['"'] == 2 * multiset(s)['"']
    ensures forall c :: c != '"' ==> multiset(DoubleQuotes(s))[c] == multiset(s)[c]
  {
    if s != [] {
      DoubleQuotesCounts(s[1..]);
      assert s == [s[0]] + s[1..];
      assert multiset(s) == multiset([s[0]]) + multiset(s[1..]);
    }
  }

  lemma {:induction false} UndoubleDouble(s: string)
    ensures UndoubleQuotes(DoubleQuotes(s)) == s
  {
    if s != [] {
      UndoubleDouble(s[1..]);
      if s[0] == '"' {
        assert DoubleQuotes(s)[2..] == DoubleQuotes(s[1..]);
      } else {
        assert DoubleQuotes(s)[1..] == DoubleQuotes(s[1..]);
      }
    }
  }

  /** Unescaping the escaped text of any string gives the string back. */
  lemma EscapeRoundTrip(s: string)
    ensures Unescape(ToString(Escape(Str(s)))) == s
  {
    if ',' in s || '"' in s {
      EscapeQuoted(s);
      var t := "\"" + DoubleQuotes(s) + "\"";
      assert t[1..|t| - 1] == DoubleQuotes(s);
      UndoubleDouble(s);
    } else {
      EscapeUnquoted(s);
      assert !(|s| >= 2 && s[0] == '"');
    }
  }

  // ---- An RFC 4180 record reader (one record, no line breaks handled) ----

  /** Reads a quoted field after its opening quote: the content and what follows the closing quote. */
  function ParseQuoted(t: string): (r: (string, string))
    ensures |r.1| <= |t|
  {
    if t == [] then ("", [])
    else if t[0] == '"' then
      if |t| > 1 && t[1] == '"' then
        var (f, rest) := ParseQuoted(t[2..]); ("\"" + f, rest)
      else ("", t[1..])
    else
      var (f, rest) := ParseQuoted(t[1..]); ([t[0]] + f, rest)
  }

  /** Reads an unquoted field up to the next comma. */
  function ParseUnquoted(t: string): (r: (string, string))
    ensures |r.1| <= |t|
  {
    if t == [] || t[0] == ',' then ("", t)
    else var (f, rest) := ParseUnquoted(t[1..]); ([t[0]] + f, rest)
  }

  function ParseField(t: string): (r: (string, string))
    ensures |r.1| <= |t|
  {
    if |t| > 0 && t[0] == '"' then ParseQuoted(t[1..]) else ParseUnquoted(t)
  }

  /** The fields of one CSV record. */
  function ParseRecord(t: string): seq<string>
    decreases |t|
  {
    var (f, rest) := ParseField(t);
    if |rest| > 0 && rest[0] == ',' then [f] + ParseRecord(rest[1..]) else [f]
  }

  /** A value whose cell reads back as its own text: any string, or a value whose text needs no quoting. */
  predicate Safe(v: Value) {
    v.Str? || (',' !in ElemText(v) && '"' !in ElemText(v))
  }

  lemma {:induction false} ParseQuotedDoubled(s: string, rest: string)
    requires rest == [] || rest[0] == ','
    ensures ParseQuoted(DoubleQuotes(s) + "\"" + rest) == (s, rest)
  {
    var t := DoubleQuotes(s) + "\"" + rest;
    if s == [] {
      assert t == "\"" + rest;
      assert t[0] == '"' && t[1..] == rest;
    } else {
      ParseQuotedDoubled(s[1..], rest);
      if s[0] == '"' {
        assert t == "\"\"" + (DoubleQuotes(s[1..]) + "\"" + rest);
        assert t[0] == '"' && t[1] == '"';
        assert t[2..] == DoubleQuotes(s[1..]) + "\"" + rest;
        assert "\"" + s[1..] == s;
      } else {
        assert t == [s[0]] + (DoubleQuotes(s[1..]) + "\"" + rest);
        assert t[0] == s[0];
        assert t[1..] == DoubleQuotes(s[1..]) + "\"" + rest;
        assert [s[0]] + s[1..] == s;
      }
    }
  }

  lemma {:induction false} ParseUnquotedPlain(s: string, rest: string)
    requires ',' !in s
    requires rest == [] || rest[0] == ','
    ensures ParseUnquoted(s + rest) == (s, rest)
  {
    if s == [] {
      assert s + rest == rest;
    } else {
      var t := s + rest;
      assert t[0] == s[0] && s[0] != ',';
      assert t[1..] == s[1..] + rest;
      ParseUnquotedPlain(s[1..], rest);
      assert [s[0]] + s[1..] == s;
    }
  }

  lemma ParseQuotedCell(s: string, rest: string)
    requires ',' in s || '"' in s
    requires rest == [] || rest[0] == ','
    ensures ParseField(ElemText(Escape(Str(s))) + rest) == (s, rest)
  {
    EscapeQuoted(s);
    var e := "\"" + DoubleQuotes(s) + "\"";
    assert ElemText(Str(e)) == e;
    var t := e + rest;
    assert t[0] == '"';
    assert t[1..] == DoubleQuotes(s) + "\"" + rest;
    assert ParseField(t) == ParseQuoted(t[1..]);
    ParseQuotedDoubled(s, rest);
  }

  lemma ParsePlainCell(v: Value, rest: string)
    requires ',' !in ElemText(v) && '"' !in ElemText(v)
    requires rest == [] || rest[0] == ','
    ensures ParseField(ElemText(Escape(v)) + rest) == (ElemText(v), rest)
  {
    if v.Str? { EscapeUnquoted(v.s); }
    assert Escape(v) == v;
    var s := ElemText(v);
    assert |s| > 0 ==> (s + rest)[0] == s[0];
    assert s == [] ==> s + rest == rest;
    ParseUnquotedPlain(s, rest);
  }

  /** The cell of a safe value reads back as the value's text, leaving the rest of the line. */
  lemma ParseFieldCell(v: Value, rest: string)
    requires Safe(v)
    requires rest == [] || rest[0] == ','
    ensures ParseField(ElemText(Escape(v)) + rest) == (ElemText(v), rest)
  {
    if v.Str? && (',' in v.s || '"' in v.s) {
      ParseQuotedCell(v.s, rest);
    } else {
      ParsePlainCell(v, rest);
    }
  }

  /** The texts of a row's values, in order. */
  function Texts(vs: seq<Value>): (r: seq<string>)
    ensures |r| == |vs|
    ensures forall i :: 0 <= i < |vs| ==> r[i] == ElemText(vs[i])
  {
    seq(|vs|, i requires 0 <= i < |vs| => ElemText(vs[i]))
  }

  /** Reading back a line of escaped safe values gives one field per value, holding that value's text. */
  lemma {:induction false} ParseEscapedRow(vs: seq<Value>)
    requires |vs| > 0
    requires forall i :: 0 <= i < |vs| ==> Safe(vs[i])
    ensures ParseRecord(JoinValues(EscapeAll(vs), ",")) == Texts(vs)
  {
    var line := JoinValues(EscapeAll(vs), ",");
    if |vs| == 1 {
      ParseFieldCell(vs[0], []);
      assert line == ElemText(Escape(vs[0])) + [];
    } else {
      var tail := JoinValues(EscapeAll(vs[1..]), ",");
      assert EscapeAll(vs)[1..] == EscapeAll(vs[1..]);
      assert line == ElemText(Escape(vs[0])) + ("," + tail);
      ParseFieldCell(vs[0], "," + tail);
      ParseEscapedRow(vs[1..]);
      assert ("," + tail)[1..] == tail;
      assert Texts(vs) == [ElemText(vs[0])] + Texts(vs[1..]);
    }
  }

  // ---- Putting rows together ----

  /** The text of one row: `row.join(',')`. */
  function Line(row: seq<Value>): string {
    JoinValues(row, ",")
  }

  function Lines(rows: seq<seq<Value>>): (r: seq<string>)
    ensures |r| == |rows|
    ensures forall i :: 0 <= i < |rows| ==> r[i] == Line(rows[i])
  {
    seq(|rows|, i requires 0 <= i < |rows| => Line(rows[i]))
  }

  /** Each line followed by LF: what `csv += row.join(',') + '\n'` accumulates. */
  function Terminated(ls: seq<string>): string {
    if ls == [] then "" else Terminated(ls[..|ls| - 1]) + ls[|ls| - 1] + "\n"
  }

  lemma TerminatedAppend(ls: seq<string>, l: string)
    ensures Terminated(ls + [l]) == Terminated(ls) + l + "\n"
  {
    assert (ls + [l])[..|ls|] == ls;
  }

  /** A whole file: the header line, then each row's escaped line, every line ended by a line feed. */
  function Document(fields: seq<string>, raws: seq<seq<Value>>): string {
    JoinStrings(fields, ",") + "\n" + Terminated(Lines(EscapeRows(raws)))
  }

  /** A whole file whose rows are joined by line feeds: only the header line is ended by one. */
  function Joined(fields: seq<string>, raws: seq<seq<Value>>): string {
    JoinStrings(fields, ",") + "\n" + JoinStrings(Lines(EscapeRows(raws)), "\n")
  }

  lemma DocumentEmpty(fields: seq<string>)
    ensures Document(fields, []) == JoinStrings(fields, ",") + "\n"
    ensures Joined(fields, []) == JoinStrings(fields, ",") + "\n"
  {
    assert Lines(EscapeRows([])) == [];
  }

  /** `csv += row.join(',') + '\n'` appends the row to the document. */
  lemma DocumentAppend(fields: seq<string>, done: seq<seq<Value>>, raw: seq<Value>)
    ensures Document(fields, done) + Line(EscapeAll(raw)) + "\n" == Document(fields, done + [raw])
  {
    var h := JoinStrings(fields, ",") + "\n";
    BlockSnoc(done, raw);
    assert Document(fields, done) == h + Block(done);
    assert Document(fields, done + [raw]) == h + Block(done + [raw]);
  }

  /** The rows' lines, each ended by a line feed: what a run of `csv += row.join(',') + '\n'` appends. */
  function Block(raws: seq<seq<Value>>): string {
    Terminated(Lines(EscapeRows(raws)))
  }

  /** `csv` extended by the rows' lines, or the exception that stopped the rows. */
  function Extend(csv: string, r: Result<seq<seq<Value>>>): Result<string> {
    if r.Ok? then Ok(csv + Block(r.value)) else Throw(r.error)
  }

  /** `done` placed in front of the rows of what remains, or what remains' exception. */
  function Prepend(done: seq<seq<Value>>, r: Result<seq<seq<Value>>>): Result<seq<seq<Value>>> {
    if r.Ok? then Ok(done + r.value) else r
  }

  lemma PrependNothing(r: Result<seq<seq<Value>>>)
    ensures Prepend([], r) == r
  {
    if r.Ok? {
      assert [] + r.value == r.value;
    }
  }

  /** The header line extended by the rows is the whole file. */
  lemma ExtendHeader(fields: seq<string>, r: Result<seq<seq<Value>>>)
    ensures Extend(JoinStrings(fields, ",") + "\n", r) == (if r.Ok? then Ok(Document(fields, r.value)) else Throw(r.error))
  {
  }

  lemma BlockSnoc(done: seq<seq<Value>>, raw: seq<Value>)
    ensures Block(done + [raw]) == Block(done) + Line(EscapeAll(raw)) + "\n"
  {
    assert Lines(EscapeRows(done + [raw])) == Lines(EscapeRows(done)) + [Line(EscapeAll(raw))];
    TerminatedAppend(Lines(EscapeRows(done)), Line(EscapeAll(raw)));
  }

  lemma {:induction false} TerminatedConcat(ls: seq<string>, ms: seq<string>)
    ensures Terminated(ls + ms) == Terminated(ls) + Terminated(ms)
    decreases |ms|
  {
    if ms == [] {
      assert ls + ms == ls;
    } else {
      var ms', l := ms[..|ms| - 1], ms[|ms| - 1];
      assert ms == ms' + [l];
      assert ls + ms == (ls + ms') + [l];
      TerminatedConcat(ls, ms');
      calc {
        Terminated(ls + ms);
        { TerminatedAppend(ls + ms', l); }
        Terminated(ls + ms') + l + "\n";
        Terminated(ls) + Terminated(ms') + l + "\n";
        Terminated(ls) + (Terminated(ms') + l + "\n");
        { TerminatedAppend(ms', l); }
        Terminated(ls) + Terminated(ms);
      }
    }
  }

  /** Appending the rows in two runs gives the same text as in one. */
  lemma BlockConcat(a: seq<seq<Value>>, b: seq<seq<Value>>)
    ensures Block(a + b) == Block(a) + Block(b)
  {
    assert Lines(EscapeRows(a + b)) == Lines(EscapeRows(a)) + Lines(EscapeRows(b));
    TerminatedConcat(Lines(EscapeRows(a)), Lines(EscapeRows(b)));
  }

  lemma BlockEmpty()
    ensures Block([]) == ""
  {
    assert Lines(EscapeRows([])) == [];
  }

  /** `s.split(c)` with a one-character separator. */
  function Split(s: string, c: char): (r: seq<string>)
    ensures |r| > 0
  {
    if s == [] then [""]
    else if s[0] == c then [""] + Split(s[1..], c)
    else var r := Split(s[1..], c); [[s[0]] + r[0]] + r[1..]
  }

  lemma {:induction false} SplitPiece(p: string, c: char, rest: string)
    requires c !in p
    ensures Split(p + [c] + rest, c) == [p] + Split(rest, c)
  {
    var t := p + [c] + rest;
    if p == [] {
      assert t[0] == c && t[1..] == rest;
    } else {
      assert t[0] == p[0] && p[0] != c;
      assert t[1..] == p[1..] + [c] + rest;
      SplitPiece(p[1..], c, rest);
      assert [p[0]] + p[1..] == p;
    }
  }

  lemma {:induction false} SplitNone(p: string, c: char)
    requires c !in p
    ensures Split(p, c) == [p]
  {
    if p != [] {
      SplitNone(p[1..], c);
      assert [p[0]] + p[1..] == p;
    }
  }

  /** Splitting pieces joined by a separator they do not contain gives the pieces back. */
  lemma {:induction false} SplitJoin(ps: seq<string>, c: char)
    requires |ps| > 0
    requires forall i :: 0 <= i < |ps| ==> c !in ps[i]
    ensures Split(JoinStrings(ps, [c]), c) == ps
  {
    if |ps| == 1 {
      SplitNone(ps[0], c);
    } else {
      SplitJoin(ps[1..], c);
      SplitPiece(ps[0], c, JoinStrings(ps[1..], [c]));
      assert ps == [ps[0]] + ps[1..];
    }
  }

  /** The LF-terminated lines are the lines and one empty string, joined with LF. */
  lemma {:induction false} TerminatedJoin(ls: seq<string>)
    ensures Terminated(ls) == JoinStrings(ls + [""], "\n")
  {
    if ls == [] {
      assert ls + [""] == [""];
    } else {
      var init, last := ls[..|ls| - 1], ls[|ls| - 1];
      TerminatedJoin(init);
      assert init + [last] == ls;
      assert ls + [""] == (init + [last]) + [""];
      JoinStringsSnoc(init + [last], "", "\n");
      JoinStringsSnoc(init, last, "\n");
      JoinStringsSnoc(init, "", "\n");
    }
  }

  lemma {:induction false} JoinStringsSnoc(ls: seq<string>, l: string, sep: string)
    ensures JoinStrings(ls + [l], sep) == (if ls == [] then l else JoinStrings(ls, sep) + sep + l)
  {
    if |ls| > 1 {
      JoinStringsSnoc(ls[1..], l, sep);
      assert (ls + [l])[1..] == ls[1..] + [l];
    } else if |ls| == 1 {
      assert (ls + [l])[1..] == [l];
    }
  }

  /**
   * A header line followed by LF-terminated rows splits into the header, one
   * line per row, and the empty string after the final LF, provided no line
   * contains a line feed.
   */
  lemma TerminatedLines(header: string, ls: seq<string>)
    requires '\n' !in header
    requires forall i :: 0 <= i < |ls| ==> '\n' !in ls[i]
    ensures Split(header + "\n" + Terminated(ls), '\n') == [header] + ls + [""]
  {
    TerminatedJoin(ls);
    var ps := [header] + (ls + [""]);
    assert ps[1..] == ls + [""];
    forall i | 0 <= i < |ps| ensures '\n' !in ps[i] {
      if 0 < i <= |ls| {
        assert ps[i] == ls[i - 1];
      }
    }
    SplitJoin(ps, '\n');
    assert ps == [header] + ls + [""];
    assert JoinStrings(ps, "\n") == header + "\n" + JoinStrings(ls + [""], "\n");
  }

  /**
   * A header line ended by LF followed by rows joined with LF splits into the
   * header and one line per row; with no rows, the header and an empty string.
   */
  lemma SeparatedLines(header: string, ls: seq<string>)
    requires '\n' !in header
    requires forall i :: 0 <= i < |ls| ==> '\n' !in ls[i]
    ensures Split(header + "\n" + JoinStrings(ls, "\n"), '\n') == [header] + (if ls == [] then [""] else ls)
  {
    var ps := [header] + (if ls == [] then [""] else ls);
    assert ps[1..] == (if ls == [] then [""] else ls);
    forall i | 0 <= i < |ps| ensures '\n' !in ps[i] {
      if 0 < i && ls != [] {
        assert ps[i] == ls[i - 1];
      }
    }
    SplitJoin(ps, '\n');
    assert JoinStrings(ps, "\n") == header + "\n" + JoinStrings(ps[1..], "\n");
  }

  // ---- Reading a whole file back ----

  /** A value whose cell reads back as its text and that holds no line feed. */
  predicate Plain(v: Value) {
    Safe(v) && '\n' !in ElemText(v)
  }

  function EscapeRows(raws: seq<seq<Value>>): (r: seq<seq<Value>>)
    ensures |r| == |raws|
    ensures forall i :: 0 <= i < |raws| ==> r[i] == EscapeAll(raws[i])
  {
    seq(|raws|, i requires 0 <= i < |raws| => EscapeAll(raws[i]))
  }

  lemma {:induction false} DoubleQuotesKeeps(s: string, c: char)
    requires c != '"' && c !in s
    ensures c !in DoubleQuotes(s)
  {
    if s != [] {
      DoubleQuotesKeeps(s[1..], c);
    }
  }

  lemma EscapeKeeps(v: Value, c: char)
    requires c != '"' && c !in ElemText(v)
    ensures c !in ElemText(Escape(v))
  {
    if v.Str? && NeedsQuoting(v.s) {
      DoubleQuotesKeeps(v.s, c);
    }
  }

  lemma {:induction false} JoinValuesKeeps(vs: seq<Value>, sep: string, c: char)
    requires c !in sep
    requires forall i :: 0 <= i < |vs| ==> c !in ElemText(vs[i])
    ensures c !in JoinValues(vs, sep)
  {
    if |vs| > 1 {
      JoinValuesKeeps(vs[1..], sep, c);
      assert ElemText(vs[0]) == (if Nullish(vs[0]) then "" else ToString(vs[0]));
    } else if |vs| == 1 {
      assert ElemText(vs[0]) == (if Nullish(vs[0]) then "" else ToString(vs[0]));
    }
  }

  lemma EscapedLineKeeps(vs: seq<Value>)
    requires forall i :: 0 <= i < |vs| ==> Plain(vs[i])
    ensures '\n' !in Line(EscapeAll(vs))
  {
    forall i | 0 <= i < |vs| ensures '\n' !in ElemText(EscapeAll(vs)[i]) {
      EscapeKeeps(vs[i], '\n');
    }
    JoinValuesKeeps(EscapeAll(vs), ",", '\n');
  }

  function StrValues(ss: seq<string>): (r: seq<Value>)
    ensures |r| == |ss|
    ensures forall i :: 0 <= i < |ss| ==> r[i] == Str(ss[i])
  {
    seq(|ss|, i requires 0 <= i < |ss| => Str(ss[i]))
  }

  lemma {:induction false} JoinStringsAsValues(ss: seq<string>, sep: string)
    ensures JoinStrings(ss, sep) == JoinValues(StrValues(ss), sep)
  {
    if |ss| > 1 {
      JoinStringsAsValues(ss[1..], sep);
      assert StrValues(ss)[1..] == StrValues(ss[1..]);
    }
  }

  /** A header of plain names reads back as those names. */
  lemma ParseHeader(fields: seq<string>)
    requires |fields| > 0
    requires forall k :: 0 <= k < |fields| ==> ',' !in fields[k] && '"' !in fields[k]
    ensures ParseRecord(JoinStrings(fields, ",")) == fields
  {
    var vs := StrValues(fields);
    JoinStringsAsValues(fields, ",");
    forall k | 0 <= k < |fields| ensures Escape(vs[k]) == vs[k] {
      EscapeUnquoted(fields[k]);
    }
    assert EscapeAll(vs) == vs;
    ParseEscapedRow(vs);
    assert Texts(vs) == fields;
  }

  lemma HeaderKeeps(fields: seq<string>)
    requires forall k :: 0 <= k < |fields| ==> '\n' !in fields[k]
    ensures '\n' !in JoinStrings(fields, ",")
  {
    JoinStringsAsValues(fields, ",");
    JoinValuesKeeps(StrValues(fields), ",", '\n');
  }

  /** The header names contain no comma, quote or line feed. */
  predicate PlainNames(fields: seq<string>) {
    forall k :: 0 <= k < |fields| ==> ',' !in fields[k] && '"' !in fields[k] && '\n' !in fields[k]
  }

  lemma PlainNamesAppend(a: seq<string>, b: seq<string>)
    requires PlainNames(a) && PlainNames(b)
    ensures PlainNames(a + b)
  {
    forall k | 0 <= k < |a + b| ensures ',' !in (a + b)[k] && '"' !in (a + b)[k] && '\n' !in (a + b)[k] {
      if k >= |a| {
        assert (a + b)[k] == b[k - |a|];
      }
    }
  }

  /** A name made of letters, digits and `_`, or other characters between `0` and `z`. */
  predicate Word(s: string) {
    forall i :: 0 <= i < |s| ==> '0' <= s[i] <= 'z'
  }

  lemma PlainThree(a: string, b: string, c: string)
    requires Word(a) && Word(b) && Word(c)
    ensures PlainNames([a, b, c])
  {
    assert forall k :: 0 <= k < 3 ==> Word([a, b, c][k]);
  }

  lemma PlainFour(a: string, b: string, c: string, d: string)
    requires Word(a) && Word(b) && Word(c) && Word(d)
    ensures PlainNames([a, b, c, d])
  {
    assert forall k :: 0 <= k < 4 ==> Word([a, b, c, d][k]);
  }

  lemma PlainFive(a: string, b: string, c: string, d: string, e: string)
    requires Word(a) && Word(b) && Word(c) && Word(d) && Word(e)
    ensures PlainNames([a, b, c, d, e])
  {
    assert forall k :: 0 <= k < 5 ==> Word([a, b, c, d, e][k]);
  }

  /** Every row is non-empty and holds only plain values. */
  predicate PlainRows(raws: seq<seq<Value>>) {
    forall i :: 0 <= i < |raws| ==> |raws[i]| > 0 && forall k :: 0 <= k < |raws[i]| ==> Plain(raws[i][k])
  }

  lemma EscapedLinesKeep(raws: seq<seq<Value>>)
    requires PlainRows(raws)
    ensures forall i :: 0 <= i < |raws| ==> '\n' !in Lines(EscapeRows(raws))[i]
  {
    forall i | 0 <= i < |raws| ensures '\n' !in Lines(EscapeRows(raws))[i] {
      EscapedLineKeeps(raws[i]);
    }
  }

  /**
   * A file made of a header line and LF-terminated rows of escaped plain
   * values reads back, line by line and field by field, as the header names,
   * one record per row holding the texts of that row's values, and an empty
   * last line.
   */
  lemma ReadBackTerminated(fields: seq<string>, raws: seq<seq<Value>>)
    requires |fields| > 0 && PlainNames(fields)
    requires PlainRows(raws)
    ensures var lines := Split(Document(fields, raws), '\n');
      && |lines| == |raws| + 2
      && ParseRecord(lines[0]) == fields
      && (forall i :: 0 <= i < |raws| ==> ParseRecord(lines[i + 1]) == Texts(raws[i]))
      && lines[|raws| + 1] == ""
  {
    var h, ls := JoinStrings(fields, ","), Lines(EscapeRows(raws));
    HeaderKeeps(fields);
    EscapedLinesKeep(raws);
    TerminatedLines(h, ls);
    var lines := Split(Document(fields, raws), '\n');
    assert lines == [h] + ls + [""];
    ParseHeader(fields);
    ParseLines(raws);
    LinesAfterHeader(h, ls, [""], lines);
  }

  /** Each escaped line parses back as the texts of its row. */
  lemma ParseLines(raws: seq<seq<Value>>)
    requires PlainRows(raws)
    ensures forall i :: 0 <= i < |raws| ==> ParseRecord(Lines(EscapeRows(raws))[i]) == Texts(raws[i])
  {
    forall i | 0 <= i < |raws| ensures ParseRecord(Lines(EscapeRows(raws))[i]) == Texts(raws[i]) {
      assert forall k :: 0 <= k < |raws[i]| ==> Plain(raws[i][k]);
      ParseEscapedRow(raws[i]);
    }
  }

  /**
   * The same for a header line ended by LF and rows joined with LF: one
   * record per row and no empty last line, except that with no rows the
   * header is followed by one empty line.
   */
  lemma ReadBackSeparated(fields: seq<string>, raws: seq<seq<Value>>)
    requires |fields| > 0 && PlainNames(fields)
    requires PlainRows(raws)
    ensures var lines := Split(Joined(fields, raws), '\n');
      && |lines| == (if raws == [] then 2 else |raws| + 1)
      && ParseRecord(lines[0]) == fields
      && (forall i :: 0 <= i < |raws| ==> ParseRecord(lines[i + 1]) == Texts(raws[i]))
      && (raws == [] ==> lines[1] == "")
  {
    var h, ls := JoinStrings(fields, ","), Lines(EscapeRows(raws));
    HeaderKeeps(fields);
    EscapedLinesKeep(raws);
    SeparatedLines(h, ls);
    var lines := Split(Joined(fields, raws), '\n');
    ParseHeader(fields);
    if raws == [] {
      assert lines == [h, ""];
    } else {
      assert lines == [h] + ls + [];
      ParseLines(raws);
      LinesAfterHeader(h, ls, [], lines);
    }
  }

  lemma LinesAfterHeader(h: string, ls: seq<string>, tail: seq<string>, lines: seq<string>)
    requires lines == [h] + ls + tail
    ensures forall i :: 0 <= i < |ls| ==> lines[i + 1] == ls[i]
  {
  }
}
