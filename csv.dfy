/**
 * The quote-aware CSV reader shared by the three pages: `parseCSV` in app/page.js
 * (delimiter `,`) and the reader inlined in `handleFileSelect` of both invoice
 * pages (delimiters `,` and `;`). A text is cut into non-blank lines, the first
 * line gives the headers (split naively), and every later line is tokenized
 * character by character, a `"` toggling whether a delimiter splits.
 */
module Csv {
  import opened Wrappers
  import opened Strings
  import opened Seqs

  /** The delimiter of app/page.js. */
  const Comma: set<char> := {','}

  /** The delimiters of the two invoice pages, `/[,;]/`. */
  const CommaOrSemicolon: set<char> := {',', ';'}

  /** A parsed row: the object `row` that maps each header to a value. */
  type Row = map<string, string>

  // ---------------------------------------------------------------------------
  // Tokenizer

  /** The loop variables `values`, `current` and `inQuotes` between two characters. */
  datatype Scan = Scan(values: seq<string>, current: string, inQuotes: bool)

  const Start := Scan([], "", false)

  /** One iteration of the character loop. */
  function Step(st: Scan, c: char, delims: set<char>): Scan
  {
    if c == '"' then st.(inQuotes := !st.inQuotes)
    else if c in delims && !st.inQuotes then Scan(st.values + [Clean(st.current)], "", false)
    else st.(current := st.current + [c])
  }

  /** The character loop run over `s`, from state `st`. */
  function Run(st: Scan, s: string, delims: set<char>): Scan
    decreases |s|
  {
    if s == [] then st else Step(Run(st, s[..|s| - 1], delims), s[|s| - 1], delims)
  }

  /** The values of one line: what the loop pushed, plus the final push of `current`. */
  function Tokenize(line: string, delims: set<char>): seq<string>
  {
    var st := Run(Start, line, delims);
    st.values + [Clean(st.current)]
  }

  /** The loop over the characters of a line, as the pages write it. */
  method SplitValues(line: string, delims: set<char>) returns (values: seq<string>)
    ensures values == Tokenize(line, delims)
  {
    values := [];
    var current := "";
    var inQuotes := false;
    for i := 0 to |line|
      invariant Scan(values, current, inQuotes) == Run(Start, line[..i], delims)
    {
      var c := line[i];
      if c == '"' {
        inQuotes := !inQuotes;
      } else if c in delims && !inQuotes {
        values := values + [Clean(current)];
        current := "";
      } else {
        current := current + [c];
      }
      assert line[..i + 1][..i] == line[..i];
    }
    assert line[..|line|] == line;
    values := values + [Clean(current)];
  }

  /** The number of `"` characters in `s`. */
  function Quotes(s: string): nat
  {
    Count(s, {'"'})
  }

  /** The delimiters of `s` that are preceded by an even number of `"`. */
  function UnquotedDelims(s: string, delims: set<char>): nat
    decreases |s|
  {
    if s == [] then 0
    else
      var p := s[..|s| - 1];
      var c := s[|s| - 1];
      UnquotedDelims(p, delims) + (if c != '"' && c in delims && Quotes(p) % 2 == 0 then 1 else 0)
  }

  /** After reading `s` the loop is inside quotes exactly when `s` holds an odd number of `"`. */
  lemma {:induction false} RunCounts(s: string, delims: set<char>)
    ensures Run(Start, s, delims).inQuotes <==> Quotes(s) % 2 == 1
    ensures |Run(Start, s, delims).values| == UnquotedDelims(s, delims)
    decreases |s|
  {
    if s != [] {
      RunCounts(s[..|s| - 1], delims);
    }
  }

  /** A line yields one value more than it has delimiters outside quotes. */
  lemma TokenizeCount(line: string, delims: set<char>)
    ensures |Tokenize(line, delims)| == UnquotedDelims(line, delims) + 1
  {
    RunCounts(line, delims);
  }

  /** No `"` is ever copied into `current` or into a value. */
  lemma {:induction false} RunNoQuote(s: string, delims: set<char>)
    ensures var st := Run(Start, s, delims);
            '"' !in st.current && forall i :: 0 <= i < |st.values| ==> '"' !in st.values[i]
    decreases |s|
  {
    if s != [] {
      RunNoQuote(s[..|s| - 1], delims);
    }
  }

  /** A `"` never reaches a value: it only toggles the quoting state. */
  lemma TokenizeNoQuote(line: string, delims: set<char>)
    ensures forall i :: 0 <= i < |Tokenize(line, delims)| ==> '"' !in Tokenize(line, delims)[i]
  {
    RunNoQuote(line, delims);
  }

  /** Every element of `xs` cleaned. */
  function CleanAll(xs: seq<string>): (r: seq<string>)
    ensures |r| == |xs|
    ensures forall i :: 0 <= i < |xs| ==> r[i] == Clean(xs[i])
  {
    if xs == [] then [] else CleanAll(xs[..|xs| - 1]) + [Clean(xs[|xs| - 1])]
  }

  lemma CleanAllSnoc(xs: seq<string>, x: string)
    ensures CleanAll(xs + [x]) == CleanAll(xs) + [Clean(x)]
  {
    assert (xs + [x])[..|xs|] == xs;
  }

  /** Without any `"`, the loop is a plain split followed by cleaning each closed piece. */
  lemma {:induction false} RunPlain(s: string, delims: set<char>)
    requires '"' !in s
    ensures var p := Cut(s, delims);
            Run(Start, s, delims) == Scan(CleanAll(p.closed), p.open, false)
    decreases |s|
  {
    if s != [] {
      var s' := s[..|s| - 1];
      var c := s[|s| - 1];
      assert '"' !in s' by {
        assert forall k :: 0 <= k < |s'| ==> s'[k] == s[k];
      }
      RunPlain(s', delims);
      LastSplit(s);
      CutSnoc(s', c, delims);
      CleanAllSnoc(Cut(s', delims).closed, Cut(s', delims).open);
    }
  }

  /** A line without `"` tokenizes like `line.split(delims)` with every piece cleaned. */
  lemma TokenizePlain(line: string, delims: set<char>)
    requires '"' !in line
    ensures Tokenize(line, delims) == CleanAll(Split(line, delims))
  {
    RunPlain(line, delims);
    CleanAllSnoc(Cut(line, delims).closed, Cut(line, delims).open);
  }

  /** Running over `s + t` is running over `s`, then over `t`. */
  lemma {:induction false} RunAppend(st: Scan, s: string, t: string, delims: set<char>)
    ensures Run(st, s + t, delims) == Run(Run(st, s, delims), t, delims)
    decreases |t|
  {
    if t == [] {
      assert s + t == s;
    } else {
      RunAppend(st, s, t[..|t| - 1], delims);
      assert (s + t)[..|s + t| - 1] == s + t[..|t| - 1];
    }
  }

  /** Text without `"`, read inside quotes or free of delimiters, only extends `current`. */
  lemma {:induction false} RunText(st: Scan, t: string, delims: set<char>)
    requires '"' !in t
    requires st.inQuotes || Avoids(t, delims)
    ensures Run(st, t, delims) == st.(current := st.current + t)
    decreases |t|
  {
    if t == [] {
      assert st.current + t == st.current;
    } else {
      var t' := t[..|t| - 1];
      assert '"' !in t' && (st.inQuotes || Avoids(t', delims)) by {
        assert forall k :: 0 <= k < |t'| ==> t'[k] == t[k];
      }
      RunText(st, t', delims);
      assert st.current + t' + [t[|t| - 1]] == st.current + t;
    }
  }

  // ---------------------------------------------------------------------------
  // Lines written by a CSV writer, read back by the tokenizer

  /** A cell of a written line: `"text"` or bare `text`. */
  datatype Cell = Quoted(text: string) | Bare(text: string)

  /** `"${t}"`. */
  function Quote(t: string): string
  {
    "\"" + t + "\""
  }

  function Render(c: Cell): string
  {
    match c
    case Quoted(t) => Quote(t)
    case Bare(t) => t
  }

  /** A cell the tokenizer reads back unchanged. */
  predicate Readable(c: Cell, delims: set<char>)
  {
    '"' !in c.text && Trimmed(c.text) && (c.Bare? ==> Avoids(c.text, delims))
  }

  function Renders(cells: seq<Cell>): (r: seq<string>)
    ensures |r| == |cells|
    ensures forall i :: 0 <= i < |cells| ==> r[i] == Render(cells[i])
  {
    if cells == [] then [] else Renders(cells[..|cells| - 1]) + [Render(cells[|cells| - 1])]
  }

  function Texts(cells: seq<Cell>): (r: seq<string>)
    ensures |r| == |cells|
    ensures forall i :: 0 <= i < |cells| ==> r[i] == cells[i].text
  {
    if cells == [] then [] else Texts(cells[..|cells| - 1]) + [cells[|cells| - 1].text]
  }

  /** Reading one rendered cell after a delimiter leaves its text in `current`. */
  lemma RunCell(vs: seq<string>, c: Cell, delims: set<char>)
    requires Readable(c, delims)
    ensures Run(Scan(vs, "", false), Render(c), delims) == Scan(vs, c.text, false)
  {
    var st := Scan(vs, "", false);
    match c
    case Bare(t) =>
      RunText(st, t, delims);
      assert "" + t == t;
    case Quoted(t) =>
      var q := "\"";
      RunAppend(st, q + t, q, delims);
      RunAppend(st, q, t, delims);
      assert Run(st, q, delims) == Scan(vs, "", true) by {
        assert q[..0] == [];
      }
      RunText(Scan(vs, "", true), t, delims);
      assert "" + t == t;
      assert Run(Scan(vs, t, true), q, delims) == Scan(vs, t, false) by {
        assert q[..0] == [];
      }
  }

  lemma {:induction false} RunCells(cells: seq<Cell>, d: char, delims: set<char>)
    requires |cells| >= 1 && d in delims && '"' !in delims
    requires forall i :: 0 <= i < |cells| ==> Readable(cells[i], delims)
    ensures Run(Start, Join(Renders(cells), [d]), delims)
         == Scan(Texts(cells[..|cells| - 1]), cells[|cells| - 1].text, false)
    decreases |cells|
  {
    var n := |cells|;
    if n == 1 {
      RunCell([], cells[0], delims);
      assert cells[..0] == [];
    } else {
      var init := cells[..n - 1];
      var last := cells[n - 1];
      assert Renders(cells) == Renders(init) + [Render(last)];
      var a := Join(Renders(init), [d]);
      assert Join(Renders(cells), [d]) == a + [d] + Render(last);
      RunCells(init, d, delims);
      var st := Run(Start, a, delims);
      assert init[..n - 2] == cells[..n - 2];
      RunAppend(Start, a + [d], Render(last), delims);
      RunAppend(Start, a, [d], delims);
      assert Run(st, [d], delims) == Step(st, d, delims) by {
        assert [d][..0] == [];
      }
      assert Clean(init[n - 2].text) == init[n - 2].text;
      assert Step(st, d, delims) == Scan(Texts(init), "", false);
      RunCell(Texts(init), last, delims);
    }
  }

  /**
   * A line written cell by cell (quoted cells may hold delimiters) reads back
   * as the cells' texts, provided no text holds `"` or surrounding whitespace
   * and no bare text holds a delimiter.
   */
  lemma TokenizeRendered(cells: seq<Cell>, d: char, delims: set<char>)
    requires |cells| >= 1 && d in delims && '"' !in delims
    requires forall i :: 0 <= i < |cells| ==> Readable(cells[i], delims)
    ensures Tokenize(Join(Renders(cells), [d]), delims) == Texts(cells)
  {
    var n := |cells|;
    RunCells(cells, d, delims);
    TokenizeOfRun(Join(Renders(cells), [d]), delims, Scan(Texts(cells[..n - 1]), cells[n - 1].text, false));
  }

  /** `Tokenize` in terms of the final state of the character loop. */
  lemma TokenizeOfRun(line: string, delims: set<char>, st: Scan)
    requires Run(Start, line, delims) == st
    ensures Tokenize(line, delims) == st.values + [Clean(st.current)]
  {
  }

  // ---------------------------------------------------------------------------
  // Rows

  /** `values[i] || ''`: a missing value becomes the empty string. */
  function ValueAt(values: seq<string>, i: nat): (r: string)
    ensures r == (if i < |values| then values[i] else "")
  {
    if i < |values| && values[i] != "" then values[i] else ""
  }

  /** The row `headers.forEach((header, i) => { row[header] = values[i] || '' })` builds. */
  function RowOf(headers: seq<string>, values: seq<string>): (r: Row)
    decreases |headers|
  {
    if headers == [] then map[]
    else
      var n := |headers|;
      RowOf(headers[..n - 1], values)[headers[n - 1] := ValueAt(values, n - 1)]
  }

  /** The row has exactly one key per distinct header. */
  lemma {:induction false} RowOfKeys(headers: seq<string>, values: seq<string>)
    ensures forall h :: h in RowOf(headers, values) <==> h in headers
    decreases |headers|
  {
    if headers != [] {
      var n := |headers|;
      RowOfKeys(headers[..n - 1], values);
      LastSplit(headers);
      assert forall h :: h in headers <==> h in headers[..n - 1] || h == headers[n - 1];
    }
  }

  /**
   * The header at position `i` (its last occurrence) maps to the value at position
   * `i`, or to `''` when the line has fewer values; extra values are ignored.
   */
  lemma {:induction false} RowOfAt(headers: seq<string>, values: seq<string>, i: nat)
    requires i < |headers| && headers[i] !in headers[i + 1..]
    ensures headers[i] in RowOf(headers, values)
    ensures RowOf(headers, values)[headers[i]] == ValueAt(values, i)
    decreases |headers|
  {
    var n := |headers|;
    RowOfKeys(headers, values);
    if i < n - 1 {
      assert headers[n - 1] == headers[i + 1..][n - 2 - i];
      assert headers[..n - 1][i + 1..] == headers[i + 1..n - 1];
      RowOfAt(headers[..n - 1], values, i);
    }
  }

  /** The `forEach` loop that fills the row. */
  method BuildRow(headers: seq<string>, values: seq<string>) returns (row: Row)
    ensures row == RowOf(headers, values)
  {
    row := map[];
    for i := 0 to |headers|
      invariant row == RowOf(headers[..i], values)
    {
      row := row[headers[i] := if i < |values| && values[i] != "" then values[i] else ""];
      assert headers[..i + 1][..i] == headers[..i];
    }
    assert headers[..|headers|] == headers;
  }

  // ---------------------------------------------------------------------------
  // Whole texts

  /** `line.trim()` is truthy. */
  predicate NonBlank(line: string)
  {
    Trim(line) != ""
  }

  /** `text.split('\n').filter(line => line.trim())`. */
  function Lines(text: string): (r: seq<string>)
    ensures |r| <= Count(text, {'\n'}) + 1
    ensures forall i :: 0 <= i < |r| ==> NonBlank(r[i])
  {
    Filter(Split(text, {'\n'}), NonBlank)
  }

  /** `lines[0].split(delims).map(h => h.trim().replace(/^"|"$/g, ''))`. */
  function Headers(line: string, delims: set<char>): (r: seq<string>)
    ensures |r| == Count(line, delims) + 1
  {
    CleanAll(Split(line, delims))
  }

  /** The rows of a text: `None` when it has no non-blank line, at which point both readers stop. */
  function ParseRows(text: string, delims: set<char>): (r: Option<seq<Row>>)
    ensures r.Some? ==> |r.value| == |Lines(text)| - 1
  {
    var lines := Lines(text);
    if |lines| == 0 then None
    else
      Some(RowsOf(Headers(lines[0], delims), lines[1..], delims))
  }

  /** Each line of `body` tokenized and turned into a row over `headers`: the `.map` over the data lines. */
  function RowsOf(headers: seq<string>, body: seq<string>, delims: set<char>): (r: seq<Row>)
    ensures |r| == |body|
  {
    if body == [] then []
    else RowsOf(headers, body[..|body| - 1], delims) + [LineRow(headers, body[|body| - 1], delims)]
  }

  /** One data line tokenized and turned into a row over `headers`. */
  function LineRow(headers: seq<string>, line: string, delims: set<char>): Row
  {
    RowOf(headers, Tokenize(line, delims))
  }

  /** Row `i` is built from line `i`. */
  lemma {:induction false} RowsOfAt(headers: seq<string>, body: seq<string>, delims: set<char>, i: nat)
    requires i < |body|
    ensures RowsOf(headers, body, delims)[i] == LineRow(headers, body[i], delims)
  {
    var n := |body|;
    if i < n - 1 {
      RowsOfAt(headers, body[..n - 1], delims, i);
    }
  }

  lemma {:induction false} BlankAppend(s: string, c: char)
    ensures Blank(s + [c]) <==> Blank(s) && IsSpace(c)
  {
    assert forall k :: 0 <= k < |s| ==> (s + [c])[k] == s[k];
    assert (s + [c])[|s|] == c;
  }

  /** Every piece is blank. */
  predicate AllBlank(xs: seq<string>)
  {
    forall i :: 0 <= i < |xs| ==> Blank(xs[i])
  }

  lemma AllBlankSnoc(p: seq<string>, x: string)
    ensures AllBlank(p + [x]) <==> AllBlank(p) && Blank(x)
  {
    assert forall i :: 0 <= i < |p| ==> (p + [x])[i] == p[i];
    assert (p + [x])[|p|] == x;
  }

  /** The pieces of `s` cut at newlines are all blank exactly when `s` is. */
  lemma {:induction false} CutLinesBlank(s: string)
    ensures var p := Cut(s, {'\n'});
            AllBlank(p.closed) && Blank(p.open) <==> Blank(s)
    decreases |s|
  {
    if s != [] {
      var s' := s[..|s| - 1];
      var c := s[|s| - 1];
      var p := Cut(s', {'\n'});
      CutLinesBlank(s');
      LastSplit(s);
      BlankAppend(s', c);
      CutSnoc(s', c, {'\n'});
      if c == '\n' {
        AllBlankSnoc(p.closed, p.open);
      } else {
        BlankAppend(p.open, c);
      }
    }
  }

  /** Every piece of `s.split('\n')` is blank exactly when `s` is. */
  lemma SplitLinesBlank(s: string)
    ensures AllBlank(Split(s, {'\n'})) <==> Blank(s)
  {
    CutLinesBlank(s);
    AllBlankSnoc(Cut(s, {'\n'}).closed, Cut(s, {'\n'}).open);
  }

  /** A text has no non-blank line exactly when it is whitespace only. */
  lemma NoLinesIffBlank(text: string)
    ensures Lines(text) == [] <==> Blank(text)
  {
    var pieces := Split(text, {'\n'});
    assert Lines(text) == Filter(pieces, NonBlank);
    FilterMembers(pieces, NonBlank);
    SplitLinesBlank(text);
    if Lines(text) != [] {
      var x := Lines(text)[0];
      assert x in pieces && NonBlank(x);
      TrimSpec(x);
      var i :| 0 <= i < |pieces| && pieces[i] == x;
      assert !Blank(pieces[i]);
    } else {
      forall i | 0 <= i < |pieces| ensures Blank(pieces[i]) {
        assert pieces[i] in pieces;
        assert !NonBlank(pieces[i]);
        TrimSpec(pieces[i]);
      }
    }
  }

  /** Non-blank lines without line breaks, joined by `\n`, are read back as those lines. */
  lemma LinesOfJoin(xs: seq<string>)
    requires |xs| >= 1
    requires forall i :: 0 <= i < |xs| ==> Avoids(xs[i], {'\n'}) && NonBlank(xs[i])
    ensures Lines(Join(xs, "\n")) == xs
  {
    SplitJoin(xs, '\n');
    FilterAllPass(xs, NonBlank);
  }

  /** A text yields no rows at all exactly when it is whitespace only. */
  lemma ParseRowsNone(text: string, delims: set<char>)
    ensures ParseRows(text, delims).None? <==> Blank(text)
  {
    NoLinesIffBlank(text);
  }

  /**
   * Row `i` of a parse comes from non-blank line `i + 1`: its keys are the headers,
   * and the header at position `j` (its last occurrence) holds the value at
   * position `j` of that line, or `''` when the line has fewer values.
   */
  lemma ParseRowsAt(text: string, delims: set<char>, i: nat, j: nat)
    requires ParseRows(text, delims).Some? && i < |ParseRows(text, delims).value|
    requires j < |Headers(Lines(text)[0], delims)|
    requires Headers(Lines(text)[0], delims)[j] !in Headers(Lines(text)[0], delims)[j + 1..]
    ensures var lines := Lines(text);
            var headers := Headers(lines[0], delims);
            var row := ParseRows(text, delims).value[i];
            && (forall h :: h in row <==> h in headers)
            && headers[j] in row
            && row[headers[j]] == ValueAt(Tokenize(lines[i + 1], delims), j)
  {
    var lines := Lines(text);
    var headers := Headers(lines[0], delims);
    var values := Tokenize(lines[i + 1], delims);
    RowsOfAt(headers, lines[1..], delims, i);
    RowOfKeys(headers, values);
    RowOfAt(headers, values, j);
  }

  /** The `.map` over the lines after the first: each tokenized and turned into a row. */
  method ReadBody(headers: seq<string>, body: seq<string>, delims: set<char>) returns (out: seq<Row>)
    ensures out == RowsOf(headers, body, delims)
  {
    out := [];
    for i := 0 to |body|
      invariant out == RowsOf(headers, body[..i], delims)
    {
      var values := SplitValues(body[i], delims);
      var row := BuildRow(headers, values);
      assert body[..i + 1][..i] == body[..i];
      out := out + [row];
    }
    assert body[..|body|] == body;
  }

  /** The reader: headers from the first non-blank line, one row per further line. */
  method ReadRows(text: string, delims: set<char>) returns (rows: Option<seq<Row>>)
    ensures rows == ParseRows(text, delims)
  {
    var lines := Lines(text);
    if |lines| == 0 {
      return None;
    }
    var headers := Headers(lines[0], delims);
    var out := ReadBody(headers, lines[1..], delims);
    return Some(out);
  }

  /** `parseCSV` of app/page.js: `[]` for a text without a non-blank line. */
  function ParseCsv(text: string): (r: seq<Row>)
    ensures Blank(text) ==> r == []
    ensures !Blank(text) ==> |r| == |Lines(text)| - 1
  {
    ParseRowsNone(text, Comma);
    match ParseRows(text, Comma)
    case None => []
    case Some(rows) => rows
  }

  /** `parseCSV` as a procedure: the shared reader with `,` as the only delimiter. */
  method ReadCsv(text: string) returns (rows: seq<Row>)
    ensures rows == ParseCsv(text)
    ensures rows == [] <== Blank(text)
  {
    ParseRowsNone(text, Comma);
    var parsed := ReadRows(text, Comma);
    match parsed
    case None => rows := [];
    case Some(r) => rows := r;
  }
}
