/**
 * The JavaScript string operations the pages rely on: `trim`, the quote-stripping
 * `replace(/^"|"$/g, '')`, `split`, `join`, `replace(',', '.')`,
 * `replace(/[€$,]/g, '')`, `includes`, and the order used to compare apartment names.
 */
module Strings {

  /** The characters `String.prototype.trim` removes: ECMAScript WhiteSpace and LineTerminator. */
  predicate IsSpace(c: char) {
    || c == '\t' || c == '\n' || c == '\U{B}' || c == '\U{C}' || c == '\r' || c == ' '
    || c == '\U{A0}' || c == '\U{1680}' || ('\U{2000}' <= c <= '\U{200A}')
    || c == '\U{2028}' || c == '\U{2029}' || c == '\U{202F}' || c == '\U{205F}'
    || c == '\U{3000}' || c == '\U{FEFF}'
  }

  /** Every character of `s` is whitespace (so `s.trim()` is falsy). */
  predicate Blank(s: string) {
    forall i :: 0 <= i < |s| ==> IsSpace(s[i])
  }

  /** No character of `s` belongs to `cs`. */
  predicate Avoids(s: string, cs: set<char>) {
    forall i :: 0 <= i < |s| ==> s[i] !in cs
  }

  /** Neither end of `s` is whitespace. */
  predicate Trimmed(s: string) {
    s == [] || (!IsSpace(s[0]) && !IsSpace(s[|s| - 1]))
  }

  function TrimStart(s: string): (r: string)
    ensures |r| <= |s|
    ensures r == [] || !IsSpace(r[0])
    ensures forall c :: c in r ==> c in s
  {
    if s != [] && IsSpace(s[0]) then TrimStart(s[1..]) else s
  }

  function TrimEnd(s: string): (r: string)
    ensures |r| <= |s|
    ensures r == [] || !IsSpace(r[|r| - 1])
    ensures forall c :: c in r ==> c in s
  {
    if s != [] && IsSpace(s[|s| - 1]) then TrimEnd(s[..|s| - 1]) else s
  }

  /** `s.trim()`. */
  function Trim(s: string): (r: string)
    ensures Trimmed(r)
    ensures Trimmed(s) ==> r == s
    ensures forall c :: c in r ==> c in s
  {
    var t := TrimStart(s);
    TrimEndCuts(t);
    TrimEnd(t)
  }

  /** `trimStart` cuts a whitespace prefix. */
  lemma {:induction false} TrimStartCuts(s: string)
    ensures var r := TrimStart(s);
            r == s[|s| - |r|..] && Blank(s[..|s| - |r|])
  {
    if s != [] && IsSpace(s[0]) {
      TrimStartCuts(s[1..]);
      var r := TrimStart(s[1..]);
      assert s[1..][..|s| - 1 - |r|] == s[1..|s| - |r|];
    }
  }

  /** `trimEnd` cuts a whitespace suffix. */
  lemma {:induction false} TrimEndCuts(s: string)
    ensures var r := TrimEnd(s);
            r == s[..|r|] && Blank(s[|r|..])
  {
    if s != [] && IsSpace(s[|s| - 1]) {
      TrimEndCuts(s[..|s| - 1]);
      var r := TrimEnd(s[..|s| - 1]);
      assert s[..|s| - 1][|r|..] == s[|r|..|s| - 1];
    }
  }

  /**
   * `s.trim()` is the middle part of `s` whose ends are not whitespace, with only
   * whitespace cut off on either side; it is empty exactly when `s` is all whitespace.
   */
  lemma TrimSpec(s: string)
    ensures var r := Trim(s);
            && (exists k :: 0 <= k <= |s| - |r| && r == s[k..k + |r|] && Blank(s[..k]) && Blank(s[k + |r|..]))
            && (Blank(s) <==> r == [])
  {
    var t := TrimStart(s);
    var r := TrimEnd(t);
    TrimStartCuts(s);
    TrimEndCuts(t);
    var k := |s| - |t|;
    assert r == s[k..k + |r|];
    assert s[k + |r|..] == t[|r|..];
    assert t != [] ==> t[0] == s[k];
    assert t[0..] == t;
    assert s[..|s|] == s;
  }

  /** `s.replace(/^"|"$/g, '')`: at most one leading and one trailing `"` removed. */
  function StripQuotes(s: string): (r: string)
    ensures '"' !in s ==> r == s
    ensures |s| >= 2 && s[0] == '"' && s[|s| - 1] == '"' ==> r == s[1..|s| - 1]
    ensures forall c :: c in r ==> c in s
  {
    var a := if |s| > 0 && s[0] == '"' then s[1..] else s;
    if |a| > 0 && a[|a| - 1] == '"' then a[..|a| - 1] else a
  }

  /**
   * A `"` at one end only is removed alone; a lone `"` leaves the empty string;
   * a string with no `"` at either end, whatever it holds inside, is unchanged.
   */
  lemma StripQuotesLone(s: string)
    ensures |s| >= 1 && s[0] == '"' && (|s| == 1 || s[|s| - 1] != '"') ==> StripQuotes(s) == s[1..]
    ensures |s| >= 1 && s[|s| - 1] == '"' && s[0] != '"' ==> StripQuotes(s) == s[..|s| - 1]
    ensures |s| >= 1 && s[0] != '"' && s[|s| - 1] != '"' ==> StripQuotes(s) == s
  {
  }

  /** `s.trim().replace(/^"|"$/g, '')`, the cleaning every header and value goes through. */
  function Clean(s: string): (r: string)
    ensures '"' !in s && Trimmed(s) ==> r == s
    ensures forall c :: c in r ==> c in s
  {
    StripQuotes(Trim(s))
  }

  /** The number of characters of `s` that belong to `cs`. */
  function Count(s: string, cs: set<char>): nat
  {
    if s == [] then 0 else Count(s[..|s| - 1], cs) + (if s[|s| - 1] in cs then 1 else 0)
  }

  /** A split in progress: the pieces already closed by a separator and the one still open. */
  datatype Pieces = Pieces(closed: seq<string>, open: string)

  /** The pieces of `s` when a separator is any single character of `cs`. */
  function Cut(s: string, cs: set<char>): (r: Pieces)
    ensures |r.closed| == Count(s, cs)
    decreases |s|
  {
    if s == [] then Pieces([], "")
    else
      var p := Cut(s[..|s| - 1], cs);
      var c := s[|s| - 1];
      if c in cs then Pieces(p.closed + [p.open], "") else Pieces(p.closed, p.open + [c])
  }

  /**
   * `s.split(sep)` where `sep` matches any single character of `cs`
   * (`split(',')`, `split(/[,;]/)`, `split('\n')`, `split('-')`).
   */
  function Split(s: string, cs: set<char>): (r: seq<string>)
    ensures |r| == Count(s, cs) + 1
  {
    var p := Cut(s, cs);
    p.closed + [p.open]
  }

  /** `xs.join(sep)`. */
  function Join(xs: seq<string>, sep: string): string
  {
    if |xs| == 0 then ""
    else if |xs| == 1 then xs[0]
    else Join(xs[..|xs| - 1], sep) + sep + xs[|xs| - 1]
  }

  /** One more character either closes the open piece or extends it. */
  lemma CutSnoc(s: string, c: char, cs: set<char>)
    ensures var p := Cut(s, cs);
            Cut(s + [c], cs) == if c in cs then Pieces(p.closed + [p.open], "") else Pieces(p.closed, p.open + [c])
  {
    assert (s + [c])[..|s|] == s;
  }

  /** Appending text that holds no separator only extends the open piece. */
  lemma {:induction false} CutExtend(s: string, t: string, cs: set<char>)
    requires Avoids(t, cs)
    ensures Cut(s + t, cs) == Pieces(Cut(s, cs).closed, Cut(s, cs).open + t)
    decreases |t|
  {
    if t == [] {
      AppendEmpty(s);
      AppendEmpty(Cut(s, cs).open);
    } else {
      var t' := t[..|t| - 1];
      var c := t[|t| - 1];
      assert c !in cs;
      LastSplit(t);
      CutExtend(s, t', cs);
      CutSnoc(s + t', c, cs);
      Associative(s, t', [c]);
      Associative(Cut(s, cs).open, t', [c]);
    }
  }

  /** Cutting a join on a separator that occurs in no piece closes all pieces but the last. */
  lemma {:induction false} CutJoin(xs: seq<string>, d: char)
    requires |xs| >= 1
    requires forall i :: 0 <= i < |xs| ==> Avoids(xs[i], {d})
    ensures Cut(Join(xs, [d]), {d}) == Pieces(xs[..|xs| - 1], xs[|xs| - 1])
    decreases |xs|
  {
    var n := |xs|;
    if n == 1 {
      CutExtend([], xs[0], {d});
      assert [] + xs[0] == xs[0];
      assert "" + xs[0] == xs[0];
    } else {
      var init := xs[..n - 1];
      var j := Join(init, [d]);
      assert Join(xs, [d]) == (j + [d]) + xs[n - 1];
      CutJoin(init, d);
      assert init[..n - 2] + [init[n - 2]] == init;
      CutSnoc(j, d, {d});
      CutExtend(j + [d], xs[n - 1], {d});
      assert "" + xs[n - 1] == xs[n - 1];
    }
  }

  /** A non-empty sequence is its front followed by its last element. */
  lemma LastSplit<T>(xs: seq<T>)
    requires |xs| >= 1
    ensures xs[..|xs| - 1] + [xs[|xs| - 1]] == xs
  {
  }

  lemma AppendEmpty<T>(xs: seq<T>)
    ensures xs + [] == xs
  {
  }

  lemma Associative<T>(a: seq<T>, b: seq<T>, c: seq<T>)
    ensures (a + b) + c == a + (b + c)
  {
  }

  /** Splitting a join on a separator that occurs in no piece gives the pieces back. */
  lemma SplitJoin(xs: seq<string>, d: char)
    requires |xs| >= 1
    requires forall i :: 0 <= i < |xs| ==> Avoids(xs[i], {d})
    ensures Split(Join(xs, [d]), {d}) == xs
  {
    CutJoin(xs, d);
    LastSplit(xs);
  }

  /** Joining one more piece appends the separator and the piece. */
  lemma JoinSnoc(xs: seq<string>, x: string, sep: string)
    requires |xs| >= 1
    ensures Join(xs + [x], sep) == Join(xs, sep) + sep + x
  {
    assert (xs + [x])[..|xs|] == xs;
  }

  /** Joining the pieces of a split with the separator gives the text back. */
  lemma {:induction false} JoinSplit(s: string, d: char)
    ensures Join(Split(s, {d}), [d]) == s
    decreases |s|
  {
    if s != [] {
      var s' := s[..|s| - 1];
      var c := s[|s| - 1];
      var p := Cut(s', {d});
      JoinSplit(s', d);
      CutSnoc(s', c, {d});
      LastSplit(s);
      var q := p.closed + [p.open];
      if c == d {
        JoinSnoc(q, "", [d]);
        AppendEmpty(s' + [d]);
      } else if p.closed == [] {
        assert Split(s, {d}) == [p.open + [c]];
      } else {
        JoinSnoc(p.closed, p.open, [d]);
        JoinSnoc(p.closed, p.open + [c], [d]);
        Associative(Join(p.closed, [d]) + [d], p.open, [c]);
      }
    }
  }

  /** `s.replace(c, d)` with a one-character string pattern: only the first `c` becomes `d`. */
  function ReplaceFirst(s: string, c: char, d: char): (r: string)
    ensures |r| == |s|
    ensures c !in s ==> r == s
  {
    if s == [] then []
    else if s[0] == c then [d] + s[1..]
    else [s[0]] + ReplaceFirst(s[1..], c, d)
  }

  /** At the first occurrence of `c`, and only there, the character becomes `d`. */
  lemma {:induction false} ReplaceFirstAt(s: string, c: char, d: char, i: nat)
    requires i < |s| && s[i] == c && c !in s[..i]
    ensures ReplaceFirst(s, c, d) == s[..i] + [d] + s[i + 1..]
  {
    if i > 0 {
      assert s[0] in s[..i];
      var t := s[1..];
      assert t[..i - 1] == s[1..i];
      ReplaceFirstAt(t, c, d, i - 1);
      assert t[i..] == s[i + 1..];
      assert [s[0]] + s[1..i] == s[..i];
    }
  }

  /** `s.replace(/[…]/g, '')`: every character of `cs` removed, the others kept in order. */
  function RemoveAll(s: string, cs: set<char>): (r: string)
    ensures |r| == |s| - Count(s, cs)
    ensures Avoids(r, cs)
    ensures Avoids(s, cs) ==> r == s
    ensures forall c :: c in r <==> c in s && c !in cs
  {
    if s == [] then []
    else
      var p := s[..|s| - 1];
      var c := s[|s| - 1];
      assert s == p + [c];
      RemoveAll(p, cs) + (if c in cs then [] else [c])
  }

  /** A single character is dropped when it is in `cs` and kept otherwise. */
  lemma RemoveAllSingle(c: char, cs: set<char>)
    ensures RemoveAll([c], cs) == if c in cs then [] else [c]
  {
    assert [c][..0] == [];
  }

  /** Removal works piece by piece: the kept characters keep their order and number. */
  lemma {:induction false} RemoveAllAppend(s: string, t: string, cs: set<char>)
    ensures RemoveAll(s + t, cs) == RemoveAll(s, cs) + RemoveAll(t, cs)
    decreases |t|
  {
    if t == [] {
      assert s + t == s;
    } else {
      var u := t[..|t| - 1];
      var c := t[|t| - 1];
      assert (s + t)[..|s + t| - 1] == s + u;
      assert (s + t)[|s + t| - 1] == c;
      RemoveAllAppend(s, u, cs);
      Associative(RemoveAll(s, cs), RemoveAll(u, cs), if c in cs then [] else [c]);
    }
  }

  /** Code-point lexicographic order, standing for `a.localeCompare(b) < 0`. */
  predicate LexLess(a: string, b: string)
  {
    if a == [] then b != []
    else if b == [] then false
    else if a[0] != b[0] then a[0] < b[0]
    else LexLess(a[1..], b[1..])
  }

  lemma {:induction false} LexLessIrreflexive(a: string)
    ensures !LexLess(a, a)
  {
    if a != [] {
      LexLessIrreflexive(a[1..]);
    }
  }

  lemma {:induction false} LexLessTransitive(a: string, b: string, c: string)
    requires LexLess(a, b) && LexLess(b, c)
    ensures LexLess(a, c)
  {
    if a != [] && a[0] == b[0] && b[0] == c[0] {
      LexLessTransitive(a[1..], b[1..], c[1..]);
    }
  }

  lemma {:induction false} LexLessTotal(a: string, b: string)
    ensures a == b || LexLess(a, b) || LexLess(b, a)
  {
    if a != [] && b != [] && a[0] == b[0] {
      LexLessTotal(a[1..], b[1..]);
      assert a == [a[0]] + a[1..] && b == [b[0]] + b[1..];
    }
  }
}
