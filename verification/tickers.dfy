/**
 * The ticker list of the stocks exporter (load_tickers in
 * monitoring/stocks-exporter/app.py).
 *
 * The list comes from the ticker file when it exists and yields at least one
 * symbol, and otherwise from the comma-separated TICKERS environment string.
 * Every piece is stripped of white space and upper-cased, empty pieces are
 * dropped, repeated symbols keep only their first occurrence, and the list is
 * cut with the Python slice `out[:MAX_TICKERS]`.
 */
module Tickers {

  datatype Option<T> = None | Some(value: T)

  // ---------------------------------------------------------------------------
  // Characters and strings, as Python's str methods treat them
  // ---------------------------------------------------------------------------

  /** The characters str.strip() removes (those for which str.isspace() holds). */
  predicate IsSpace(c: char) {
    var n := c as int;
    (0x09 <= n <= 0x0D) || (0x1C <= n <= 0x20) || n == 0x85 || n == 0xA0 || n == 0x1680
    || (0x2000 <= n <= 0x200A) || n == 0x2028 || n == 0x2029 || n == 0x202F
    || n == 0x205F || n == 0x3000
  }

  /** The line boundaries str.splitlines() splits on ("\r\n" is one boundary). */
  predicate IsLineBreak(c: char) {
    var n := c as int;
    (0x0A <= n <= 0x0D) || (0x1C <= n <= 0x1E) || n == 0x85 || n == 0x2028 || n == 0x2029
  }

  predicate IsLower(c: char) {
    'a' <= c <= 'z'
  }

  /** No white space at either end. */
  predicate Stripped(s: string) {
    s == [] || (!IsSpace(s[0]) && !IsSpace(s[|s| - 1]))
  }

  /** No lower-case letter left. */
  predicate UpperCased(s: string) {
    forall i :: 0 <= i < |s| ==> !IsLower(s[i])
  }

  /** What every entry of the ticker list looks like. */
  predicate IsSymbol(s: string) {
    s != [] && Stripped(s) && UpperCased(s)
  }

  predicate NoDuplicates(s: seq<string>) {
    forall i, j :: 0 <= i < j < |s| ==> s[i] != s[j]
  }

  /** The first index at or after `k` that is not white space (|s| when there is none). */
  function SkipSpace(s: string, k: nat): (n: nat)
    requires k <= |s|
    ensures k <= n <= |s|
    ensures forall i :: k <= i < n ==> IsSpace(s[i])
    ensures n < |s| ==> !IsSpace(s[n])
    decreases |s| - k
  {
    if k < |s| && IsSpace(s[k]) then SkipSpace(s, k + 1) else k
  }

  /** The end of `s[lo..hi]` once white space is dropped from its end. */
  function SkipSpaceBack(s: string, lo: nat, hi: nat): (n: nat)
    requires lo <= hi <= |s|
    ensures lo <= n <= hi
    ensures forall i :: n <= i < hi ==> IsSpace(s[i])
    ensures n > lo ==> !IsSpace(s[n - 1])
    decreases hi
  {
    if hi > lo && IsSpace(s[hi - 1]) then SkipSpaceBack(s, lo, hi - 1) else hi
  }

  /** `r` occurs in `s` starting at index `k`. */
  predicate InfixAt(r: string, s: string, k: int) {
    0 <= k <= |s| - |r| && r == s[k..k + |r|]
  }

  /** Every character of `s` is white space. */
  predicate AllSpace(s: string) {
    forall i :: 0 <= i < |s| ==> IsSpace(s[i])
  }

  /** `r` is `s` with the white space before index `k` and after `r` cut off. */
  predicate TrimmedAt(r: string, s: string, k: int) {
    InfixAt(r, s, k) && AllSpace(s[..k]) && AllSpace(s[k + |r|..])
  }

  /** str.strip(): the infix of `s` left when white space is removed at both ends. */
  function Strip(s: string): (r: string)
    ensures Stripped(r)
    ensures exists k :: TrimmedAt(r, s, k)
    ensures r == [] <==> AllSpace(s)
  {
    var lo := SkipSpace(s, 0);
    var hi := SkipSpaceBack(s, lo, |s|);
    assert AllSpace(s[..lo]) by {
      forall i | 0 <= i < lo ensures IsSpace(s[..lo][i]) {
        assert s[..lo][i] == s[i];
      }
    }
    assert AllSpace(s[hi..]) by {
      forall i | 0 <= i < |s| - hi ensures IsSpace(s[hi..][i]) {
        assert s[hi..][i] == s[hi + i];
      }
    }
    assert TrimmedAt(s[lo..hi], s, lo);
    assert lo < hi ==> s[lo..hi][0] == s[lo] && s[lo..hi][hi - lo - 1] == s[hi - 1];
    s[lo..hi]
  }

  function UpperChar(c: char): char {
    if IsLower(c) then (c as int - 32) as char else c
  }

  /** str.upper() on the ASCII letters. */
  function Upper(s: string): (r: string)
    ensures |r| == |s| && UpperCased(r)
    ensures forall i :: 0 <= i < |s| ==> (IsSpace(r[i]) <==> IsSpace(s[i]))
    ensures forall i :: 0 <= i < |s| && !IsLower(s[i]) ==> r[i] == s[i]
    ensures forall i :: 0 <= i < |s| && IsLower(s[i]) ==> r[i] as int == s[i] as int - 32
  {
    seq(|s|, i requires 0 <= i < |s| => UpperChar(s[i]))
  }

  /** str.replace(",", "\n"). */
  function CommasToNewlines(s: string): (r: string)
    ensures |r| == |s| && ',' !in r
    ensures forall i :: 0 <= i < |s| ==> r[i] == (if s[i] == ',' then '\n' else s[i])
  {
    if s == [] then []
    else [if s[0] == ',' then '\n' else s[0]] + CommasToNewlines(s[1..])
  }

  /** No line boundary in `s`. */
  predicate OneLine(s: string) {
    forall i :: 0 <= i < |s| ==> !IsLineBreak(s[i])
  }

  /** str.splitlines(), with `line` the part of the current line already read. */
  function SplitLinesFrom(s: string, line: string): (r: seq<string>)
    requires OneLine(line)
    ensures forall p :: p in r ==> OneLine(p)
    ensures s == [] ==> r == (if line == [] then [] else [line])
    decreases |s|
  {
    if s == [] then (if line == [] then [] else [line])
    else if s[0] == '\r' && |s| > 1 && s[1] == '\n' then [line] + SplitLinesFrom(s[2..], [])
    else if IsLineBreak(s[0]) then [line] + SplitLinesFrom(s[1..], [])
    else SplitLinesFrom(s[1..], line + [s[0]])
  }

  function SplitLines(s: string): seq<string> {
    SplitLinesFrom(s, [])
  }

  /** `s` with its line-boundary characters removed. */
  function DropBreaks(s: string): string {
    if s == [] then [] else (if IsLineBreak(s[0]) then [] else [s[0]]) + DropBreaks(s[1..])
  }

  /** The pieces run together. */
  function Concat(parts: seq<string>): string {
    if parts == [] then [] else parts[0] + Concat(parts[1..])
  }

  /** The number of line boundaries in `s`, "\r\n" counting as one. */
  function Boundaries(s: string): nat {
    if s == [] then 0
    else if s[0] == '\r' && |s| > 1 && s[1] == '\n' then 1 + Boundaries(s[2..])
    else if IsLineBreak(s[0]) then 1 + Boundaries(s[1..])
    else Boundaries(s[1..])
  }

  /** Some text follows the last line boundary of `s`. */
  predicate EndsOpen(s: string) {
    s != [] && !IsLineBreak(s[|s| - 1])
  }

  /** The lines str.splitlines() returns, run together, are the text without its line boundaries. */
  lemma {:induction false} SplitLinesKeepsText(s: string, line: string)
    requires OneLine(line)
    ensures Concat(SplitLinesFrom(s, line)) == line + DropBreaks(s)
    decreases |s|
  {
    if s == [] {
      assert line + [] == line;
    } else if s[0] == '\r' && |s| > 1 && s[1] == '\n' {
      var rest := SplitLinesFrom(s[2..], []);
      SplitLinesKeepsText(s[2..], []);
      ConcatCons(line, rest);
      DropBreaksFront(s);
      DropBreaksFront(s[1..]);
      assert s[1..][1..] == s[2..];
    } else if IsLineBreak(s[0]) {
      var rest := SplitLinesFrom(s[1..], []);
      SplitLinesKeepsText(s[1..], []);
      ConcatCons(line, rest);
      DropBreaksFront(s);
    } else {
      assert OneLine(line + [s[0]]);
      SplitLinesKeepsText(s[1..], line + [s[0]]);
      DropBreaksFront(s);
      assert (line + [s[0]]) + DropBreaks(s[1..]) == line + ([s[0]] + DropBreaks(s[1..]));
    }
  }

  lemma ConcatCons(head: string, parts: seq<string>)
    ensures Concat([head] + parts) == head + Concat(parts)
  {
    assert ([head] + parts)[1..] == parts;
  }

  lemma DropBreaksFront(s: string)
    requires s != []
    ensures DropBreaks(s) == if IsLineBreak(s[0]) then DropBreaks(s[1..]) else [s[0]] + DropBreaks(s[1..])
  {
  }

  /**
   * str.splitlines() gives one line per line boundary, plus one for the text
   * after the last boundary when there is any.
   */
  lemma {:induction false} SplitLinesCount(s: string, line: string)
    requires OneLine(line)
    ensures |SplitLinesFrom(s, line)| == Boundaries(s) + (if EndsOpen(line + s) then 1 else 0)
    decreases |s|
  {
    if s == [] {
      assert line + s == line;
    } else if s[0] == '\r' && |s| > 1 && s[1] == '\n' {
      SplitLinesCount(s[2..], []);
      EndsOpenAfterBreak(line, s, 2);
    } else if IsLineBreak(s[0]) {
      SplitLinesCount(s[1..], []);
      EndsOpenAfterBreak(line, s, 1);
    } else {
      assert OneLine(line + [s[0]]);
      SplitLinesCount(s[1..], line + [s[0]]);
      MoveFirst(line, s);
    }
  }

  /** After a line boundary, whether text follows depends only on the rest. */
  lemma EndsOpenAfterBreak(line: string, s: string, n: nat)
    requires 0 < n <= |s| && IsLineBreak(s[n - 1])
    ensures EndsOpen(line + s) == EndsOpen([] + s[n..])
  {
    assert [] + s[n..] == s[n..];
    assert (line + s)[|line + s| - 1] == s[|s| - 1];
    assert n < |s| ==> s[n..][|s| - n - 1] == s[|s| - 1];
  }

  lemma MoveFirst(line: string, s: string)
    requires s != []
    ensures (line + [s[0]]) + s[1..] == line + s
  {
    assert [s[0]] + s[1..] == s;
  }

  /** The inverse of str.split: the pieces glued back with `sep` between them. */
  function Join(parts: seq<string>, sep: char): string {
    if |parts| <= 1 then (if parts == [] then [] else parts[0])
    else parts[0] + [sep] + Join(parts[1..], sep)
  }

  /** str.split(sep), with `field` the part of the current field already read. */
  function SplitFrom(s: string, sep: char, field: string): (r: seq<string>)
    requires sep !in field
    ensures |r| > 0 && forall p :: p in r ==> sep !in p
    decreases |s|
  {
    if s == [] then [field]
    else if s[0] == sep then [field] + SplitFrom(s[1..], sep, [])
    else SplitFrom(s[1..], sep, field + [s[0]])
  }

  function Split(s: string, sep: char): seq<string> {
    SplitFrom(s, sep, [])
  }

  /** Joining the fields of str.split(sep) with `sep` gives back the string. */
  lemma {:induction false} SplitJoin(s: string, sep: char, field: string)
    requires sep !in field
    ensures Join(SplitFrom(s, sep, field), sep) == field + s
    decreases |s|
  {
    if s == [] {
    } else if s[0] == sep {
      var rest := SplitFrom(s[1..], sep, []);
      SplitJoin(s[1..], sep, []);
      assert ([field] + rest)[1..] == rest;
      assert field + s == field + [sep] + s[1..];
    } else {
      SplitJoin(s[1..], sep, field + [s[0]]);
      assert field + s == (field + [s[0]]) + s[1..];
    }
  }

  /** str.split(sep) of two texts glued by `sep` is the fields of the first, then those of the second. */
  lemma {:induction false} SplitAppend(a: string, b: string, sep: char, field: string)
    requires sep !in field
    ensures SplitFrom(a + [sep] + b, sep, field) == SplitFrom(a, sep, field) + Split(b, sep)
    decreases |a|
  {
    var s := a + [sep] + b;
    if a == [] {
      assert s[1..] == b;
    } else if a[0] == sep {
      assert s[1..] == a[1..] + [sep] + b;
      SplitAppend(a[1..], b, sep, []);
    } else {
      assert s[1..] == a[1..] + [sep] + b;
      SplitAppend(a[1..], b, sep, field + [a[0]]);
    }
  }

  /**
   * `s` with each line boundary written as one '\n': "\r\n" becomes a single
   * '\n', and so does every other boundary character.
   */
  function UnifyBreaks(s: string): string
    decreases |s|
  {
    if s == [] then []
    else if s[0] == '\r' && |s| > 1 && s[1] == '\n' then ['\n'] + UnifyBreaks(s[2..])
    else if IsLineBreak(s[0]) then ['\n'] + UnifyBreaks(s[1..])
    else [s[0]] + UnifyBreaks(s[1..])
  }

  /**
   * str.splitlines() is str.split("\n") of the text with its boundaries
   * unified, less the empty field that split leaves after a final boundary
   * (and nothing at all for the empty text).
   */
  lemma SplitLinesUnified(s: string)
    ensures SplitLines(s) ==
      if s == [] then []
      else var f := Split(UnifyBreaks(s), '\n'); if EndsOpen(s) then f else f[..|f| - 1]
  {
    SplitLinesBySplit(s, []);
    assert [] + s == s;
  }

  /** SplitLinesUnified with `line` already read. */
  lemma {:induction false} SplitLinesBySplit(s: string, line: string)
    requires OneLine(line)
    ensures '\n' !in line && SplitLinesFrom(s, line) ==
      if line + s == [] then []
      else var f := SplitFrom(UnifyBreaks(s), '\n', line); if EndsOpen(line + s) then f else f[..|f| - 1]
    decreases |s|
  {
    NoNewline(line);
    if s == [] {
      assert line + s == line;
    } else if s[0] == '\r' && |s| > 1 && s[1] == '\n' {
      SplitLinesBySplit(s[2..], []);
      EndsOpenAfterBreak(line, s, 2);
      SplitAtBreak(UnifyBreaks(s[2..]), line);
      DropLastAfterBreak(line, Split(UnifyBreaks(s[2..]), '\n'));
    } else if IsLineBreak(s[0]) {
      SplitLinesBySplit(s[1..], []);
      EndsOpenAfterBreak(line, s, 1);
      SplitAtBreak(UnifyBreaks(s[1..]), line);
      DropLastAfterBreak(line, Split(UnifyBreaks(s[1..]), '\n'));
    } else {
      assert OneLine(line + [s[0]]);
      SplitLinesBySplit(s[1..], line + [s[0]]);
      MoveFirst(line, s);
      SplitAtChar(UnifyBreaks(s[1..]), s[0], line);
    }
  }

  lemma NoNewline(line: string)
    requires OneLine(line)
    ensures '\n' !in line
  {
  }

  lemma SplitAtBreak(x: string, field: string)
    requires '\n' !in field
    ensures SplitFrom(['\n'] + x, '\n', field) == [field] + Split(x, '\n')
  {
    assert (['\n'] + x)[1..] == x;
  }

  lemma SplitAtChar(x: string, c: char, field: string)
    requires '\n' !in field && !IsLineBreak(c)
    ensures SplitFrom([c] + x, '\n', field) == SplitFrom(x, '\n', field + [c])
  {
    assert ([c] + x)[1..] == x;
  }

  lemma DropLastAfterBreak(line: string, g: seq<string>)
    requires g != []
    ensures ([line] + g)[..|g|] == [line] + g[..|g| - 1]
  {
  }

  /** Each piece stripped and upper-cased, in order, the empty ones dropped. */
  function Normalize(parts: seq<string>): (items: seq<string>)
    ensures |items| <= |parts|
    ensures forall t :: t in items ==> IsSymbol(t)
  {
    if parts == [] then [] else Normalize(parts[..|parts| - 1]) + Piece(parts[|parts| - 1])
  }

  /** What one piece contributes: its stripped, upper-cased form, unless stripping empties it. */
  function Piece(p: string): (r: seq<string>)
    ensures |r| <= 1 && forall t :: t in r ==> IsSymbol(t)
  {
    var s := Strip(p);
    if s == [] then [] else UpperKeepsSymbol(s); [Upper(s)]
  }

  /** Upper-casing a stripped, non-empty string gives a symbol. */
  lemma UpperKeepsSymbol(s: string)
    requires s != [] && Stripped(s)
    ensures IsSymbol(Upper(s))
  {
    var r := Upper(s);
    assert IsSpace(r[0]) <==> IsSpace(s[0]);
    assert IsSpace(r[|r| - 1]) <==> IsSpace(s[|s| - 1]);
  }

  /** A piece that is `p` stripped and upper-cased, and that stripping did not empty. */
  predicate Yields(p: string, t: string) {
    Strip(p) != [] && t == Upper(Strip(p))
  }

  /**
   * Normalize keeps what it should: every piece that is not all white space
   * contributes its stripped, upper-cased form, and every item comes from a piece.
   */
  lemma {:induction false} NormalizeMembers(parts: seq<string>)
    ensures forall p :: p in parts && Strip(p) != [] ==> Upper(Strip(p)) in Normalize(parts)
    ensures forall t :: t in Normalize(parts) <==> exists p :: p in parts && Yields(p, t)
  {
    if parts != [] {
      var init, last := parts[..|parts| - 1], parts[|parts| - 1];
      NormalizeMembers(init);
      assert parts == init + [last];
      var items := Normalize(parts);
      assert Strip(last) == [] ==> items == Normalize(init);
      assert Strip(last) != [] ==> items == Normalize(init) + [Upper(Strip(last))];
      forall p | p in parts && Strip(p) != [] ensures Upper(Strip(p)) in items {
        if p in init {
          assert Upper(Strip(p)) in Normalize(init);
        }
      }
      forall t | t in items ensures exists p :: p in parts && Yields(p, t) {
        if t in Normalize(init) {
          var p :| p in init && Yields(p, t);
          assert p in parts;
        } else {
          assert Yields(last, t) && last in parts;
        }
      }
      forall t | (exists p :: p in parts && Yields(p, t)) ensures t in items {
        var p :| p in parts && Yields(p, t);
        assert Upper(Strip(p)) in items;
      }
    }
  }

  /** The symbols the ticker file gives: commas and line breaks both separate. */
  function FileItems(raw: string): seq<string> {
    Normalize(SplitLines(CommasToNewlines(raw)))
  }

  /** The symbols the comma-separated environment string gives. */
  function EnvItems(env: string): seq<string> {
    Normalize(Split(env, ','))
  }

  /** `s` with its commas and line-boundary characters removed. */
  function DropSeparators(s: string): string {
    if s == [] then []
    else (if s[0] == ',' || IsLineBreak(s[0]) then [] else [s[0]]) + DropSeparators(s[1..])
  }

  lemma {:induction false} CommasBecomeBreaks(s: string)
    ensures DropBreaks(CommasToNewlines(s)) == DropSeparators(s)
  {
    if s != [] {
      CommasBecomeBreaks(s[1..]);
      var c := CommasToNewlines(s);
      assert c[1..] == CommasToNewlines(s[1..]);
      DropBreaksFront(c);
    }
  }

  /** No line of str.splitlines() holds a character the text does not hold. */
  lemma {:induction false} SplitLinesAvoids(s: string, line: string, c: char)
    requires OneLine(line) && c !in s && c !in line
    ensures forall p :: p in SplitLinesFrom(s, line) ==> c !in p
    decreases |s|
  {
    if s != [] {
      if s[0] == '\r' && |s| > 1 && s[1] == '\n' {
        SplitLinesAvoids(s[2..], [], c);
      } else if IsLineBreak(s[0]) {
        SplitLinesAvoids(s[1..], [], c);
      } else {
        assert OneLine(line + [s[0]]);
        SplitLinesAvoids(s[1..], line + [s[0]], c);
      }
    }
  }

  /**
   * Normalize works piece by piece: the items of a list of pieces are those of
   * its first part followed by those of the rest, so order is kept.
   */
  lemma {:induction false} NormalizeConcat(a: seq<string>, b: seq<string>)
    ensures Normalize(a + b) == Normalize(a) + Normalize(b)
    decreases |b|
  {
    if b == [] {
      AppendNothing(a, b);
      AppendNothing(Normalize(a), Normalize(b));
    } else {
      var init, last := b[..|b| - 1], b[|b| - 1];
      NormalizeConcat(a, init);
      LastSplit(b);
      NormalizeConcatStep(a, init, last);
    }
  }

  lemma AppendNothing<T>(x: seq<T>, y: seq<T>)
    requires y == []
    ensures x + y == x
  {
  }

  lemma LastSplit<T>(s: seq<T>)
    requires s != []
    ensures s == s[..|s| - 1] + [s[|s| - 1]]
  {
  }

  lemma NormalizeConcatStep(a: seq<string>, init: seq<string>, last: string)
    requires Normalize(a + init) == Normalize(a) + Normalize(init)
    ensures Normalize(a + (init + [last])) == Normalize(a) + Normalize(init + [last])
  {
    AppendAssoc(a, init, [last]);
    NormalizeSnoc(a + init, last);
    NormalizeSnoc(init, last);
    AppendAssoc(Normalize(a), Normalize(init), Piece(last));
  }

  lemma AppendAssoc<T>(x: seq<T>, y: seq<T>, z: seq<T>)
    ensures x + (y + z) == (x + y) + z
  {
  }

  lemma NormalizeSnoc(init: seq<string>, p: string)
    ensures Normalize(init + [p]) == Normalize(init) + Piece(p)
  {
    assert (init + [p])[..|init|] == init;
  }

  /** One piece yields its stripped, upper-cased form, or nothing when it is all white space. */
  lemma NormalizeOne(p: string)
    ensures Normalize([p]) == if Strip(p) == [] then [] else [Upper(Strip(p))]
  {
    assert [p][..0] == [];
  }

  /** `s` with commas and line boundaries all written as '\n', "\r\n" as one. */
  function Separate(raw: string): string {
    UnifyBreaks(CommasToNewlines(raw))
  }

  /**
   * The fields of a ticker file are the runs between commas and line
   * boundaries: none holds either, together they are the whole text without
   * its separators, and the file yields, in order, the stripped, upper-cased,
   * non-empty forms of the fields of `Separate(raw)` split at '\n'.
   */
  lemma FileFields(raw: string)
    ensures var fields := SplitLines(CommasToNewlines(raw));
      && (forall p :: p in fields ==> OneLine(p) && ',' !in p)
      && Concat(fields) == DropSeparators(raw)
      && FileItems(raw) == Normalize(Split(Separate(raw), '\n'))
  {
    var c := CommasToNewlines(raw);
    SplitLinesAvoids(c, [], ',');
    SplitLinesKeepsText(c, []);
    CommasBecomeBreaks(raw);
    NormalizeLines(c);
  }

  /**
   * The pieces str.splitlines() gives and those str.split("\n") gives on the
   * unified text yield the same symbols: they differ at most by one empty
   * field at the end.
   */
  lemma NormalizeLines(c: string)
    ensures Normalize(SplitLines(c)) == Normalize(Split(UnifyBreaks(c), '\n'))
  {
    SplitLinesUnified(c);
    var f := Split(UnifyBreaks(c), '\n');
    if c == [] {
      NormalizeOne([]);
    } else if !EndsOpen(c) {
      UnifyEndsWithBreak(c);
      SplitEndsEmpty(UnifyBreaks(c), '\n', []);
      LastSplit(f);
      NormalizeSnoc(f[..|f| - 1], f[|f| - 1]);
      AppendNothing(Normalize(f[..|f| - 1]), Piece(f[|f| - 1]));
    }
  }

  /** A text ending in a line boundary unifies to one ending in '\n'. */
  lemma {:induction false} UnifyEndsWithBreak(s: string)
    requires s != [] && IsLineBreak(s[|s| - 1])
    ensures UnifyBreaks(s) != [] && UnifyBreaks(s)[|UnifyBreaks(s)| - 1] == '\n'
    decreases |s|
  {
    var n := if s[0] == '\r' && |s| > 1 && s[1] == '\n' then 2 else 1;
    if n < |s| {
      assert s[n..][|s| - n - 1] == s[|s| - 1];
      UnifyEndsWithBreak(s[n..]);
    }
  }

  /** str.split(sep) of a text ending in `sep` ends with an empty field. */
  lemma {:induction false} SplitEndsEmpty(x: string, sep: char, field: string)
    requires sep !in field && x != [] && x[|x| - 1] == sep
    ensures var f := SplitFrom(x, sep, field); f[|f| - 1] == []
    decreases |x|
  {
    if |x| > 1 {
      assert x[1..][|x| - 2] == sep;
      if x[0] == sep {
        SplitEndsEmpty(x[1..], sep, []);
      } else {
        SplitEndsEmpty(x[1..], sep, field + [x[0]]);
      }
    }
  }

  /**
   * The fields of the TICKERS string are its comma-separated runs, which join
   * back to the string; it yields their stripped, upper-cased, non-empty
   * forms, and the symbols before a comma come before those after it.
   */
  lemma EnvFields(env: string)
    ensures Join(Split(env, ','), ',') == env
    ensures forall t :: t in EnvItems(env) <==> exists p :: p in Split(env, ',') && Yields(p, t)
    ensures forall a, b :: env == a + [','] + b ==> EnvItems(env) == EnvItems(a) + EnvItems(b)
  {
    SplitJoin(env, ',', []);
    NormalizeMembers(Split(env, ','));
    forall a, b | env == a + [','] + b ensures EnvItems(env) == EnvItems(a) + EnvItems(b) {
      SplitAppend(a, b, ',', []);
      NormalizeConcat(Split(a, ','), Split(b, ','));
    }
  }

  /**
   * The symbols before deduplication: the file's when it exists and gives
   * any, the environment string's otherwise.
   */
  function Candidates(file: Option<string>, env: string): (items: seq<string>)
    ensures if file.Some? && FileItems(file.value) != [] then items == FileItems(file.value)
            else items == EnvItems(env)
  {
    var fromFile := if file.Some? then FileItems(file.value) else [];
    if fromFile == [] && env != [] then EnvItems(env) else fromFile
  }

  /** First-occurrence deduplication, read left to right. */
  function Dedupe(items: seq<string>): (out: seq<string>)
    ensures NoDuplicates(out)
    ensures forall t :: t in out <==> t in items
    ensures |out| <= |items|
  {
    if items == [] then []
    else
      var out := Dedupe(items[..|items| - 1]);
      var t := items[|items| - 1];
      if t in out then out else out + [t]
  }

  /** Python's slice s[:n], where a negative n counts from the end. */
  function Take(s: seq<string>, n: int): (r: seq<string>)
    ensures r <= s
    ensures n >= 0 ==> |r| == if n < |s| then n else |s|
    ensures n < 0 ==> |r| == if |s| + n > 0 then |s| + n else 0
  {
    if n >= 0 then (if n < |s| then s[..n] else s)
    else if |s| + n > 0 then s[..|s| + n] else []
  }

  /** The list load_tickers returns. */
  function TickerList(file: Option<string>, env: string, maxTickers: int): seq<string> {
    Take(Dedupe(Candidates(file, env)), maxTickers)
  }

  /** Index of the first occurrence of `t` in `s`. */
  function FirstIndex(s: seq<string>, t: string): (k: nat)
    requires t in s
    ensures k < |s| && s[k] == t
    ensures forall j :: 0 <= j < k ==> s[j] != t
  {
    if s[0] == t then 0 else 1 + FirstIndex(s[1..], t)
  }

  // ---------------------------------------------------------------------------
  // Properties
  // ---------------------------------------------------------------------------

  /** Dedupe keeps the order in which symbols first occur in its input. */
  lemma {:induction false} DedupeKeepsFirstOccurrenceOrder(items: seq<string>)
    ensures forall i, j :: 0 <= i < j < |Dedupe(items)| ==>
      FirstIndex(items, Dedupe(items)[i]) < FirstIndex(items, Dedupe(items)[j])
  {
    if items != [] {
      var init := items[..|items| - 1];
      var t := items[|items| - 1];
      DedupeKeepsFirstOccurrenceOrder(init);
      var d, out := Dedupe(init), Dedupe(items);
      forall x | x in init ensures FirstIndex(items, x) == FirstIndex(init, x) {
        FirstIndexOfPrefix(init, t, x);
      }
      forall i, j | 0 <= i < j < |out| ensures FirstIndex(items, out[i]) < FirstIndex(items, out[j]) {
        if j < |d| {
          assert out[i] == d[i] && out[j] == d[j];
        } else {
          assert t !in d && t !in init;
          assert out[i] == d[i] && out[j] == t;
          assert FirstIndex(items, t) == |items| - 1 by { FirstIndexAtEnd(init, t); }
        }
      }
    }
  }

  /** Appending an element does not move the first occurrence of an earlier one. */
  lemma {:induction false} FirstIndexOfPrefix(init: seq<string>, t: string, x: string)
    requires x in init
    ensures FirstIndex(init + [t], x) == FirstIndex(init, x)
  {
    if init[0] != x {
      assert (init + [t])[1..] == init[1..] + [t];
      FirstIndexOfPrefix(init[1..], t, x);
    }
  }

  /** A symbol that first shows up at the end has its first occurrence there. */
  lemma {:induction false} FirstIndexAtEnd(init: seq<string>, t: string)
    requires t !in init
    ensures FirstIndex(init + [t], t) == |init|
  {
    if init != [] {
      assert (init + [t])[1..] == init[1..] + [t];
      FirstIndexAtEnd(init[1..], t);
    }
  }

  /** Dedupe is the only duplicate-free list with the same symbols in first-occurrence order. */
  lemma {:induction false} DedupeUnique(items: seq<string>, out: seq<string>)
    requires NoDuplicates(out)
    requires forall t :: t in out <==> t in items
    requires forall i, j :: 0 <= i < j < |out| ==>
      FirstIndex(items, out[i]) < FirstIndex(items, out[j])
    ensures out == Dedupe(items)
    decreases |items|
  {
    if items == [] {
      FirstIsMember(out);
    } else {
      var init := items[..|items| - 1];
      var t := items[|items| - 1];
      assert items == init + [t];
      if t in init {
        assert forall x :: x in out <==> x in init;
        OrderWithinPrefix(init, t, out);
        DedupeUnique(init, out);
      } else {
        NewSymbolIsLast(items, out);
        var rest := out[..|out| - 1];
        assert out == rest + [t];
        assert forall i :: 0 <= i < |rest| ==> rest[i] == out[i] != t;
        forall x | x in init ensures x in rest {
          assert x in items && x != t;
          var m :| 0 <= m < |out| && out[m] == x;
          assert rest[m] == x;
        }
        OrderWithinPrefix(init, t, rest);
        DedupeUnique(init, rest);
      }
    }
  }

  lemma FirstIsMember(s: seq<string>)
    ensures s != [] ==> s[0] in s
  {
  }

  /** Symbols of `init` are ordered alike by first occurrence in `init` and in `init + [t]`. */
  lemma OrderWithinPrefix(init: seq<string>, t: string, xs: seq<string>)
    requires forall x :: x in xs ==> x in init
    requires forall i, j :: 0 <= i < j < |xs| ==>
      FirstIndex(init + [t], xs[i]) < FirstIndex(init + [t], xs[j])
    ensures forall i, j :: 0 <= i < j < |xs| ==> FirstIndex(init, xs[i]) < FirstIndex(init, xs[j])
  {
    forall i, j | 0 <= i < j < |xs|
      ensures FirstIndex(init, xs[i]) < FirstIndex(init, xs[j])
    {
      FirstIndexOfPrefix(init, t, xs[i]);
      FirstIndexOfPrefix(init, t, xs[j]);
    }
  }

  /** The last input, when it is new, first occurs at the end. */
  lemma FirstIndexOfNew(items: seq<string>)
    requires items != [] && items[|items| - 1] !in items[..|items| - 1]
    ensures FirstIndex(items, items[|items| - 1]) == |items| - 1
  {
    var init, t := items[..|items| - 1], items[|items| - 1];
    FirstIndexAtEnd(init, t);
    assert init + [t] == items;
  }

  /** A symbol whose first occurrence is the last input comes last in any list ordered by first occurrence. */
  lemma NewSymbolIsLast(items: seq<string>, out: seq<string>)
    requires items != [] && items[|items| - 1] !in items[..|items| - 1]
    requires forall t :: t in out <==> t in items
    requires forall i, j :: 0 <= i < j < |out| ==>
      FirstIndex(items, out[i]) < FirstIndex(items, out[j])
    ensures |out| > 0 && out[|out| - 1] == items[|items| - 1]
  {
    var t := items[|items| - 1];
    FirstIndexOfNew(items);
    assert t in out by {
      assert items[|items| - 1] in items;
    }
    var k := FirstIndex(out, t);
    var last := |out| - 1;
    assert out[last] in items by {
      assert out[last] in out;
    }
    var ft, fy := FirstIndex(items, t), FirstIndex(items, out[last]);
    assert ft == |items| - 1 && fy < |items|;
    assert k < last ==> ft < fy;
  }

  /**
   * What load_tickers promises: distinct, well-formed symbols in
   * first-occurrence order, a prefix of the deduplicated candidates, no more
   * than MAX_TICKERS of them when that is not negative.
   */
  lemma TickerListProperties(file: Option<string>, env: string, maxTickers: int)
    ensures var r := TickerList(file, env, maxTickers);
      && NoDuplicates(r)
      && (forall t :: t in r ==> IsSymbol(t) && t in Candidates(file, env))
      && r <= Dedupe(Candidates(file, env))
      && (maxTickers >= 0 ==> |r| <= maxTickers)
      && (maxTickers >= |Dedupe(Candidates(file, env))| ==> r == Dedupe(Candidates(file, env)))
      && (forall i, j :: 0 <= i < j < |r| ==>
            FirstIndex(Candidates(file, env), r[i]) < FirstIndex(Candidates(file, env), r[j]))
  {
    var items := Candidates(file, env);
    var d := Dedupe(items);
    var r := TickerList(file, env, maxTickers);
    DedupeKeepsFirstOccurrenceOrder(items);
    assert forall i :: 0 <= i < |r| ==> r[i] == d[i];
  }

  /** The environment string is not consulted when the file gives any symbol. */
  lemma FileWins(raw: string, env: string, env': string, maxTickers: int)
    requires FileItems(raw) != []
    ensures TickerList(Some(raw), env, maxTickers) == TickerList(Some(raw), env', maxTickers)
  {
  }

  /** With no file, or a file that gives nothing, the list is the environment string's. */
  lemma EnvFallback(file: Option<string>, env: string, maxTickers: int)
    requires file.None? || FileItems(file.value) == []
    ensures TickerList(file, env, maxTickers) == Take(Dedupe(EnvItems(env)), maxTickers)
  {
  }

  lemma NormalizeAppend(parts: seq<string>, i: nat)
    requires i < |parts|
    ensures var s := Upper(Strip(parts[i]));
      Normalize(parts[..i + 1]) == if s == [] then Normalize(parts[..i]) else Normalize(parts[..i]) + [s]
  {
    assert parts[..i + 1][..i] == parts[..i];
  }

  lemma DedupeAppend(items: seq<string>, i: nat)
    requires i < |items|
    ensures Dedupe(items[..i + 1]) ==
      if items[i] in Dedupe(items[..i]) then Dedupe(items[..i]) else Dedupe(items[..i]) + [items[i]]
  {
    assert items[..i + 1][..i] == items[..i];
  }

  // ---------------------------------------------------------------------------
  // load_tickers, step by step
  // ---------------------------------------------------------------------------

  /** The loop over the lines of the ticker file: strip, upper-case, keep the non-empty ones. */
  method FileSymbols(raw: string) returns (items: seq<string>)
    ensures items == FileItems(raw)
  {
    var parts := SplitLines(CommasToNewlines(raw));
    items := [];
    var i := 0;
    while i < |parts|
      invariant 0 <= i <= |parts|
      invariant items == Normalize(parts[..i])
    {
      var s := Upper(Strip(parts[i]));
      NormalizeAppend(parts, i);
      if s != [] {
        items := items + [s];
      }
      i := i + 1;
    }
    assert parts[..|parts|] == parts;
  }

  /** The loop that keeps each symbol's first occurrence, with the `seen` set. */
  method DedupeInOrder(items: seq<string>) returns (out: seq<string>)
    ensures out == Dedupe(items)
    ensures NoDuplicates(out) && forall t :: t in out <==> t in items
  {
    out := [];
    var seen: set<string> := {};
    var i := 0;
    while i < |items|
      invariant 0 <= i <= |items|
      invariant out == Dedupe(items[..i])
      invariant forall t :: t in seen <==> t in out
    {
      var t := items[i];
      DedupeAppend(items, i);
      if t !in seen {
        out := out + [t];
        seen := seen + {t};
      }
      i := i + 1;
    }
    assert items[..|items|] == items;
  }

  /**
   * load_tickers: `file` is the text of the ticker file or None when it does
   * not exist, `env` the TICKERS string, `maxTickers` MAX_TICKERS.
   */
  method LoadTickers(file: Option<string>, env: string, maxTickers: int) returns (tickers: seq<string>)
    ensures tickers == TickerList(file, env, maxTickers)
    ensures NoDuplicates(tickers)
    ensures forall t :: t in tickers ==> IsSymbol(t)
    ensures maxTickers >= 0 ==> |tickers| <= maxTickers
  {
    var items: seq<string> := [];
    if file.Some? {
      items := FileSymbols(file.value);
    }
    if items == [] && env != [] {
      items := EnvItems(env);
    }
    assert items == Candidates(file, env);
    var out := DedupeInOrder(items);
    tickers := Take(out, maxTickers);
    TickerListProperties(file, env, maxTickers);
  }
}
