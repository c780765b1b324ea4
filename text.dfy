/** The JavaScript string operations the bot relies on, written out on `seq<char>`:
    character-class filters, `trim`, `split`, `indexOf`/`includes`, `replace` with a string
    pattern, ASCII `toLowerCase`, and the integer subset of `Number`/`toString`. */
module Text {
  import opened Wrappers

  /** The characters matched by JavaScript's `\s` and removed by `String.prototype.trim`
      (ECMA-262 WhiteSpace and LineTerminator). */
  predicate IsWhite(c: char) {
    c == ' ' || c == '\t' || c == '\n' || c == '\U{B}' || c == '\U{C}' || c == '\r'
    || c == '\U{A0}' || c == '\U{1680}' || ('\U{2000}' <= c <= '\U{200A}')
    || c == '\U{2028}' || c == '\U{2029}' || c == '\U{202F}' || c == '\U{205F}'
    || c == '\U{3000}' || c == '\U{FEFF}'
  }

  predicate IsNotWhite(c: char) { !IsWhite(c) }

  /** The regular-expression class `[\x20-\x7E]`: printable ASCII. */
  predicate IsPrintable(c: char) { ' ' <= c <= '~' }

  /** The characters the regular-expression `.` does not match. */
  predicate IsLineTerminator(c: char) {
    c == '\n' || c == '\r' || c == '\U{2028}' || c == '\U{2029}'
  }

  // ---------------------------------------------------------------- filters

  /** `s.replace(/[^K]/g, "")` for a character class K: keeps, in order, the characters of `s`
      that belong to the class. */
  function Filter(s: string, keep: char -> bool): (r: string)
    ensures |r| <= |s|
    ensures forall i :: 0 <= i < |r| ==> keep(r[i])
    ensures |s| == 1 ==> r == if keep(s[0]) then s else []
  {
    if s == [] then []
    else (if keep(s[0]) then [s[0]] else []) + Filter(s[1..], keep)
  }

  /** Filtering works character by character: together with the one-character case above,
      the result is `s` with exactly the characters outside the class removed. */
  lemma {:induction false} FilterConcat(a: string, b: string, keep: char -> bool)
    ensures Filter(a + b, keep) == Filter(a, keep) + Filter(b, keep)
  {
    if a != [] {
      assert (a + b)[0] == a[0] && (a + b)[1..] == a[1..] + b;
      FilterConcat(a[1..], b, keep);
    } else {
      assert a + b == b;
    }
  }

  /** A string already inside the class is left as it is. */
  lemma {:induction false} FilterKeepsAll(s: string, keep: char -> bool)
    requires forall i :: 0 <= i < |s| ==> keep(s[i])
    ensures Filter(s, keep) == s
  {
    if s != [] {
      FilterKeepsAll(s[1..], keep);
    }
  }

  /** Filtering twice changes nothing. */
  lemma FilterIdempotent(s: string, keep: char -> bool)
    ensures Filter(Filter(s, keep), keep) == Filter(s, keep)
  {
    FilterKeepsAll(Filter(s, keep), keep);
  }

  // ---------------------------------------------------------------- trim

  /** Length of the longest prefix of `s` whose characters all satisfy `p`. */
  function Span(s: string, p: char -> bool): (n: nat)
    ensures n <= |s|
    ensures forall i :: 0 <= i < n ==> p(s[i])
    ensures n < |s| ==> !p(s[n])
  {
    if s == [] || !p(s[0]) then 0 else 1 + Span(s[1..], p)
  }

  /** Length of the longest suffix of `s` whose characters all satisfy `p`. */
  function SpanBack(s: string, p: char -> bool): (n: nat)
    ensures n <= |s|
    ensures forall i :: |s| - n <= i < |s| ==> p(s[i])
    ensures n < |s| ==> !p(s[|s| - n - 1])
  {
    if s == [] || !p(s[|s| - 1]) then 0 else 1 + SpanBack(s[..|s| - 1], p)
  }

  /** `s.trim()`: removes leading and trailing white space and nothing else. */
  function Trim(s: string): (r: string)
    ensures r == [] || (!IsWhite(r[0]) && !IsWhite(r[|r| - 1]))
    ensures forall c :: c in r ==> c in s
    ensures s == [] || (!IsWhite(s[0]) && !IsWhite(s[|s| - 1])) ==> r == s
    ensures exists i, j :: 0 <= i <= j <= |s| && r == s[i..j] && AllWhite(s[..i]) && AllWhite(s[j..])
  {
    var a := Span(s, IsWhite);
    var b := SpanBack(s[a..], IsWhite);
    var r := s[a..|s| - b];
    assert forall i :: 0 <= i < |r| ==> r[i] == s[a + i];
    assert AllWhite(s[..a]);
    var t := s[|s| - b..];
    assert AllWhite(t) by {
      forall i | 0 <= i < |t| ensures IsWhite(t[i]) {
        assert t[i] == s[a..][|s[a..]| - b + i];
      }
    }
    r
  }

  /** The message clean-up the dispatcher applies once per event:
      `msg.replace(/[^\x20-\x7E]/g, '').trim()`. */
  function Sanitize(msg: string): (r: string)
    ensures forall i :: 0 <= i < |r| ==> IsPrintable(r[i])
    ensures r == [] || (r[0] != ' ' && r[|r| - 1] != ' ')
    ensures exists i, j :: (0 <= i <= j <= |Filter(msg, IsPrintable)| && r == Filter(msg, IsPrintable)[i..j]
      && AllWhite(Filter(msg, IsPrintable)[..i]) && AllWhite(Filter(msg, IsPrintable)[j..]))
  {
    var f := Filter(msg, IsPrintable);
    var r := Trim(f);
    assert forall i :: 0 <= i < |r| ==> r[i] in r;
    r
  }

  // ---------------------------------------------------------------- split

  /** `s.split(/(\s+)/)`: the non-white pieces, with every separating run of white space kept
      as an element of its own between them. */
  function Tokenize(s: string): (r: seq<string>)
    ensures |r| % 2 == 1 && |r| >= 1
    decreases |s|
  {
    var k := Span(s, IsNotWhite);
    if k == |s| then [s]
    else
      var j := Span(s[k..], IsWhite);
      assert s[k..][0] == s[k];
      [s[..k], s[k..k + j]] + Tokenize(s[k + j..])
  }

  /** Concatenation of a list of strings, `list.join("")`. */
  function Concat(ss: seq<string>): string {
    if ss == [] then [] else ss[0] + Concat(ss[1..])
  }

  predicate AllWhite(t: string) { forall i :: 0 <= i < |t| ==> IsWhite(t[i]) }

  predicate NoWhite(t: string) { forall i :: 0 <= i < |t| ==> !IsWhite(t[i]) }

  lemma ConcatPair(a: string, b: string, rest: seq<string>)
    ensures Concat([a, b] + rest) == a + b + Concat(rest)
  {
    assert ([a, b] + rest)[1..] == [b] + rest;
    assert ([b] + rest)[1..] == rest;
  }

  /** `split(/(\s+)/)` loses nothing: the pieces put back together give the input. */
  lemma {:induction false} TokenizeConcat(s: string)
    ensures Concat(Tokenize(s)) == s
    decreases |s|
  {
    var k := Span(s, IsNotWhite);
    if k < |s| {
      var j := Span(s[k..], IsWhite);
      assert s[k..][0] == s[k];
      var rest := s[k + j..];
      assert Tokenize(s) == [s[..k], s[k..k + j]] + Tokenize(rest);
      TokenizeConcat(rest);
      ConcatPair(s[..k], s[k..k + j], Tokenize(rest));
      assert s == s[..k] + s[k..k + j] + rest;
    }
  }

  /** The shape of a `split(/(\s+)/)` result, read from the front: a white-free piece, then
      zero or more pairs of a non-empty white run and a white-free piece. */
  predicate Alternates(r: seq<string>) {
    |r| >= 1 && NoWhite(r[0]) &&
    (|r| == 1 || (|r| >= 3 && r[1] != [] && AllWhite(r[1]) && Alternates(r[2..])))
  }

  lemma {:induction false} TokenizeAlternates(s: string)
    ensures Alternates(Tokenize(s))
    decreases |s|
  {
    var k := Span(s, IsNotWhite);
    if k < |s| {
      var j := Span(s[k..], IsWhite);
      assert s[k..][0] == s[k];
      TokenizeAlternates(s[k + j..]);
      var r := Tokenize(s);
      assert r[2..] == Tokenize(s[k + j..]);
    }
  }

  lemma {:induction false} AlternatesByParity(r: seq<string>, i: nat)
    requires Alternates(r) && i < |r|
    ensures i % 2 == 0 ==> NoWhite(r[i])
    ensures i % 2 == 1 ==> r[i] != [] && AllWhite(r[i])
    decreases i
  {
    if i >= 2 {
      AlternatesByParity(r[2..], i - 2);
    }
  }

  /** Even positions of `split(/(\s+)/)` hold white-free text; odd positions hold non-empty
      runs of white space. */
  lemma TokenizeShape(s: string)
    ensures forall i :: 0 <= i < |Tokenize(s)| && i % 2 == 0 ==> NoWhite(Tokenize(s)[i])
    ensures forall i :: 0 <= i < |Tokenize(s)| && i % 2 == 1 ==>
              Tokenize(s)[i] != [] && AllWhite(Tokenize(s)[i])
  {
    TokenizeAlternates(s);
    forall i | 0 <= i < |Tokenize(s)| {
      AlternatesByParity(Tokenize(s), i);
    }
  }

  /** Every piece at an even position is non-empty. */
  predicate WordsNonEmpty(r: seq<string>) {
    |r| >= 1 && r[0] != [] && (|r| < 3 || WordsNonEmpty(r[2..]))
  }

  lemma {:induction false} TokenizeWords(s: string)
    requires s != [] && !IsWhite(s[0]) && !IsWhite(s[|s| - 1])
    ensures WordsNonEmpty(Tokenize(s))
    decreases |s|
  {
    var k := Span(s, IsNotWhite);
    if k < |s| {
      var j := Span(s[k..], IsWhite);
      assert s[k..][0] == s[k];
      var rest := s[k + j..];
      assert SpanBack(s, IsWhite) == 0;
      assert k + j < |s|;
      assert rest[0] == s[k + j] && rest[|rest| - 1] == s[|s| - 1];
      TokenizeWords(rest);
      assert Tokenize(s)[2..] == Tokenize(rest);
    }
  }

  lemma {:induction false} WordsByParity(r: seq<string>, i: nat)
    requires WordsNonEmpty(r) && i < |r| && i % 2 == 0
    ensures r[i] != []
    decreases i
  {
    if i >= 2 {
      WordsByParity(r[2..], i - 2);
    }
  }

  /** On trimmed, non-empty text no piece at an even position is empty, so `args[0]`,
      `args[2]`, `args[4]`, ... are the words of the message. */
  lemma TokenizeTrimmed(s: string)
    requires s != [] && !IsWhite(s[0]) && !IsWhite(s[|s| - 1])
    ensures forall i :: 0 <= i < |Tokenize(s)| && i % 2 == 0 ==> Tokenize(s)[i] != []
  {
    TokenizeWords(s);
    forall i | 0 <= i < |Tokenize(s)| && i % 2 == 0 {
      WordsByParity(Tokenize(s), i);
    }
  }

  /** `s.split(c)` for a one-character separator. */
  function Split(s: string, sep: char): (r: seq<string>)
    ensures |r| >= 1
    ensures forall k :: 0 <= k < |r| ==> sep !in r[k]
    ensures (sep in s) <==> |r| >= 2
  {
    var n := Span(s, c => c != sep);
    if n == |s| then
      assert forall i :: 0 <= i < |s| ==> s[i] != sep;
      [s]
    else
      [s[..n]] + Split(s[n + 1..], sep)
  }

  /** `list.join(c)`. */
  function Join(ss: seq<string>, sep: char): string
    requires |ss| >= 1
  {
    if |ss| == 1 then ss[0] else ss[0] + [sep] + Join(ss[1..], sep)
  }

  /** Splitting and joining with the same separator gives the input back. */
  lemma {:induction false} JoinSplit(s: string, sep: char)
    ensures Join(Split(s, sep), sep) == s
  {
    var n := Span(s, c => c != sep);
    if n < |s| {
      JoinSplit(s[n + 1..], sep);
      assert s == s[..n] + [sep] + s[n + 1..];
    }
  }

  /** A line without the `\r` of a CRLF ending. */
  function StripCR(line: string): (r: string)
    ensures '\n' in r ==> '\n' in line
  {
    if line != [] && line[|line| - 1] == '\r' then line[..|line| - 1] else line
  }

  /** Every piece but the last lost its terminating `\n`, and loses its `\r` as well;
      the last piece has no line terminator after it and is kept whole. */
  function StripCRs(pieces: seq<string>): (r: seq<string>)
    requires |pieces| >= 1
    ensures |r| == |pieces|
    ensures r[|r| - 1] == pieces[|pieces| - 1]
    ensures forall k :: 0 <= k < |r| - 1 ==> r[k] == StripCR(pieces[k])
  {
    if |pieces| == 1 then pieces else [StripCR(pieces[0])] + StripCRs(pieces[1..])
  }

  /** `data.split(/\r?\n/)`: the lines of a text file, without their line endings. A `\r`
      that no `\n` follows is part of the text. */
  function SplitLines(s: string): (r: seq<string>)
    ensures |r| >= 1
    ensures forall k :: 0 <= k < |r| ==> '\n' !in r[k]
  {
    StripCRs(Split(s, '\n'))
  }

  /** A character absent from the input is absent from every piece of its split. */
  lemma {:induction false} SplitKeepsOut(s: string, sep: char, c: char)
    requires c !in s
    ensures forall k :: 0 <= k < |Split(s, sep)| ==> c !in Split(s, sep)[k]
  {
    var n := Span(s, x => x != sep);
    if n < |s| {
      assert forall i :: 0 <= i < n ==> s[..n][i] == s[i];
      var rest := s[n + 1..];
      assert forall i :: 0 <= i < |rest| ==> rest[i] == s[n + 1 + i];
      SplitKeepsOut(rest, sep, c);
    }
  }

  /** For a text without CR characters, joining the lines with `\n` gives the text back. */
  lemma SplitLinesJoin(s: string)
    requires '\r' !in s
    ensures Join(SplitLines(s), '\n') == s
  {
    var p := Split(s, '\n');
    SplitKeepsOut(s, '\n', '\r');
    forall k | 0 <= k < |p| ensures StripCR(p[k]) == p[k] {
      if p[k] != [] {
        assert p[k][|p[k]| - 1] in p[k];
      }
    }
    assert SplitLines(s) == p;
    JoinSplit(s, '\n');
  }

  /** A `\r` that no `\n` follows stays in the line. */
  lemma SplitLinesLastLine(line: string)
    requires '\n' !in line
    ensures SplitLines(line) == [line]
  {
  }

  /** A CRLF ending is removed together with its `\n`. */
  lemma SplitLinesCRLF(a: string, b: string)
    requires '\n' !in a
    ensures SplitLines(a + "\r\n" + b) == [a] + SplitLines(b)
  {
    var s := a + "\r\n" + b;
    var n := Span(s, c => c != '\n');
    assert s[|a|] == '\r' && s[|a| + 1] == '\n';
    assert forall i :: 0 <= i < |a| ==> s[i] == a[i];
    assert n == |a| + 1;
    assert s[..n] == a + "\r" && s[n + 1..] == b;
    assert Split(s, '\n') == [a + "\r"] + Split(b, '\n');
    assert StripCR(a + "\r") == a;
  }

  // ---------------------------------------------------------------- search and replace

  predicate StartsWith(s: string, p: string) {
    |p| <= |s| && s[..|p|] == p
  }

  /** `p` occurs in `s` at position `i`. */
  predicate OccursAt(s: string, p: string, i: nat) {
    i + |p| <= |s| && s[i..i + |p|] == p
  }

  /** First position at or after `i` where `p` occurs. */
  function IndexFrom(s: string, p: string, i: nat): (r: Option<nat>)
    ensures r.Some? ==> i <= r.value && OccursAt(s, p, r.value)
    ensures r.Some? ==> forall j: nat :: i <= j < r.value ==> !OccursAt(s, p, j)
    ensures r.None? ==> forall j: nat :: i <= j ==> !OccursAt(s, p, j)
    decreases |s| - i
  {
    if i + |p| > |s| then None
    else if OccursAt(s, p, i) then Some(i)
    else IndexFrom(s, p, i + 1)
  }

  /** `s.indexOf(p)`, with `None` for -1. */
  function IndexOf(s: string, p: string): (r: Option<nat>)
    ensures r.Some? <==> exists j: nat :: OccursAt(s, p, j)
    ensures r.Some? ==> OccursAt(s, p, r.value) && forall j: nat :: j < r.value ==> !OccursAt(s, p, j)
  {
    IndexFrom(s, p, 0)
  }

  /** `s.includes(p)`. */
  predicate Contains(s: string, p: string) {
    IndexOf(s, p).Some?
  }

  /** `s.replace(p, rep)` with a string pattern: only the first occurrence is replaced. */
  function ReplaceFirst(s: string, p: string, rep: string): string {
    match IndexOf(s, p)
    case None => s
    case Some(i) => s[..i] + rep + s[i + |p|..]
  }

  /** Without an occurrence the text is unchanged; otherwise exactly the first occurrence is
      replaced. */
  lemma ReplaceFirstSpec(s: string, p: string, rep: string)
    ensures (forall j: nat :: !OccursAt(s, p, j)) ==> ReplaceFirst(s, p, rep) == s
    ensures forall i: nat :: OccursAt(s, p, i) && (forall j: nat :: j < i ==> !OccursAt(s, p, j)) ==>
              ReplaceFirst(s, p, rep) == s[..i] + rep + s[i + |p|..]
  {
  }

  /** `ReplaceFirst` at a position before which the pattern's first character never appears. */
  lemma ReplaceFirstAt(s: string, p: string, rep: string, i: nat)
    requires p != [] && OccursAt(s, p, i)
    requires forall j :: 0 <= j < i ==> s[j] != p[0]
    ensures ReplaceFirst(s, p, rep) == s[..i] + rep + s[i + |p|..]
  {
    ReplaceFirstSpec(s, p, rep);
    forall j: nat | j < i ensures !OccursAt(s, p, j) {
      assert s[j] != p[0];
      if j + |p| <= |s| {
        assert s[j..j + |p|][0] == s[j];
      }
    }
  }

  /** Replacing in `pre + p + post`, where `pre` holds no first character of `p`, replaces that
      `p` and leaves `post` alone, whatever occurrences of `p` it holds. */
  lemma ReplaceFirstSplice(pre: string, p: string, rep: string, post: string)
    requires p != [] && forall j :: 0 <= j < |pre| ==> pre[j] != p[0]
    ensures ReplaceFirst(pre + p + post, p, rep) == pre + rep + post
  {
    var s := pre + p + post;
    assert s[|pre|..|pre| + |p|] == p;
    assert s[..|pre|] == pre && s[|pre| + |p|..] == post;
    ReplaceFirstAt(s, p, rep, |pre|);
  }

  /** A text that starts with the pattern has exactly that prefix replaced. */
  lemma ReplaceFirstPrefix(p: string, rest: string, rep: string)
    requires p != []
    ensures ReplaceFirst(p + rest, p, rep) == rep + rest
  {
    var s := p + rest;
    assert s[0..|p|] == p;
    ReplaceFirstAt(s, p, rep, 0);
    assert s[|p|..] == rest;
  }

  // ---------------------------------------------------------------- case

  function LowerChar(c: char): char {
    if 'A' <= c <= 'Z' then (c as int + 32) as char else c
  }

  /** `s.toLowerCase()` on ASCII letters. */
  function ToLower(s: string): (r: string)
    ensures |r| == |s|
    ensures forall i :: 0 <= i < |s| ==> r[i] == LowerChar(s[i])
  {
    if s == [] then [] else [LowerChar(s[0])] + ToLower(s[1..])
  }

  // ---------------------------------------------------------------- numbers

  predicate IsDigit(c: char) { '0' <= c <= '9' }

  predicate AllDigits(s: string) { forall i :: 0 <= i < |s| ==> IsDigit(s[i]) }

  function DigitChar(d: nat): (c: char)
    requires d < 10
    ensures IsDigit(c)
  {
    ('0' as int + d) as char
  }

  /** The value of a string of decimal digits. */
  function DigitsValue(s: string): nat
    requires AllDigits(s)
  {
    if s == [] then 0 else 10 * DigitsValue(s[..|s| - 1]) + (s[|s| - 1] as int - '0' as int)
  }

  /** `n.toString()` for a natural number. */
  function NatToString(n: nat): (r: string)
    ensures r != [] && AllDigits(r)
  {
    if n < 10 then [DigitChar(n)] else NatToString(n / 10) + [DigitChar(n % 10)]
  }

  /** `n.toString()` for an integer. */
  function IntToString(n: int): string {
    if n < 0 then "-" + NatToString(-n) else NatToString(n)
  }

  /** `Number(t)` restricted to integer literals: an optional sign followed by decimal digits,
      and the empty string as 0. Anything else is NaN, here `None`. */
  function ParseNumber(t: string): (r: Option<int>)
    ensures AllDigits(t) ==> r == Some(DigitsValue(t))
    ensures |t| >= 2 && t[0] == '-' && AllDigits(t[1..]) ==> r == Some(0 - DigitsValue(t[1..]))
    ensures r.None? ==> exists i :: 0 <= i < |t| && !IsDigit(t[i])
  {
    if t == [] then Some(0)
    else if (t[0] == '-' || t[0] == '+') && |t| >= 2 && AllDigits(t[1..]) then
      var v: int := DigitsValue(t[1..]);
      Some(if t[0] == '-' then -v else v)
    else if AllDigits(t) then Some(DigitsValue(t))
    else None
  }

  lemma {:induction false} DigitsOfNat(n: nat)
    ensures DigitsValue(NatToString(n)) == n
  {
    if n >= 10 {
      DigitsOfNat(n / 10);
      var s := NatToString(n);
      assert s[..|s| - 1] == NatToString(n / 10);
    }
  }

  /** What a counter file holds is read back as the value written: `Number(n.toString()) == n`. */
  lemma ParseIntToString(n: int)
    ensures ParseNumber(IntToString(n)) == Some(n)
  {
    if n < 0 {
      DigitsOfNat(-n);
      assert IntToString(n)[1..] == NatToString(-n);
    } else {
      DigitsOfNat(n);
    }
  }
}
