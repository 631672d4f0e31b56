/** The string operations of JavaScript that the core relies on, restricted
    to ASCII: `trim`, `replace(/ +/g, " ")`, `split`/`join` on one
    character, `startsWith`, decimal rendering of numbers in template
    strings, and `toLowerCase`. */
module Strings {
  import opened Wrappers

  /** The ASCII characters that `trim` and `\s` treat as white space:
      space, tab, line feed, vertical tab, form feed, carriage return. */
  predicate IsWhitespace(c: char) {
    c == ' ' || '\t' <= c <= '\r'
  }

  predicate AllWhitespace(s: string) {
    forall i :: 0 <= i < |s| ==> IsWhitespace(s[i])
  }

  predicate StartsWith(s: string, prefix: string) {
    |prefix| <= |s| && s[..|prefix|] == prefix
  }

  predicate EndsWith(s: string, suffix: string) {
    |suffix| <= |s| && s[|s| - |suffix|..] == suffix
  }

  /** No two adjacent U+0020 characters. */
  predicate NoDoubleSpace(s: string) {
    forall i :: 0 <= i < |s| - 1 ==> !(s[i] == ' ' && s[i + 1] == ' ')
  }

  // ---------------------------------------------------------------- trim

  /** `trimStart`: drops the leading white space, keeps the rest. */
  function TrimStart(s: string): (r: string)
    ensures |r| <= |s| && r == s[|s| - |r|..]
    ensures AllWhitespace(s[..|s| - |r|])
    ensures r == [] || !IsWhitespace(r[0])
  {
    if |s| > 0 && IsWhitespace(s[0]) then TrimStart(s[1..]) else s
  }

  /** `trimEnd`: drops the trailing white space, keeps the rest. */
  function TrimEnd(s: string): (r: string)
    ensures |r| <= |s| && r == s[..|r|]
    ensures AllWhitespace(s[|r|..])
    ensures r == [] || !IsWhitespace(r[|r| - 1])
  {
    if |s| > 0 && IsWhitespace(s[|s| - 1]) then TrimEnd(s[..|s| - 1]) else s
  }

  /** `String.prototype.trim`: both the leading and the trailing white space
      dropped. */
  function Trim(s: string): (r: string)
    ensures |r| <= |s|
    ensures r == [] || (!IsWhitespace(r[0]) && !IsWhitespace(r[|r| - 1]))
  {
    var t := TrimStart(s);
    assert TrimEnd(t) == t[..|TrimEnd(t)|];
    TrimEnd(t)
  }

  lemma {:induction false} TrimStartOfPadded(p: string, s: string)
    requires AllWhitespace(p)
    ensures TrimStart(p + s) == TrimStart(s)
  {
    if p != [] {
      assert (p + s)[1..] == p[1..] + s;
      TrimStartOfPadded(p[1..], s);
    } else {
      assert p + s == s;
    }
  }

  lemma {:induction false} TrimEndOfPadded(s: string, q: string)
    requires AllWhitespace(q)
    ensures TrimEnd(s + q) == TrimEnd(s)
  {
    if q != [] {
      assert (s + q)[..|s + q| - 1] == s + q[..|q| - 1];
      TrimEndOfPadded(s, q[..|q| - 1]);
    } else {
      assert s + q == s;
    }
  }

  /** Trimming a concatenation: white space at the end of `s` is only
      stripped too when nothing but white space follows it. */
  lemma {:induction false} TrimStartAppend(s: string, q: string)
    ensures TrimStart(s + q) == if TrimStart(s) == [] then TrimStart(q) else TrimStart(s) + q
  {
    if s == [] {
      assert s + q == q;
    } else if IsWhitespace(s[0]) {
      assert (s + q)[1..] == s[1..] + q;
      TrimStartAppend(s[1..], q);
    }
  }

  /** White space around `s` does not change its trimmed value. */
  lemma TrimOfPadded(p: string, s: string, q: string)
    requires AllWhitespace(p) && AllWhitespace(q)
    ensures Trim(p + s + q) == Trim(s)
  {
    assert p + s + q == p + (s + q);
    TrimStartOfPadded(p, s + q);
    TrimStartAppend(s, q);
    if TrimStart(s) == [] {
      assert TrimStart(q) == [];
    } else {
      TrimEndOfPadded(TrimStart(s), q);
    }
  }

  /** `trim` is idempotent. */
  lemma TrimIdempotent(s: string)
    ensures Trim(Trim(s)) == Trim(s)
  {
    var r := Trim(s);
    if r != [] {
      assert TrimStart(r) == r;
      assert TrimEnd(r) == r;
    }
  }

  /** Trimming leaves nothing exactly when the string is all white space. */
  lemma TrimEmptyIff(s: string)
    ensures Trim(s) == [] <==> AllWhitespace(s)
  {
  }

  // -------------------------------------------------- collapse of spaces

  /** `s.replace(/ +/g, " ")`: every run of U+0020 becomes one space. */
  function CollapseSpaces(s: string): (r: string)
    ensures |r| <= |s|
    ensures |s| > 0 ==> |r| > 0 && r[0] == s[0]
    ensures NoDoubleSpace(r)
  {
    if |s| < 2 then s
    else if s[0] == ' ' && s[1] == ' ' then CollapseSpaces(s[1..])
    else [s[0]] + CollapseSpaces(s[1..])
  }

  /** `s` with every U+0020 removed. */
  function WithoutSpaces(s: string): string {
    if s == [] then [] else (if s[0] == ' ' then [] else [s[0]]) + WithoutSpaces(s[1..])
  }

  /** Collapsing only removes spaces: the other characters stay, in order. */
  lemma {:induction false} CollapseKeepsNonSpaces(s: string)
    ensures WithoutSpaces(CollapseSpaces(s)) == WithoutSpaces(s)
  {
    if |s| >= 2 {
      CollapseKeepsNonSpaces(s[1..]);
      var c := CollapseSpaces(s[1..]);
      if !(s[0] == ' ' && s[1] == ' ') {
        assert ([s[0]] + c)[1..] == c;
      }
    }
  }

  /** A string without double spaces is left unchanged, so collapsing is
      idempotent. */
  lemma {:induction false} CollapseFixesSingleSpaced(s: string)
    requires NoDoubleSpace(s)
    ensures CollapseSpaces(s) == s
  {
    if |s| >= 2 {
      assert NoDoubleSpace(s[1..]);
      CollapseFixesSingleSpaced(s[1..]);
      assert s == [s[0]] + s[1..];
    }
  }

  lemma CollapseIdempotent(s: string)
    ensures CollapseSpaces(CollapseSpaces(s)) == CollapseSpaces(s)
  {
    CollapseFixesSingleSpaced(CollapseSpaces(s));
  }

  lemma NoDoubleSpaceSlice(s: string, i: nat, j: nat)
    requires i <= j <= |s| && NoDoubleSpace(s)
    ensures NoDoubleSpace(s[i..j])
  {
    var t := s[i..j];
    forall k | 0 <= k < |t| - 1 ensures !(t[k] == ' ' && t[k + 1] == ' ') {
      assert t[k] == s[i + k] && t[k + 1] == s[i + k + 1];
    }
  }

  lemma NoDoubleSpaceTrim(s: string)
    requires NoDoubleSpace(s)
    ensures NoDoubleSpace(Trim(s))
  {
    var t := TrimStart(s);
    NoDoubleSpaceSlice(s, |s| - |t|, |s|);
    NoDoubleSpaceSlice(t, 0, |TrimEnd(t)|);
  }

  // ------------------------------------------------------ split and join

  /** The first index of `c` in `s`, if any. */
  function IndexOf(s: string, c: char): (r: Option<nat>)
    ensures r.Some? ==> r.value < |s| && s[r.value] == c && c !in s[..r.value]
    ensures r.None? ==> c !in s
  {
    if s == [] then None
    else if s[0] == c then Some(0)
    else
      match IndexOf(s[1..], c)
      case None => None
      case Some(i) => assert s[1..][..i] == s[1..i + 1]; Some(i + 1)
  }

  /** `s.split(c)` for a one-character separator: the pieces between the
      occurrences of `c`; there is always at least one piece. */
  function Split(s: string, c: char): (r: seq<string>)
    ensures |r| >= 1
    ensures forall k :: 0 <= k < |r| ==> c !in r[k]
    decreases |s|
  {
    match IndexOf(s, c)
    case None => [s]
    case Some(i) => [s[..i]] + Split(s[i + 1..], c)
  }

  /** `parts.join(c)` for a one-character separator. */
  function Join(parts: seq<string>, c: char): string {
    if parts == [] then []
    else if |parts| == 1 then parts[0]
    else parts[0] + [c] + Join(parts[1..], c)
  }

  /** Joining the pieces of a split gives the string back. */
  lemma {:induction false} JoinSplit(s: string, c: char)
    ensures Join(Split(s, c), c) == s
    decreases |s|
  {
    match IndexOf(s, c)
    case None =>
    case Some(i) =>
      var rest := Split(s[i + 1..], c);
      assert Split(s, c) == [s[..i]] + rest;
      assert Join(Split(s, c), c) == s[..i] + [c] + Join(rest, c);
      JoinSplit(s[i + 1..], c);
      assert s == s[..i] + [c] + s[i + 1..];
  }

  /** The first separator of `p + [c] + rest` is the one after `p`, when `p`
      has none. */
  lemma {:induction false} IndexOfAfter(p: string, c: char, rest: string)
    requires c !in p
    ensures IndexOf(p + [c] + rest, c) == Some(|p|)
  {
    if p != [] {
      assert (p + [c] + rest)[1..] == p[1..] + [c] + rest;
      IndexOfAfter(p[1..], c, rest);
    }
  }

  /** Splitting a join gives the parts back, provided none of them contains
      the separator. */
  lemma {:induction false} SplitJoin(parts: seq<string>, c: char)
    requires |parts| >= 1
    requires forall k :: 0 <= k < |parts| ==> c !in parts[k]
    ensures Split(Join(parts, c), c) == parts
  {
    if |parts| > 1 {
      var p, rest := parts[0], Join(parts[1..], c);
      var s := p + [c] + rest;
      assert Join(parts, c) == s;
      IndexOfAfter(p, c, rest);
      assert s[..|p|] == p;
      assert s[|p| + 1..] == rest;
      SplitJoin(parts[1..], c);
      assert parts == [p] + parts[1..];
    }
  }

  /** Every piece of a split of a single-spaced string is single-spaced. */
  lemma {:induction false} NoDoubleSpaceSplit(s: string, c: char)
    requires NoDoubleSpace(s)
    ensures forall k :: 0 <= k < |Split(s, c)| ==> NoDoubleSpace(Split(s, c)[k])
    decreases |s|
  {
    match IndexOf(s, c)
    case None =>
    case Some(i) =>
      NoDoubleSpaceSlice(s, 0, i);
      NoDoubleSpaceSlice(s, i + 1, |s|);
      NoDoubleSpaceSplit(s[i + 1..], c);
  }

  /** The last piece of a split is what follows the last separator. */
  lemma {:induction false} SplitLast(s: string, c: char, b: string)
    requires c !in b
    ensures Split(s + [c] + b, c)[|Split(s + [c] + b, c)| - 1] == b
    decreases |s|
  {
    var t := s + [c] + b;
    var i := IndexOf(t, c).value;
    if i < |s| {
      assert t[i + 1..] == s[i + 1..] + [c] + b;
      SplitLast(s[i + 1..], c, b);
    } else {
      assert t[i + 1..] == b;
    }
  }

  predicate NoWhitespace(s: string) {
    forall i :: 0 <= i < |s| ==> !IsWhitespace(s[i])
  }

  /** The first index of a white-space character in `s`, if any. */
  function WhitespaceIndex(s: string): (r: Option<nat>)
    ensures r.Some? ==> r.value < |s| && IsWhitespace(s[r.value]) && NoWhitespace(s[..r.value])
    ensures r.None? ==> NoWhitespace(s)
  {
    if s == [] then None
    else if IsWhitespace(s[0]) then Some(0)
    else
      match WhitespaceIndex(s[1..])
      case None => None
      case Some(i) => assert s[1..][..i] == s[1..i + 1]; Some(i + 1)
  }

  /** `s.split(/\s+/)`: the pieces between maximal runs of white space; a
      leading or trailing run gives an empty first or last piece, and there
      is always at least one piece. */
  function SplitOnWhitespace(s: string): (r: seq<string>)
    ensures |r| >= 1
    ensures forall k :: 0 <= k < |r| ==> NoWhitespace(r[k])
    decreases |s|
  {
    match WhitespaceIndex(s)
    case None => [s]
    case Some(i) =>
      var rest := TrimStart(s[i..]);
      assert |rest| < |s| - i;
      [s[..i]] + SplitOnWhitespace(rest)
  }

  /** A join starts with its first part. */
  lemma {:induction false} JoinStartsWithFirst(parts: seq<string>, c: char)
    requires |parts| >= 1
    ensures StartsWith(Join(parts, c), parts[0])
  {
    if |parts| > 1 {
      assert Join(parts, c) == parts[0] + ([c] + Join(parts[1..], c));
    }
  }

  lemma {:induction false} WhitespaceIndexAfter(p: string, c: char, rest: string)
    requires NoWhitespace(p) && IsWhitespace(c)
    ensures WhitespaceIndex(p + [c] + rest) == Some(|p|)
  {
    if p != [] {
      assert (p + [c] + rest)[1..] == p[1..] + [c] + rest;
      WhitespaceIndexAfter(p[1..], c, rest);
    }
  }

  /** One step of the split, at the first white space. */
  lemma SplitOnWhitespaceAt(s: string, i: nat)
    requires WhitespaceIndex(s) == Some(i)
    ensures SplitOnWhitespace(s) == [s[..i]] + SplitOnWhitespace(TrimStart(s[i..]))
  {
  }

  /** Trimming a single leading space in front of a text that starts with no
      white space. */
  lemma TrimStartSpace(rest: string)
    requires |rest| > 0 && !IsWhitespace(rest[0])
    ensures TrimStart([' '] + rest) == rest
  {
    assert ([' '] + rest)[1..] == rest;
  }

  /** The two halves of `a + b`. */
  lemma ConcatHalves(a: string, b: string)
    ensures (a + b)[..|a|] == a && (a + b)[|a|..] == b
  {
  }

  /** A word, one space, and a text that starts with no white space split
      into the word and the pieces of that text. */
  lemma SplitOnWhitespaceCons(w: string, rest: string)
    requires |w| > 0 && NoWhitespace(w)
    requires |rest| > 0 && !IsWhitespace(rest[0])
    ensures SplitOnWhitespace(w + [' '] + rest) == [w] + SplitOnWhitespace(rest)
  {
    var spaced := [' '] + rest;
    var s := w + spaced;
    assert s == w + [' '] + rest;
    WhitespaceIndexAfter(w, ' ', rest);
    SplitOnWhitespaceAt(s, |w|);
    ConcatHalves(w, spaced);
    TrimStartSpace(rest);
  }

  /** Splitting words separated by single spaces on white space gives the
      words back, one piece per word. */
  lemma {:induction false} SplitOnWhitespaceJoin(words: seq<string>)
    requires |words| >= 1
    requires forall k :: 0 <= k < |words| ==> |words[k]| > 0 && NoWhitespace(words[k])
    ensures SplitOnWhitespace(Join(words, ' ')) == words
  {
    if |words| == 1 {
      assert Join(words, ' ') == words[0];
    } else {
      var w, rest := words[0], Join(words[1..], ' ');
      assert Join(words, ' ') == w + [' '] + rest;
      JoinStartsWithFirst(words[1..], ' ');
      assert rest[0] == words[1][0];
      SplitOnWhitespaceCons(w, rest);
      SplitOnWhitespaceJoin(words[1..]);
      assert words == [w] + words[1..];
    }
  }

  // -------------------------------------------------- decimal rendering

  predicate IsDigit(c: char) {
    '0' <= c <= '9'
  }

  function DigitChar(d: nat): (c: char)
    requires d < 10
    ensures IsDigit(c)
  {
    (48 + d) as char
  }

  /** How a non-negative integer appears inside a template string: its
      decimal digits, most significant first, without leading zeros. */
  function NatToString(n: nat): (r: string)
    ensures |r| >= 1
    ensures forall i :: 0 <= i < |r| ==> IsDigit(r[i])
    ensures |r| > 1 ==> r[0] != '0'
  {
    if n < 10 then [DigitChar(n)] else NatToString(n / 10) + [DigitChar(n % 10)]
  }

  /** The value of a string of decimal digits. */
  function DecimalValue(s: string): nat
    requires forall i :: 0 <= i < |s| ==> IsDigit(s[i])
  {
    if s == [] then 0
    else
      assert IsDigit(s[|s| - 1]);
      DecimalValue(s[..|s| - 1]) * 10 + (s[|s| - 1] as int - 48)
  }

  /** Reading back the rendered digits gives the number. */
  lemma {:induction false} DecimalRoundTrip(n: nat)
    ensures DecimalValue(NatToString(n)) == n
  {
    if n >= 10 {
      var r := NatToString(n);
      assert r[..|r| - 1] == NatToString(n / 10);
      DecimalRoundTrip(n / 10);
    }
  }

  /** Distinct numbers render as distinct strings. */
  lemma NatToStringInjective(a: nat, b: nat)
    requires NatToString(a) == NatToString(b)
    ensures a == b
  {
    DecimalRoundTrip(a);
    DecimalRoundTrip(b);
  }

  // ------------------------------------------------------- lower case

  function LowerChar(c: char): char {
    if 'A' <= c <= 'Z' then (c as int + 32) as char else c
  }

  /** `toLowerCase` on ASCII letters; other characters are kept. */
  function ToLower(s: string): (r: string)
    ensures |r| == |s|
    ensures forall i :: 0 <= i < |s| ==> r[i] == LowerChar(s[i])
  {
    if s == [] then [] else [LowerChar(s[0])] + ToLower(s[1..])
  }

  /** Lower-casing leaves no upper-case letter and is idempotent. */
  lemma ToLowerIdempotent(s: string)
    ensures forall i :: 0 <= i < |s| ==> !('A' <= ToLower(s)[i] <= 'Z')
    ensures ToLower(ToLower(s)) == ToLower(s)
  {
  }
}
