/** Character-level primitives behind the dialogue segmenter: Python's
    whitespace class, `str.strip()`, `str.split()` (no separator),
    `str.split(sep)` with a one-character separator, and `sep.join(...)`.
    Strings are `seq<char>`, one element per Unicode code point. */
module Text {

  /** The code points for which Python's `str.isspace()` holds; `strip()` and
      argument-less `split()` treat exactly these as whitespace. */
  predicate IsSpace(c: char) {
    || c == ' ' || c == '\t' || c == '\n' || c == '\r'
    || c == '\U{0b}' || c == '\U{0c}'
    || c == '\U{1c}' || c == '\U{1d}' || c == '\U{1e}' || c == '\U{1f}'
    || c == '\U{85}' || c == '\U{a0}' || c == '\U{1680}'
    || ('\U{2000}' <= c <= '\U{200a}')
    || c == '\U{2028}' || c == '\U{2029}' || c == '\U{202f}'
    || c == '\U{205f}' || c == '\U{3000}'
  }

  /** A word as `split()` produces it: non-empty, no whitespace. */
  predicate IsWord(w: string) {
    |w| > 0 && forall i :: 0 <= i < |w| ==> !IsSpace(w[i])
  }

  predicate AllWords(ws: seq<string>) {
    forall i :: 0 <= i < |ws| ==> IsWord(ws[i])
  }

  /** Neither end of `s` is whitespace, and `s` is not empty. */
  predicate Stripped(s: string) {
    |s| > 0 && !IsSpace(s[0]) && !IsSpace(s[|s| - 1])
  }

  // ---------------------------------------------------------------------
  // strip()

  function StripLeft(s: string): (r: string)
    ensures |r| <= |s| && r == s[|s| - |r|..]
    ensures r == [] || !IsSpace(r[0])
  {
    if |s| > 0 && IsSpace(s[0]) then StripLeft(s[1..]) else s
  }

  function StripRight(s: string): (r: string)
    ensures |r| <= |s| && r == s[..|r|]
    ensures r == [] || !IsSpace(r[|r| - 1])
  {
    if |s| > 0 && IsSpace(s[|s| - 1]) then StripRight(s[..|s| - 1]) else s
  }

  /** Python's `s.strip()`: the longest infix of `s` that neither starts nor
      ends with whitespace, obtained by dropping whitespace at both ends. */
  function Strip(s: string): (r: string)
    ensures r == [] || Stripped(r)
  {
    StripRight(StripLeft(s))
  }

  /** `StripLeft` drops only whitespace. */
  lemma {:induction false} StripLeftDrops(s: string)
    ensures forall i :: 0 <= i < |s| - |StripLeft(s)| ==> IsSpace(s[i])
    decreases |s|
  {
    if |s| > 0 && IsSpace(s[0]) {
      StripLeftDrops(s[1..]);
      forall i | 1 <= i < |s| - |StripLeft(s)| ensures IsSpace(s[i]) {
        assert s[i] == s[1..][i - 1];
      }
    }
  }

  /** `StripRight` drops only whitespace. */
  lemma {:induction false} StripRightDrops(s: string)
    ensures forall i :: |StripRight(s)| <= i < |s| ==> IsSpace(s[i])
    decreases |s|
  {
    if |s| > 0 && IsSpace(s[|s| - 1]) {
      StripRightDrops(s[..|s| - 1]);
    }
  }

  /** `s.strip()` is empty exactly when `s` is blank, i.e. all whitespace. */
  lemma StripBlank(s: string)
    ensures Strip(s) == [] <==> forall i :: 0 <= i < |s| ==> IsSpace(s[i])
  {
    var l := StripLeft(s);
    StripLeftDrops(s);
    StripRightDrops(l);
  }

  /** The stripped string is an infix of the original. */
  lemma StripIsInfix(s: string)
    ensures exists a :: 0 <= a <= |s| - |Strip(s)| && Strip(s) == s[a..][..|Strip(s)|]
  {
    var l := StripLeft(s);
    var r := StripRight(l);
    var d := |s| - |l|;
    assert Strip(s) == r == s[d..][..|r|];
  }

  // ---------------------------------------------------------------------
  // split() with no separator

  /** Length of the maximal whitespace-free prefix of `s`. */
  function WordEnd(s: string): (k: nat)
    ensures k <= |s|
    ensures k < |s| ==> IsSpace(s[k])
  {
    if |s| == 0 || IsSpace(s[0]) then 0 else 1 + WordEnd(s[1..])
  }

  /** The prefix `WordEnd` measures is free of whitespace. */
  lemma {:induction false} WordEndNoSpace(s: string)
    ensures forall i :: 0 <= i < WordEnd(s) ==> !IsSpace(s[i])
    decreases |s|
  {
    if |s| > 0 && !IsSpace(s[0]) {
      WordEndNoSpace(s[1..]);
      forall i | 1 <= i < WordEnd(s) ensures !IsSpace(s[i]) {
        assert s[i] == s[1..][i - 1];
      }
    }
  }

  /** Python's `s.split()`: the maximal runs of non-whitespace, in order. */
  function SplitWords(s: string): seq<string>
    decreases |s|
  {
    if |s| == 0 then []
    else if IsSpace(s[0]) then SplitWords(s[1..])
    else
      var k := WordEnd(s);
      [s[..k]] + SplitWords(s[k..])
  }

  /** `SplitWords` over a list of strings, concatenated in order. */
  function WordsOf(ss: seq<string>): seq<string> {
    if |ss| == 0 then [] else SplitWords(ss[0]) + WordsOf(ss[1..])
  }

  /** Total word count of a list of strings. */
  function CountWords(ss: seq<string>): nat {
    |WordsOf(ss)|
  }

  // ---------------------------------------------------------------------
  // sep.join(parts) and s.split(sep)

  /** Python's `sep.join(parts)` for a one-character separator. */
  function Join(parts: seq<string>, sep: char): (r: string)
    ensures |parts| == 0 ==> r == []
    ensures |parts| == 1 ==> r == parts[0]
  {
    if |parts| == 0 then []
    else if |parts| == 1 then parts[0]
    else parts[0] + [sep] + Join(parts[1..], sep)
  }

  /** Python's `s.split(sep)` for a one-character separator: the pieces
      between consecutive occurrences of `sep`; always at least one piece. */
  function SplitOn(s: string, sep: char): (ps: seq<string>)
    ensures |ps| >= 1
    ensures forall i :: 0 <= i < |ps| ==> sep !in ps[i]
  {
    if |s| == 0 then [[]]
    else
      var rest := SplitOn(s[1..], sep);
      if s[0] == sep then [[]] + rest
      else [[s[0]] + rest[0]] + rest[1..]
  }

  /** Every occurrence of `from` in `s` replaced by `to`. */
  function ReplaceChar(s: string, from: char, to: char): (r: string)
    ensures |r| == |s|
  {
    seq(|s|, i requires 0 <= i < |s| => if s[i] == from then to else s[i])
  }

  // ---------------------------------------------------------------------
  // Lemmas

  /** Joining the pieces of a split with another separator is the same as
      replacing the separator in place. */
  lemma {:induction false} JoinSplitOnReplaces(s: string, sep: char, to: char)
    ensures Join(SplitOn(s, sep), to) == ReplaceChar(s, sep, to)
    decreases |s|
  {
    if |s| > 0 {
      var rest := SplitOn(s[1..], sep);
      JoinSplitOnReplaces(s[1..], sep, to);
      assert ReplaceChar(s, sep, to) == [if s[0] == sep then to else s[0]] + ReplaceChar(s[1..], sep, to);
      if s[0] != sep && |rest| > 1 {
        assert ([[s[0]] + rest[0]] + rest[1..])[1..] == rest[1..];
        assert Join(rest, to) == rest[0] + [to] + Join(rest[1..], to);
      } else if s[0] == sep {
        assert ([[]] + rest)[1..] == rest;
      }
    }
  }

  /** `s.split(sep)` followed by `sep.join(...)` gives back `s`. */
  lemma {:induction false} SplitOnJoinRoundTrip(s: string, sep: char)
    ensures Join(SplitOn(s, sep), sep) == s
  {
    JoinSplitOnReplaces(s, sep, sep);
    assert ReplaceChar(s, sep, sep) == s;
  }

  lemma {:induction false} WordEndAppend(a: string, b: string)
    requires |b| == 0 || IsSpace(b[0]) || (|a| > 0 && IsSpace(a[|a| - 1]))
    ensures WordEnd(a + b) == WordEnd(a)
    decreases |a|
  {
    if |a| > 0 && !IsSpace(a[0]) {
      assert (a + b)[1..] == a[1..] + b;
      WordEndAppend(a[1..], b);
    }
  }

  /** Words never straddle a whitespace boundary: splitting a concatenation
      whose seam is whitespace splits each side separately. */
  lemma {:induction false} SplitWordsAppend(a: string, b: string)
    requires |a| == 0 || |b| == 0 || IsSpace(a[|a| - 1]) || IsSpace(b[0])
    ensures SplitWords(a + b) == SplitWords(a) + SplitWords(b)
    decreases |a|, 1
  {
    if |a| == 0 {
      assert a + b == b;
    } else if IsSpace(a[0]) {
      assert (a + b)[1..] == a[1..] + b;
      SplitWordsAppend(a[1..], b);
    } else {
      SplitWordsAppendWord(a, b);
    }
  }

  /** Case of `SplitWordsAppend`: `a` starts with a word, which ends before
      the seam. */
  lemma {:induction false} SplitWordsAppendWord(a: string, b: string)
    requires |a| > 0 && !IsSpace(a[0])
    requires |b| == 0 || IsSpace(a[|a| - 1]) || IsSpace(b[0])
    ensures SplitWords(a + b) == SplitWords(a) + SplitWords(b)
    decreases |a|, 0
  {
    var k := WordEnd(a);
    WordEndAppend(a, b);
    assert (a + b)[..k] == a[..k];
    assert (a + b)[k..] == a[k..] + b;
    assert SplitWords(a + b) == [a[..k]] + SplitWords(a[k..] + b);
    SplitWordsAppend(a[k..], b);
  }

  lemma WordsOfAppend(xs: seq<string>, ys: seq<string>)
    ensures WordsOf(xs + ys) == WordsOf(xs) + WordsOf(ys)
  {
    if |xs| > 0 {
      assert (xs + ys)[1..] == xs[1..] + ys;
      WordsOfAppend(xs[1..], ys);
    } else {
      assert xs + ys == ys;
    }
  }

  /** Joining with a whitespace separator neither merges nor loses words. */
  lemma {:induction false} SplitWordsJoin(parts: seq<string>, sep: char)
    requires IsSpace(sep)
    ensures SplitWords(Join(parts, sep)) == WordsOf(parts)
  {
    if |parts| == 1 {
      assert WordsOf(parts) == SplitWords(parts[0]) + WordsOf(parts[1..]);
    } else if |parts| > 1 {
      var tail := Join(parts[1..], sep);
      SplitWordsAppend(parts[0], [sep] + tail);
      assert ([sep] + tail)[1..] == tail;
      SplitWordsJoin(parts[1..], sep);
      assert parts[0] + [sep] + tail == parts[0] + ([sep] + tail);
    }
  }

  /** A single word splits to itself. */
  lemma {:induction false} SplitWordsOfWord(w: string)
    requires IsWord(w)
    ensures SplitWords(w) == [w]
  {
    assert WordEnd(w) == |w|;
    assert w[..|w|] == w;
    assert w[|w|..] == [];
  }

  /** Joining words with a space and splitting again gives the words back. */
  lemma {:induction false} SplitJoinedWords(ws: seq<string>)
    requires AllWords(ws)
    ensures SplitWords(Join(ws, ' ')) == ws
  {
    SplitWordsJoin(ws, ' ');
    WordsOfWords(ws);
  }

  lemma {:induction false} WordsOfWords(ws: seq<string>)
    requires AllWords(ws)
    ensures WordsOf(ws) == ws
  {
    if |ws| > 0 {
      SplitWordsOfWord(ws[0]);
      WordsOfWords(ws[1..]);
      assert ws == [ws[0]] + ws[1..];
    }
  }

  /** Stripping never changes the words of a string. */
  lemma {:induction false} SplitWordsStrip(s: string)
    ensures SplitWords(Strip(s)) == SplitWords(s)
  {
    var l := StripLeft(s);
    StripLeftKeepsWords(s);
    StripRightKeepsWords(l);
  }

  lemma {:induction false} StripLeftKeepsWords(s: string)
    ensures SplitWords(StripLeft(s)) == SplitWords(s)
    decreases |s|
  {
    if |s| > 0 && IsSpace(s[0]) {
      StripLeftKeepsWords(s[1..]);
    }
  }

  lemma {:induction false} StripRightKeepsWords(s: string)
    ensures SplitWords(StripRight(s)) == SplitWords(s)
    decreases |s|
  {
    if |s| > 0 && IsSpace(s[|s| - 1]) {
      var p := s[..|s| - 1];
      StripRightKeepsWords(p);
      SplitWordsAppend(p, [s[|s| - 1]]);
      assert p + [s[|s| - 1]] == s;
      assert SplitWords([s[|s| - 1]]) == SplitWords([s[|s| - 1]][1..]);
    }
  }

  /** A string with a non-whitespace first character has at least one word. */
  lemma SplitWordsNonEmpty(s: string)
    requires |s| > 0 && !IsSpace(s[0])
    ensures |SplitWords(s)| >= 1
  {
  }

  /** `split()` yields words. */
  lemma {:induction false} SplitWordsAreWords(s: string)
    ensures AllWords(SplitWords(s))
    decreases |s|
  {
    if |s| > 0 {
      if IsSpace(s[0]) {
        SplitWordsAreWords(s[1..]);
      } else {
        WordEndNoSpace(s);
        SplitWordsAreWords(s[WordEnd(s)..]);
      }
    }
  }

  // ---------------------------------------------------------------------
  // `sub in s`, `s.find(c)`, `s.lower()` and `str(n)`

  /** Python's `sub in s`: `sub` occurs in `s` as a contiguous run. */
  predicate Contains(s: string, sub: string)
    decreases |s|
  {
    |sub| <= |s| && (s[..|sub|] == sub || Contains(s[1..], sub))
  }

  /** `Contains` means an occurrence at some offset. */
  lemma {:induction false} ContainsAt(s: string, sub: string)
    ensures Contains(s, sub) <==> exists i :: 0 <= i <= |s| - |sub| && s[i..][..|sub|] == sub
    decreases |s|
  {
    if |sub| <= |s| {
      assert s[0..] == s;
    }
    if 0 < |s| && |sub| <= |s| {
      ContainsAt(s[1..], sub);
      if Contains(s[1..], sub) {
        var i :| 0 <= i <= |s| - 1 - |sub| && s[1..][i..][..|sub|] == sub;
        assert s[i + 1..] == s[1..][i..];
      }
      if exists i :: 0 <= i <= |s| - |sub| && s[i..][..|sub|] == sub {
        var i :| 0 <= i <= |s| - |sub| && s[i..][..|sub|] == sub;
        if i > 0 {
          assert s[1..][i - 1..] == s[i..];
        }
      }
    }
  }

  /** Whatever surrounds it, a string contains each of its parts. */
  lemma {:induction false} ContainsInfix(a: string, sub: string, b: string)
    ensures Contains(a + sub + b, sub)
    decreases |a|
  {
    if |a| == 0 {
      assert a + sub + b == sub + b;
      assert (sub + b)[..|sub|] == sub;
    } else {
      ContainsInfix(a[1..], sub, b);
      assert (a + sub + b)[1..] == a[1..] + sub + b;
    }
  }

  /** An occurrence of `sub` starts with `sub[0]`, so a prefix free of that
      character can be skipped. */
  lemma {:induction false} ContainsSkip(a: string, b: string, sub: string)
    requires |sub| > 0 && sub[0] !in a
    ensures Contains(a + b, sub) == Contains(b, sub)
    decreases |a|
  {
    if |a| > 0 {
      assert (a + b)[1..] == a[1..] + b;
      if |sub| <= |a + b| {
        assert (a + b)[..|sub|][0] == a[0];
      }
      ContainsSkip(a[1..], b, sub);
    } else {
      assert a + b == b;
    }
  }

  /** A string without the first character of `sub` does not contain it. */
  lemma ContainsNeedsHead(s: string, sub: string)
    requires |sub| > 0 && sub[0] !in s
    ensures !Contains(s, sub)
  {
    ContainsSkip(s, [], sub);
    assert s + [] == s;
  }

  /** The index of the first occurrence of `c` in `s`, or `|s|` when there
      is none: where `s.split(c, 1)` cuts and whether `c in s`. */
  function Find(s: string, c: char): (i: nat)
    ensures i <= |s| && c !in s[..i]
    ensures i < |s| ==> s[i] == c
  {
    if |s| == 0 then 0
    else if s[0] == c then 0
    else
      var j := Find(s[1..], c);
      assert s[..j + 1] == [s[0]] + s[1..][..j];
      1 + j
  }

  /** `Find` stops at the first occurrence: a prefix free of `c` is skipped. */
  lemma {:induction false} FindAfter(a: string, b: string, c: char)
    requires c !in a
    ensures Find(a + b, c) == |a| + Find(b, c)
    decreases |a|
  {
    if |a| > 0 {
      assert (a + b)[1..] == a[1..] + b;
      FindAfter(a[1..], b, c);
    } else {
      assert a + b == b;
    }
  }

  /** `c.lower()` for an ASCII letter; every other character is kept. */
  function LowerChar(c: char): (r: char)
    ensures 'A' <= c <= 'Z' ==> 'a' <= r <= 'z' && r as int == c as int + 32
    ensures !('A' <= c <= 'Z') ==> r == c
  {
    if 'A' <= c <= 'Z' then (c as int + 32) as char else c
  }

  /** `s.lower()` over ASCII. */
  function Lower(s: string): (r: string)
    ensures |r| == |s|
  {
    seq(|s|, i requires 0 <= i < |s| => LowerChar(s[i]))
  }

  /** Lowercasing twice changes nothing more. */
  lemma LowerIdempotent(s: string)
    ensures Lower(Lower(s)) == Lower(s)
  {
  }

  /** Lowercasing works character by character, so it distributes over
      concatenation. */
  lemma LowerAppend(a: string, b: string)
    ensures Lower(a + b) == Lower(a) + Lower(b)
  {
    var l, r := Lower(a + b), Lower(a) + Lower(b);
    forall i | 0 <= i < |l| ensures l[i] == r[i] {
      if i >= |a| {
        assert (a + b)[i] == b[i - |a|];
      }
    }
  }

  predicate IsDigit(c: char) {
    '0' <= c <= '9'
  }

  function DigitChar(d: nat): (c: char)
    requires d < 10
    ensures IsDigit(c) && c as int - '0' as int == d
  {
    ('0' as int + d) as char
  }

  /** Python's `str(n)` for a natural number: its decimal digits, most
      significant first, without leading zeros. */
  function NatToString(n: nat): (s: string)
    ensures |s| > 0
    decreases n
  {
    if n < 10 then [DigitChar(n)] else NatToString(n / 10) + [DigitChar(n % 10)]
  }

  /** The number a string of decimal digits denotes. */
  function DigitsValue(s: string): nat
    requires forall i :: 0 <= i < |s| ==> IsDigit(s[i])
  {
    if |s| == 0 then 0
    else
      assert IsDigit(s[|s| - 1]);
      10 * DigitsValue(s[..|s| - 1]) + (s[|s| - 1] as int - '0' as int)
  }

  /** `str(n)` is all digits, starts with a non-zero digit unless `n` is 0,
      and reads back as `n`. */
  lemma {:induction false} NatToStringDigits(n: nat)
    ensures forall i :: 0 <= i < |NatToString(n)| ==> IsDigit(NatToString(n)[i])
    ensures NatToString(n)[0] == '0' ==> n == 0
    ensures DigitsValue(NatToString(n)) == n
    decreases n
  {
    if n >= 10 {
      var s := NatToString(n / 10);
      NatToStringDigits(n / 10);
      var t := s + [DigitChar(n % 10)];
      assert t[..|t| - 1] == s;
      assert forall i :: 0 <= i < |t| - 1 ==> t[i] == s[i];
    }
  }

  /** A string starts with its own head. */
  lemma ContainsHead(h: string, rest: string)
    ensures Contains(h + rest, h)
  {
    assert (h + rest)[..|h|] == h;
  }

  /** An occurrence survives putting text in front. */
  lemma {:induction false} ContainsPrefix(p: string, s: string, sub: string)
    requires Contains(s, sub)
    ensures Contains(p + s, sub)
    decreases |p|
  {
    if |p| > 0 {
      assert (p + s)[1..] == p[1..] + s;
      ContainsPrefix(p[1..], s, sub);
    } else {
      assert p + s == s;
    }
  }
}
