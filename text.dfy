/**
  The JavaScript string primitives the core relies on, over `string` = `seq<char>`
  (one element per character; text here is ASCII): `trim`, `includes`, `startsWith`,
  `split` with a non-empty separator, `join`, `substring(0, n)`, ASCII case
  mapping and the decimal rendering of an integer (`Number.prototype.toString`).
*/
module Text {
  import Seqs

  /** The code points JavaScript's `trim` removes and `\s` matches (WhiteSpace and LineTerminator). */
  predicate IsWhite(c: char) {
    c == ' ' || c == '\t' || c == '\n' || c == '\r' || c == '\U{000B}' || c == '\U{000C}'
    || c == '\U{00A0}' || c == '\U{1680}' || ('\U{2000}' <= c <= '\U{200A}')
    || c == '\U{2028}' || c == '\U{2029}' || c == '\U{202F}' || c == '\U{205F}'
    || c == '\U{3000}' || c == '\U{FEFF}'
  }

  predicate AllWhite(s: string) {
    forall k :: 0 <= k < |s| ==> IsWhite(s[k])
  }

  /** Drops leading white space. */
  function TrimStart(s: string): (r: string)
    ensures |r| <= |s|
    ensures r != [] ==> !IsWhite(r[0])
  {
    if |s| > 0 && IsWhite(s[0]) then TrimStart(s[1..]) else s
  }

  /** What TrimStart keeps is the suffix that follows a white prefix. */
  lemma {:induction false} TrimStartIsSuffix(s: string)
    ensures var r := TrimStart(s); r == s[|s| - |r|..] && AllWhite(s[..|s| - |r|])
    decreases |s|
  {
    if |s| > 0 && IsWhite(s[0]) {
      var tail := s[1..];
      TrimStartIsSuffix(tail);
      var n := |s| - |TrimStart(tail)|;
      assert tail[n - 1..] == s[n..];
      assert forall k :: 0 < k < n ==> s[..n][k] == tail[..n - 1][k - 1];
    }
  }

  /** Drops trailing white space. */
  function TrimEnd(s: string): (r: string)
    ensures |r| <= |s|
    ensures r != [] ==> !IsWhite(r[|r| - 1])
  {
    if |s| > 0 && IsWhite(s[|s| - 1]) then TrimEnd(s[..|s| - 1]) else s
  }

  /** What TrimEnd keeps is the prefix that precedes a white suffix. */
  lemma {:induction false} TrimEndIsPrefix(s: string)
    ensures var r := TrimEnd(s); r == s[..|r|] && AllWhite(s[|r|..])
    decreases |s|
  {
    if |s| > 0 && IsWhite(s[|s| - 1]) {
      var init := s[..|s| - 1];
      TrimEndIsPrefix(init);
      var n := |TrimEnd(init)|;
      assert init[..n] == s[..n];
      assert forall k :: 0 <= k < |s| - n - 1 ==> s[n..][k] == init[n..][k];
    }
  }

  /** `s.trim()`: the text between the leading and the trailing white space. */
  function Trim(s: string): (r: string)
    ensures |r| <= |s|
    ensures r != [] ==> !IsWhite(r[0]) && !IsWhite(r[|r| - 1])
  {
    var t := TrimStart(s);
    TrimEndIsPrefix(t);
    TrimEnd(t)
  }

  /** What trimming keeps is the middle of the text, with only white space on either side of it. */
  lemma TrimIsMiddle(s: string)
    ensures var r := Trim(s);
      exists i :: 0 <= i <= |s| - |r| && r == s[i..i + |r|] && AllWhite(s[..i]) && AllWhite(s[i + |r|..])
  {
    var t := TrimStart(s);
    var r := TrimEnd(t);
    TrimStartIsSuffix(s);
    TrimEndIsPrefix(t);
    var i := |s| - |t|;
    assert r == s[i..i + |r|];
    assert s[i + |r|..] == t[|r|..];
  }

  lemma {:induction false} TrimStartOfWhitePrefix(w: string, x: string)
    requires AllWhite(w)
    ensures TrimStart(w + x) == TrimStart(x)
    decreases |w|
  {
    if w != [] {
      assert (w + x)[0] == w[0] && IsWhite(w[0]);
      assert (w + x)[1..] == w[1..] + x;
      TrimStartOfWhitePrefix(w[1..], x);
    } else {
      assert w + x == x;
    }
  }

  lemma {:induction false} TrimEndOfWhiteSuffix(x: string, w: string)
    requires AllWhite(w)
    ensures TrimEnd(x + w) == TrimEnd(x)
    decreases |w|
  {
    if w != [] {
      assert (x + w)[|x + w| - 1] == w[|w| - 1] && IsWhite(w[|w| - 1]);
      assert (x + w)[..|x + w| - 1] == x + w[..|w| - 1];
      TrimEndOfWhiteSuffix(x, w[..|w| - 1]);
    } else {
      assert x + w == x;
    }
  }

  lemma {:induction false} TrimStartAppend(x: string, y: string)
    ensures AllWhite(x) ==> TrimStart(x + y) == TrimStart(y)
    ensures !AllWhite(x) ==> TrimStart(x + y) == TrimStart(x) + y
    decreases |x|
  {
    if x != [] {
      assert (x + y)[0] == x[0];
      assert AllWhite(x) ==> IsWhite(x[0]);
      assert AllWhite(x) && IsWhite(x[0]) ==> AllWhite(x[1..]);
      assert IsWhite(x[0]) && AllWhite(x[1..]) ==> AllWhite(x);
      assert (x + y)[1..] == x[1..] + y;
      TrimStartAppend(x[1..], y);
    } else {
      assert x + y == y;
    }
  }

  /** The text is blank exactly when trimming leaves nothing. */
  lemma {:induction false} TrimEmptyIffAllWhite(s: string)
    ensures Trim(s) == [] <==> AllWhite(s)
  {
    TrimStartAppend(s, []);
    assert s + [] == s;
    TrimStartIsSuffix(s);
    TrimEndIsPrefix(TrimStart(s));
    if !AllWhite(s) {
      assert TrimStart(s) != [];
      assert TrimEnd(TrimStart(s)) != [] by {
        var t := TrimStart(s);
        assert !IsWhite(t[0]);
      }
    }
  }

  /** White space around the text does not change its trim. */
  lemma TrimIgnoresPadding(w1: string, t: string, w2: string)
    requires AllWhite(w1) && AllWhite(w2)
    ensures Trim(w1 + t + w2) == Trim(t)
  {
    assert w1 + t + w2 == w1 + (t + w2);
    TrimStartOfWhitePrefix(w1, t + w2);
    TrimStartAppend(t, w2);
    if AllWhite(t) {
      TrimStartAppend(w2, []);
      assert w2 + [] == w2;
      TrimStartAppend(t, []);
      assert t + [] == t;
    } else {
      TrimEndOfWhiteSuffix(TrimStart(t), w2);
    }
  }

  /** A text that neither starts nor ends with white space is its own trim. */
  lemma TrimOfTrimmed(s: string)
    requires s != [] ==> !IsWhite(s[0]) && !IsWhite(s[|s| - 1])
    ensures Trim(s) == s
  {
    assert TrimStart(s) == s;
  }

  lemma TrimIdempotent(s: string)
    ensures Trim(Trim(s)) == Trim(s)
  {
  }

  /** `s.startsWith(p)`. */
  predicate StartsWith(s: string, p: string) {
    |p| <= |s| && s[..|p|] == p
  }

  /** `s.endsWith(p)`. */
  predicate EndsWith(s: string, p: string) {
    |p| <= |s| && s[|s| - |p|..] == p
  }

  lemma EndsWithLast(s: string, p: string)
    requires EndsWith(s, p)
    ensures p != [] ==> s[|s| - 1] == p[|p| - 1]
  {
    if p != [] { assert s[|s| - |p|..][|p| - 1] == p[|p| - 1]; }
  }

  /** `s.includes(sub)`: `sub` occurs at some position of `s`. */
  predicate Contains(s: string, sub: string)
    decreases |s|
  {
    StartsWith(s, sub) || (|s| > 0 && Contains(s[1..], sub))
  }

  lemma ContainsLength(s: string, sub: string)
    requires Contains(s, sub)
    ensures |sub| <= |s|
  {
    if !StartsWith(s, sub) { ContainsLength(s[1..], sub); }
  }

  /** Containing a one-character string means containing that character. */
  lemma {:induction false} ContainsChar(s: string, c: char)
    ensures Contains(s, [c]) <==> c in s
  {
    if |s| > 0 {
      ContainsChar(s[1..], c);
      assert s == [s[0]] + s[1..];
    }
  }

  /** A string that contains `sub` still contains it with text added on either side. */
  lemma ContainsExtend(s: string, sub: string, a: string, b: string)
    requires Contains(s, sub)
    ensures Contains(a + s + b, sub)
  {
    if a != [] {
      assert (a + s + b)[1..] == a[1..] + s + b;
      ContainsExtend(s, sub, a[1..], b);
    } else if StartsWith(s, sub) {
      assert (a + s + b)[..|sub|] == s[..|sub|];
    } else {
      assert (a + s + b)[1..] == s[1..] + b;
      assert [] + s[1..] + b == s[1..] + b;
      ContainsExtend(s[1..], sub, [], b);
    }
  }

  /** A prefix of a string that does not contain `sub` does not contain it either. */
  lemma ContainsPrefix(s: string, n: nat, sub: string)
    requires n <= |s| && Contains(s[..n], sub)
    ensures Contains(s, sub)
  {
    assert s == s[..n] + s[n..];
    assert [] + s[..n] + s[n..] == s;
    ContainsExtend(s[..n], sub, [], s[n..]);
  }

  /** `s.split(sep)` for a non-empty string separator: matches are taken left to right without overlapping. */
  function Split(s: string, sep: string): (parts: seq<string>)
    requires |sep| > 0
    ensures |parts| >= 1
    decreases |s|
  {
    if |s| < |sep| then [s]
    else if s[..|sep|] == sep then [""] + Split(s[|sep|..], sep)
    else
      var rest := Split(s[1..], sep);
      [[s[0]] + rest[0]] + rest[1..]
  }

  /** `parts.join(sep)`. */
  function Join(parts: seq<string>, sep: string): string
  {
    if parts == [] then ""
    else if |parts| == 1 then parts[0]
    else parts[0] + sep + Join(parts[1..], sep)
  }

  lemma JoinCons(first: string, rest: seq<string>, sep: string)
    requires |rest| >= 1
    ensures Join([first] + rest, sep) == first + sep + Join(rest, sep)
  {
    assert ([first] + rest)[1..] == rest;
  }

  lemma JoinFirstIsPrefix(parts: seq<string>, sep: string)
    requires |parts| >= 1
    ensures |parts[0]| <= |Join(parts, sep)| && Join(parts, sep)[..|parts[0]|] == parts[0]
  {
  }

  /** Splitting and joining again with the same separator gives the original text back. */
  lemma {:induction false} JoinSplit(s: string, sep: string)
    requires |sep| > 0
    ensures Join(Split(s, sep), sep) == s
    decreases |s|
  {
    if |s| < |sep| {
      assert Split(s, sep) == [s];
    } else if s[..|sep|] == sep {
      JoinSplit(s[|sep|..], sep);
      JoinSplitAtMatch(s, sep);
    } else {
      JoinSplit(s[1..], sep);
      JoinSplitAtChar(s, sep);
    }
  }

  lemma TakeDrop(s: string, n: nat)
    requires n <= |s|
    ensures s[..n] + s[n..] == s
  {
  }

  lemma JoinSplitAtMatch(s: string, sep: string)
    requires |sep| > 0 && |s| >= |sep| && s[..|sep|] == sep
    requires Join(Split(s[|sep|..], sep), sep) == s[|sep|..]
    ensures Join(Split(s, sep), sep) == s
  {
    var tail := s[|sep|..];
    var rest := Split(tail, sep);
    assert Split(s, sep) == [""] + rest;
    JoinCons("", rest, sep);
    TakeDrop(s, |sep|);
    assert "" + sep == sep;
  }

  lemma JoinSplitAtChar(s: string, sep: string)
    requires |sep| > 0 && |s| >= |sep| && s[..|sep|] != sep
    requires Join(Split(s[1..], sep), sep) == s[1..]
    ensures Join(Split(s, sep), sep) == s
  {
    var tail := s[1..];
    var rest := Split(tail, sep);
    assert Split(s, sep) == [[s[0]] + rest[0]] + rest[1..];
    JoinPrepend(s[0], rest, sep);
    assert s == [s[0]] + tail;
  }

  /** Putting a character in front of the first part puts it in front of the joined text. */
  lemma JoinPrepend(c: char, parts: seq<string>, sep: string)
    requires |parts| >= 1
    ensures Join([[c] + parts[0]] + parts[1..], sep) == [c] + Join(parts, sep)
  {
    var first := [c] + parts[0];
    if |parts| > 1 {
      var more := Join(parts[1..], sep);
      assert parts == [parts[0]] + parts[1..];
      JoinCons(parts[0], parts[1..], sep);
      JoinCons(first, parts[1..], sep);
      assert first + sep + more == [c] + (parts[0] + sep + more);
    }
  }

  /** The first part is the text before the first match. */
  lemma SplitFirstIsPrefix(s: string, sep: string)
    requires |sep| > 0
    ensures var parts := Split(s, sep); |parts[0]| <= |s| && s[..|parts[0]|] == parts[0]
  {
    JoinSplit(s, sep);
    JoinFirstIsPrefix(Split(s, sep), sep);
  }

  /** No part of a split contains the separator. */
  lemma {:induction false} SplitPartsAvoidSeparator(s: string, sep: string)
    requires |sep| > 0
    ensures forall k :: 0 <= k < |Split(s, sep)| ==> !Contains(Split(s, sep)[k], sep)
    decreases |s|
  {
    var parts := Split(s, sep);
    if |s| < |sep| {
      if Contains(s, sep) { ContainsLength(s, sep); }
    } else if s[..|sep|] == sep {
      SplitPartsAvoidSeparator(s[|sep|..], sep);
      assert !Contains("", sep);
      forall k | 0 <= k < |parts| ensures !Contains(parts[k], sep) {
        if k > 0 { assert parts[k] == Split(s[|sep|..], sep)[k - 1]; }
      }
    } else {
      var rest := Split(s[1..], sep);
      SplitPartsAvoidSeparator(s[1..], sep);
      var first := [s[0]] + rest[0];
      SplitFirstIsPrefix(s[1..], sep);
      assert first == s[..|first|];
      assert !StartsWith(first, sep) by {
        if |sep| <= |first| {
          assert first[..|sep|] == s[..|sep|];
        }
      }
      assert first[1..] == rest[0];
      assert !Contains(first, sep);
      forall k | 0 <= k < |parts| ensures !Contains(parts[k], sep) {
        if k > 0 { assert parts[k] == rest[k]; }
      }
    }
  }

  /** Without a match the split yields the whole text as its one part. */
  lemma {:induction false} SplitWithoutMatch(s: string, sep: string)
    requires |sep| > 0 && !Contains(s, sep)
    ensures Split(s, sep) == [s]
    decreases |s|
  {
    if |s| >= |sep| {
      assert !StartsWith(s, sep);
      SplitWithoutMatch(s[1..], sep);
      assert [s[0]] + s[1..] == s;
    }
  }

  /** With a match the last part is the text after the last separator taken by the split. */
  lemma SplitWithMatch(s: string, sep: string)
    requires |sep| > 0 && Contains(s, sep)
    ensures var parts := Split(s, sep);
      |parts| >= 2 && s == Join(parts[..|parts| - 1], sep) + sep + parts[|parts| - 1]
  {
    var parts := Split(s, sep);
    JoinSplit(s, sep);
    if |parts| == 1 {
      SplitPartsAvoidSeparator(s, sep);
      assert false;
    }
    JoinAllButLast(parts, sep);
  }

  lemma {:induction false} JoinAllButLast(parts: seq<string>, sep: string)
    requires |parts| >= 2
    ensures Join(parts, sep) == Join(parts[..|parts| - 1], sep) + sep + parts[|parts| - 1]
    decreases |parts|
  {
    var n := |parts|;
    var init := parts[..n - 1];
    var last := parts[n - 1];
    if n == 2 {
      assert parts[1..] == [last] && init == [parts[0]];
    } else {
      JoinAllButLast(parts[1..], sep);
      assert parts[1..][..n - 2] == init[1..] && parts[1..][n - 2] == last;
      var m := Join(init[1..], sep);
      assert Join(parts, sep) == parts[0] + sep + (m + sep + last);
      assert init[0] == parts[0];
      assert Join(init, sep) == parts[0] + sep + m;
      assert parts[0] + sep + (m + sep + last) == (parts[0] + sep + m) + sep + last;
    }
  }

  /** With at least two parts, the text is the first part, a separator, and the rest joined. */
  lemma SplitFirstSeparator(s: string, sep: string)
    requires |sep| > 0 && |Split(s, sep)| >= 2
    ensures var parts := Split(s, sep); s == parts[0] + sep + Join(parts[1..], sep)
  {
    var parts := Split(s, sep);
    JoinSplit(s, sep);
    assert parts == [parts[0]] + parts[1..];
    JoinCons(parts[0], parts[1..], sep);
  }

  /** Splitting on one character splits the two sides of an occurrence of it independently. */
  lemma {:induction false} SplitConcat(x: string, c: char, y: string)
    ensures Split(x + [c] + y, [c]) == Split(x, [c]) + Split(y, [c])
    decreases |x|
  {
    var s := x + [c] + y;
    if x == [] {
      assert s == [c] + y;
      SplitCharStep(s, c);
      assert s[1..] == y;
    } else {
      var x1 := x[1..];
      var s1 := x1 + [c] + y;
      assert s[0] == x[0] && s[1..] == s1;
      SplitConcat(x1, c, y);
      SplitCharStep(s, c);
      SplitCharStep(x, c);
      var front := Split(x1, [c]);
      var back := Split(y, [c]);
      if x[0] == c {
        Seqs.ConcatAssoc([""], front, back);
      } else {
        Seqs.HeadOfConcat(front, back);
        Seqs.ConcatAssoc([[x[0]] + front[0]], front[1..], back);
      }
    }
  }

  /** Split on one character, unfolded once. */
  lemma SplitCharStep(s: string, c: char)
    requires s != []
    ensures var rest := Split(s[1..], [c]);
      Split(s, [c]) == if s[0] == c then [""] + rest else [[s[0]] + rest[0]] + rest[1..]
  {
    assert s[..1] == [s[0]];
  }

  /** A character-free first part is split off whole. */
  lemma SplitAtChar(x: string, c: char, y: string)
    requires c !in x
    ensures Split(x + [c] + y, [c]) == [x] + Split(y, [c])
  {
    SplitConcat(x, c, y);
    ContainsChar(x, c);
    SplitWithoutMatch(x, [c]);
  }

  /** Containing a text means containing each of its prefixes. */
  lemma {:induction false} ContainsStartOf(s: string, sub: string, p: string)
    requires Contains(s, sub) && StartsWith(sub, p)
    ensures Contains(s, p)
    decreases |s|
  {
    if StartsWith(s, sub) {
      assert s[..|p|] == sub[..|p|];
    } else {
      ContainsStartOf(s[1..], sub, p);
    }
  }

  /** `s.substring(0, n)` for `n >= 0`. */
  function Take(s: string, n: nat): (r: string)
    ensures |r| == if n <= |s| then n else |s|
    ensures r == s[..|r|]
  {
    if n <= |s| then s[..n] else s
  }

  /** `toLowerCase` and `toUpperCase` restricted to ASCII letters. */
  function ToLowerChar(c: char): char {
    if 'A' <= c <= 'Z' then (c as int + 32) as char else c
  }

  function ToUpperChar(c: char): char {
    if 'a' <= c <= 'z' then (c as int - 32) as char else c
  }

  function ToLower(s: string): (r: string)
    ensures |r| == |s| && forall k :: 0 <= k < |s| ==> r[k] == ToLowerChar(s[k])
  {
    seq(|s|, k requires 0 <= k < |s| => ToLowerChar(s[k]))
  }

  function ToUpper(s: string): (r: string)
    ensures |r| == |s| && forall k :: 0 <= k < |s| ==> r[k] == ToUpperChar(s[k])
  {
    seq(|s|, k requires 0 <= k < |s| => ToUpperChar(s[k]))
  }

  predicate IsDigit(c: char) {
    48 <= c as int <= 57
  }

  function DigitChar(d: nat): (c: char)
    requires d < 10
    ensures IsDigit(c) && c as int - 48 == d
  {
    (d + 48) as char
  }

  /** The decimal rendering of a natural number, most significant digit first. */
  function NatToDecimal(n: nat): string {
    if n < 10 then [DigitChar(n)] else NatToDecimal(n / 10) + [DigitChar(n % 10)]
  }

  /** The rendering is a non-empty run of digits without a leading zero. */
  lemma {:induction false} NatToDecimalShape(n: nat)
    ensures var r := NatToDecimal(n);
      |r| >= 1 && (forall k :: 0 <= k < |r| ==> IsDigit(r[k])) && (|r| > 1 ==> r[0] != '0')
  {
    if n >= 10 {
      NatToDecimalShape(n / 10);
      var front := NatToDecimal(n / 10);
      assert NatToDecimal(n) == front + [DigitChar(n % 10)];
    }
  }

  /** `n.toString()` for an integer `n`. */
  function IntToDecimal(n: int): string {
    if n < 0 then "-" + NatToDecimal(-n) else NatToDecimal(n)
  }

  /** The value of a string of decimal digits, each character counting as its code minus that of '0'. */
  function DecimalValue(s: string): int {
    if s == [] then 0
    else DecimalValue(s[..|s| - 1]) * 10 + (s[|s| - 1] as int - 48)
  }

  /** Reads back a string made by IntToDecimal (an optional '-' then digits). */
  function ParseDecimal(s: string): int {
    if |s| > 0 && s[0] == '-' then 0 - DecimalValue(s[1..]) else DecimalValue(s)
  }

  lemma {:induction false} NatToDecimalRoundTrip(n: nat)
    ensures DecimalValue(NatToDecimal(n)) == n
  {
    if n >= 10 {
      NatToDecimalRoundTrip(n / 10);
      var r := NatToDecimal(n);
      assert r[..|r| - 1] == NatToDecimal(n / 10);
    }
  }

  /** The decimal rendering of an integer determines the integer. */
  lemma IntToDecimalRoundTrip(n: int)
    ensures ParseDecimal(IntToDecimal(n)) == n
  {
    if n < 0 {
      NatToDecimalRoundTrip(-n);
      assert IntToDecimal(n)[1..] == NatToDecimal(-n);
    } else {
      NatToDecimalRoundTrip(n);
      NatToDecimalShape(n);
    }
  }

  lemma IntToDecimalInjective(a: int, b: int)
    requires IntToDecimal(a) == IntToDecimal(b)
    ensures a == b
  {
    IntToDecimalRoundTrip(a);
    IntToDecimalRoundTrip(b);
  }
}
