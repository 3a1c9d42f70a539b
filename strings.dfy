/**
 * String operations of the Java and JavaScript standard libraries that the
 * modelled code relies on, written out with their exact edge cases:
 * `String.trim` in both languages (they disagree on which characters are
 * blank), decimal formatting of integers, `split`, `lastIndexOf`,
 * `startsWith`, `contains` and single-character replacement.
 */
module Strings {
  import opened Common

  /** Java's `String.trim` removes every leading and trailing char at or below U+0020. */
  predicate IsJavaSpace(c: char) {
    c <= ' '
  }

  /** ECMAScript WhiteSpace and LineTerminator code points, removed by `String.prototype.trim`. */
  predicate IsJsSpace(c: char) {
    || c == '\t' || c == '\n' || c == '\U{000B}' || c == '\U{000C}' || c == '\r' || c == ' '
    || c == '\U{00A0}' || c == '\U{1680}' || ('\U{2000}' <= c <= '\U{200A}')
    || c == '\U{2028}' || c == '\U{2029}' || c == '\U{202F}' || c == '\U{205F}'
    || c == '\U{3000}' || c == '\U{FEFF}'
  }

  /** Drops the leading characters that satisfy `p`. */
  function TrimStart(s: string, p: char -> bool): (r: string)
    ensures |r| <= |s| && r == s[|s| - |r|..]
    ensures forall i :: 0 <= i < |s| - |r| ==> p(s[i])
    ensures r != [] ==> !p(r[0])
  {
    if s != [] && p(s[0]) then TrimStart(s[1..], p) else s
  }

  /** Drops the trailing characters that satisfy `p`. */
  function TrimEnd(s: string, p: char -> bool): (r: string)
    ensures |r| <= |s| && r == s[..|r|]
    ensures forall i :: |r| <= i < |s| ==> p(s[i])
    ensures r != [] ==> !p(r[|r| - 1])
  {
    if s != [] && p(s[|s| - 1]) then TrimEnd(s[..|s| - 1], p) else s
  }

  function Trim(s: string, p: char -> bool): string {
    TrimEnd(TrimStart(s, p), p)
  }

  /** `s.trim()` in Java. */
  function JavaTrim(s: string): string {
    Trim(s, IsJavaSpace)
  }

  /** `s.trim()` in JavaScript. */
  function JsTrim(s: string): string {
    Trim(s, IsJsSpace)
  }

  /** A text whose end characters are not blank is its own trim. */
  lemma TrimKeeps(s: string, p: char -> bool)
    requires s != [] && !p(s[0]) && !p(s[|s| - 1])
    ensures Trim(s, p) == s
  {
  }

  /** One blank on either side of such a text is trimmed away. */
  lemma TrimPadded(s: string, p: char -> bool, a: char, b: char)
    requires s != [] && !p(s[0]) && !p(s[|s| - 1]) && p(a) && p(b)
    ensures Trim([a] + s + [b], p) == s
  {
    assert ([a] + s + [b])[1..] == s + [b];
    assert TrimStart(s + [b], p) == s + [b];
    assert (s + [b])[..|s|] == s;
  }

  /** The trimmed text is empty exactly when every character is blank. */
  lemma TrimEmptyIff(s: string, p: char -> bool)
    ensures Trim(s, p) == [] <==> forall i :: 0 <= i < |s| ==> p(s[i])
  {
    var t := TrimStart(s, p);
    if Trim(s, p) == [] {
      forall i | 0 <= i < |s| ensures p(s[i]) {
        if i >= |s| - |t| {
          assert s[i] == t[i - (|s| - |t|)];
        }
      }
    }
  }

  /** The trimmed text is a slice of the input whose margins are blank. */
  lemma TrimIsSlice(s: string, p: char -> bool) returns (k: nat)
    ensures k + |Trim(s, p)| <= |s| && s[k..k + |Trim(s, p)|] == Trim(s, p)
    ensures forall i :: 0 <= i < k ==> p(s[i])
    ensures forall i :: k + |Trim(s, p)| <= i < |s| ==> p(s[i])
  {
    var t := TrimStart(s, p);
    var r := TrimEnd(t, p);
    k := |s| - |t|;
    TrimEndMargin(s, k, t, r, p);
  }

  /** The margin `TrimEnd` leaves on a suffix `t` of `s`, seen in `s`. */
  lemma TrimEndMargin(s: string, k: nat, t: string, r: string, p: char -> bool)
    requires k <= |s| && t == s[k..] && |r| <= |t| && r == t[..|r|]
    requires forall i :: |r| <= i < |t| ==> p(t[i])
    ensures s[k..k + |r|] == r
    ensures forall i :: k + |r| <= i < |s| ==> p(s[i])
  {
    forall i | k + |r| <= i < |s| ensures p(s[i]) {
      assert s[i] == t[i - k];
    }
  }

  /** Java's `"" + (Object) x`: a null reference is written as the text "null". */
  function JavaText(x: Option<string>): string {
    match x
    case Some(s) => s
    case None => "null"
  }

  predicate IsDigit(c: char) {
    '0' <= c <= '9'
  }

  function DigitChar(d: nat): (c: char)
    requires d < 10
    ensures IsDigit(c)
  {
    "0123456789"[d]
  }

  function DigitValue(c: char): (d: nat)
    requires IsDigit(c)
    ensures d < 10
  {
    (c as int - '0' as int) as nat
  }

  lemma DigitRoundTrip(d: nat)
    requires d < 10
    ensures DigitValue(DigitChar(d)) == d
  {
  }

  /** Decimal text of a natural number, as Java's and JavaScript's `toString` write it. */
  function NatToString(n: nat): (r: string)
    ensures r != []
    ensures forall i :: 0 <= i < |r| ==> IsDigit(r[i])
    ensures |r| > 1 ==> r[0] != '0'
    decreases n
  {
    if n < 10 then [DigitChar(n)] else NatToString(n / 10) + [DigitChar(n % 10)]
  }

  /** The number a string of decimal digits denotes. */
  function DigitsValue(s: string): nat
    requires forall i :: 0 <= i < |s| ==> IsDigit(s[i])
  {
    if s == [] then 0 else 10 * DigitsValue(s[..|s| - 1]) + DigitValue(s[|s| - 1])
  }

  /** Reading back the decimal text gives the number: formatting is injective. */
  lemma {:induction false} NatToStringRoundTrip(n: nat)
    ensures DigitsValue(NatToString(n)) == n
  {
    var s := NatToString(n);
    if n < 10 {
      DigitRoundTrip(n);
      assert s[..|s| - 1] == [];
    } else {
      NatToStringRoundTrip(n / 10);
      assert s[..|s| - 1] == NatToString(n / 10);
      DigitRoundTrip(n % 10);
    }
  }

  lemma NatToStringInjective(m: nat, n: nat)
    requires NatToString(m) == NatToString(n)
    ensures m == n
  {
    NatToStringRoundTrip(m);
    NatToStringRoundTrip(n);
  }

  /** Decimal text of an integer, with a leading '-' for negative numbers. */
  function IntToString(i: int): (r: string)
    ensures r != []
    ensures i >= 0 ==> r == NatToString(i)
    ensures i < 0 ==> r == "-" + NatToString(-i)
  {
    if i < 0 then "-" + NatToString(-i) else NatToString(i)
  }

  predicate StartsWith(s: string, prefix: string) {
    |prefix| <= |s| && s[..|prefix|] == prefix
  }

  /** `s.contains(t)` / `s.includes(t)`. */
  predicate Contains(s: string, t: string)
    decreases |s|
  {
    StartsWith(s, t) || (s != [] && Contains(s[1..], t))
  }

  lemma {:induction false} ContainsAt(s: string, t: string, k: nat)
    requires k + |t| <= |s| && s[k..k + |t|] == t
    ensures Contains(s, t)
    decreases k
  {
    if k > 0 {
      assert s[1..][k - 1..k - 1 + |t|] == s[k..k + |t|];
      ContainsAt(s[1..], t, k - 1);
    }
  }

  lemma {:induction false} ContainsWitness(s: string, t: string) returns (k: nat)
    requires Contains(s, t)
    ensures k + |t| <= |s| && s[k..k + |t|] == t
    decreases |s|
  {
    if StartsWith(s, t) {
      k := 0;
    } else {
      var j := ContainsWitness(s[1..], t);
      k := j + 1;
      assert s[k..k + |t|] == s[1..][j..j + |t|];
    }
  }

  /** Index of the last occurrence of `c`, or -1: `s.lastIndexOf(c)`. */
  function LastIndexOf(s: string, c: char): (r: int)
    ensures -1 <= r < |s|
    ensures r == -1 <==> c !in s
    ensures r >= 0 ==> s[r] == c && c !in s[r + 1..]
  {
    if s == [] then -1
    else if s[|s| - 1] == c then |s| - 1
    else
      var r := LastIndexOf(s[..|s| - 1], c);
      assert s == s[..|s| - 1] + [s[|s| - 1]];
      assert r >= 0 ==> s[r + 1..] == s[..|s| - 1][r + 1..] + [s[|s| - 1]];
      r
  }

  /** The only position of `c` with no `c` after it is the one `LastIndexOf` finds. */
  lemma LastIndexUnique(s: string, c: char, k: nat)
    requires k < |s| && s[k] == c && c !in s[k + 1..]
    ensures LastIndexOf(s, c) == k
  {
    assert s[k] in s;
  }

  /**
   * `s.split(c)` in JavaScript: the pieces between occurrences of `c`,
   * including the empty ones at either end.
   */
  function Split(s: string, c: char): (r: seq<string>)
    ensures |r| >= 1
    ensures forall k :: 0 <= k < |r| ==> c !in r[k]
    decreases |s|
  {
    if s == [] then [""]
    else
      var rest := Split(s[1..], c);
      if s[0] == c then [""] + rest
      else [[s[0]] + rest[0]] + rest[1..]
  }

  /** Only a text without `c` splits into a single piece. */
  lemma {:induction false} SplitSingle(s: string, c: char)
    requires |Split(s, c)| == 1
    ensures c !in s
    decreases |s|
  {
    if s != [] {
      SplitSingle(s[1..], c);
      assert s == [s[0]] + s[1..];
    }
  }

  /** The last piece is what follows the last `c`, or the whole text when there is none: `s.split(c).pop()`. */
  lemma {:induction false} SplitLast(s: string, c: char)
    ensures var p := Split(s, c); p[|p| - 1] == s[LastIndexOf(s, c) + 1..]
    decreases |s|
  {
    if s != [] {
      var t := s[1..];
      SplitLast(t, c);
      if c in t {
        SplitLastLater(s, c);
      } else if s[0] == c {
        LastIndexUnique(s, c, 0);
      } else {
        SplitNoSeparator(t, c);
        assert s == [s[0]] + t;
      }
    }
  }

  /** The step of `SplitLast` when the rest of the text holds a `c`. */
  lemma SplitLastLater(s: string, c: char)
    requires s != [] && c in s[1..]
    requires var p := Split(s[1..], c); p[|p| - 1] == s[1..][LastIndexOf(s[1..], c) + 1..]
    ensures var p := Split(s, c); p[|p| - 1] == s[LastIndexOf(s, c) + 1..]
  {
    var t := s[1..];
    var rest := Split(t, c);
    var j := LastIndexOf(t, c);
    LastIndexUnique(s, c, j + 1);
    assert s[j + 2..] == t[j + 1..];
    if s[0] != c && |rest| == 1 {
      SplitSingle(t, c);
    }
  }

  function Clamp(x: int, n: nat): (r: nat)
    ensures r <= n
  {
    if x < 0 then 0 else if x > n then n else x
  }

  /**
   * `s.substring(start, end)` in JavaScript: both ends are clamped to the
   * text, and they are swapped when `start` is past `end`.
   */
  function JsSubstring(s: string, start: int, end: int): (r: string)
    ensures |r| <= |s|
  {
    var a, b := Clamp(start, |s|), Clamp(end, |s|);
    if a <= b then s[a..b] else s[b..a]
  }

  /** From the start, `substring` is the prefix of the clamped length; a negative end gives the empty text. */
  lemma JsSubstringPrefix(s: string, end: int)
    ensures JsSubstring(s, 0, end) == s[..Clamp(end, |s|)]
    ensures end <= 0 ==> JsSubstring(s, 0, end) == ""
  {
  }

  /** The pieces put back together with `c` between them: `parts.join(c)`. */
  function Join(parts: seq<string>, c: char): string
  {
    if parts == [] then ""
    else if |parts| == 1 then parts[0]
    else parts[0] + [c] + Join(parts[1..], c)
  }

  /** Splitting loses nothing: joining the pieces gives the input back. */
  lemma {:induction false} JoinSplit(s: string, c: char)
    ensures Join(Split(s, c), c) == s
    decreases |s|
  {
    if s != [] {
      JoinSplit(s[1..], c);
      var rest := Split(s[1..], c);
      if s[0] != c {
        JoinFirstPiece(s[0], rest, c);
        assert s == [s[0]] + s[1..];
      } else {
        assert Join([""] + rest, c) == [c] + Join(rest, c);
        assert s == [c] + s[1..];
      }
    }
  }

  /** A character put in front of the first piece lands in front of the joined text. */
  lemma JoinFirstPiece(x: char, rest: seq<string>, c: char)
    requires |rest| >= 1
    ensures Join([[x] + rest[0]] + rest[1..], c) == [x] + Join(rest, c)
  {
    if |rest| > 1 {
      assert Join([[x] + rest[0]] + rest[1..], c) == [x] + rest[0] + [c] + Join(rest[1..], c);
    }
  }

  lemma {:induction false} SplitNoSeparator(s: string, c: char)
    requires c !in s
    ensures Split(s, c) == [s]
    decreases |s|
  {
    if s != [] {
      SplitNoSeparator(s[1..], c);
      assert s == [s[0]] + s[1..];
    }
  }

  lemma {:induction false} SplitAfterPiece(x: string, y: string, c: char)
    requires c !in x
    ensures Split(x + [c] + y, c) == [x] + Split(y, c)
    decreases |x|
  {
    if x == [] {
      assert ([c] + y)[1..] == y;
    } else {
      SplitAfterPiece(x[1..], y, c);
      assert (x + [c] + y)[1..] == x[1..] + [c] + y;
      assert x == [x[0]] + x[1..];
    }
  }

  /** Joining pieces free of `c` and splitting again gives the same pieces. */
  lemma {:induction false} SplitJoin(parts: seq<string>, c: char)
    requires |parts| >= 1
    requires forall k :: 0 <= k < |parts| ==> c !in parts[k]
    ensures Split(Join(parts, c), c) == parts
    decreases |parts|
  {
    if |parts| == 1 {
      SplitNoSeparator(parts[0], c);
    } else {
      SplitJoin(parts[1..], c);
      SplitAfterPiece(parts[0], Join(parts[1..], c), c);
      assert parts == [parts[0]] + parts[1..];
    }
  }

  /** The pieces without the empty ones at the end. */
  function DropTrailingEmpty(parts: seq<string>): (r: seq<string>)
    ensures |r| <= |parts| && r == parts[..|r|]
    ensures r != [] ==> r[|r| - 1] != ""
    ensures forall k :: |r| <= k < |parts| ==> parts[k] == ""
    decreases |parts|
  {
    if parts == [] then []
    else if parts[|parts| - 1] == "" then DropTrailingEmpty(parts[..|parts| - 1])
    else parts
  }

  /**
   * `s.split(c)` in Java, for a one-character pattern: the whole string
   * as the only piece when `c` does not occur (so `""` gives `[""]`),
   * otherwise the pieces between occurrences with the trailing empty
   * ones removed. Leading empty pieces stay.
   */
  function JavaSplit(s: string, c: char): seq<string> {
    if c !in s then [s] else DropTrailingEmpty(Split(s, c))
  }

  /** Two or more pieces joined contain the separator. */
  lemma JoinHasSeparator(parts: seq<string>, c: char)
    requires |parts| >= 2
    ensures c in Join(parts, c)
  {
    assert Join(parts, c) == parts[0] + [c] + Join(parts[1..], c);
    assert Join(parts, c)[|parts[0]|] == c;
  }

  /** Java's split takes apart a list joined with `c`, when no piece contains `c` and the last one is not empty. */
  lemma JavaSplitJoin(parts: seq<string>, c: char)
    requires |parts| >= 1 && parts[|parts| - 1] != ""
    requires forall k :: 0 <= k < |parts| ==> c !in parts[k]
    ensures JavaSplit(Join(parts, c), c) == parts
  {
    SplitJoin(parts, c);
    if |parts| >= 2 {
      JoinHasSeparator(parts, c);
    }
  }

  /** The pieces one after the other, as a `StringBuilder` appending each in turn builds them. */
  function Flatten(parts: seq<string>): (r: string)
    ensures parts == [] ==> r == ""
    decreases |parts|
  {
    if parts == [] then "" else Flatten(parts[..|parts| - 1]) + parts[|parts| - 1]
  }

  lemma {:induction false} FlattenAppend(a: seq<string>, b: seq<string>)
    ensures Flatten(a + b) == Flatten(a) + Flatten(b)
    decreases |b|
  {
    if b == [] {
      assert a + b == a;
    } else {
      var init, last := b[..|b| - 1], b[|b| - 1];
      FlattenAppend(a, init);
      assert (a + b)[..|a + b| - 1] == a + init && (a + b)[|a + b| - 1] == last;
      assert Flatten(a + b) == Flatten(a + init) + last;
      assert Flatten(b) == Flatten(init) + last;
    }
  }

  /** The text of a generated id, standing in for `UUID.toString()`; distinct ids have distinct texts by `NatToStringInjective`. */
  function UuidText(id: nat): (r: string)
    ensures r != []
  {
    NatToString(id)
  }

  /** Every occurrence of `c` replaced by `rep`: `s.replace(/c/g, rep)`. */
  function ReplaceAll(s: string, c: char, rep: string): string
    decreases |s|
  {
    if s == [] then ""
    else (if s[0] == c then rep else [s[0]]) + ReplaceAll(s[1..], c, rep)
  }

  /** A text without `c` is left as it is. */
  lemma {:induction false} ReplaceAllAbsent(s: string, c: char, rep: string)
    requires c !in s
    ensures ReplaceAll(s, c, rep) == s
    decreases |s|
  {
    if s != [] {
      assert s == [s[0]] + s[1..];
      ReplaceAllAbsent(s[1..], c, rep);
    }
  }

  /** When the replacement holds no `c`, no `c` is left. */
  lemma {:induction false} ReplaceAllRemoves(s: string, c: char, rep: string)
    requires c !in rep
    ensures c !in ReplaceAll(s, c, rep)
    decreases |s|
  {
    if s != [] {
      ReplaceAllRemoves(s[1..], c, rep);
    }
  }

  /**
   * A character that is neither `c` nor in the replacement occurs in the
   * replaced text exactly when, and exactly as often as, it occurs in the
   * original.
   */
  lemma {:induction false} ReplaceAllKeeps(s: string, c: char, rep: string, d: char)
    requires d != c && d !in rep
    ensures d in ReplaceAll(s, c, rep) <==> d in s
    ensures multiset(ReplaceAll(s, c, rep))[d] == multiset(s)[d]
    decreases |s|
  {
    if s != [] {
      ReplaceAllKeeps(s[1..], c, rep, d);
      assert s == [s[0]] + s[1..];
      var head := if s[0] == c then rep else [s[0]];
      assert multiset(ReplaceAll(s, c, rep)) == multiset(head) + multiset(ReplaceAll(s[1..], c, rep));
      assert multiset(s) == multiset([s[0]]) + multiset(s[1..]);
    }
  }

  /** The text with every character of `cs` dropped. */
  function DropChars(s: string, cs: set<char>): string
    decreases |s|
  {
    if s == [] then "" else (if s[0] in cs then "" else [s[0]]) + DropChars(s[1..], cs)
  }

  lemma {:induction false} DropCharsAppend(a: string, b: string, cs: set<char>)
    ensures DropChars(a + b, cs) == DropChars(a, cs) + DropChars(b, cs)
    decreases |a|
  {
    if a == [] {
      assert a + b == b;
    } else {
      assert (a + b)[0] == a[0] && (a + b)[1..] == a[1..] + b;
      DropCharsAppend(a[1..], b, cs);
    }
  }

  lemma {:induction false} DropCharsAll(s: string, cs: set<char>)
    requires forall i :: 0 <= i < |s| ==> s[i] in cs
    ensures DropChars(s, cs) == ""
    decreases |s|
  {
    if s != [] {
      DropCharsAll(s[1..], cs);
    }
  }

  /**
   * Replacing `c` keeps the other characters in order: with `c` and the
   * replacement's characters set aside, the replaced text and the original
   * read the same.
   */
  lemma {:induction false} ReplaceAllKeepsOrder(s: string, c: char, rep: string, cs: set<char>)
    requires c in cs && forall i :: 0 <= i < |rep| ==> rep[i] in cs
    ensures DropChars(ReplaceAll(s, c, rep), cs) == DropChars(s, cs)
    decreases |s|
  {
    if s != [] {
      var head := if s[0] == c then rep else [s[0]];
      DropCharsAppend(head, ReplaceAll(s[1..], c, rep), cs);
      if s[0] == c { DropCharsAll(rep, cs); }
      ReplaceAllKeepsOrder(s[1..], c, rep, cs);
    }
  }

  /** Replacing in a concatenation replaces in each part. */
  lemma {:induction false} ReplaceAllAppend(a: string, b: string, c: char, rep: string)
    ensures ReplaceAll(a + b, c, rep) == ReplaceAll(a, c, rep) + ReplaceAll(b, c, rep)
    decreases |a|
  {
    if a == [] {
      assert a + b == b;
    } else {
      ReplaceAllAppend(a[1..], b, c, rep);
      var head := if a[0] == c then rep else [a[0]];
      assert (a + b)[0] == a[0] && (a + b)[1..] == a[1..] + b;
      assert ReplaceAll(a + b, c, rep) == head + ReplaceAll(a[1..] + b, c, rep);
      assert ReplaceAll(a, c, rep) == head + ReplaceAll(a[1..], c, rep);
    }
  }

  function LowerChar(c: char): char {
    if 'A' <= c <= 'Z' then (c as int + 32) as char else c
  }

  /** `s.toLowerCase()` restricted to ASCII letters. */
  function AsciiLower(s: string): (r: string)
    ensures |r| == |s|
    ensures forall i :: 0 <= i < |s| ==> r[i] == LowerChar(s[i])
  {
    if s == [] then "" else [LowerChar(s[0])] + AsciiLower(s[1..])
  }
}
