/**
 * String helpers shared by the pipeline: the ASCII part of Python's
 * `str.lower`, `str.strip`, `str.strip(chars)`, `str.replace`, `str.join`,
 * `str(int)`, and Python's code-point ordering of strings.
 */
module Text {

  /** Python's `str.isspace` restricted to ASCII: tab, newline, vertical tab,
      form feed, carriage return, the four separators 0x1C-0x1F and space. */
  predicate IsSpace(c: char) {
    (9 <= c as int <= 13) || (0x1C <= c as int <= 0x1F) || c == ' '
  }

  /** Drop leading characters that satisfy `isStripped`. */
  function TrimStart(s: string, isStripped: char -> bool): string
  {
    if s != [] && isStripped(s[0]) then TrimStart(s[1..], isStripped) else s
  }

  /** Drop trailing characters that satisfy `isStripped`. */
  function TrimEnd(s: string, isStripped: char -> bool): string
  {
    if s != [] && isStripped(s[|s| - 1]) then TrimEnd(s[..|s| - 1], isStripped) else s
  }

  /** What `TrimStart` drops is a run of stripped characters, and what it
      keeps is a suffix that does not start with one. */
  lemma {:induction false} TrimStartShape(s: string, isStripped: char -> bool)
    ensures var r := TrimStart(s, isStripped);
      |r| <= |s| && r == s[|s| - |r|..]
      && (r != [] ==> !isStripped(r[0]))
      && forall k :: 0 <= k < |s| - |r| ==> isStripped(s[k])
  {
    if s != [] && isStripped(s[0]) {
      var r := TrimStart(s[1..], isStripped);
      TrimStartShape(s[1..], isStripped);
      assert s[1..][|s| - 1 - |r|..] == s[|s| - |r|..];
      assert forall k :: 1 <= k < |s| - |r| ==> s[k] == s[1..][k - 1];
    }
  }

  /** What `TrimEnd` drops is a run of stripped characters, and what it
      keeps is a prefix that does not end with one. */
  lemma {:induction false} TrimEndShape(s: string, isStripped: char -> bool)
    ensures var r := TrimEnd(s, isStripped);
      |r| <= |s| && r == s[..|r|]
      && (r != [] ==> !isStripped(r[|r| - 1]))
      && forall k :: |r| <= k < |s| ==> isStripped(s[k])
  {
    if s != [] && isStripped(s[|s| - 1]) {
      var r := TrimEnd(s[..|s| - 1], isStripped);
      TrimEndShape(s[..|s| - 1], isStripped);
      assert s[..|s| - 1][..|r|] == s[..|r|];
      assert forall k :: |r| <= k < |s| - 1 ==> s[k] == s[..|s| - 1][k];
    }
  }

  /** `s.strip()` */
  function Strip(s: string): string {
    TrimStart(TrimEnd(s, IsSpace), IsSpace)
  }

  /** `s.strip(c)` for a single stripped character `c`, e.g. `url.strip("/")`. */
  function StripChar(s: string, c: char): string {
    TrimStart(TrimEnd(s, x => x == c), x => x == c)
  }

  function LowerChar(c: char): char {
    if 'A' <= c <= 'Z' then (c as int + 32) as char else c
  }

  /** `s.lower()` on ASCII letters. */
  function Lower(s: string): (r: string)
    ensures |r| == |s|
    ensures forall k :: 0 <= k < |s| ==> r[k] == LowerChar(s[k])
  {
    if s == [] then [] else [LowerChar(s[0])] + Lower(s[1..])
  }

  /** `s.replace(from, to)` for single characters. */
  function ReplaceChar(s: string, from: char, to: char): (r: string)
    ensures |r| == |s|
    ensures forall k :: 0 <= k < |s| ==> r[k] == if s[k] == from then to else s[k]
  {
    if s == [] then [] else [if s[0] == from then to else s[0]] + ReplaceChar(s[1..], from, to)
  }

  /** `sep.join(parts)` */
  function Join(sep: string, parts: seq<string>): string
  {
    if parts == [] then ""
    else if |parts| == 1 then parts[0]
    else parts[0] + sep + Join(sep, parts[1..])
  }

  /** `[x for _ in range(n)]` */
  function Repeat<T>(x: T, n: nat): (r: seq<T>)
    ensures |r| == n && forall k :: 0 <= k < n ==> r[k] == x
  {
    if n == 0 then [] else [x] + Repeat(x, n - 1)
  }

  predicate IsDigit(c: char) {
    '0' <= c <= '9'
  }

  function DigitChar(d: nat): char
    requires d < 10
  {
    ('0' as int + d) as char
  }

  function DigitValue(c: char): nat
    requires IsDigit(c)
  {
    c as int - '0' as int
  }

  /** `str(n)` for a natural number: decimal digits, no leading zeros. */
  function NatToString(n: nat): (r: string)
    ensures |r| > 0 && forall k :: 0 <= k < |r| ==> IsDigit(r[k])
    ensures n > 0 ==> r[0] != '0'
  {
    if n < 10 then [DigitChar(n)] else NatToString(n / 10) + [DigitChar(n % 10)]
  }

  /** `str(i)` for any integer. */
  function IntToString(i: int): string {
    if i < 0 then "-" + NatToString(-i) else NatToString(i)
  }

  /** The value of a string of decimal digits (`int(s)` for such strings). */
  function DigitsValue(s: string): nat
    requires forall k :: 0 <= k < |s| ==> IsDigit(s[k])
  {
    if s == [] then 0 else 10 * DigitsValue(s[..|s| - 1]) + DigitValue(s[|s| - 1])
  }

  /** Reading back the decimal form of `n` gives `n`. */
  lemma {:induction false} NatToStringRoundTrip(n: nat)
    ensures DigitsValue(NatToString(n)) == n
  {
    if n >= 10 {
      var s := NatToString(n);
      var prefix := NatToString(n / 10);
      assert s == prefix + [DigitChar(n % 10)];
      assert s[..|s| - 1] == prefix;
      NatToStringRoundTrip(n / 10);
    }
  }

  /** Python's ordering of strings: code point by code point, a proper prefix
      sorting first. (Dafny's own `<` on sequences means "proper prefix".) */
  predicate Less(a: string, b: string)
  {
    if a == [] then b != []
    else if b == [] then false
    else if a[0] == b[0] then Less(a[1..], b[1..])
    else a[0] < b[0]
  }

  lemma {:induction false} LessIrreflexive(a: string)
    ensures !Less(a, a)
  {
    if a != [] { LessIrreflexive(a[1..]); }
  }

  lemma {:induction false} LessAsymmetric(a: string, b: string)
    requires Less(a, b)
    ensures !Less(b, a)
  {
    if a != [] && b != [] && a[0] == b[0] { LessAsymmetric(a[1..], b[1..]); }
  }

  /** Any two different strings are ordered one way or the other. */
  lemma {:induction false} LessTotal(a: string, b: string)
    requires a != b
    ensures Less(a, b) || Less(b, a)
  {
    if a != [] && b != [] && a[0] == b[0] {
      assert a == [a[0]] + a[1..] && b == [b[0]] + b[1..];
      LessTotal(a[1..], b[1..]);
    }
  }

  lemma {:induction false} LessTransitive(a: string, b: string, c: string)
    requires Less(a, b) && Less(b, c)
    ensures Less(a, c)
  {
    if a != [] && b != [] && c != [] && a[0] == b[0] && b[0] == c[0] {
      LessTransitive(a[1..], b[1..], c[1..]);
    }
  }

  /** `s.lower().strip()`: the key used for every lastname comparison. */
  function Key(s: string): string {
    Strip(Lower(s))
  }

  lemma {:induction false} LowerIdempotent(s: string)
    ensures Lower(Lower(s)) == Lower(s)
  {
    assert forall k :: 0 <= k < |s| ==> Lower(Lower(s))[k] == Lower(s)[k];
  }

  lemma TrimStartIdempotent(s: string, p: char -> bool)
    ensures TrimStart(TrimStart(s, p), p) == TrimStart(s, p)
  {
    TrimStartShape(s, p);
  }

  lemma TrimEndIdempotent(s: string, p: char -> bool)
    ensures TrimEnd(TrimEnd(s, p), p) == TrimEnd(s, p)
  {
    TrimEndShape(s, p);
  }

  /** A trimmed-at-the-end string keeps that property when its start is trimmed. */
  lemma {:induction false} TrimEndOfTrimStart(s: string, p: char -> bool)
    requires s == [] || !p(s[|s| - 1])
    ensures TrimEnd(TrimStart(s, p), p) == TrimStart(s, p)
  {
    TrimStartShape(s, p);
    var r := TrimStart(s, p);
    if r != [] {
      assert r[|r| - 1] == s[|s| - 1];
    }
  }

  /** Trimming both ends twice is trimming them once. */
  lemma TrimBothIdempotent(s: string, p: char -> bool)
    ensures var t := TrimStart(TrimEnd(s, p), p); TrimStart(TrimEnd(t, p), p) == t
  {
    var e := TrimEnd(s, p);
    TrimEndShape(s, p);
    TrimEndOfTrimStart(e, p);
    TrimStartIdempotent(e, p);
  }

  /** Stripping twice is stripping once. */
  lemma StripIdempotent(s: string)
    ensures Strip(Strip(s)) == Strip(s)
  {
    TrimBothIdempotent(s, IsSpace);
  }

  /** `s.strip(c).strip(c) == s.strip(c)`, and the result neither starts nor
      ends with `c`. */
  lemma StripCharShape(s: string, c: char)
    ensures StripChar(StripChar(s, c), c) == StripChar(s, c)
    ensures var r := StripChar(s, c); r != [] ==> r[0] != c && r[|r| - 1] != c
  {
    var isC := (x: char) => x == c;
    TrimBothIdempotent(s, isC);
    TrimEndShape(s, isC);
    TrimStartShape(TrimEnd(s, isC), isC);
    TrimEndOfTrimStart(TrimEnd(s, isC), isC);
  }

  /** The stripped string has no surrounding whitespace and is a slice of the input. */
  lemma StripShape(s: string)
    ensures var r := Strip(s);
      (r != [] ==> !IsSpace(r[0]) && !IsSpace(r[|r| - 1]))
      && exists i, j :: 0 <= i <= j <= |s| && r == s[i..j]
  {
    var e := TrimEnd(s, IsSpace);
    var r := TrimStart(e, IsSpace);
    TrimEndShape(s, IsSpace);
    TrimStartShape(e, IsSpace);
    TrimEndOfTrimStart(e, IsSpace);
    assert r == s[|e| - |r|..|e|];
  }

  /** A string that `Lower` leaves alone. */
  lemma LowerOfLowerCase(t: string)
    requires forall k :: 0 <= k < |t| ==> LowerChar(t[k]) == t[k]
    ensures Lower(t) == t
  {
  }

  /** A key is its own key: it is already lowercase and stripped. */
  lemma KeyIdempotent(s: string)
    ensures Key(Key(s)) == Key(s)
  {
    var l := Lower(s);
    var e := TrimEnd(l, IsSpace);
    var r := TrimStart(e, IsSpace);
    TrimEndShape(l, IsSpace);
    TrimStartShape(e, IsSpace);
    forall k | 0 <= k < |r| ensures LowerChar(r[k]) == r[k] {
      var m := |e| - |r| + k;
      assert r[k] == e[m] == l[m] == LowerChar(s[m]);
    }
    LowerOfLowerCase(r);
    StripIdempotent(l);
  }
}
