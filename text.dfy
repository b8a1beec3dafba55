/**
 * The pieces of Java's string library that the order system relies on,
 * restricted to ASCII: case mapping, substring search, `trim`, splitting,
 * `Integer.parseInt`, and the `%.2f` rendering of a price held in cents.
 */
module Text {
  import opened Wrappers

  // ---------------------------------------------------------------- case

  function LowerChar(c: char): char {
    if 'A' <= c <= 'Z' then (c as int + 32) as char else c
  }

  function UpperChar(c: char): char {
    if 'a' <= c <= 'z' then (c as int - 32) as char else c
  }

  /** `String.toLowerCase`, ASCII letters only. */
  function Lower(s: string): (r: string)
    ensures |r| == |s|
    ensures forall i :: 0 <= i < |s| ==> r[i] == LowerChar(s[i])
  {
    if s == [] then [] else [LowerChar(s[0])] + Lower(s[1..])
  }

  predicate IsLower(s: string) {
    forall i :: 0 <= i < |s| ==> !('A' <= s[i] <= 'Z')
  }

  lemma LowerIsLower(s: string)
    ensures IsLower(Lower(s))
  {
  }

  /** Lower-casing twice is lower-casing once, so a key that is already
      normalised is its own normal form. */
  lemma LowerIdempotent(s: string)
    ensures Lower(Lower(s)) == Lower(s)
  {
  }

  lemma LowerOfLower(s: string)
    requires IsLower(s)
    ensures Lower(s) == s
  {
  }

  lemma LowerAppend(a: string, b: string)
    ensures Lower(a + b) == Lower(a) + Lower(b)
  {
  }

  // ------------------------------------------------------------ contains

  /** `String.contains`: `sub` occurs in `s` at some offset. */
  predicate Contains(s: string, sub: string) {
    exists i :: 0 <= i <= |s| && sub <= s[i..]
  }

  /** `String.endsWith`. */
  predicate EndsWith(s: string, suffix: string) {
    |suffix| <= |s| && s[|s| - |suffix|..] == suffix
  }

  lemma ContainsEmpty(s: string)
    ensures Contains(s, "")
  {
    assert "" <= s[0..];
  }

  // --------------------------------------------------------------- digits

  predicate IsDigit(c: char) {
    '0' <= c <= '9'
  }

  predicate AllDigits(s: string) {
    forall i :: 0 <= i < |s| ==> IsDigit(s[i])
  }

  function DigitChar(d: nat): (c: char)
    requires d < 10
    ensures IsDigit(c)
  {
    ('0' as int + d) as char
  }

  function DigitValue(c: char): (d: nat)
    requires IsDigit(c)
    ensures d < 10 && DigitChar(d) == c
  {
    c as int - '0' as int
  }

  /** Decimal rendering of a natural number, most significant digit first. */
  function NatToString(n: nat): (s: string)
    ensures |s| >= 1 && AllDigits(s)
    decreases n
  {
    if n < 10 then [DigitChar(n)] else NatToString(n / 10) + [DigitChar(n % 10)]
  }

  /** Value of a string of decimal digits. */
  function ParseNat(s: string): nat
    requires AllDigits(s)
  {
    if |s| == 0 then 0 else ParseNat(s[..|s| - 1]) * 10 + DigitValue(s[|s| - 1])
  }

  lemma {:induction false} ParseNatToString(n: nat)
    ensures ParseNat(NatToString(n)) == n
    decreases n
  {
    if n >= 10 {
      var s := NatToString(n);
      ParseNatToString(n / 10);
      assert s[..|s| - 1] == NatToString(n / 10);
    }
  }

  /** `Integer.parseInt(s)`: an optional sign, at least one digit, and a
      value that fits in 32 bits; anything else raises NumberFormatException,
      written `None`. */
  function ParseInt(s: string): (r: Option<int>)
    ensures r.Some? ==> -0x8000_0000 <= r.value <= 0x7fff_ffff
  {
    if |s| == 0 then None
    else
      var signed := s[0] == '-' || s[0] == '+';
      var digits := if signed then s[1..] else s;
      if |digits| == 0 || !AllDigits(digits) then None
      else
        var n: int := ParseNat(digits);
        var v := if s[0] == '-' then -n else n;
        if -0x8000_0000 <= v <= 0x7fff_ffff then Some(v) else None
  }

  lemma ParseIntOfNat(n: nat)
    requires n <= 0x7fff_ffff
    ensures ParseInt(NatToString(n)) == Some(n)
  {
    ParseNatToString(n);
  }

  // -------------------------------------------------------------- prices

  /** `String.format("%.2f", c / 100.0)` for a price of `c` cents. */
  function FormatCents(c: int): string {
    if c < 0 then "-" + FormatUnsignedCents(-c) else FormatUnsignedCents(c)
  }

  function FormatUnsignedCents(c: nat): string {
    NatToString(c / 100) + "." + [DigitChar(c % 100 / 10), DigitChar(c % 10)]
  }

  /** Inverse of `FormatCents` on its image. */
  function ParseCents(s: string): Option<int> {
    if |s| > 0 && s[0] == '-' then
      match ParseUnsignedCents(s[1..])
      case Some(v) => Some(0 - v)
      case None => None
    else ParseUnsignedCents(s)
  }

  function ParseUnsignedCents(s: string): Option<nat> {
    if |s| >= 4 && s[|s| - 3] == '.' && AllDigits(s[..|s| - 3])
       && IsDigit(s[|s| - 2]) && IsDigit(s[|s| - 1])
    then Some(ParseNat(s[..|s| - 3]) * 100 + DigitValue(s[|s| - 2]) * 10 + DigitValue(s[|s| - 1]))
    else None
  }

  /** Rendering a price loses nothing: the cents can be read back. */
  lemma FormatCentsRoundTrip(c: int)
    ensures ParseCents(FormatCents(c)) == Some(c)
  {
    var m: nat := if c < 0 then -c else c;
    var u := FormatUnsignedCents(m);
    UnsignedCentsRoundTrip(m);
    assert IsDigit(u[0]);
    if c < 0 {
      assert FormatCents(c)[1..] == u;
    }
  }

  lemma UnsignedCentsRoundTrip(m: nat)
    ensures ParseUnsignedCents(FormatUnsignedCents(m)) == Some(m)
  {
    var whole := NatToString(m / 100);
    var d1, d2 := DigitChar(m % 100 / 10), DigitChar(m % 10);
    var u := whole + "." + [d1, d2];
    assert |u| == |whole| + 3;
    assert u[..|u| - 3] == whole;
    assert u[|u| - 3] == '.' && u[|u| - 2] == d1 && u[|u| - 1] == d2;
    ParseNatToString(m / 100);
    assert DigitValue(d1) == m % 100 / 10 && DigitValue(d2) == m % 10;
  }

  // ---------------------------------------------------------------- trim

  /** `String.trim`: drops every leading and trailing character up to U+0020. */
  function Trim(s: string): (r: string)
    ensures |r| > 0 ==> r[0] > ' ' && r[|r| - 1] > ' '
  {
    TrimEnd(TrimStart(s))
  }

  function TrimStart(s: string): (r: string)
    ensures |r| <= |s| && r == s[|s| - |r|..]
    ensures |r| > 0 ==> r[0] > ' '
  {
    if |s| > 0 && s[0] <= ' ' then TrimStart(s[1..]) else s
  }

  function TrimEnd(s: string): (r: string)
    ensures |r| <= |s| && r == s[..|r|]
    ensures |r| > 0 ==> r[|r| - 1] > ' '
    ensures |s| > 0 && s[0] > ' ' ==> |r| > 0
  {
    if |s| > 0 && s[|s| - 1] <= ' ' then TrimEnd(s[..|s| - 1]) else s
  }

  // ------------------------------------------------------------ splitting

  /** The characters of the regular expression class `\s`. */
  predicate IsSpace(c: char) {
    c == ' ' || c == '\t' || c == '\n' || c == '\U{000B}' || c == '\U{000C}' || c == '\r'
  }

  /** Length of the run of non-space characters that starts `s`. */
  function RunLength(s: string): (n: nat)
    requires |s| > 0 && !IsSpace(s[0])
    ensures 1 <= n <= |s|
    ensures forall i :: 0 <= i < n ==> !IsSpace(s[i])
    ensures n < |s| ==> IsSpace(s[n])
  {
    if |s| == 1 || IsSpace(s[1]) then 1 else 1 + RunLength(s[1..])
  }

  /** The maximal runs of non-space characters of `s`, left to right. */
  function Runs(s: string): (ws: seq<string>)
    ensures forall k :: 0 <= k < |ws| ==> |ws[k]| > 0
    decreases |s|
  {
    if s == [] then []
    else if IsSpace(s[0]) then Runs(s[1..])
    else
      var n := RunLength(s);
      [s[..n]] + Runs(s[n..])
  }

  /** `line.split("\\s+")` for a line that went through `trim`: the empty
      line gives one empty token, any other line its runs of non-space
      characters. */
  function Tokens(line: string): seq<string> {
    if line == "" then [""] else Runs(line)
  }

  /** Every piece of `s` between occurrences of `sep`, including empty ones. */
  function SplitAll(s: string, sep: char): (pieces: seq<string>)
    ensures |pieces| >= 1
    ensures forall k :: 0 <= k < |pieces| ==> sep !in pieces[k]
    decreases |s|
  {
    if s == [] then [""]
    else
      var rest := SplitAll(s[1..], sep);
      if s[0] == sep then [""] + rest else [[s[0]] + rest[0]] + rest[1..]
  }

  function DropTrailingEmpty(ws: seq<string>): (r: seq<string>)
    ensures r <= ws
    ensures |r| > 0 ==> r[|r| - 1] != ""
  {
    if |ws| > 0 && ws[|ws| - 1] == "" then DropTrailingEmpty(ws[..|ws| - 1]) else ws
  }

  /** `s.split(String.valueOf(sep))`: the whole string when `sep` does not
      occur, otherwise the pieces without the trailing empty ones. */
  function JavaSplit(s: string, sep: char): seq<string> {
    if sep !in s then [s] else DropTrailingEmpty(SplitAll(s, sep))
  }

  function Join(words: seq<string>, sep: string): string {
    if |words| == 0 then ""
    else if |words| == 1 then words[0]
    else words[0] + sep + Join(words[1..], sep)
  }

  /** Joining the pieces with the separator gives the string back. */
  lemma {:induction false} JoinSplitAll(s: string, sep: char)
    ensures Join(SplitAll(s, sep), [sep]) == s
    decreases |s|
  {
    if s != [] {
      var rest := SplitAll(s[1..], sep);
      JoinSplitAll(s[1..], sep);
      if s[0] == sep {
        assert ([""] + rest)[1..] == rest;
      } else if |rest| > 1 {
        var ws := [[s[0]] + rest[0]] + rest[1..];
        assert ws[1..] == rest[1..];
      }
    }
  }

  /** Appending a word to a joined list adds one separator before it. */
  lemma {:induction false} JoinSnoc(words: seq<string>, w: string, sep: string)
    ensures Join(words + [w], sep) == if |words| == 0 then w else Join(words, sep) + sep + w
    decreases |words|
  {
    if |words| > 1 {
      JoinSnoc(words[1..], w, sep);
      assert (words + [w])[1..] == words[1..] + [w];
    } else if |words| == 1 {
      assert (words + [w])[1..] == [w];
    }
  }

  /** A string without the separator is one piece. */
  lemma {:induction false} SplitAllWithoutSep(s: string, sep: char)
    requires sep !in s
    ensures SplitAll(s, sep) == [s]
    decreases |s|
  {
    if s != [] {
      assert s == [s[0]] + s[1..];
      SplitAllWithoutSep(s[1..], sep);
      assert s[0] != sep && [s[0]] + s[1..] == s;
    }
  }

  /** Every character of a piece is a character of the string. */
  lemma {:induction false} SplitAllChars(s: string, sep: char, k: nat, c: char)
    requires k < |SplitAll(s, sep)| && c in SplitAll(s, sep)[k]
    ensures c in s
    decreases |s|
  {
    if s != [] {
      var rest := SplitAll(s[1..], sep);
      if s[0] == sep {
        SplitAllChars(s[1..], sep, k - 1, c);
      } else if k == 0 {
        if c != s[0] {
          assert c in rest[0];
          SplitAllChars(s[1..], sep, 0, c);
        }
      } else {
        SplitAllChars(s[1..], sep, k, c);
      }
    }
  }

  /** Spaces turned into underscores. */
  function Underscored(s: string): (r: string)
    ensures |r| == |s|
    ensures forall i :: 0 <= i < |s| ==> r[i] == (if s[i] == ' ' then '_' else s[i])
  {
    if s == [] then [] else [if s[0] == ' ' then '_' else s[0]] + Underscored(s[1..])
  }

  lemma UnderscoredAppend(a: string, b: string)
    ensures Underscored(a + b) == Underscored(a) + Underscored(b)
  {
  }

  lemma UnderscoredWithoutSpace(s: string)
    requires ' ' !in s
    ensures Underscored(s) == s
  {
  }
}
