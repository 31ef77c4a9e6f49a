/** Python string operations the processor relies on: `str.strip()`,
    `in` on strings, `str.replace(old, new, 1)`, `", ".join(...)`,
    ASCII lower-casing and decimal rendering of integers. */
module Text {

  /** Python's `str.isspace()` (also what `\s` matches in a `str` pattern). */
  predicate IsSpace(c: char) {
    var n := c as int;
    (9 <= n <= 13) || (28 <= n <= 32) || n == 0x85 || n == 0xA0 || n == 0x1680
    || (0x2000 <= n <= 0x200A) || n == 0x2028 || n == 0x2029 || n == 0x202F
    || n == 0x205F || n == 0x3000
  }

  predicate AllSpace(s: string) {
    forall i :: 0 <= i < |s| ==> IsSpace(s[i])
  }

  /** Neither end of `s` is whitespace (the shape `strip()` returns). */
  predicate Trimmed(s: string) {
    s == [] || (!IsSpace(s[0]) && !IsSpace(s[|s| - 1]))
  }

  function StripLeft(s: string): (r: string)
    ensures |r| <= |s| && r == s[|s| - |r|..]
    ensures AllSpace(s[..|s| - |r|])
    ensures r == [] || !IsSpace(r[0])
  {
    if s != [] && IsSpace(s[0]) then StripLeft(s[1..]) else s
  }

  function StripRight(s: string): (r: string)
    ensures |r| <= |s| && r == s[..|r|]
    ensures AllSpace(s[|r|..])
    ensures r == [] || !IsSpace(r[|r| - 1])
  {
    if s != [] && IsSpace(s[|s| - 1]) then StripRight(s[..|s| - 1]) else s
  }

  /** Python's `s.strip()`: drops leading and trailing whitespace. */
  function Strip(s: string): (r: string)
    ensures Trimmed(r)
  {
    var l := StripLeft(s);
    var r := StripRight(l);
    assert r != [] ==> r[0] == l[0];
    r
  }

  lemma {:induction false} StripLeftOf(ws: string, t: string)
    requires AllSpace(ws) && (t == [] || !IsSpace(t[0]))
    ensures StripLeft(ws + t) == t
  {
    if ws != [] {
      assert (ws + t)[1..] == ws[1..] + t;
      StripLeftOf(ws[1..], t);
    }
  }

  lemma {:induction false} StripRightOf(t: string, ws: string)
    requires AllSpace(ws) && (t == [] || !IsSpace(t[|t| - 1]))
    ensures StripRight(t + ws) == t
  {
    if ws != [] {
      assert (t + ws)[..|t + ws| - 1] == t + ws[..|ws| - 1];
      StripRightOf(t, ws[..|ws| - 1]);
    } else {
      assert t + ws == t;
    }
  }

  /** `strip()` removes exactly the surrounding whitespace: together with
      `Strip`'s own contract this characterises it completely. */
  lemma StripOf(ws1: string, t: string, ws2: string)
    requires AllSpace(ws1) && AllSpace(ws2) && Trimmed(t)
    ensures Strip(ws1 + t + ws2) == t
  {
    if t == [] {
      assert ws1 + t + ws2 == ws1 + ws2;
      AllSpaceStripsToEmpty(ws1 + ws2);
    } else {
      assert ws1 + t + ws2 == ws1 + (t + ws2);
      StripLeftOf(ws1, t + ws2);
      StripRightOf(t, ws2);
    }
  }

  lemma {:induction false} AllSpaceStripsToEmpty(s: string)
    requires AllSpace(s)
    ensures StripLeft(s) == []
  {
    if s != [] {
      AllSpaceStripsToEmpty(s[1..]);
    }
  }

  /** `strip()` is idempotent. */
  lemma StripIdempotent(s: string)
    ensures Strip(Strip(s)) == Strip(s)
  {
    var t := Strip(s);
    assert t == [] + t + [];
    StripOf([], t, []);
  }

  /** A line that begins with a non-space character keeps it first after
      `strip()`. */
  lemma StripKeepsHead(s: string)
    requires |s| > 0 && !IsSpace(s[0])
    ensures |Strip(s)| > 0 && Strip(s)[0] == s[0]
  {
    assert StripLeft(s) == s;
  }

  /** `s.startswith(p)`. */
  predicate StartsWith(s: string, p: string) {
    |p| <= |s| && s[..|p|] == p
  }

  lemma SplitAfterPrefix(s: string, p: string)
    requires StartsWith(s, p)
    ensures s == p + s[|p|..]
  {
  }

  /** Python's `t in s` for strings. */
  predicate Contains(s: string, t: string) {
    exists i | 0 <= i <= |s| :: OccursAt(s, t, i)
  }

  predicate OccursAt(s: string, t: string, i: int) {
    0 <= i <= |s| - |t| && s[i..i + |t|] == t
  }

  /** Python's `s.replace(old, new, 1)`: the first occurrence, if any. */
  function ReplaceFirst(s: string, pat: string, rep: string): (r: string)
    requires pat != []
    ensures StartsWith(s, pat) ==> r == rep + s[|pat|..]
    ensures !Contains(s, pat) ==> r == s
    decreases |s|
  {
    if StartsWith(s, pat) then
      assert OccursAt(s, pat, 0);
      rep + s[|pat|..]
    else if |s| < |pat| then s
    else
      var rest := ReplaceFirst(s[1..], pat, rep);
      assert Contains(s[1..], pat) ==> Contains(s, pat) by {
        if Contains(s[1..], pat) {
          ContainsInTail(s, pat);
        }
      }
      [s[0]] + rest
  }

  lemma ContainsInTail(s: string, t: string)
    requires |s| > 0 && Contains(s[1..], t)
    ensures Contains(s, t)
  {
    var i: int :| 0 <= i <= |s| - 1 && OccursAt(s[1..], t, i);
    assert 0 <= i + 1 <= |s| - |t|;
    assert s[i + 1..i + 1 + |t|] == s[1..][i..i + |t|];
    assert OccursAt(s, t, i + 1);
  }

  /** Concatenation of a list of strings (a file's text from its lines). */
  function Concat(ls: seq<string>): (r: string)
    ensures |ls| == 1 ==> r == ls[0]
  {
    if ls == [] then [] else ls[0] + Concat(ls[1..])
  }

  /** Python's `sep.join(items)`. */
  function Join(items: seq<string>, sep: string): (r: string)
    ensures |items| == 1 ==> r == items[0]
  {
    if items == [] then []
    else if |items| == 1 then items[0]
    else items[0] + sep + Join(items[1..], sep)
  }

  /** ASCII lower case; for a comparison with a lower-case ASCII literal
      such as ".sbp" this agrees with Python's full `str.lower()`. */
  function LowerChar(c: char): char {
    if 'A' <= c <= 'Z' then (c as int + 32) as char else c
  }

  function Lower(s: string): (r: string)
    ensures |r| == |s| && forall i :: 0 <= i < |s| ==> r[i] == LowerChar(s[i])
  {
    if s == [] then [] else [LowerChar(s[0])] + Lower(s[1..])
  }

  predicate IsDigit(c: char) {
    '0' <= c <= '9'
  }

  function DigitChar(d: nat): (c: char)
    requires d < 10
    ensures IsDigit(c) && c as int - '0' as int == d
  {
    ('0' as int + d) as char
  }

  /** Decimal rendering of a natural number without padding. */
  function NatToString(n: nat): (r: string)
    ensures |r| >= 1 && forall i :: 0 <= i < |r| ==> IsDigit(r[i])
    ensures n < 10 ==> |r| == 1
    ensures n < 100 ==> |r| <= 2
    ensures n < 10000 ==> |r| <= 4
    ensures 10 <= n ==> |r| >= 2
    ensures 100 <= n ==> |r| >= 3
    ensures 1000 <= n ==> |r| >= 4
    ensures 1000 <= n < 10000 ==> |r| == 4
  {
    if n < 10 then [DigitChar(n)] else NatToString(n / 10) + [DigitChar(n % 10)]
  }

  /** `n` zero-padded to at least `width` digits, as `%02d` does. */
  function Pad(n: nat, width: nat): (r: string)
    ensures |r| >= width && forall i :: 0 <= i < |r| ==> IsDigit(r[i])
    ensures |NatToString(n)| <= width ==> |r| == width
    decreases width
  {
    var s := NatToString(n);
    if |s| >= width then s else ZeroPad(s, width - |s|)
  }

  function ZeroPad(s: string, k: nat): (r: string)
    requires forall i :: 0 <= i < |s| ==> IsDigit(s[i])
    ensures |r| == |s| + k && forall i :: 0 <= i < |r| ==> IsDigit(r[i])
  {
    if k == 0 then s else "0" + ZeroPad(s, k - 1)
  }
}
