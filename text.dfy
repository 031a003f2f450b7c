/**
 * The Python `str` operations the scheduler relies on, over `seq<char>`:
 * prefix tests, substring search, `replace`, `split`/`join`, `strip`,
 * `lower` and decimal rendering of integers.  Whitespace and letter case
 * are modelled for ASCII only.
 */
module Text {
  import opened Outcomes

  predicate IsDigit(c: char) { '0' <= c <= '9' }

  predicate IsAsciiLetter(c: char) { 'a' <= c <= 'z' || 'A' <= c <= 'Z' }

  /** `str.isspace` on ASCII: space, tab to carriage return, and 0x1c-0x1f. */
  predicate IsSpace(c: char)
  {
    c == ' ' || '\U{9}' <= c <= '\U{D}' || '\U{1C}' <= c <= '\U{1F}'
  }

  predicate AllDigits(s: string) { forall i :: 0 <= i < |s| ==> IsDigit(s[i]) }

  predicate AllSpace(s: string) { forall i :: 0 <= i < |s| ==> IsSpace(s[i]) }

  // ---------------------------------------------------------------------
  // Search

  /** `p` occurs in `s` starting at index `j`. */
  predicate OccursAt(s: string, p: string, j: int)
  {
    0 <= j && j + |p| <= |s| && s[j..j + |p|] == p
  }

  lemma OccursShift(s: string, p: string, j: int)
    requires |s| > 0 && j >= 0
    ensures OccursAt(s, p, j + 1) <==> OccursAt(s[1..], p, j)
  {
    if 0 <= j && j + 1 + |p| <= |s| {
      assert s[j + 1..j + 1 + |p|] == s[1..][j..j + |p|];
    }
  }

  /** Index of the first occurrence of `p` in `s` (`str.find`). */
  function IndexOf(s: string, p: string): (r: Option<nat>)
    ensures r.Some? ==> OccursAt(s, p, r.value)
    ensures r.Some? ==> forall j :: 0 <= j < r.value ==> !OccursAt(s, p, j)
    ensures r.None? ==> forall j :: !OccursAt(s, p, j)
    decreases |s|
  {
    if p <= s then
      assert OccursAt(s, p, 0);
      Some(0)
    else if |s| == 0 then None
    else
      var r := IndexOf(s[1..], p);
      assert !OccursAt(s, p, 0);
      match r
      case Some(k) =>
        assert OccursAt(s, p, k + 1) by { OccursShift(s, p, k); }
        assert forall j :: 0 <= j < k + 1 ==> !OccursAt(s, p, j) by {
          forall j | 1 <= j < k + 1 ensures !OccursAt(s, p, j) { OccursShift(s, p, j - 1); }
        }
        Some(k + 1)
      case None =>
        assert forall j :: !OccursAt(s, p, j) by {
          forall j | j >= 1 ensures !OccursAt(s, p, j) { OccursShift(s, p, j - 1); }
        }
        None
  }

  /** `p in s` for strings. */
  predicate Contains(s: string, p: string) { IndexOf(s, p).Some? }

  /** `p in s` holds exactly when `p` occurs at some index. */
  lemma ContainsAt(s: string, p: string, i: int)
    requires OccursAt(s, p, i)
    ensures Contains(s, p)
  {
  }

  /** A text that begins an occurring text occurs too. */
  lemma ContainsPrefix(s: string, p: string, q: string)
    requires Contains(s, p) && q <= p
    ensures Contains(s, q)
  {
    var k := IndexOf(s, p).value;
    assert s[k..k + |q|] == s[k..k + |p|][..|q|];
    ContainsAt(s, q, k);
  }

  /** A text occurs in any text formed around it. */
  lemma ContainsJoined(f: string, p: string, r: string)
    ensures Contains(f + p + r, p)
  {
    assert (f + p + r)[|f|..|f| + |p|] == p;
    ContainsAt(f + p + r, p, |f|);
  }

  /** The text before the first occurrence of `p` (`s.split(p)[0]`). */
  function Before(s: string, p: string): (r: string)
    ensures r <= s
    ensures !Contains(s, p) ==> r == s
  {
    match IndexOf(s, p)
    case Some(k) => s[..k]
    case None => s
  }

  /** The text after the first occurrence of `p`, or "" when there is none. */
  function After(s: string, p: string): (r: string)
    ensures |r| <= |s|
  {
    match IndexOf(s, p)
    case Some(k) => s[k + |p|..]
    case None => ""
  }

  // ---------------------------------------------------------------------
  // Replacement

  /**
   * `s.replace(o, n)`: every non-overlapping occurrence of `o`, scanning
   * left to right, is replaced by `n`.
   */
  function ReplaceAll(s: string, o: string, n: string): string
    requires |o| > 0
    decreases |s|
  {
    if |s| == 0 then []
    else if o <= s then n + ReplaceAll(s[|o|..], o, n)
    else [s[0]] + ReplaceAll(s[1..], o, n)
  }

  /** Replacing a text that does not occur changes nothing. */
  lemma {:induction false} ReplaceAbsent(s: string, o: string, n: string)
    requires |o| > 0 && !Contains(s, o)
    ensures ReplaceAll(s, o, n) == s
    decreases |s|
  {
    if |s| > 0 {
      assert !OccursAt(s, o, 0);
      assert o <= s ==> OccursAt(s, o, 0);
      forall j | j >= 0 ensures !OccursAt(s[1..], o, j) { OccursShift(s, o, j); }
      ReplaceAbsent(s[1..], o, n);
    }
  }

  /** Replacing a one-character text by a text without it leaves none of it. */
  lemma {:induction false} ReplaceRemoves(s: string, o: string, n: string)
    requires |o| == 1 && o[0] !in n
    ensures o[0] !in ReplaceAll(s, o, n)
    ensures forall i :: 0 <= i < |ReplaceAll(s, o, n)| ==> ReplaceAll(s, o, n)[i] in s || ReplaceAll(s, o, n)[i] in n
    decreases |s|
  {
    if |s| > 0 {
      if o <= s {
        ReplaceRemoves(s[|o|..], o, n);
      } else {
        assert s[0] != o[0] by { assert [s[0]] == s[..1]; }
        ReplaceRemoves(s[1..], o, n);
      }
    }
  }

  /** A text that starts with the pattern has its first replacement there. */
  lemma ReplaceAtFront(o: string, r: string, n: string)
    requires |o| > 0
    ensures ReplaceAll(o + r, o, n) == n + ReplaceAll(r, o, n)
  {
    assert o <= o + r;
    assert (o + r)[|o|..] == r;
  }

  /** A prefix without the pattern's first character is copied unchanged. */
  lemma {:induction false} ReplaceKeepsPrefix(a: string, r: string, o: string, n: string)
    requires |o| > 0 && o[0] !in a
    ensures ReplaceAll(a + r, o, n) == a + ReplaceAll(r, o, n)
    decreases |a|
  {
    var s := a + r;
    if |a| > 0 {
      assert s[0] == a[0] && a[0] in a;
      assert |o| <= |s| ==> s[..|o|][0] == a[0];
      assert s[1..] == a[1..] + r;
      ReplaceKeepsPrefix(a[1..], r, o, n);
      assert a + ReplaceAll(r, o, n) == [a[0]] + (a[1..] + ReplaceAll(r, o, n));
    } else {
      assert s == r;
    }
  }

  /** A character at which the pattern does not start is copied. */
  lemma ReplaceSkipsChar(c: char, r: string, o: string, n: string)
    requires |o| > 0 && !(o <= [c] + r)
    ensures ReplaceAll([c] + r, o, n) == [c] + ReplaceAll(r, o, n)
  {
    assert ([c] + r)[1..] == r;
  }

  /**
   * A two-character pattern whose second character is a digit does not
   * start inside a digit-free text, so only its copy after that text is
   * replaced.
   */
  lemma {:induction false} ReplaceAfterDigitFree(f: string, o: string, r: string, n: string)
    requires |o| == 2 && !IsDigit(o[0]) && IsDigit(o[1])
    requires forall i :: 0 <= i < |f| ==> !IsDigit(f[i])
    ensures ReplaceAll(f + o + r, o, n) == f + n + ReplaceAll(r, o, n)
    decreases |f|
  {
    var s := f + o + r;
    if |f| == 0 {
      assert s == o + r;
      ReplaceAtFront(o, r, n);
    } else {
      assert s[1] == (if |f| > 1 then f[1] else o[0]);
      assert s[1] != o[1];
      assert s[1..] == f[1..] + o + r;
      ReplaceAfterDigitFree(f[1..], o, r, n);
      assert f + n + ReplaceAll(r, o, n) == [f[0]] + (f[1..] + n + ReplaceAll(r, o, n));
    }
  }

  /** Applies a replacement table entry by entry, in table order. */
  function ReplaceChain(s: string, table: seq<(string, string)>): string
    requires forall i :: 0 <= i < |table| ==> |table[i].0| > 0
    decreases |table|
  {
    if |table| == 0 then s
    else ReplaceChain(ReplaceAll(s, table[0].0, table[0].1), table[1..])
  }

  /** `s.replace("-", "")`. */
  function RemoveDashes(s: string): (r: string)
    ensures '-' !in r
    ensures forall i :: 0 <= i < |r| ==> r[i] in s
  {
    ReplaceRemoves(s, "-", "");
    ReplaceAll(s, "-", "")
  }

  // ---------------------------------------------------------------------
  // Splitting and joining

  /** `sep.join(parts)`. */
  function Join(parts: seq<string>, sep: string): string
  {
    if |parts| == 0 then ""
    else if |parts| == 1 then parts[0]
    else parts[0] + sep + Join(parts[1..], sep)
  }

  /** Index of the first occurrence of the character `c` (`str.find` on one character). */
  function CharIndex(s: string, c: char): (r: Option<nat>)
    ensures r.Some? ==> r.value < |s| && s[r.value] == c && c !in s[..r.value]
    ensures r.None? ==> c !in s
  {
    if |s| == 0 then None
    else if s[0] == c then Some(0)
    else
      match CharIndex(s[1..], c)
      case Some(k) =>
        assert s[..k + 1] == [s[0]] + s[1..][..k];
        Some(k + 1)
      case None => None
  }

  /** The first occurrence of `c` is at `k` when `s[k]` is `c` and no earlier character is. */
  lemma CharIndexAt(s: string, c: char, k: nat)
    requires k < |s| && s[k] == c && c !in s[..k]
    ensures CharIndex(s, c) == Some(k)
  {
    assert s[k] in s;
    assert forall j :: 0 <= j < k ==> s[..k][j] == s[j];
    assert forall j :: k < j <= |s| ==> s[..j][k] == s[k];
  }

  /** `s.split(c)` for a one-character separator. */
  function Split(s: string, c: char): (parts: seq<string>)
    ensures |parts| >= 1
    ensures forall i :: 0 <= i < |parts| ==> c !in parts[i]
    decreases |s|
  {
    match CharIndex(s, c)
    case None => [s]
    case Some(k) => [s[..k]] + Split(s[k + 1..], c)
  }

  /** Joining the pieces of a split with the separator gives back the text. */
  lemma {:induction false} JoinSplit(s: string, c: char)
    ensures Join(Split(s, c), [c]) == s
    decreases |s|
  {
    match CharIndex(s, c)
    case None =>
    case Some(k) =>
      JoinSplit(s[k + 1..], c);
      assert s == s[..k] + [c] + s[k + 1..];
  }

  // ---------------------------------------------------------------------
  // Whitespace

  /** `s.lstrip()`. */
  function StripLeading(s: string): (r: string)
    ensures |r| <= |s| && r == s[|s| - |r|..]
    ensures |r| == 0 || !IsSpace(r[0])
    ensures AllSpace(s[..|s| - |r|])
  {
    if |s| > 0 && IsSpace(s[0]) then
      var r := StripLeading(s[1..]);
      assert s[..|s| - |r|] == [s[0]] + s[1..][..|s| - 1 - |r|];
      r
    else s
  }

  /** `s.rstrip()`. */
  function StripTrailing(s: string): (r: string)
    ensures r <= s
    ensures |r| == 0 || !IsSpace(r[|r| - 1])
    ensures AllSpace(s[|r|..])
  {
    if |s| > 0 && IsSpace(s[|s| - 1]) then
      var r := StripTrailing(s[..|s| - 1]);
      assert s[|r|..] == s[..|s| - 1][|r|..] + [s[|s| - 1]];
      r
    else s
  }

  /** `s.strip()`. */
  function Strip(s: string): string
  {
    StripTrailing(StripLeading(s))
  }

  /** A text strips to "" exactly when it is all whitespace. */
  lemma StripEmpty(s: string)
    ensures Strip(s) == [] <==> AllSpace(s)
  {
    var l := StripLeading(s);
    assert s == s[..|s| - |l|] + l;
    assert l[0..] == l;
    assert |l| > 0 ==> l[0] == s[|s| - |l|];
  }

  // ---------------------------------------------------------------------
  // Case

  function LowerChar(c: char): char
  {
    if 'A' <= c <= 'Z' then (c as int + 32) as char else c
  }

  /** `s.lower()` on ASCII letters. */
  function Lower(s: string): (r: string)
    ensures |r| == |s|
    ensures forall i :: 0 <= i < |s| ==> r[i] == LowerChar(s[i])
  {
    if |s| == 0 then [] else [LowerChar(s[0])] + Lower(s[1..])
  }

  // ---------------------------------------------------------------------
  // Decimal numbers

  function DigitChar(d: nat): char
    requires d < 10
  {
    ('0' as int + d) as char
  }

  function DigitValue(c: char): nat
    requires IsDigit(c)
  {
    c as int - '0' as int
  }

  /** `str(n)` for a natural number. */
  function NatToString(n: nat): (r: string)
    ensures |r| >= 1 && AllDigits(r)
    ensures n < 10 ==> |r| == 1
    ensures 10 <= n < 100 ==> |r| == 2
    ensures 1000 <= n < 10000 ==> |r| == 4
    ensures |r| > 1 ==> r[0] != '0'
  {
    if n < 10 then [DigitChar(n)] else NatToString(n / 10) + [DigitChar(n % 10)]
  }

  /** `str(i)` for an integer. */
  function IntToString(i: int): string
  {
    if i < 0 then "-" + NatToString(-i) else NatToString(i)
  }

  /** The value of a run of decimal digits (`int(s)` on `\d+`). */
  function DigitsValue(s: string): nat
    requires AllDigits(s)
  {
    if |s| == 0 then 0 else DigitsValue(s[..|s| - 1]) * 10 + DigitValue(s[|s| - 1])
  }

  /** Reading back the decimal rendering of `n` gives `n`. */
  lemma {:induction false} DigitsOfNat(n: nat)
    ensures DigitsValue(NatToString(n)) == n
  {
    if n >= 10 {
      var r := NatToString(n);
      assert r[..|r| - 1] == NatToString(n / 10);
      DigitsOfNat(n / 10);
    }
  }

  /** Two-digit zero-padded rendering (`%02d`). */
  function Pad2(n: nat): (r: string)
    requires n < 100
    ensures |r| == 2 && AllDigits(r) && DigitsValue(r) == n
  {
    var r := [DigitChar(n / 10), DigitChar(n % 10)];
    assert r[..1] == [DigitChar(n / 10)];
    assert r[..1][..0] == [];
    assert DigitsValue(r[..1]) == n / 10;
    r
  }
}
