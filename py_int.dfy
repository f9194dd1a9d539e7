/**
 * Python's `int(text)` on a `str`, base 10: surrounding whitespace is ignored, an
 * optional sign may lead, and the digits may be grouped by single underscores
 * (`int(" -1_000 ")` is -1000).  Every other string raises `ValueError`, which
 * is `None` here.
 */
module PyInt {
  import opened Wrappers

  /**
   * The characters below U+0100 that `int()` skips around the number: the ASCII
   * spaces ` \t\n\v\f\r`, and NEL and NO-BREAK SPACE, which it first turns
   * into a plain space.  The separators U+001C to U+001F are not among them.
   */
  predicate IsSpace(c: char) {
    '\t' <= c <= '\r' || c == ' ' || c == '\U{85}' || c == '\U{A0}'
  }

  predicate IsDigit(c: char) {
    '0' <= c <= '9'
  }

  function DigitValue(c: char): (d: nat)
    requires IsDigit(c)
    ensures d < 10
  {
    c as int - '0' as int
  }

  /** The text with leading whitespace removed. */
  function TrimStart(s: string): (r: string)
    ensures |r| <= |s| && r == s[|s| - |r|..]
    ensures r == [] || !IsSpace(r[0])
    decreases |s|
  {
    if |s| > 0 && IsSpace(s[0]) then TrimStart(s[1..]) else s
  }

  /** The text with trailing whitespace removed. */
  function TrimEnd(s: string): (r: string)
    ensures |r| <= |s| && r == s[..|r|]
    ensures r == [] || !IsSpace(r[|r| - 1])
    decreases |s|
  {
    if |s| > 0 && IsSpace(s[|s| - 1]) then TrimEnd(s[..|s| - 1]) else s
  }

  /** The text with the whitespace above removed at both ends. */
  function Strip(s: string): string {
    TrimEnd(TrimStart(s))
  }

  /**
   * Base-10 digits as Python's integer literal grammar allows them: at least one
   * digit, underscores only between two digits.
   */
  predicate GroupedDigits(s: string) {
    && |s| > 0
    && IsDigit(s[0])
    && IsDigit(s[|s| - 1])
    && (forall i :: 0 <= i < |s| ==> IsDigit(s[i]) || s[i] == '_')
    && (forall i :: 0 <= i < |s| - 1 && s[i] == '_' ==> s[i + 1] != '_')
  }

  /** The digits of `s` with the underscores dropped. */
  function DropUnderscores(s: string): (r: string)
    ensures |r| <= |s|
    ensures (forall i :: 0 <= i < |s| ==> s[i] != '_') ==> r == s
    ensures (forall i :: 0 <= i < |s| ==> IsDigit(s[i]) || s[i] == '_') ==> forall j :: 0 <= j < |r| ==> IsDigit(r[j])
  {
    if s == [] then []
    else (if s[0] == '_' then [] else [s[0]]) + DropUnderscores(s[1..])
  }

  /** The number a string of decimal digits denotes, most significant first. */
  function DigitsValue(s: string): nat
    requires forall i :: 0 <= i < |s| ==> IsDigit(s[i])
  {
    if s == [] then 0 else DigitsValue(s[..|s| - 1]) * 10 + DigitValue(s[|s| - 1])
  }

  /** Parses an unsigned, possibly underscore-grouped, digit string. */
  function ParseDigits(s: string): (r: Option<nat>)
    ensures r.Some? <==> GroupedDigits(s)
  {
    if GroupedDigits(s) then Some(DigitsValue(DropUnderscores(s))) else None
  }

  /** An optional sign followed by grouped digits, with nothing around them. */
  function ParseSigned(t: string): Option<int> {
    if |t| > 0 && (t[0] == '-' || t[0] == '+') then
      match ParseDigits(t[1..])
      case None => None
      case Some(n) => Some(if t[0] == '-' then -(n as int) else n as int)
    else
      match ParseDigits(t)
      case None => None
      case Some(n) => Some(n)
  }

  /** `int(s)` for a Python `str` in base 10; `None` where Python raises `ValueError`. */
  function ParseInt(s: string): Option<int> {
    ParseSigned(Strip(s))
  }

  /** Python's `str(n)` for a non-negative integer. */
  function NatToString(n: nat): (r: string)
    ensures |r| > 0
    ensures forall i :: 0 <= i < |r| ==> IsDigit(r[i])
  {
    var last := [(('0' as int) + n % 10) as char];
    if n < 10 then last else NatToString(n / 10) + last
  }

  /** Python's `str(n)` for any integer. */
  function IntToString(n: int): string {
    if n < 0 then "-" + NatToString(-n) else NatToString(n)
  }

  lemma {:induction false} NatToStringValue(n: nat)
    ensures DigitsValue(NatToString(n)) == n
  {
    var s := NatToString(n);
    assert s[..|s| - 1] == if n < 10 then [] else NatToString(n / 10);
    if n >= 10 {
      NatToStringValue(n / 10);
    }
  }

  /** A grouped digit string with no whitespace at either end survives stripping. */
  lemma StripKeeps(s: string)
    requires |s| > 0 && !IsSpace(s[0]) && !IsSpace(s[|s| - 1])
    ensures Strip(s) == s
  {
  }

  /** The decimal form of a natural number parses back to it. */
  lemma ParseDigitsOfNat(m: nat)
    ensures ParseDigits(NatToString(m)) == Some(m)
  {
    var d := NatToString(m);
    NatToStringValue(m);
    assert forall i :: 0 <= i < |d| ==> d[i] != '_';
    assert DropUnderscores(d) == d;
  }

  /** Dropping the underscores of `s` and then appending `c` is dropping them from `s + [c]`. */
  lemma {:induction false} DropUnderscoresSnoc(s: string, c: char)
    requires c != '_'
    ensures DropUnderscores(s + [c]) == DropUnderscores(s) + [c]
  {
    if s == [] {
      assert [c][1..] == [];
    } else {
      assert (s + [c])[1..] == s[1..] + [c];
      DropUnderscoresSnoc(s[1..], c);
    }
  }

  /** A grouped digit string keeps its first and last digit once its underscores are gone. */
  lemma GroupedDigitsDropped(s: string)
    requires GroupedDigits(s)
    ensures GroupedDigits(DropUnderscores(s))
  {
    var n := |s| - 1;
    assert s == s[..n] + [s[n]];
    DropUnderscoresSnoc(s[..n], s[n]);
  }

  /** The grouping underscores do not change the value: `int("1_000") == int("1000")`. */
  lemma UnderscoresIgnored(s: string)
    ensures GroupedDigits(s) ==> ParseDigits(s) == ParseDigits(DropUnderscores(s))
  {
    if GroupedDigits(s) {
      GroupedDigitsDropped(s);
    }
  }

  /** Leading whitespace is skipped. */
  lemma {:induction false} TrimStartSpaces(w: string, s: string)
    requires forall i :: 0 <= i < |w| ==> IsSpace(w[i])
    ensures TrimStart(w + s) == TrimStart(s)
  {
    if w == [] {
      assert w + s == s;
    } else {
      assert (w + s)[1..] == w[1..] + s;
      TrimStartSpaces(w[1..], s);
    }
  }

  /** Trailing whitespace is skipped. */
  lemma {:induction false} TrimEndSpaces(s: string, w: string)
    requires forall i :: 0 <= i < |w| ==> IsSpace(w[i])
    ensures TrimEnd(s + w) == TrimEnd(s)
  {
    if w == [] {
      assert s + w == s;
    } else {
      var n := |w| - 1;
      assert (s + w)[..|s + w| - 1] == s + w[..n];
      TrimEndSpaces(s, w[..n]);
    }
  }

  /** Whitespace appended after the text survives trimming its start, unless nothing else is left. */
  lemma {:induction false} TrimStartAppend(s: string, w: string)
    requires forall i :: 0 <= i < |w| ==> IsSpace(w[i])
    ensures TrimStart(s + w) == if TrimStart(s) == [] then [] else TrimStart(s) + w
  {
    if s == [] {
      TrimStartSpaces(w, []);
      assert s + w == w + [];
    } else if IsSpace(s[0]) {
      assert (s + w)[1..] == s[1..] + w;
      TrimStartAppend(s[1..], w);
    }
  }

  /** Whitespace added around the text is removed again by stripping. */
  lemma StripSurrounding(before: string, s: string, after: string)
    requires forall i :: 0 <= i < |before| ==> IsSpace(before[i])
    requires forall i :: 0 <= i < |after| ==> IsSpace(after[i])
    ensures Strip(before + s + after) == Strip(s)
  {
    assert before + s + after == before + (s + after);
    TrimStartSpaces(before, s + after);
    TrimStartAppend(s, after);
    if TrimStart(s) != [] {
      TrimEndSpaces(TrimStart(s), after);
    }
  }

  /** `int()` reads the same number, or fails the same way, with whitespace added around the text. */
  lemma SurroundingSpaceIgnored(before: string, s: string, after: string)
    requires forall i :: 0 <= i < |before| ==> IsSpace(before[i])
    requires forall i :: 0 <= i < |after| ==> IsSpace(after[i])
    ensures ParseInt(before + s + after) == ParseInt(s)
  {
    StripSurrounding(before, s, after);
  }

  lemma ParseNegative(n: int)
    requires n < 0
    ensures ParseInt(IntToString(n)) == Some(n)
  {
    var m: nat := -n;
    var d := NatToString(m);
    ParseDigitsOfNat(m);
    var s := IntToString(n);
    assert s == "-" + d;
    assert s[1..] == d;
    assert s[|s| - 1] == d[|d| - 1] && IsDigit(d[|d| - 1]);
    StripKeeps(s);
    assert ParseSigned(s) == Some(-(m as int));
  }

  lemma ParseNonNegative(n: nat)
    ensures ParseInt(IntToString(n)) == Some(n)
  {
    var s := NatToString(n);
    ParseDigitsOfNat(n);
    assert IsDigit(s[0]) && IsDigit(s[|s| - 1]);
    StripKeeps(s);
    assert s[0] != '-' && s[0] != '+';
    assert IntToString(n) == s;
  }

  /** `int(str(n)) == n`: the parser reads back what Python prints for an integer. */
  lemma ParseIntRoundTrip(n: int)
    ensures ParseInt(IntToString(n)) == Some(n)
  {
    if n < 0 { ParseNegative(n); } else { ParseNonNegative(n); }
  }

  // ---------------------------------------------------------------------------
  // The accepted texts, as a grammar: spaces, a numeral, spaces

  predicate AllSpace(w: string) {
    forall k :: 0 <= k < |w| ==> IsSpace(w[k])
  }

  /** An optional sign followed by grouped digits. */
  predicate SignedDigits(t: string) {
    || GroupedDigits(t)
    || (|t| > 0 && (t[0] == '+' || t[0] == '-') && GroupedDigits(t[1..]))
  }

  /** `s[i..j]` is a signed numeral with nothing but whitespace before and after it. */
  predicate IntTextAt(s: string, i: int, j: int) {
    && 0 <= i <= j <= |s|
    && AllSpace(s[..i]) && AllSpace(s[j..])
    && SignedDigits(s[i..j])
  }

  /** The texts `int()` accepts. */
  predicate IntText(s: string) {
    exists i, j :: 0 <= i <= j <= |s| && IntTextAt(s, i, j)
  }

  /** The value of a signed numeral. */
  function SignedValue(t: string): int
    requires SignedDigits(t)
  {
    if GroupedDigits(t) then DigitsValue(DropUnderscores(t))
    else if t[0] == '-' then -(DigitsValue(DropUnderscores(t[1..])) as int)
    else DigitsValue(DropUnderscores(t[1..]))
  }

  /** A signed numeral starts with no whitespace and ends with a digit. */
  lemma SignedDigitsEnds(t: string)
    requires SignedDigits(t)
    ensures |t| > 0 && !IsSpace(t[0]) && IsDigit(t[|t| - 1])
  {
    if !GroupedDigits(t) {
      assert t[1..][|t| - 2] == t[|t| - 1];
    }
  }

  /** Every character of a signed numeral is a digit, an underscore, or the leading sign. */
  lemma SignedDigitsChars(t: string, m: int)
    requires SignedDigits(t) && 0 <= m < |t|
    ensures IsDigit(t[m]) || t[m] == '_' || (m == 0 && (t[m] == '+' || t[m] == '-'))
  {
    if !GroupedDigits(t) && m > 0 {
      assert t[1..][m - 1] == t[m];
    }
  }

  /** A numeral surrounded by whitespace is what stripping leaves. */
  lemma StripOfIntText(s: string, i: int, j: int)
    requires IntTextAt(s, i, j)
    ensures Strip(s) == s[i..j]
  {
    var before, mid, after := s[..i], s[i..j], s[j..];
    assert s == before + mid + after;
    assert AllSpace(before) && AllSpace(after);
    StripSurrounding(before, mid, after);
    SignedDigitsEnds(mid);
    StripKeeps(mid);
  }

  /** Text surrounded by whitespace reads as its numeral's value. */
  lemma ParseIntValue(s: string, i: int, j: int)
    requires IntTextAt(s, i, j)
    ensures ParseInt(s) == Some(SignedValue(s[i..j]))
  {
    StripOfIntText(s, i, j);
  }

  /** Stripping leaves a slice of the text: what follows the leading whitespace, up to the trailing whitespace. */
  lemma StripIsSlice(s: string)
    ensures |s| - |TrimStart(s)| + |Strip(s)| <= |s|
    ensures Strip(s) == s[|s| - |TrimStart(s)|..|s| - |TrimStart(s)| + |Strip(s)|]
  {
    var u := TrimStart(s);
    assert u == s[|s| - |u|..];
    var t := TrimEnd(u);
    assert t == u[..|t|];
    TrimsAreSlice(s, u, t);
  }

  /** A prefix of a suffix of `s` is a slice of `s`. */
  lemma TrimsAreSlice(s: string, u: string, t: string)
    requires |u| <= |s| && u == s[|s| - |u|..]
    requires |t| <= |u| && t == u[..|t|]
    ensures t == s[|s| - |u|..|s| - |u| + |t|]
  {
  }

  /** Only whitespace follows what stripping leaves. */
  lemma StripTailSpaces(s: string)
    ensures forall k :: |s| - |TrimStart(s)| + |Strip(s)| <= k < |s| ==> IsSpace(s[k])
  {
    var u := TrimStart(s);
    var t := TrimEnd(u);
    var i := |s| - |u|;
    TrimEndDropsSpaces(u);
    assert u == s[i..];
    forall k | i + |t| <= k < |s| ensures IsSpace(s[k]) {
      assert u[k - i] == s[k];
    }
  }

  /** What `TrimStart` drops is whitespace. */
  lemma {:induction false} TrimStartDropsSpaces(s: string)
    ensures forall k :: 0 <= k < |s| - |TrimStart(s)| ==> IsSpace(s[k])
    decreases |s|
  {
    if |s| > 0 && IsSpace(s[0]) {
      TrimStartDropsSpaces(s[1..]);
      forall k | 1 <= k < |s| - |TrimStart(s)| ensures IsSpace(s[k]) {
        assert s[1..][k - 1] == s[k];
      }
    }
  }

  /** What `TrimEnd` drops is whitespace. */
  lemma {:induction false} TrimEndDropsSpaces(s: string)
    ensures forall k :: |TrimEnd(s)| <= k < |s| ==> IsSpace(s[k])
    decreases |s|
  {
    if |s| > 0 && IsSpace(s[|s| - 1]) {
      var front := s[..|s| - 1];
      TrimEndDropsSpaces(front);
      forall k | |TrimEnd(s)| <= k < |s| - 1 ensures IsSpace(s[k]) {
        assert front[k] == s[k];
      }
    }
  }

  /** A text `ParseSigned` accepts is a signed numeral. */
  lemma ParseSignedAccepts(t: string)
    ensures ParseSigned(t).Some? ==> SignedDigits(t)
  {
  }

  /** Every text `int()` accepts is a numeral surrounded by whitespace. */
  lemma ParsedIsIntText(s: string)
    requires ParseInt(s).Some?
    ensures IntTextAt(s, |s| - |TrimStart(s)|, |s| - |TrimStart(s)| + |Strip(s)|)
  {
    var i := |s| - |TrimStart(s)|;
    var j := i + |Strip(s)|;
    StripIsSlice(s);
    TrimStartDropsSpaces(s);
    StripTailSpaces(s);
    ParseSignedAccepts(Strip(s));
    assert AllSpace(s[..i]) by {
      forall k | 0 <= k < i ensures IsSpace(s[..i][k]) {
        assert s[..i][k] == s[k];
      }
    }
    assert AllSpace(s[j..]) by {
      forall k | 0 <= k < |s| - j ensures IsSpace(s[j..][k]) {
        assert s[j..][k] == s[j + k];
      }
    }
  }

  /** `int()` succeeds exactly on the texts of the grammar. */
  lemma ParseIntAcceptsExactly(s: string)
    ensures ParseInt(s).Some? <==> IntText(s)
  {
    if IntText(s) {
      var i, j :| 0 <= i <= j <= |s| && IntTextAt(s, i, j);
      ParseIntValue(s, i, j);
    }
    if ParseInt(s).Some? {
      ParsedIsIntText(s);
    }
  }

  /** A character that is no whitespace, digit, sign or underscore makes `int()` raise. */
  lemma StrayCharacterRejected(s: string, k: int)
    requires 0 <= k < |s|
    requires !IsSpace(s[k]) && !IsDigit(s[k]) && s[k] != '+' && s[k] != '-' && s[k] != '_'
    ensures ParseInt(s).None?
  {
    if ParseInt(s).Some? {
      StripIsSlice(s);
      TrimStartDropsSpaces(s);
      StripTailSpaces(s);
      ParseSignedAccepts(Strip(s));
      var i := |s| - |TrimStart(s)|;
      if i <= k < i + |Strip(s)| {
        assert Strip(s)[k - i] == s[k];
        SignedDigitsChars(Strip(s), k - i);
      }
    }
  }
}
