/**
 * The string operations the controller helpers rely on, as Python defines
 * them on plain ASCII text: str() and int() of a non-negative decimal,
 * int(s, 16), the substring test `in`, str.replace, str.split on one
 * separator, str.rsplit(sep, 1), and a list comprehension that keeps the
 * entries satisfying a test.
 */
module Text {
  import opened Opt

  predicate IsDigit(c: char)
  {
    '0' <= c <= '9'
  }

  predicate AllDigits(s: string)
  {
    forall i :: 0 <= i < |s| ==> IsDigit(s[i])
  }

  function DigitChar(d: nat): (c: char)
    requires d < 10
    ensures IsDigit(c) && c as int - '0' as int == d
  {
    ('0' as int + d) as char
  }

  /** str(n) for n >= 0: the decimal digits, most significant first, with no leading zero. */
  function Str(n: nat): (s: string)
    ensures 1 <= |s| && AllDigits(s)
    ensures |s| > 1 ==> s[0] != '0'
    decreases n
  {
    if n < 10 then [DigitChar(n)] else Str(n / 10) + [DigitChar(n % 10)]
  }

  /** The value of a string of decimal digits. */
  function DigitsValue(s: string): nat
    requires AllDigits(s)
  {
    if s == [] then 0 else DigitsValue(s[..|s| - 1]) * 10 + (s[|s| - 1] as int - '0' as int)
  }

  /**
   * int(s) where s is meant to be a non-negative decimal: None where int()
   * raises ValueError (an empty string or a non-digit).
   */
  function ParseNat(s: string): (r: Option<nat>)
    ensures r.Some? <==> 1 <= |s| && AllDigits(s)
  {
    if 1 <= |s| && AllDigits(s) then Some(DigitsValue(s)) else None
  }

  /** int(str(n)) == n. */
  lemma {:induction false} StrRoundTrip(n: nat)
    ensures ParseNat(Str(n)) == Some(n)
    decreases n
  {
    if n >= 10 {
      StrRoundTrip(n / 10);
      var s := Str(n);
      assert s[..|s| - 1] == Str(n / 10);
      assert DigitsValue(s) == DigitsValue(Str(n / 10)) * 10 + n % 10;
    }
  }

  /** Distinct numbers render as distinct strings. */
  lemma StrInjective(a: nat, b: nat)
    requires Str(a) == Str(b)
    ensures a == b
  {
    StrRoundTrip(a);
    StrRoundTrip(b);
  }

  predicate StartsWith(s: string, p: string)
  {
    |p| <= |s| && s[..|p|] == p
  }

  /** Python's `t in s` on strings. */
  predicate Contains(s: string, t: string)
  {
    exists i :: 0 <= i <= |s| && StartsWith(s[i..], t)
  }

  /** An occurrence inside a string is an occurrence inside any string around it. */
  lemma ContainsWithin(a: string, s: string, b: string, t: string)
    requires Contains(s, t)
    ensures Contains(a + s + b, t)
  {
    var i :| 0 <= i <= |s| && StartsWith(s[i..], t);
    assert (a + s + b)[|a| + i..][..|t|] == s[i..][..|t|];
  }

  /** A string holds itself. */
  lemma ContainsSelf(s: string, t: string)
    requires StartsWith(s, t)
    ensures Contains(s, t)
  {
    assert s[0..] == s;
  }

  /** A one-character pattern occurs exactly where that character does. */
  lemma ContainsChar(s: string, c: char)
    ensures Contains(s, [c]) <==> c in s
  {
    if c in s {
      var i :| 0 <= i < |s| && s[i] == c;
      assert StartsWith(s[i..], [c]);
    }
    if Contains(s, [c]) {
      var i :| 0 <= i <= |s| && StartsWith(s[i..], [c]);
      assert s[i] == c;
    }
  }

  /**
   * s.replace(pat, rep): scans left to right and replaces each
   * non-overlapping occurrence of pat.
   */
  function ReplaceAll(s: string, pat: string, rep: string): string
    requires |pat| > 0
    decreases |s|
  {
    if |s| < |pat| then s
    else if s[..|pat|] == pat then rep + ReplaceAll(s[|pat|..], pat, rep)
    else [s[0]] + ReplaceAll(s[1..], pat, rep)
  }

  /** A string without the pattern is left alone. */
  lemma {:induction false} ReplaceAbsent(s: string, pat: string, rep: string)
    requires |pat| > 0 && !Contains(s, pat)
    ensures ReplaceAll(s, pat, rep) == s
    decreases |s|
  {
    if |s| >= |pat| {
      assert s[0..] == s;
      assert !StartsWith(s, pat);
      forall i | 0 <= i <= |s[1..]|
        ensures !StartsWith(s[1..][i..], pat)
      {
        assert s[1..][i..] == s[i + 1..];
      }
      ReplaceAbsent(s[1..], pat, rep);
      assert [s[0]] + s[1..] == s;
    }
  }

  /** A leading occurrence is replaced and the scan resumes after it. */
  lemma ReplaceLeading(x: string, pat: string, rep: string)
    requires |pat| > 0
    ensures ReplaceAll(pat + x, pat, rep) == rep + ReplaceAll(x, pat, rep)
  {
    assert (pat + x)[..|pat|] == pat;
    assert (pat + x)[|pat|..] == x;
  }

  /** A first character that cannot start the pattern is kept. */
  lemma ReplaceKeeps(c: char, x: string, pat: string, rep: string)
    requires |pat| > 0 && c != pat[0]
    ensures ReplaceAll([c] + x, pat, rep) == [c] + ReplaceAll(x, pat, rep)
  {
    assert ([c] + x)[1..] == x;
    if |x| < |pat| {
      assert ReplaceAll(x, pat, rep) == x;
    }
  }

  /**
   * s.split(sep) for a one-character separator: the maximal runs between
   * separators, so k separators give k + 1 fields.
   */
  function Fields(s: string, sep: char): (r: seq<string>)
    ensures |r| >= 1
  {
    if s == [] then [""]
    else if s[0] == sep then [""] + Fields(s[1..], sep)
    else
      var rest := Fields(s[1..], sep);
      [[s[0]] + rest[0]] + rest[1..]
  }

  /** A string without the separator is one field. */
  lemma {:induction false} FieldsWhole(a: string, sep: char)
    requires sep !in a
    ensures Fields(a, sep) == [a]
  {
    if a != [] {
      FieldsWhole(a[1..], sep);
      assert [a[0]] + a[1..] == a;
    }
  }

  /** A field followed by a separator is split off the front. */
  lemma {:induction false} FieldsCons(a: string, sep: char, r: string)
    requires sep !in a
    ensures Fields(a + [sep] + r, sep) == [a] + Fields(r, sep)
  {
    if a == [] {
      assert a + [sep] + r == [sep] + r;
      assert ([sep] + r)[1..] == r;
    } else {
      var s := a + [sep] + r;
      assert s[1..] == a[1..] + [sep] + r;
      FieldsCons(a[1..], sep, r);
      assert [a[0]] + a[1..] == a;
    }
  }

  /**
   * s.rsplit(c, 1): the text before and after the last c; None where the
   * string has no c and the second part of the split does not exist.
   */
  function SplitLast(s: string, c: char): (r: Option<(string, string)>)
    ensures r.Some? ==> r.value.0 + [c] + r.value.1 == s && c !in r.value.1
    ensures r.None? <==> c !in s
  {
    if s == [] then None
    else if s[|s| - 1] == c then Some((s[..|s| - 1], ""))
    else
      match SplitLast(s[..|s| - 1], c)
      case None => None
      case Some(parts) => Some((parts.0, parts.1 + [s[|s| - 1]]))
  }

  /** Splitting at the last c recovers the two parts it joined. */
  lemma {:induction false} SplitLastJoin(a: string, c: char, b: string)
    requires c !in b
    ensures SplitLast(a + [c] + b, c) == Some((a, b))
  {
    var s := a + [c] + b;
    if b != [] {
      assert s[..|s| - 1] == a + [c] + b[..|b| - 1];
      SplitLastJoin(a, c, b[..|b| - 1]);
      assert b[..|b| - 1] + [b[|b| - 1]] == b;
    } else {
      assert s[..|s| - 1] == a;
    }
  }

  /** The value of a hexadecimal digit as int(c, 16) reads it, in either case. */
  function HexValue(c: char): (r: Option<nat>)
    ensures r.Some? ==> r.value < 16
  {
    if '0' <= c <= '9' then Some(c as int - '0' as int)
    else if 'a' <= c <= 'f' then Some(c as int - 'a' as int + 10)
    else if 'A' <= c <= 'F' then Some(c as int - 'A' as int + 10)
    else None
  }

  /** The upper-case digit '%X' prints. */
  function HexDigit(d: nat): (c: char)
    requires d < 16
    ensures HexValue(c) == Some(d)
    ensures c != ':'
  {
    if d < 10 then ('0' as int + d) as char else ('A' as int + d - 10) as char
  }

  predicate AllHex(s: string)
  {
    forall i :: 0 <= i < |s| ==> HexValue(s[i]).Some?
  }

  function HexNumber(s: string): nat
    requires AllHex(s)
  {
    if s == [] then 0 else HexNumber(s[..|s| - 1]) * 16 + HexValue(s[|s| - 1]).value
  }

  /** int(s, 16) on a string of hexadecimal digits; None where int() raises. */
  function ParseHex(s: string): (r: Option<nat>)
    ensures r.Some? <==> 1 <= |s| && AllHex(s)
  {
    if 1 <= |s| && AllHex(s) then Some(HexNumber(s)) else None
  }

  /** Two more hex digits shift the value by one byte. */
  lemma HexNumberPair(s: string, hi: nat, lo: nat)
    requires AllHex(s) && hi < 16 && lo < 16
    ensures AllHex(s + [HexDigit(hi), HexDigit(lo)])
    ensures HexNumber(s + [HexDigit(hi), HexDigit(lo)]) == HexNumber(s) * 256 + hi * 16 + lo
  {
    var t := s + [HexDigit(hi), HexDigit(lo)];
    assert t[..|t| - 1] == s + [HexDigit(hi)];
    assert t[..|t| - 1][..|t| - 2] == s;
  }

  /**
   * The entries of xs that pass p, in their original order: the list a
   * comprehension or an appending loop builds.
   */
  function Keep(xs: seq<string>, p: string -> bool): (r: seq<string>)
    ensures |r| <= |xs|
  {
    if xs == [] then []
    else if p(xs[|xs| - 1]) then Keep(xs[..|xs| - 1], p) + [xs[|xs| - 1]]
    else Keep(xs[..|xs| - 1], p)
  }

  /** Keep holds exactly the entries that pass. */
  lemma {:induction false} KeepMembers(xs: seq<string>, p: string -> bool)
    ensures forall x :: x in Keep(xs, p) <==> x in xs && p(x)
  {
    if xs != [] {
      KeepMembers(xs[..|xs| - 1], p);
      assert xs == xs[..|xs| - 1] + [xs[|xs| - 1]];
    }
  }

  /** Keep over one more entry. */
  lemma KeepSnoc(xs: seq<string>, i: nat, p: string -> bool)
    requires i < |xs|
    ensures Keep(xs[..i + 1], p) == Keep(xs[..i], p) + (if p(xs[i]) then [xs[i]] else [])
  {
    assert xs[..i + 1][..i] == xs[..i];
  }
}
