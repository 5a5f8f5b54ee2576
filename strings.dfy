/** Python string operations the tile downloader relies on: `str.replace`,
    `str(int)`, `str.split` and the POSIX rendering of `os.path.join`. */
module Strings {

  /** Python's `s.replace(pat, rep)`: every non-overlapping occurrence of `pat`,
      scanning left to right, is replaced by `rep`; an empty `pat` inserts
      `rep` before every character and at the end. */
  function Replace(s: string, pat: string, rep: string): string
    decreases |s|
  {
    if |pat| == 0 then
      (if s == [] then rep else rep + [s[0]] + Replace(s[1..], pat, rep))
    else if |s| < |pat| then s
    else if s[..|pat|] == pat then rep + Replace(s[|pat|..], pat, rep)
    else [s[0]] + Replace(s[1..], pat, rep)
  }

  /** A piece of text that the scan for `pat` passes over without a match,
      whatever follows it: either it never contains the first character of
      `pat`, or it contains it only at its start and already differs from
      `pat` within its own length. */
  predicate Inert(piece: string, pat: string)
  {
    |pat| > 0 &&
    (pat[0] !in piece ||
     (piece[0] == pat[0] && pat[0] !in piece[1..] &&
      |piece| >= |pat| && piece[..|pat|] != pat))
  }

  lemma {:induction false} ReplaceEmpty(pat: string, rep: string)
    requires |pat| > 0
    ensures Replace([], pat, rep) == []
  {
  }

  /** Scanning passes over an inert prefix unchanged. */
  lemma {:induction false} ReplaceInert(a: string, b: string, pat: string, rep: string)
    requires Inert(a, pat)
    ensures Replace(a + b, pat, rep) == a + Replace(b, pat, rep)
    decreases |a|
  {
    if a != [] {
      var s := a + b;
      if |s| < |pat| {
        assert |b| < |pat|;
        assert Replace(b, pat, rep) == b;
        assert Replace(s, pat, rep) == s;
      } else {
        assert s[0] == a[0];
        if a[0] == pat[0] {
          assert s[..|pat|] == a[..|pat|];
        } else {
          assert a[0] in a;
        }
        assert s[1..] == a[1..] + b;
        assert s[..|pat|] != pat;
        assert Replace(s, pat, rep) == [s[0]] + Replace(s[1..], pat, rep);
        ReplaceInert(a[1..], b, pat, rep);
        assert a == [a[0]] + a[1..];
      }
    } else {
      assert a + b == b;
    }
  }

  /** An occurrence of `pat` at the front is replaced and the scan resumes
      after it. */
  lemma {:induction false} ReplaceHit(b: string, pat: string, rep: string)
    requires |pat| > 0
    ensures Replace(pat + b, pat, rep) == rep + Replace(b, pat, rep)
  {
    var s := pat + b;
    assert s[..|pat|] == pat;
    assert s[|pat|..] == b;
  }

  /** Concatenation of a list of pieces. */
  function Concat(ps: seq<string>): string
  {
    if ps == [] then [] else ps[0] + Concat(ps[1..])
  }

  /** Each piece equal to `pat` is swapped for `rep`. */
  function Subst(ps: seq<string>, pat: string, rep: string): (r: seq<string>)
    ensures |r| == |ps|
  {
    if ps == [] then [] else [if ps[0] == pat then rep else ps[0]] + Subst(ps[1..], pat, rep)
  }

  /** When every piece is either `pat` itself or inert for it, replacing in the
      concatenation replaces exactly the pieces equal to `pat`. */
  lemma {:induction false} ReplacePieces(ps: seq<string>, pat: string, rep: string)
    requires |pat| > 0
    requires forall k | 0 <= k < |ps| :: ps[k] == pat || Inert(ps[k], pat)
    ensures Replace(Concat(ps), pat, rep) == Concat(Subst(ps, pat, rep))
  {
    if ps == [] {
      ReplaceEmpty(pat, rep);
    } else {
      ReplacePieces(ps[1..], pat, rep);
      if ps[0] == pat {
        ReplaceHit(Concat(ps[1..]), pat, rep);
      } else {
        ReplaceInert(ps[0], Concat(ps[1..]), pat, rep);
      }
    }
  }

  // ---------------------------------------------------------------------
  // str(int) and its inverse

  predicate IsDigit(c: char)
  {
    '0' <= c <= '9'
  }

  function DigitChar(d: nat): (c: char)
    requires d < 10
    ensures IsDigit(c)
  {
    ('0' as int + d) as char
  }

  function DigitValue(c: char): (d: nat)
    requires IsDigit(c)
    ensures d < 10
  {
    c as int - '0' as int
  }

  predicate AllDigits(s: string)
  {
    forall i | 0 <= i < |s| :: IsDigit(s[i])
  }

  /** Decimal digits of a natural number, most significant first, without
      leading zeros. */
  function NatToDecimal(n: nat): (s: string)
    ensures |s| > 0 && AllDigits(s)
    decreases n
  {
    if n < 10 then [DigitChar(n)] else NatToDecimal(n / 10) + [DigitChar(n % 10)]
  }

  /** A non-empty string of decimal digits with an optional leading minus
      sign: the shape of `str(n)` for an integer `n`. */
  predicate DecimalLike(s: string)
  {
    |s| > 0 && forall i | 0 <= i < |s| :: IsDigit(s[i]) || (i == 0 && s[i] == '-')
  }

  /** Python's `str(n)` for an integer `n`. */
  function IntToDecimal(n: int): (s: string)
    ensures DecimalLike(s)
  {
    (if n < 0 then "-" else "") + NatToDecimal(if n < 0 then -n else n)
  }

  /** Value of a string of decimal digits. */
  function ParseNat(s: string): nat
    requires AllDigits(s)
  {
    if s == [] then 0 else 10 * ParseNat(s[..|s| - 1]) + DigitValue(s[|s| - 1])
  }

  /** Python's `int(s)` on the strings `str` produces for integers. */
  function ParseInt(s: string): int
    requires |s| > 0
    requires AllDigits(s) || (s[0] == '-' && AllDigits(s[1..]))
  {
    if s[0] == '-' then -(ParseNat(s[1..]) as int) else ParseNat(s)
  }

  lemma {:induction false} ParseNatToDecimal(n: nat)
    ensures ParseNat(NatToDecimal(n)) == n
    decreases n
  {
    var s := NatToDecimal(n);
    if n < 10 {
      assert s[..|s| - 1] == [];
    } else {
      ParseNatToDecimal(n / 10);
      assert s[..|s| - 1] == NatToDecimal(n / 10);
    }
  }

  /** `int(str(n)) == n`: the decimal rendering loses nothing. */
  lemma ParseIntToDecimal(n: int)
    ensures ParseInt(IntToDecimal(n)) == n
  {
    var s := IntToDecimal(n);
    if n < 0 {
      assert s[1..] == NatToDecimal(-n);
      ParseNatToDecimal(-n);
    } else {
      assert s == NatToDecimal(n);
      ParseNatToDecimal(n);
    }
  }

  /** Distinct integers have distinct decimal renderings. */
  lemma IntToDecimalInjective(a: int, b: int)
    ensures IntToDecimal(a) == IntToDecimal(b) ==> a == b
  {
    ParseIntToDecimal(a);
    ParseIntToDecimal(b);
  }

  // ---------------------------------------------------------------------
  // str.split and joining with a separator

  /** `sep.join(ps)`. */
  function Join(ps: seq<string>, sep: char): string
  {
    if ps == [] then []
    else if |ps| == 1 then ps[0]
    else ps[0] + [sep] + Join(ps[1..], sep)
  }

  /** Python's `s.split(sep)` for a one-character separator. */
  function Split(s: string, sep: char): (parts: seq<string>)
    ensures |parts| > 0
    decreases |s|
  {
    if s == [] then [[]]
    else
      var rest := Split(s[1..], sep);
      if s[0] == sep then [[]] + rest else [[s[0]] + rest[0]] + rest[1..]
  }

  lemma {:induction false} SplitNoSep(a: string, sep: char)
    requires sep !in a
    ensures Split(a, sep) == [a]
    decreases |a|
  {
    if a != [] {
      assert a[0] in a;
      SplitNoSep(a[1..], sep);
      assert a == [a[0]] + a[1..];
    }
  }

  lemma {:induction false} SplitAt(a: string, b: string, sep: char)
    requires sep !in a
    ensures Split(a + [sep] + b, sep) == [a] + Split(b, sep)
    decreases |a|
  {
    var s := a + [sep] + b;
    if a == [] {
      assert s[1..] == b;
    } else {
      assert a[0] in a;
      assert s[1..] == a[1..] + [sep] + b;
      SplitAt(a[1..], b, sep);
      assert a == [a[0]] + a[1..];
    }
  }

  /** Splitting a joined list gives the list back when no part contains the
      separator. */
  lemma {:induction false} SplitJoin(ps: seq<string>, sep: char)
    requires |ps| > 0
    requires forall k | 0 <= k < |ps| :: sep !in ps[k]
    ensures Split(Join(ps, sep), sep) == ps
  {
    if |ps| == 1 {
      SplitNoSep(ps[0], sep);
    } else {
      SplitJoin(ps[1..], sep);
      SplitAt(ps[0], Join(ps[1..], sep), sep);
      assert ps == [ps[0]] + ps[1..];
    }
  }
}
