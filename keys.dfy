/** The string key "cx,cy,cz" under which chunks and voxel copies are stored,
    built from Java's decimal rendering of each coordinate. */
module Keys {

  /** The character of decimal digit d. */
  function DigitChar(d: nat): char
    requires d < 10
  {
    (48 + d) as char
  }

  /** The value of a decimal digit character (0 for any other character). */
  function DigitValue(c: char): nat
  {
    if '0' <= c <= '9' then (c as int) - 48 else 0
  }

  /** Decimal digits of n, most significant first, without leading zeros. */
  function Digits(n: nat): (s: string)
    ensures |s| > 0
    ensures forall i | 0 <= i < |s| :: '0' <= s[i] <= '9'
    decreases n
  {
    if n < 10 then [DigitChar(n)] else Digits(n / 10) + [DigitChar(n % 10)]
  }

  /** Java's Integer.toString: a minus sign for negative numbers, then the digits. */
  function IntToString(n: int): (s: string)
    ensures |s| > 0 && ',' !in s
  {
    if n < 0 then "-" + Digits(-n) else Digits(n)
  }

  /** Reads a string of decimal digits back as a number. */
  function ParseNat(s: string): nat
  {
    if s == [] then 0 else ParseNat(s[..|s| - 1]) * 10 + DigitValue(s[|s| - 1])
  }

  /** Reads an optional minus sign followed by decimal digits. */
  function ParseInt(s: string): int
  {
    if |s| > 0 && s[0] == '-' then -(ParseNat(s[1..]) as int) else ParseNat(s)
  }

  lemma {:induction false} ParseNatOfDigits(n: nat)
    ensures ParseNat(Digits(n)) == n
    decreases n
  {
    if n >= 10 {
      var s := Digits(n);
      assert s[..|s| - 1] == Digits(n / 10);
      ParseNatOfDigits(n / 10);
    }
  }

  /** The decimal text of every integer reads back as that integer. */
  lemma ParseIntOfIntToString(n: int)
    ensures ParseInt(IntToString(n)) == n
  {
    var s := IntToString(n);
    if n < 0 {
      assert s[0] == '-' && s[1..] == Digits(-n);
      ParseNatOfDigits(-n);
      assert ParseInt(s) == -(ParseNat(Digits(-n)) as int);
    } else {
      assert '0' <= s[0] <= '9';
      ParseNatOfDigits(n);
      assert ParseInt(s) == ParseNat(Digits(n));
    }
  }

  /** The key of chunk (cx, cy, cz). */
  function Key(cx: int, cy: int, cz: int): string
  {
    IntToString(cx) + "," + IntToString(cy) + "," + IntToString(cz)
  }

  /** The position of the first comma in s (|s| when there is none). */
  function FirstComma(s: string): nat
  {
    if s == [] || s[0] == ',' then 0 else 1 + FirstComma(s[1..])
  }

  lemma {:induction false} FirstCommaAfter(p: string, r: string)
    requires ',' !in p
    ensures FirstComma(p + "," + r) == |p|
  {
    if p != [] {
      assert (p + "," + r)[1..] == p[1..] + "," + r;
      FirstCommaAfter(p[1..], r);
    }
  }

  /** Two strings glued by a comma come apart again at the first comma. */
  lemma SplitAtComma(p: string, q: string, r1: string, r2: string)
    requires ',' !in p && ',' !in q
    requires p + "," + r1 == q + "," + r2
    ensures p == q && r1 == r2
  {
    var s1, s2 := p + "," + r1, q + "," + r2;
    FirstCommaAfter(p, r1);
    FirstCommaAfter(q, r2);
    assert p == s1[..|p|] && q == s2[..|q|];
    assert r1 == s1[|p| + 1..] && r2 == s2[|q| + 1..];
  }

  /** Distinct chunk coordinates never share a key. */
  lemma KeyInjective(a: int, b: int, c: int, a': int, b': int, c': int)
    requires Key(a, b, c) == Key(a', b', c')
    ensures a == a' && b == b' && c == c'
  {
    var A, B, C := IntToString(a), IntToString(b), IntToString(c);
    var A', B', C' := IntToString(a'), IntToString(b'), IntToString(c');
    assert A + "," + (B + "," + C) == A' + "," + (B' + "," + C') by {
      assert Key(a, b, c) == A + "," + (B + "," + C);
      assert Key(a', b', c') == A' + "," + (B' + "," + C');
    }
    SplitAtComma(A, A', B + "," + C, B' + "," + C');
    SplitAtComma(B, B', C, C');
    ParseIntOfIntToString(a); ParseIntOfIntToString(a');
    ParseIntOfIntToString(b); ParseIntOfIntToString(b');
    ParseIntOfIntToString(c); ParseIntOfIntToString(c');
  }
}
