/** String helpers shared by the key builders and the booking reference:
    separator joins (JavaScript template literals), prefix and substring
    tests (startsWith, includes), decimal rendering (toString), left padding
    (padStart) and keeping the last characters (slice with a negative start). */
module Strings {

  /** `parts` joined with `sep` between consecutive parts, as the template
      literal `${a}_${b}_${c}` builds it for `sep == '_'`. */
  function Join(parts: seq<string>, sep: char): (r: string)
    ensures |parts| == 1 ==> r == parts[0]
    ensures |parts| > 1 ==> r == parts[0] + [sep] + Join(parts[1..], sep)
  {
    if |parts| == 0 then ""
    else if |parts| == 1 then parts[0]
    else parts[0] + [sep] + Join(parts[1..], sep)
  }

  /** An integer as JavaScript prints it. */
  function IntToString(n: int): string
  {
    if n < 0 then "-" + NatToString(-n) else NatToString(n)
  }

  /** `s.startsWith(p)`. */
  predicate IsPrefix(p: string, s: string)
  {
    |p| <= |s| && s[..|p|] == p
  }

  /** `pat` occurs in `s` starting at position `i`. */
  predicate OccursAt(s: string, pat: string, i: nat)
  {
    i + |pat| <= |s| && s[i..i + |pat|] == pat
  }

  /** `s.includes(pat)`: `pat` occurs at some position of `s`. */
  predicate Contains(s: string, pat: string)
  {
    exists i :: 0 <= i <= |s| - |pat| && OccursAt(s, pat, i)
  }

  /** Every character of an occurring pattern is a character of the string. */
  lemma ContainsChar(s: string, pat: string, k: nat)
    requires Contains(s, pat) && k < |pat|
    ensures pat[k] in s
  {
    var i :| 0 <= i <= |s| - |pat| && OccursAt(s, pat, i);
    assert s[i..i + |pat|][k] == s[i + k];
  }

  /** A string without the character `c` contains no pattern holding `c`. */
  lemma NotContainsWithoutChar(s: string, pat: string, c: char)
    requires c in pat && c !in s
    ensures !Contains(s, pat)
  {
    if Contains(s, pat) {
      var k :| 0 <= k < |pat| && pat[k] == c;
      ContainsChar(s, pat, k);
    }
  }

  /** A prefix of `s` is contained in it. */
  lemma PrefixIsContained(p: string, s: string)
    requires IsPrefix(p, s)
    ensures Contains(s, p)
  {
    assert OccursAt(s, p, 0);
  }

  predicate NoSep(s: string, sep: char)
  {
    sep !in s
  }

  /** The join of separator-free parts is injective: the parts can be read
      back by splitting at the separator. (The join of arbitrary parts is
      not: see `JoinCollides`.) */
  lemma {:induction false} JoinInjective(a: seq<string>, b: seq<string>, sep: char)
    requires |a| == |b| >= 1
    requires forall i :: 0 <= i < |a| ==> NoSep(a[i], sep)
    requires forall i :: 0 <= i < |b| ==> NoSep(b[i], sep)
    requires Join(a, sep) == Join(b, sep)
    ensures a == b
  {
    if |a| == 1 {
      assert a == [a[0]] && b == [b[0]];
    } else {
      var ja, jb := Join(a, sep), Join(b, sep);
      assert ja == a[0] + [sep] + Join(a[1..], sep);
      assert jb == b[0] + [sep] + Join(b[1..], sep);
      assert NoSep(a[0], sep) && NoSep(b[0], sep);
      SameFirstPart(a[0], b[0], Join(a[1..], sep), Join(b[1..], sep), sep);
      assert a[0] == ja[..|a[0]|] == jb[..|b[0]|] == b[0];
      assert Join(a[1..], sep) == ja[|a[0]| + 1..] == jb[|b[0]| + 1..] == Join(b[1..], sep);
      forall i | 0 <= i < |a[1..]| ensures NoSep(a[1..][i], sep) {
        assert a[1..][i] == a[i + 1];
      }
      forall i | 0 <= i < |b[1..]| ensures NoSep(b[1..][i], sep) {
        assert b[1..][i] == b[i + 1];
      }
      JoinInjective(a[1..], b[1..], sep);
      assert a == [a[0]] + a[1..] && b == [b[0]] + b[1..];
    }
  }

  /** Position of the first `c` in `s`, or `|s|` when there is none. */
  function FirstIndexOf(s: string, c: char): (k: nat)
    ensures k <= |s|
  {
    if s == [] then 0 else if s[0] == c then 0 else 1 + FirstIndexOf(s[1..], c)
  }

  /** The first separator of `x + [sep] + rest` sits right after a
      separator-free `x`. */
  lemma {:induction false} FirstIndexAfter(x: string, rest: string, sep: char)
    requires NoSep(x, sep)
    ensures FirstIndexOf(x + [sep] + rest, sep) == |x|
    decreases |x|
  {
    if x != [] {
      assert (x + [sep] + rest)[1..] == x[1..] + [sep] + rest;
      FirstIndexAfter(x[1..], rest, sep);
    }
  }

  /** Equal strings of the shape `x + [sep] + rest` with separator-free
      heads split alike. */
  lemma SameFirstPart(x: string, y: string, rx: string, ry: string, sep: char)
    requires NoSep(x, sep) && NoSep(y, sep)
    requires x + [sep] + rx == y + [sep] + ry
    ensures |x| == |y|
  {
    FirstIndexAfter(x, rx, sep);
    FirstIndexAfter(y, ry, sep);
  }

  /** Joins of parts that contain the separator can collide. */
  lemma JoinCollides()
    ensures Join(["a_b", "c"], '_') == Join(["a", "b_c"], '_')
    ensures ["a_b", "c"] != ["a", "b_c"]
  {
    assert Join(["a_b", "c"], '_') == "a_b" + "_" + "c";
    assert Join(["a", "b_c"], '_') == "a" + "_" + "b_c";
    assert ["a_b", "c"][0] != ["a", "b_c"][0];
  }

  // ---------------------------------------------------------------------
  // Decimal digits

  predicate IsDigit(c: char)
  {
    '0' <= c <= '9'
  }

  predicate AllDigits(s: string)
  {
    forall i :: 0 <= i < |s| ==> IsDigit(s[i])
  }

  function DigitChar(d: nat): (c: char)
    requires d < 10
    ensures IsDigit(c)
  {
    (('0' as int) + d) as char
  }

  function DigitValue(c: char): (d: nat)
    requires IsDigit(c)
    ensures d < 10
  {
    (c as int) - ('0' as int)
  }

  /** `n.toString()` for a non-negative integer. */
  function NatToString(n: nat): (s: string)
    decreases n
  {
    if n < 10 then [DigitChar(n)] else NatToString(n / 10) + [DigitChar(n % 10)]
  }

  /** Reading a digit string as a decimal number. */
  function DecimalValue(s: string): (v: nat)
    requires AllDigits(s)
    decreases |s|
  {
    if s == [] then 0 else DecimalValue(s[..|s| - 1]) * 10 + DigitValue(s[|s| - 1])
  }

  function Pow10(k: nat): (p: nat)
    ensures p >= 1
  {
    if k == 0 then 1 else 10 * Pow10(k - 1)
  }

  /** The decimal rendering uses digits only, and at least one. */
  lemma {:induction false} NatToStringDigits(n: nat)
    ensures AllDigits(NatToString(n)) && |NatToString(n)| >= 1
    decreases n
  {
    if n >= 10 {
      NatToStringDigits(n / 10);
    }
  }

  /** Reading back a rendered number gives the number. */
  lemma {:induction false} NatToStringRoundTrip(n: nat)
    ensures AllDigits(NatToString(n))
    ensures DecimalValue(NatToString(n)) == n
    decreases n
  {
    NatToStringDigits(n);
    if n >= 10 {
      NatToStringRoundTrip(n / 10);
      var s := NatToString(n);
      assert s[..|s| - 1] == NatToString(n / 10);
    }
  }

  /** A number below 10^k has at most k digits; one at or above 10^(k-1)
      has at least k. */
  lemma {:induction false} NatToStringLength(n: nat, k: nat)
    requires k >= 1
    ensures n < Pow10(k) ==> |NatToString(n)| <= k
    ensures n >= Pow10(k - 1) ==> |NatToString(n)| >= k
    decreases k
  {
    if k > 1 {
      NatToStringLength(n / 10, k - 1);
      assert Pow10(k) == 10 * Pow10(k - 1);
      if n < Pow10(k) && n >= 10 {
        assert n / 10 < Pow10(k - 1);
      }
      if n >= Pow10(k - 1) {
        assert Pow10(k - 1) == 10 * Pow10(k - 2);
        assert n / 10 >= Pow10(k - 2);
      }
    }
  }

  /** The last digit of a rendered number is its remainder modulo 10. */
  lemma LastDigit(n: nat)
    ensures |NatToString(n)| >= 1
    ensures NatToString(n)[|NatToString(n)| - 1] == DigitChar(n % 10)
  {
  }

  /** Decimal value of two digits. */
  lemma TwoDigitValue(a: char, b: char)
    requires IsDigit(a) && IsDigit(b)
    ensures DecimalValue([a, b]) == DigitValue(a) * 10 + DigitValue(b)
  {
    assert [a, b][..1] == [a];
    assert [a][..0] == [];
    assert DecimalValue([a]) == DigitValue(a);
  }

  /** A string of `n` copies of `c`. */
  function Repeat(c: char, n: nat): (r: string)
    ensures |r| == n
    ensures forall i :: 0 <= i < n ==> r[i] == c
  {
    if n == 0 then "" else [c] + Repeat(c, n - 1)
  }

  /** `s.padStart(width, c)`: `s` preceded by enough copies of `c` to reach
      `width` characters; a string already that long is returned as is. */
  function PadStart(s: string, width: nat, c: char): (r: string)
    ensures |r| == if |s| >= width then |s| else width
    ensures IsPrefix(Repeat(c, |r| - |s|), r) && r[|r| - |s|..] == s
  {
    if |s| >= width then s else Repeat(c, width - |s|) + s
  }

  /** Leading zeros do not change a decimal value. */
  lemma {:induction false} LeadingZerosValue(z: nat, s: string)
    requires AllDigits(s)
    ensures AllDigits(Repeat('0', z) + s)
    ensures DecimalValue(Repeat('0', z) + s) == DecimalValue(s)
    decreases |s|
  {
    var t := Repeat('0', z) + s;
    assert AllDigits(t) by {
      forall i | 0 <= i < |t| ensures IsDigit(t[i]) {
        if i < z { assert t[i] == '0'; } else { assert t[i] == s[i - z]; }
      }
    }
    if s == [] {
      assert t == Repeat('0', z);
      ZerosValue(z);
    } else {
      var s' := s[..|s| - 1];
      assert t[..|t| - 1] == Repeat('0', z) + s';
      LeadingZerosValue(z, s');
    }
  }

  lemma {:induction false} ZerosValue(z: nat)
    ensures AllDigits(Repeat('0', z))
    ensures DecimalValue(Repeat('0', z)) == 0
    decreases z
  {
    if z > 0 {
      var t := Repeat('0', z);
      assert t[..|t| - 1] == Repeat('0', z - 1);
      ZerosValue(z - 1);
    }
  }

  /** A number below 10^w padded to `w` digits has exactly `w` digits and
      reads back as the number. */
  lemma PadNumber(n: nat, w: nat)
    requires w >= 1 && n < Pow10(w)
    ensures |PadStart(NatToString(n), w, '0')| == w
    ensures AllDigits(PadStart(NatToString(n), w, '0'))
    ensures DecimalValue(PadStart(NatToString(n), w, '0')) == n
  {
    var s := NatToString(n);
    NatToStringLength(n, w);
    NatToStringRoundTrip(n);
    LeadingZerosValue(w - |s|, s);
    assert PadStart(s, w, '0') == Repeat('0', w - |s|) + s;
  }

  /** `s.slice(-n)`: the last `n` characters, or all of a shorter string. */
  function LastChars(s: string, n: nat): (r: string)
    ensures |r| == if |s| <= n then |s| else n
    ensures r == s[|s| - |r|..]
  {
    if |s| <= n then s else s[|s| - n..]
  }

  lemma LastTwoArithmetic(n: nat)
    ensures (n / 10) % 10 * 10 + n % 10 == n % 100
  {
  }

  lemma DigitRoundTrip(d: nat)
    requires d < 10
    ensures DigitValue(DigitChar(d)) == d
  {
  }

  lemma LastTwoOfAppend(t: string, b: char)
    requires |t| >= 1
    ensures LastChars(t + [b], 2) == [t[|t| - 1], b]
  {
  }

  /** The last two characters of a rendered number of at least two digits
      are its tens digit and its units digit. */
  lemma LastTwoChars(n: nat)
    requires n >= 10
    ensures LastChars(NatToString(n), 2) == [DigitChar((n / 10) % 10), DigitChar(n % 10)]
  {
    var m := n / 10;
    var t := NatToString(m);
    var d := DigitChar(n % 10);
    assert NatToString(n) == t + [d];
    LastDigit(m);
    LastTwoOfAppend(t, d);
  }

  /** The tens and units digits of a number read back as the number
      modulo 100. */
  lemma TensAndUnitsValue(n: nat)
    ensures DecimalValue([DigitChar((n / 10) % 10), DigitChar(n % 10)]) == n % 100
  {
    TwoDigitValue(DigitChar((n / 10) % 10), DigitChar(n % 10));
    DigitRoundTrip((n / 10) % 10);
    DigitRoundTrip(n % 10);
    LastTwoArithmetic(n);
  }

  /** The last two characters of a rendered number of at least two digits
      read back as the number modulo 100. */
  lemma LastTwoDigits(n: nat)
    requires n >= 10
    ensures |LastChars(NatToString(n), 2)| == 2
    ensures AllDigits(LastChars(NatToString(n), 2))
    ensures DecimalValue(LastChars(NatToString(n), 2)) == n % 100
  {
    LastTwoChars(n);
    TensAndUnitsValue(n);
  }
}
