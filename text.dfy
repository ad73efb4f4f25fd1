/**
 * Character-level building blocks of the map parser: Python's whitespace
 * and str.strip(), hexadecimal fields as read by int(v, 16) and written by
 * '{:x}', and Python's ordering of str values.
 */
module Text {

  // ---------------------------------------------------------------------
  // Whitespace and strip()
  // ---------------------------------------------------------------------

  /** The characters for which Python's str.isspace() holds; str.strip()
      with no argument removes exactly these from both ends. */
  predicate IsSpace(c: char) {
    || c == ' '
    || ('\t' <= c <= '\r')
    || ('\U{1c}' <= c <= '\U{1f}')
    || c == '\U{85}' || c == '\U{a0}' || c == '\U{1680}'
    || ('\U{2000}' <= c <= '\U{200a}')
    || c == '\U{2028}' || c == '\U{2029}' || c == '\U{202f}'
    || c == '\U{205f}' || c == '\U{3000}'
  }

  ghost predicate AllSpace(s: string) {
    forall i :: 0 <= i < |s| ==> IsSpace(s[i])
  }

  /** End of the whitespace run that starts at `i`. */
  function SpaceEnd(s: string, i: nat): (j: nat)
    requires i <= |s|
    ensures i <= j <= |s|
    ensures forall k :: i <= k < j ==> IsSpace(s[k])
    ensures j < |s| ==> !IsSpace(s[j])
    decreases |s| - i
  {
    if i < |s| && IsSpace(s[i]) then SpaceEnd(s, i + 1) else i
  }

  /** Start of the whitespace run that ends at `k`, not going below `lo`. */
  function SpaceStart(s: string, lo: nat, k: nat): (j: nat)
    requires lo <= k <= |s|
    ensures lo <= j <= k
    ensures forall m :: j <= m < k ==> IsSpace(s[m])
    ensures lo < j ==> !IsSpace(s[j - 1])
  {
    if lo < k && IsSpace(s[k - 1]) then SpaceStart(s, lo, k - 1) else k
  }

  /** Python's str.strip(): the text between the leading and the trailing
      whitespace. The result neither starts nor ends with whitespace, and
      only whitespace was cut off on either side. */
  function Strip(s: string): (r: string)
    ensures |r| <= |s|
    ensures r != [] ==> !IsSpace(r[0]) && !IsSpace(r[|r| - 1])
    ensures AllSpace(s) <==> r == []
    ensures exists a :: 0 <= a <= |s| - |r| && r == s[a..a + |r|]
                         && AllSpace(s[..a]) && AllSpace(s[a + |r|..])
  {
    var a := SpaceEnd(s, 0);
    var b := SpaceStart(s, a, |s|);
    assert AllSpace(s[..a]) && AllSpace(s[b..]);
    assert a < |s| ==> !AllSpace(s) && a < b;
    s[a..b]
  }

  /** Stripping twice removes nothing more. */
  lemma StripIdempotent(s: string)
    ensures Strip(Strip(s)) == Strip(s)
  {
    var r := Strip(s);
    if r != [] {
      assert SpaceEnd(r, 0) == 0;
      assert SpaceStart(r, 0, |r|) == |r|;
      assert r[0..|r|] == r;
    }
  }

  // ---------------------------------------------------------------------
  // Hexadecimal fields
  // ---------------------------------------------------------------------

  /** `[0-9a-f]` under re.I. */
  predicate IsHexDigit(c: char) {
    ('0' <= c <= '9') || ('a' <= c <= 'f') || ('A' <= c <= 'F')
  }

  predicate AllHex(s: string) {
    forall i :: 0 <= i < |s| ==> IsHexDigit(s[i])
  }

  function DigitValue(c: char): (v: nat)
    requires IsHexDigit(c)
    ensures v < 16
    ensures v == 0 <==> c == '0'
  {
    if '0' <= c <= '9' then (c as int - '0' as int)
    else if 'a' <= c <= 'f' then (c as int - 'a' as int) + 10
    else (c as int - 'A' as int) + 10
  }

  /** int(s, 16) for a run of hexadecimal digits. A field is zero exactly
      when every one of its digits is '0'. */
  function HexValue(s: string): (v: nat)
    requires AllHex(s)
    ensures v == 0 <==> forall i :: 0 <= i < |s| ==> s[i] == '0'
  {
    if |s| == 0 then 0
    else
      var p := s[..|s| - 1];
      var v := 16 * HexValue(p) + DigitValue(s[|s| - 1]);
      assert (forall i :: 0 <= i < |s| ==> s[i] == '0')
             <==> (forall i :: 0 <= i < |p| ==> p[i] == '0') && s[|s| - 1] == '0';
      v
  }

  /** A leading '0' does not change the value. */
  lemma {:induction false} HexLeadingZero(s: string)
    requires AllHex(s)
    ensures AllHex(['0'] + s) && HexValue(['0'] + s) == HexValue(s)
    decreases |s|
  {
    var z := ['0'] + s;
    if |s| > 0 {
      assert z[..|z| - 1] == ['0'] + s[..|s| - 1];
      HexLeadingZero(s[..|s| - 1]);
    } else {
      assert z[..|z| - 1] == [];
    }
  }

  /** Zero padding, as in the fields ld writes, does not change the value. */
  lemma {:induction false} HexLeadingZeros(z: string, s: string)
    requires AllHex(s) && forall i :: 0 <= i < |z| ==> z[i] == '0'
    ensures AllHex(z + s) && HexValue(z + s) == HexValue(s)
    decreases |z|
  {
    if z != [] {
      HexLeadingZeros(z[1..], s);
      HexLeadingZero(z[1..] + s);
      assert z + s == ['0'] + (z[1..] + s);
    } else {
      assert z + s == s;
    }
  }

  /** The lower-case form of a hexadecimal digit. */
  function LowerHex(c: char): char {
    if 'A' <= c <= 'F' then (c as int - 'A' as int + 'a' as int) as char else c
  }

  /** re.I: fields that differ only in the case of their letters have the
      same value. */
  lemma {:induction false} HexValueIgnoresCase(s: string, t: string)
    requires AllHex(s) && AllHex(t) && |s| == |t|
    requires forall i :: 0 <= i < |s| ==> LowerHex(s[i]) == LowerHex(t[i])
    ensures HexValue(s) == HexValue(t)
    decreases |s|
  {
    if |s| > 0 {
      var n := |s| - 1;
      assert DigitValue(s[n]) == DigitValue(t[n]);
      HexValueIgnoresCase(s[..n], t[..n]);
    }
  }

  /** The lower-case digit '{:x}' writes for `d`. */
  function HexDigit(d: nat): (c: char)
    requires d < 16
    ensures IsHexDigit(c) && DigitValue(c) == d
    ensures !('A' <= c <= 'F')
  {
    if d < 10 then ('0' as int + d) as char else ('a' as int + d - 10) as char
  }

  /** '{:x}'.format(n): lower-case hexadecimal without leading zeros. */
  function FormatHex(n: nat): (r: string)
    ensures |r| >= 1 && AllHex(r)
    ensures r[0] == '0' <==> n == 0
    ensures n < 16 <==> |r| == 1
  {
    if n < 16 then [HexDigit(n)] else FormatHex(n / 16) + [HexDigit(n % 16)]
  }

  /** Reading back what '{:x}' wrote gives the number. */
  lemma {:induction false} HexRoundTrip(n: nat)
    ensures HexValue(FormatHex(n)) == n
  {
    if n >= 16 {
      var r := FormatHex(n);
      assert r[..|r| - 1] == FormatHex(n / 16);
      HexRoundTrip(n / 16);
    }
  }

  // ---------------------------------------------------------------------
  // Python's ordering of str values
  // ---------------------------------------------------------------------

  /** `a < b` on Python str: code point by code point, a proper prefix
      first. (Dafny's own `<` on sequences means "proper prefix".) */
  predicate LexLess(a: string, b: string)
    decreases |a|
  {
    |b| > 0 && (|a| == 0 || a[0] < b[0] || (a[0] == b[0] && LexLess(a[1..], b[1..])))
  }

  /** A proper prefix sorts first, and nothing sorts before its own prefix. */
  lemma {:induction false} LexLessPrefix(a: string, b: string)
    ensures a < b ==> LexLess(a, b)
    ensures b <= a ==> !LexLess(a, b)
    decreases |a|
  {
    if |a| > 0 && |b| > 0 {
      LexLessPrefix(a[1..], b[1..]);
      if a < b || b <= a {
        assert a[0] == b[0];
        assert a < b ==> a[1..] < b[1..];
        assert b <= a ==> b[1..] <= a[1..];
      }
    }
  }

  /** The first code point where two strings differ decides their order. */
  lemma {:induction false} LexLessFirstDifference(a: string, b: string, i: nat)
    requires i < |a| && i < |b| && a[..i] == b[..i] && a[i] != b[i]
    ensures LexLess(a, b) <==> a[i] < b[i]
    decreases i
  {
    if i > 0 {
      assert a[0] == a[..i][0] == b[..i][0] == b[0];
      assert a[1..][..i - 1] == a[..i][1..] == b[..i][1..] == b[1..][..i - 1];
      LexLessFirstDifference(a[1..], b[1..], i - 1);
    }
  }

  lemma {:induction false} LexLessIrreflexive(a: string)
    ensures !LexLess(a, a)
  {
    if |a| > 0 {
      LexLessIrreflexive(a[1..]);
    }
  }

  lemma {:induction false} LexLessTransitive(a: string, b: string, c: string)
    requires LexLess(a, b) && LexLess(b, c)
    ensures LexLess(a, c)
  {
    if |a| > 0 && a[0] == b[0] && b[0] == c[0] {
      LexLessTransitive(a[1..], b[1..], c[1..]);
    }
  }

  lemma {:induction false} LexLessTotal(a: string, b: string)
    requires a != b
    ensures LexLess(a, b) || LexLess(b, a)
  {
    if |a| > 0 && |b| > 0 && a[0] == b[0] {
      assert a == [a[0]] + a[1..] && b == [b[0]] + b[1..];
      LexLessTotal(a[1..], b[1..]);
    }
  }
}
