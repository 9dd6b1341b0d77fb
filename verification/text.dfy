/** String primitives with Python's semantics: `str.strip()`, the ordering
    of `<` and `<=` on `str`, and decimal digit strings. */
module Text {
  import opened Wrappers

  /** The code points for which Python's `str.isspace()` holds; these are the
      characters `str.strip()` removes when called without arguments. */
  predicate IsSpace(c: char) {
    || c == ' '
    || ('\t' <= c <= '\r')
    || ('\U{1C}' <= c <= '\U{1F}')
    || c == '\U{85}' || c == '\U{A0}' || c == '\U{1680}'
    || ('\U{2000}' <= c <= '\U{200A}')
    || c == '\U{2028}' || c == '\U{2029}' || c == '\U{202F}' || c == '\U{205F}' || c == '\U{3000}'
  }

  /** The index of the first character of `s` at or after `i` that is not
      whitespace, or `|s|` when there is none. */
  function SkipSpaces(s: string, i: nat): (j: nat)
    requires i <= |s|
    ensures i <= j <= |s|
    ensures forall k | i <= k < j :: IsSpace(s[k])
    ensures j == |s| || !IsSpace(s[j])
    decreases |s| - i
  {
    if i < |s| && IsSpace(s[i]) then SkipSpaces(s, i + 1) else i
  }

  /** The end of `s[lo..j]` once its trailing whitespace is dropped. */
  function TrimSpaces(s: string, lo: nat, j: nat): (e: nat)
    requires lo <= j <= |s|
    ensures lo <= e <= j
    ensures forall k | e <= k < j :: IsSpace(s[k])
    ensures e == lo || !IsSpace(s[e - 1])
    decreases j
  {
    if lo < j && IsSpace(s[j - 1]) then TrimSpaces(s, lo, j - 1) else j
  }

  /** Python's `s.strip()`: the slice of `s` left after removing whitespace at
      both ends; nothing but whitespace is removed. */
  function Strip(s: string): (r: string)
    ensures r == [] || (!IsSpace(r[0]) && !IsSpace(r[|r| - 1]))
    ensures exists i, j :: SpaceOutside(s, i, j) && r == s[i..j]
  {
    var i := SkipSpaces(s, 0);
    var j := TrimSpaces(s, i, |s|);
    assert SpaceOutside(s, i, j);
    s[i..j]
  }

  /** Everything of `s` outside `s[i..j]` is whitespace. */
  predicate SpaceOutside(s: string, i: int, j: int)
  {
    && 0 <= i <= j <= |s|
    && (forall k | 0 <= k < i :: IsSpace(s[k]))
    && (forall k | j <= k < |s| :: IsSpace(s[k]))
  }

  /** A string that has no whitespace at either end is its own strip. */
  lemma StripTrimmed(s: string)
    requires s == [] || (!IsSpace(s[0]) && !IsSpace(s[|s| - 1]))
    ensures Strip(s) == s
  {
    assert SkipSpaces(s, 0) == 0;
    assert TrimSpaces(s, 0, |s|) == |s|;
    assert s[0..|s|] == s;
  }

  /** Stripping twice is stripping once. */
  lemma StripIdempotent(s: string)
    ensures Strip(Strip(s)) == Strip(s)
  {
    StripTrimmed(Strip(s));
  }

  /** Python's `a < b` on `str`: lexicographic order by code point, a proper
      prefix coming first. */
  predicate LexLess(a: string, b: string)
  {
    if |a| == 0 then |b| > 0
    else if |b| == 0 then false
    else if a[0] != b[0] then a[0] < b[0]
    else LexLess(a[1..], b[1..])
  }

  /** Python's `a <= b` on `str`. */
  predicate LexLe(a: string, b: string)
  {
    a == b || LexLess(a, b)
  }

  /** Exactly one of `a < b`, `a == b`, `b < a` holds for Python strings. */
  lemma {:induction false} LexTrichotomy(a: string, b: string)
    ensures LexLess(a, b) || a == b || LexLess(b, a)
    ensures !(LexLess(a, b) && LexLess(b, a))
    ensures !LexLess(a, a)
    decreases |a|
  {
    if |a| > 0 && |b| > 0 && a[0] == b[0] {
      LexTrichotomy(a[1..], b[1..]);
      if a[1..] == b[1..] {
        assert a == [a[0]] + a[1..] && b == [b[0]] + b[1..];
      }
    }
    if |a| > 0 {
      LexTrichotomy(a[1..], a[1..]);
    }
  }

  /** `not (x <= y)` on Python strings is `y < x`. */
  lemma NotLeIsGreater(x: string, y: string)
    ensures !LexLe(x, y) <==> LexLess(y, x)
  {
    LexTrichotomy(x, y);
  }

  /** Comparing two strings that share a prefix of equal length compares the
      rest; comparing two equal-length strings that differ decides on them. */
  lemma {:induction false} LexLessConcat(a: string, b: string, c: string, d: string)
    requires |a| == |c|
    ensures a == c ==> (LexLess(a + b, c + d) <==> LexLess(b, d))
    ensures a != c ==> (LexLess(a + b, c + d) <==> LexLess(a, c))
    decreases |a|
  {
    if |a| > 0 {
      assert (a + b)[1..] == a[1..] + b;
      assert (c + d)[1..] == c[1..] + d;
      LexLessConcat(a[1..], b, c[1..], d);
      if a[0] == c[0] && a[1..] == c[1..] {
        assert a == c;
      }
    } else {
      assert a + b == b && c + d == d;
    }
  }

  predicate IsDigit(c: char) {
    '0' <= c <= '9'
  }

  predicate AllDigits(s: string) {
    forall k | 0 <= k < |s| :: IsDigit(s[k])
  }

  function DigitValue(c: char): (d: nat)
    requires IsDigit(c)
    ensures d < 10
  {
    c as int - '0' as int
  }

  function DigitChar(d: nat): (c: char)
    requires d < 10
    ensures IsDigit(c) && DigitValue(c) == d
  {
    ('0' as int + d) as char
  }

  function Pow10(n: nat): (p: nat)
    ensures p >= 1
  {
    if n == 0 then 1 else 10 * Pow10(n - 1)
  }

  /** The number a string of decimal digits denotes (most significant first). */
  function DigitsValue(s: string): (v: nat)
    requires AllDigits(s)
    ensures v < Pow10(|s|)
  {
    if |s| == 0 then 0 else DigitsValue(s[..|s| - 1]) * 10 + DigitValue(s[|s| - 1])
  }

  /** A string of ASCII decimal digits read as a number; `None` for any other
      string. */
  function ParseNat(s: string): (r: Option<nat>)
    ensures r.Some? <==> |s| > 0 && AllDigits(s)
    ensures r.Some? ==> r.value < Pow10(|s|)
  {
    if |s| > 0 && AllDigits(s) then Some(DigitsValue(s)) else None
  }

  /** The zero of the run of Unicode decimal digits (general category Nd)
      that holds code point `n`, or -1 when `n` is not a decimal digit. The
      runs are those of Unicode 15.0, the version Python 3.12 carries: 68 runs,
      each holding the digits 0 to 9 at ten consecutive code points. These are
      the characters `\d` matches in a `str` pattern compiled without
      `re.ASCII`, and the characters `int()` reads as digits. */
  function RunZero(n: int): (z: int)
    ensures z == -1 || (0 <= z <= n < z + 10)
  {
    if n < 0x30 then -1
    else if n < 0x30 + 10 then 0x30
    else if n < 0x660 then -1
    else if n < 0x660 + 10 then 0x660
    else if n < 0x6F0 then -1
    else if n < 0x6F0 + 10 then 0x6F0
    else if n < 0x7C0 then -1
    else if n < 0x7C0 + 10 then 0x7C0
    else if n < 0x966 then -1
    else if n < 0x966 + 10 then 0x966
    else if n < 0x9E6 then -1
    else if n < 0x9E6 + 10 then 0x9E6
    else if n < 0xA66 then -1
    else if n < 0xA66 + 10 then 0xA66
    else if n < 0xAE6 then -1
    else if n < 0xAE6 + 10 then 0xAE6
    else if n < 0xB66 then -1
    else if n < 0xB66 + 10 then 0xB66
    else if n < 0xBE6 then -1
    else if n < 0xBE6 + 10 then 0xBE6
    else if n < 0xC66 then -1
    else if n < 0xC66 + 10 then 0xC66
    else if n < 0xCE6 then -1
    else if n < 0xCE6 + 10 then 0xCE6
    else if n < 0xD66 then -1
    else if n < 0xD66 + 10 then 0xD66
    else if n < 0xDE6 then -1
    else if n < 0xDE6 + 10 then 0xDE6
    else if n < 0xE50 then -1
    else if n < 0xE50 + 10 then 0xE50
    else if n < 0xED0 then -1
    else if n < 0xED0 + 10 then 0xED0
    else if n < 0xF20 then -1
    else if n < 0xF20 + 10 then 0xF20
    else if n < 0x1040 then -1
    else if n < 0x1040 + 10 then 0x1040
    else if n < 0x1090 then -1
    else if n < 0x1090 + 10 then 0x1090
    else if n < 0x17E0 then -1
    else if n < 0x17E0 + 10 then 0x17E0
    else if n < 0x1810 then -1
    else if n < 0x1810 + 10 then 0x1810
    else if n < 0x1946 then -1
    else if n < 0x1946 + 10 then 0x1946
    else if n < 0x19D0 then -1
    else if n < 0x19D0 + 10 then 0x19D0
    else if n < 0x1A80 then -1
    else if n < 0x1A80 + 10 then 0x1A80
    else if n < 0x1A90 then -1
    else if n < 0x1A90 + 10 then 0x1A90
    else if n < 0x1B50 then -1
    else if n < 0x1B50 + 10 then 0x1B50
    else if n < 0x1BB0 then -1
    else if n < 0x1BB0 + 10 then 0x1BB0
    else if n < 0x1C40 then -1
    else if n < 0x1C40 + 10 then 0x1C40
    else if n < 0x1C50 then -1
    else if n < 0x1C50 + 10 then 0x1C50
    else if n < 0xA620 then -1
    else if n < 0xA620 + 10 then 0xA620
    else if n < 0xA8D0 then -1
    else if n < 0xA8D0 + 10 then 0xA8D0
    else if n < 0xA900 then -1
    else if n < 0xA900 + 10 then 0xA900
    else if n < 0xA9D0 then -1
    else if n < 0xA9D0 + 10 then 0xA9D0
    else if n < 0xA9F0 then -1
    else if n < 0xA9F0 + 10 then 0xA9F0
    else if n < 0xAA50 then -1
    else if n < 0xAA50 + 10 then 0xAA50
    else if n < 0xABF0 then -1
    else if n < 0xABF0 + 10 then 0xABF0
    else if n < 0xFF10 then -1
    else if n < 0xFF10 + 10 then 0xFF10
    else if n < 0x104A0 then -1
    else if n < 0x104A0 + 10 then 0x104A0
    else if n < 0x10D30 then -1
    else if n < 0x10D30 + 10 then 0x10D30
    else if n < 0x11066 then -1
    else if n < 0x11066 + 10 then 0x11066
    else if n < 0x110F0 then -1
    else if n < 0x110F0 + 10 then 0x110F0
    else if n < 0x11136 then -1
    else if n < 0x11136 + 10 then 0x11136
    else if n < 0x111D0 then -1
    else if n < 0x111D0 + 10 then 0x111D0
    else if n < 0x112F0 then -1
    else if n < 0x112F0 + 10 then 0x112F0
    else if n < 0x11450 then -1
    else if n < 0x11450 + 10 then 0x11450
    else if n < 0x114D0 then -1
    else if n < 0x114D0 + 10 then 0x114D0
    else if n < 0x11650 then -1
    else if n < 0x11650 + 10 then 0x11650
    else if n < 0x116C0 then -1
    else if n < 0x116C0 + 10 then 0x116C0
    else if n < 0x11730 then -1
    else if n < 0x11730 + 10 then 0x11730
    else if n < 0x118E0 then -1
    else if n < 0x118E0 + 10 then 0x118E0
    else if n < 0x11950 then -1
    else if n < 0x11950 + 10 then 0x11950
    else if n < 0x11C50 then -1
    else if n < 0x11C50 + 10 then 0x11C50
    else if n < 0x11D50 then -1
    else if n < 0x11D50 + 10 then 0x11D50
    else if n < 0x11DA0 then -1
    else if n < 0x11DA0 + 10 then 0x11DA0
    else if n < 0x11F50 then -1
    else if n < 0x11F50 + 10 then 0x11F50
    else if n < 0x16A60 then -1
    else if n < 0x16A60 + 10 then 0x16A60
    else if n < 0x16AC0 then -1
    else if n < 0x16AC0 + 10 then 0x16AC0
    else if n < 0x16B50 then -1
    else if n < 0x16B50 + 10 then 0x16B50
    else if n < 0x1D7CE then -1
    else if n < 0x1D7CE + 10 then 0x1D7CE
    else if n < 0x1D7D8 then -1
    else if n < 0x1D7D8 + 10 then 0x1D7D8
    else if n < 0x1D7E2 then -1
    else if n < 0x1D7E2 + 10 then 0x1D7E2
    else if n < 0x1D7EC then -1
    else if n < 0x1D7EC + 10 then 0x1D7EC
    else if n < 0x1D7F6 then -1
    else if n < 0x1D7F6 + 10 then 0x1D7F6
    else if n < 0x1E140 then -1
    else if n < 0x1E140 + 10 then 0x1E140
    else if n < 0x1E2F0 then -1
    else if n < 0x1E2F0 + 10 then 0x1E2F0
    else if n < 0x1E4F0 then -1
    else if n < 0x1E4F0 + 10 then 0x1E4F0
    else if n < 0x1E950 then -1
    else if n < 0x1E950 + 10 then 0x1E950
    else if n < 0x1FBF0 then -1
    else if n < 0x1FBF0 + 10 then 0x1FBF0
    else -1
  }

  /** Every zero starts a run of ten: the nine code points after it belong to
      the same run. */
  lemma {:induction false} RunOfTen(z: int, k: int)
    requires z >= 0 && RunZero(z) == z && 0 <= k < 10
    ensures RunZero(z + k) == z
  {
  }

  /** The value `int()` gives the decimal digit `c`: how far `c` lies above
      the zero of its run; `None` when `c` is not a decimal digit. ASCII digits
      keep their usual values. */
  function DecimalValue(c: char): (r: Option<nat>)
    ensures r.Some? <==> RunZero(c as int) >= 0
    ensures r.Some? ==> r.value < 10 && RunZero(c as int - r.value) == c as int - r.value
    ensures IsDigit(c) ==> r == Some(DigitValue(c))
  {
    var z := RunZero(c as int);
    if z < 0 then None else Some(c as int - z)
  }

  /** The fullwidth digits U+FF10 to U+FF19 are the digits 0 to 9. */
  lemma {:induction false} FullwidthDigit(k: int)
    requires 0 <= k < 10
    ensures DecimalValue((0xFF10 + k) as char) == Some(k)
  {
  }

  predicate IsDecimal(c: char) {
    DecimalValue(c).Some?
  }

  predicate AllDecimal(s: string) {
    forall k | 0 <= k < |s| :: IsDecimal(s[k])
  }

  /** The number a string of decimal digits of any script denotes. */
  function DecimalsValue(s: string): (v: nat)
    requires AllDecimal(s)
    ensures v < Pow10(|s|)
    ensures AllDigits(s) ==> v == DigitsValue(s)
  {
    if |s| == 0 then 0 else DecimalsValue(s[..|s| - 1]) * 10 + DecimalValue(s[|s| - 1]).value
  }

  /** One more digit multiplies the value by ten and adds the digit's value. */
  lemma {:induction false} DecimalsAppendDigit(s: string, c: char)
    requires AllDecimal(s) && IsDecimal(c)
    ensures AllDecimal(s + [c])
    ensures DecimalsValue(s + [c]) == DecimalsValue(s) * 10 + DecimalValue(c).value
  {
    var t := s + [c];
    assert t[..|t| - 1] == s;
    assert forall k | 0 <= k < |t| :: t[k] == if k < |s| then s[k] else c;
  }

  /** Python's `int(s)` on a string of Unicode decimal digits; `None` stands
      for the `ValueError` it raises on a string that is empty or holds any
      other character (see the README for the signs, whitespace and
      underscores Python also accepts). On ASCII digits it is `ParseNat`. */
  function PyInt(s: string): (r: Option<nat>)
    ensures r.Some? <==> |s| > 0 && AllDecimal(s)
    ensures AllDigits(s) ==> r == ParseNat(s)
  {
    if |s| > 0 && AllDecimal(s) then Some(DecimalsValue(s)) else None
  }

  lemma {:induction false} PyIntOf(s: string, v: nat)
    requires |s| > 0 && AllDecimal(s) && DecimalsValue(s) == v
    ensures PyInt(s) == Some(v)
  {
  }

  /** The last `width` decimal digits of `n`, zero-padded on the left: what
      Python's `'%0*d' % (width, n)` prints when `n < 10^width`. */
  function PadDigits(n: nat, width: nat): (r: string)
    ensures |r| == width && AllDigits(r)
    ensures DigitsValue(r) == n % Pow10(width)
  {
    if width == 0 then ""
    else
      var r := PadDigits(n / 10, width - 1) + [DigitChar(n % 10)];
      assert r[..|r| - 1] == PadDigits(n / 10, width - 1);
      ModPow10Step(n, width);
      r
  }

  /** `n mod 10^w` splits into the last digit and `(n / 10) mod 10^(w-1)`. */
  lemma ModPow10Step(n: nat, w: nat)
    requires w > 0
    ensures n % Pow10(w) == (n / 10) % Pow10(w - 1) * 10 + n % 10
  {
    var p := Pow10(w - 1);
    var q := n / 10;
    var d := n % 10;
    assert n == q * 10 + d;
    var a := q / p;
    var b := q % p;
    assert q == a * p + b;
    assert n == a * (10 * p) + (b * 10 + d);
    assert 0 <= b * 10 + d < 10 * p;
    DivModUnique(n, 10 * p, a, b * 10 + d);
  }

  lemma DivModUnique(n: int, m: int, a: int, b: int)
    requires m > 0 && 0 <= b < m && n == a * m + b
    ensures n % m == b
  {
    var q, r := n / m, n % m;
    assert (a - q) * m == r - b;
    if a - q >= 1 {
      MulAtLeast(a - q, m);
    } else if a - q <= -1 {
      MulAtLeast(q - a, m);
    }
  }

  lemma MulAtLeast(k: int, m: int)
    requires k >= 1 && m > 0
    ensures k * m >= m
  {
  }

  /** Two digit strings of the same width compare as Python strings exactly as
      the numbers they denote compare. */
  lemma {:induction false} DigitsOrder(x: string, y: string)
    requires |x| == |y| && AllDigits(x) && AllDigits(y)
    ensures LexLess(x, y) <==> DigitsValue(x) < DigitsValue(y)
    ensures x == y <==> DigitsValue(x) == DigitsValue(y)
    decreases |x|
  {
    if |x| > 0 {
      var n := |x| - 1;
      var x', y' := x[..n], y[..n];
      DigitsOrder(x', y');
      assert x == x' + [x[n]] && y == y' + [y[n]];
      LexLessConcat(x', [x[n]], y', [y[n]]);
      assert DigitsValue(x) == DigitsValue(x') * 10 + DigitValue(x[n]);
      assert DigitsValue(y) == DigitsValue(y') * 10 + DigitValue(y[n]);
      if x' == y' {
        assert LexLess([x[n]], [y[n]]) <==> x[n] < y[n] by {
          assert [x[n]][1..] == [] && [y[n]][1..] == [];
        }
      }
    }
  }
}
