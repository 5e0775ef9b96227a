/**
 * Character-level helpers that stand for the C library calls the sensor
 * database relies on: printf's decimal conversions (%d, %ld, %lld, %0Nd),
 * the "first control character" scans, strstr and atoi.
 */
module Text {
  import opened Maybe

  predicate IsDigit(c: char) { '0' <= c <= '9' }

  predicate AllDigits(s: string) { forall k | 0 <= k < |s| :: IsDigit(s[k]) }

  function DigitChar(d: nat): (c: char)
    requires d < 10
    ensures IsDigit(c)
  {
    (48 + d) as char
  }

  /** The decimal digits of n, most significant first, without leading zeros. */
  function Digits(n: nat): (r: string)
    ensures 1 <= |r| && AllDigits(r)
    ensures n < 10 <==> |r| == 1
    decreases n
  {
    if n < 10 then [DigitChar(n)] else Digits(n / 10) + [DigitChar(n % 10)]
  }

  /** The number a string of decimal digits denotes. */
  function ValueOf(s: string): nat
    requires AllDigits(s)
  {
    if s == [] then 0 else ValueOf(s[..|s| - 1]) * 10 + (s[|s| - 1] as nat - 48)
  }

  /** printf "%d" (and %ld, %lld) of an integer. */
  function Dec(n: int): string
  {
    if n < 0 then "-" + Digits(-n) else Digits(n)
  }

  function Zeros(k: nat): (r: string)
    ensures |r| == k && AllDigits(r)
  {
    seq(k, _ => '0')
  }

  /** printf "%0Nd" of a non-negative integer: the digits, left-filled with '0' up to width characters. */
  function Pad(n: nat, width: nat): (r: string)
    ensures AllDigits(r)
  {
    var d := Digits(n);
    if |d| < width then Zeros(width - |d|) + d else d
  }

  function Pow10(k: nat): (r: nat)
    ensures r >= 1
  {
    if k == 0 then 1 else 10 * Pow10(k - 1)
  }

  /** Reading back what %d printed gives the number again. */
  lemma {:induction false} DigitsValue(n: nat)
    ensures ValueOf(Digits(n)) == n
    decreases n
  {
    if n >= 10 {
      var d := Digits(n / 10);
      DigitsValue(n / 10);
      assert (d + [DigitChar(n % 10)])[..|d|] == d;
    }
  }

  /** A number below 10^w never needs more than w digits. */
  lemma {:induction false} DigitsLength(n: nat, w: nat)
    requires 1 <= w && n < Pow10(w)
    ensures |Digits(n)| <= w
    decreases w
  {
    if n >= 10 {
      assert Pow10(1) == 10;
      DigitsLength(n / 10, w - 1);
    }
  }

  /** Leading zeros do not change the value. */
  lemma {:induction false} ZerosValue(z: nat, s: string)
    requires AllDigits(s)
    ensures ValueOf(Zeros(z) + s) == ValueOf(s)
    decreases |s|, z
  {
    if s == [] {
      if z > 0 {
        assert Zeros(z)[..z - 1] == Zeros(z - 1);
        ZerosValue(z - 1, []);
        assert Zeros(z - 1) + [] == Zeros(z - 1);
        assert Zeros(z) + [] == Zeros(z);
      }
    } else {
      var t := Zeros(z) + s;
      assert t[..|t| - 1] == Zeros(z) + s[..|s| - 1];
      ZerosValue(z, s[..|s| - 1]);
    }
  }

  /** "%0Nd" of n reads back as n, and is exactly N characters when n fits in N digits. */
  lemma PadValue(n: nat, width: nat)
    ensures ValueOf(Pad(n, width)) == n
    ensures 1 <= width && n < Pow10(width) ==> |Pad(n, width)| == width
  {
    var d := Digits(n);
    DigitsValue(n);
    if |d| < width {
      ZerosValue(width - |d|, d);
    }
    if 1 <= width && n < Pow10(width) {
      DigitsLength(n, width);
    }
  }

  /**
   * The first index at or after `from` holding a character below ' ' (a C
   * string's NUL, or a line's '\n'), or |s| when there is none.
   */
  function ControlEnd(s: string, from: nat): (r: nat)
    requires from <= |s|
    ensures from <= r <= |s|
    ensures forall k | from <= k < r :: s[k] >= ' '
    ensures r < |s| ==> s[r] < ' '
    decreases |s| - from
  {
    if from == |s| || s[from] < ' ' then from else ControlEnd(s, from + 1)
  }

  /** The C string stored from the start of s: everything before its first NUL. */
  function CStr(s: string): (r: string)
    ensures r <= s
    ensures '\0' !in r
    ensures |r| < |s| ==> s[|r|] == '\0'
  {
    if s == [] || s[0] == '\0' then [] else [s[0]] + CStr(s[1..])
  }

  /** A string without NUL is its own C string. */
  lemma CStrWhole(s: string)
    requires '\0' !in s
    ensures CStr(s) == s
  {
  }

  predicate OccursAt(s: string, pat: string, j: nat)
  {
    j + |pat| <= |s| && s[j..j + |pat|] == pat
  }

  /** strstr: the first position, at or after `from`, where pat occurs in s. */
  function IndexOf(s: string, pat: string, from: nat): (r: Option<nat>)
    ensures r.Some? ==> from <= r.value && OccursAt(s, pat, r.value)
    ensures r.Some? ==> forall j | from <= j < r.value :: !OccursAt(s, pat, j)
    ensures r.None? ==> forall j | from <= j :: !OccursAt(s, pat, j)
    decreases |s| - from
  {
    if from + |pat| > |s| then None
    else if OccursAt(s, pat, from) then Some(from)
    else IndexOf(s, pat, from + 1)
  }

  predicate Contains(s: string, pat: string)
  {
    IndexOf(s, pat, 0).Some?
  }

  predicate IsSpace(c: char) { c == ' ' || '\t' <= c <= '\r' }

  /** The end of the run of decimal digits that starts at `from`. */
  function DigitsEnd(s: string, from: nat): (r: nat)
    requires from <= |s|
    ensures from <= r <= |s| && AllDigits(s[from..r])
    ensures r < |s| ==> !IsDigit(s[r])
    decreases |s| - from
  {
    if from < |s| && IsDigit(s[from]) then
      var r := DigitsEnd(s, from + 1);
      assert s[from..r] == [s[from]] + s[from + 1..r];
      r
    else from
  }

  function SpacesEnd(s: string, from: nat): (r: nat)
    requires from <= |s|
    ensures from <= r <= |s|
    decreases |s| - from
  {
    if from < |s| && IsSpace(s[from]) then SpacesEnd(s, from + 1) else from
  }

  /**
   * C atoi: leading white space, an optional sign, then the longest run of
   * decimal digits; 0 when there are none. Overflow is not modelled.
   */
  function Atoi(s: string): int
  {
    var i := SpacesEnd(s, 0);
    var neg := i < |s| && s[i] == '-';
    var j := if i < |s| && (s[i] == '-' || s[i] == '+') then i + 1 else i;
    var e := DigitsEnd(s, j);
    var v: int := ValueOf(s[j..e]);
    if neg then -v else v
  }

  /** atoi reads back what "%d" printed. */
  lemma AtoiDec(n: int)
    ensures Atoi(Dec(n)) == n
  {
    var m := if n < 0 then -n else n;
    var d := Digits(m);
    DigitsValue(m);
    var s := Dec(n);
    assert SpacesEnd(s, 0) == 0;
    var j := if n < 0 then 1 else 0;
    assert s[j..] == d;
    DigitsAllEnd(s, j);
    assert s[j..|s|] == d;
  }

  lemma {:induction false} DigitsAllEnd(s: string, from: nat)
    requires from <= |s| && AllDigits(s[from..])
    ensures DigitsEnd(s, from) == |s|
    decreases |s| - from
  {
    if from < |s| {
      assert s[from] == s[from..][0];
      assert s[from + 1..] == s[from..][1..];
      DigitsAllEnd(s, from + 1);
    }
  }
}
