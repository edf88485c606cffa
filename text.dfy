/**
 * The string operations the pages use: `toLowerCase`, `toUpperCase` on one
 * character, `includes`, `String(n)` of a non-negative integer and
 * `padStart(width, '0')`.
 */
module Text {

  /** Characters that `toLowerCase` changes, restricted to ASCII and Latin-1. */
  predicate IsUpper(c: char) {
    ('A' <= c <= 'Z') || ('\U{00C0}' <= c <= '\U{00DE}' && c != '\U{00D7}')
  }

  /** Characters that `toUpperCase` changes, restricted to ASCII and Latin-1. */
  predicate IsLower(c: char) {
    ('a' <= c <= 'z') || ('\U{00E0}' <= c <= '\U{00FE}' && c != '\U{00F7}')
  }

  function LowerChar(c: char): (d: char)
    ensures IsUpper(c) ==> IsLower(d) && d as int == c as int + 32
    ensures !IsUpper(c) ==> d == c
  {
    if IsUpper(c) then (c as int + 32) as char else c
  }

  function UpperChar(c: char): (d: char)
    ensures IsLower(c) ==> IsUpper(d) && d as int == c as int - 32
    ensures !IsLower(c) ==> d == c
  {
    if IsLower(c) then (c as int - 32) as char else c
  }

  /** `s.toLowerCase()`, character by character. */
  function Lower(s: string): (r: string)
    ensures |r| == |s|
    ensures forall i :: 0 <= i < |s| ==> r[i] == LowerChar(s[i])
  {
    seq(|s|, i requires 0 <= i < |s| => LowerChar(s[i]))
  }

  /** Lower-casing twice is lower-casing once: no lower-case result is changed again. */
  lemma LowerIdempotent(s: string)
    ensures Lower(Lower(s)) == Lower(s)
  {
    forall i | 0 <= i < |s| ensures LowerChar(LowerChar(s[i])) == LowerChar(s[i]) {
      var c := s[i];
      if IsUpper(c) {
        assert !IsUpper(LowerChar(c));
      }
    }
  }

  lemma UpperIdempotent(c: char)
    ensures UpperChar(UpperChar(c)) == UpperChar(c)
  {
    if IsLower(c) {
      assert !IsLower(UpperChar(c));
    }
  }

  /** `t` occurs in `s` starting at position `i`. */
  ghost predicate OccursAt(s: string, t: string, i: int) {
    0 <= i && i + |t| <= |s| && s[i..i + |t|] == t
  }

  /** `s.includes(t)`: compare `t` with each window of `s`, left to right. */
  function Includes(s: string, t: string): bool
    decreases |s|
  {
    if |t| > |s| then false
    else if s[..|t|] == t then true
    else Includes(s[1..], t)
  }

  /** `Includes` finds `t` exactly when some window of `s` equals `t`. */
  lemma {:induction false} IncludesIff(s: string, t: string)
    ensures Includes(s, t) <==> exists i :: OccursAt(s, t, i)
    decreases |s|
  {
    if |t| > |s| {
      forall i ensures !OccursAt(s, t, i) {
      }
    } else if s[..|t|] == t {
      assert OccursAt(s, t, 0);
    } else {
      IncludesIff(s[1..], t);
      if Includes(s[1..], t) {
        var i :| OccursAt(s[1..], t, i);
        assert s[1..][i..i + |t|] == s[i + 1..i + 1 + |t|];
        assert OccursAt(s, t, i + 1);
      }
      if exists i :: OccursAt(s, t, i) {
        var i :| OccursAt(s, t, i);
        if i > 0 {
          OccursShift(s, t, i);
        }
      }
    }
  }

  lemma OccursShift(s: string, t: string, i: int)
    requires 0 < i && OccursAt(s, t, i)
    ensures OccursAt(s[1..], t, i - 1)
  {
    assert s[1..][i - 1..i - 1 + |t|] == s[i..i + |t|];
  }

  /** Every string includes the empty string. */
  lemma IncludesEmpty(s: string)
    ensures Includes(s, "")
  {
    assert OccursAt(s, "", 0);
    IncludesIff(s, "");
  }

  // ---------------------------------------------------------------------------
  // Decimal numerals and padding
  // ---------------------------------------------------------------------------

  predicate IsDigit(c: char) {
    '0' <= c <= '9'
  }

  function DigitChar(d: nat): (c: char)
    requires d < 10
    ensures IsDigit(c)
  {
    ('0' as int + d) as char
  }

  function DigitValue(c: char): (d: nat)
    requires IsDigit(c)
    ensures d < 10
  {
    c as int - '0' as int
  }

  /** `String(n)` for a non-negative integer: its decimal digits, no sign, no leading zero. */
  function Decimal(n: nat): (r: string)
    ensures |r| >= 1
    ensures forall i :: 0 <= i < |r| ==> IsDigit(r[i])
    ensures r[0] == '0' ==> n == 0
    decreases n
  {
    if n < 10 then [DigitChar(n)] else Decimal(n / 10) + [DigitChar(n % 10)]
  }

  /** The value a string of decimal digits denotes (leading zeros allowed). */
  function ParseDecimal(s: string): nat
    requires forall i :: 0 <= i < |s| ==> IsDigit(s[i])
    decreases |s|
  {
    if s == [] then 0
    else ParseDecimal(s[..|s| - 1]) * 10 + DigitValue(s[|s| - 1])
  }

  /** `Decimal` is a faithful numeral: reading it back gives the number. */
  lemma {:induction false} ParseDecimalOfDecimal(n: nat)
    ensures ParseDecimal(Decimal(n)) == n
    decreases n
  {
    var d := Decimal(n);
    if n < 10 {
      assert d[..0] == [];
    } else {
      ParseDecimalOfDecimal(n / 10);
      assert d[..|d| - 1] == Decimal(n / 10);
    }
  }

  function Zeros(k: nat): (r: string)
    ensures |r| == k
    ensures forall i :: 0 <= i < k ==> r[i] == '0'
  {
    seq(k, i => '0')
  }

  /** Leading zeros do not change the value of a numeral. */
  lemma {:induction false} ParseLeadingZeros(k: nat, s: string)
    requires forall i :: 0 <= i < |s| ==> IsDigit(s[i])
    ensures ParseDecimal(Zeros(k) + s) == ParseDecimal(s)
    decreases |s|
  {
    if s == [] {
      ParseZeros(k);
      assert Zeros(k) + s == Zeros(k);
    } else {
      var s' := s[..|s| - 1];
      ParseLeadingZeros(k, s');
      assert (Zeros(k) + s)[..|Zeros(k) + s| - 1] == Zeros(k) + s';
    }
  }

  lemma {:induction false} ParseZeros(k: nat)
    ensures ParseDecimal(Zeros(k)) == 0
    decreases k
  {
    if k > 0 {
      ParseZeros(k - 1);
      assert Zeros(k)[..k - 1] == Zeros(k - 1);
    }
  }

  /** `s.padStart(width, fill)` with a one-character fill string. */
  function PadStart(s: string, width: nat, fill: char): (r: string)
    ensures |s| >= width ==> r == s
    ensures |s| < width ==> |r| == width && r[width - |s|..] == s
    ensures |s| < width ==> forall i :: 0 <= i < width - |s| ==> r[i] == fill
  {
    if |s| >= width then s else seq(width - |s|, i => fill) + s
  }

  function Max(a: int, b: int): int {
    if a >= b then a else b
  }

  /**
   * The order number both pages show, `String(id).padStart(6, '0')`: the
   * decimal digits of the id, preceded by as many zeros as make it six
   * characters long, and no zeros when it already has six or more digits.
   */
  function OrderNumber(id: nat): (r: string)
    ensures |r| == Max(6, |Decimal(id)|)
    ensures r[|r| - |Decimal(id)|..] == Decimal(id)
    ensures forall i :: 0 <= i < |r| - |Decimal(id)| ==> r[i] == '0'
  {
    PadStart(Decimal(id), 6, '0')
  }

  /** Reading the padded number as decimal gives back the id, so different ids never share a number. */
  lemma OrderNumberRoundTrip(id: nat)
    ensures forall i :: 0 <= i < |OrderNumber(id)| ==> IsDigit(OrderNumber(id)[i])
    ensures ParseDecimal(OrderNumber(id)) == id
  {
    var d := Decimal(id);
    var r := OrderNumber(id);
    assert r == Zeros(|r| - |d|) + d;
    ParseLeadingZeros(|r| - |d|, d);
    ParseDecimalOfDecimal(id);
  }

  lemma OrderNumberInjective(a: nat, b: nat)
    requires OrderNumber(a) == OrderNumber(b)
    ensures a == b
  {
    OrderNumberRoundTrip(a);
    OrderNumberRoundTrip(b);
  }

  /** Ids below one million are shown with exactly six characters. */
  lemma {:induction false} SixDigitIds(id: nat)
    requires id < 1000000
    ensures |OrderNumber(id)| == 6
  {
    DecimalLength(id, 6);
  }

  function Pow10(k: nat): (p: nat)
    ensures p >= 1
  {
    if k == 0 then 1 else 10 * Pow10(k - 1)
  }

  lemma {:induction false} DecimalLength(n: nat, k: nat)
    requires 1 <= k && n < Pow10(k)
    ensures |Decimal(n)| <= k
    decreases k
  {
    if n >= 10 {
      assert Pow10(1) == 10;
      assert n / 10 < Pow10(k - 1);
      DecimalLength(n / 10, k - 1);
    }
  }
}
