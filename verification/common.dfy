/**
  Small shared vocabulary: an Option type, the numeric helpers Python's
  `max`/`min`/`int()` give the pricing code, ASCII lower-casing for the
  category lookups, and the decimal rendering of integers used to build
  A/B test identifiers.
 */
module Common {

  datatype Option<+T> = None | Some(value: T) {
    function GetOr(default: T): T {
      match this
      case Some(v) => v
      case None => default
    }
  }

  function MaxR(a: real, b: real): (r: real)
    ensures r >= a && r >= b
    ensures r == a || r == b
  {
    if a >= b then a else b
  }

  function MinR(a: real, b: real): (r: real)
    ensures r <= a && r <= b
    ensures r == a || r == b
  {
    if a <= b then a else b
  }

  function MaxI(a: int, b: int): (r: int)
    ensures r >= a && r >= b
    ensures r == a || r == b
  {
    if a >= b then a else b
  }

  /** `max(lo, min(x, hi))`, the clamp idiom the source uses throughout. */
  function Clamp(x: real, lo: real, hi: real): (r: real)
    requires lo <= hi
    ensures lo <= r <= hi
    ensures lo <= x <= hi ==> r == x
    ensures x < lo ==> r == lo
    ensures x > hi ==> r == hi
  {
    MaxR(lo, MinR(x, hi))
  }

  /** The sign of `z` from the sign of `z * w` for a positive `w`. */
  lemma SignOfFactor(z: real, w: real)
    requires w > 0.0
    ensures z * w >= 0.0 ==> z >= 0.0
    ensures z * w > 0.0 ==> z > 0.0
  {
    assert z == (z * w) / w;
  }

  /** Python's `int()` on a float: truncation toward zero. */
  function Trunc(x: real): (r: int)
    ensures x >= 0.0 ==> 0 <= r && r as real <= x < r as real + 1.0
    ensures x < 0.0 ==> r <= 0 && r as real - 1.0 < x <= r as real
  {
    if x >= 0.0 then x.Floor else -((-x).Floor)
  }

  function LowerChar(c: char): (d: char)
    ensures 'A' <= c <= 'Z' ==> 'a' <= d <= 'z'
    ensures !('A' <= c <= 'Z') ==> d == c
  {
    if 'A' <= c <= 'Z' then (c as int - 'A' as int + 'a' as int) as char else c
  }

  /** `str.lower()` restricted to ASCII letters. */
  function AsciiLower(s: string): (r: string)
    ensures |r| == |s|
    ensures forall i :: 0 <= i < |s| ==> r[i] == LowerChar(s[i])
  {
    if s == [] then [] else [LowerChar(s[0])] + AsciiLower(s[1..])
  }

  function Digit(d: nat): (c: char)
    requires d < 10
    ensures '0' <= c <= '9'
  {
    "0123456789"[d]
  }

  /** Decimal rendering of a natural number, as Python's `str` prints it. */
  function NatToString(n: nat): (s: string)
    ensures |s| >= 1
    ensures forall i :: 0 <= i < |s| ==> '0' <= s[i] <= '9'
    ensures (n < 10) == (|s| == 1)
  {
    if n < 10 then [Digit(n)] else NatToString(n / 10) + [Digit(n % 10)]
  }

  /** The absolute value, as a natural number. */
  function Magnitude(i: int): nat {
    if i < 0 then -i else i
  }

  function IntToString(i: int): (s: string)
    ensures |s| >= 1
    ensures (i < 0) == (s[0] == '-')
  {
    if i < 0 then "-" + NatToString(Magnitude(i)) else NatToString(i)
  }

  lemma DigitInjective(a: nat, b: nat)
    requires a < 10 && b < 10
    requires Digit(a) == Digit(b)
    ensures a == b
  {
  }

  /** Different numbers print differently. */
  lemma {:induction false} NatToStringInjective(a: nat, b: nat)
    requires NatToString(a) == NatToString(b)
    ensures a == b
  {
    if a < 10 || b < 10 {
      if a < 10 && b < 10 {
        DigitInjective(a, b);
      }
    } else {
      var sa, sb := NatToString(a), NatToString(b);
      assert sa[|sa| - 1] == Digit(a % 10);
      assert sb[|sb| - 1] == Digit(b % 10);
      DigitInjective(a % 10, b % 10);
      assert sa[..|sa| - 1] == NatToString(a / 10);
      assert sb[..|sb| - 1] == NatToString(b / 10);
      NatToStringInjective(a / 10, b / 10);
    }
  }

  lemma IntToStringInjective(a: int, b: int)
    requires IntToString(a) == IntToString(b)
    ensures a == b
  {
    // the sign character tells the two signs apart
    assert (a < 0) == (b < 0);
    if a < 0 {
      SignStripped(a);
      SignStripped(b);
      NatToStringInjective(Magnitude(a), Magnitude(b));
    } else {
      NatToStringInjective(a, b);
    }
  }

  lemma SignStripped(i: int)
    requires i < 0
    ensures IntToString(i)[1..] == NatToString(Magnitude(i))
  {
    assert IntToString(i) == "-" + NatToString(Magnitude(i));
  }
}
