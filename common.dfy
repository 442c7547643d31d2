/** Small value types shared by every module of the model: Python's `None`,
    failures that the source raises as exceptions, byte buffers and the
    decimal rendering that f-strings give to non-negative integers. */
module Common {

  /** Python's optional value: `None` or a present value. */
  datatype Option<+T> = None | Some(value: T)

  /** A computation that either yields a value or raises the error `error`. */
  datatype Result<+T, +E> = Ok(value: T) | Err(error: E)

  /** A Python `bytes` object. */
  type Bytes = seq<bv8>

  /** A run of `n` zero bytes, used to build buffers of a given length. */
  function Zeros(n: nat): (b: Bytes)
    ensures |b| == n
  {
    seq(n, _ => 0 as bv8)
  }

  function Digit(d: nat): (c: char)
    requires d < 10
  {
    ('0' as int + d) as char
  }

  lemma DigitInjective(a: nat, b: nat)
    requires a < 10 && b < 10
    ensures Digit(a) == Digit(b) <==> a == b
  {
  }

  /** `str(n)` for a non-negative integer: its decimal digits, most significant first. */
  function NatToString(n: nat): (s: string)
    ensures |s| >= 1
    decreases n
  {
    if n < 10 then [Digit(n)] else NatToString(n / 10) + [Digit(n % 10)]
  }

  /** Distinct numbers have distinct decimal renderings. */
  lemma {:induction false} NatToStringInjective(a: nat, b: nat)
    requires NatToString(a) == NatToString(b)
    ensures a == b
    decreases a
  {
    var s := NatToString(a);
    if a >= 10 && b >= 10 {
      var pa, pb := NatToString(a / 10), NatToString(b / 10);
      assert s == pa + [Digit(a % 10)] == pb + [Digit(b % 10)];
      assert |pa| == |pb|;
      assert pa == s[..|s| - 1] == pb;
      assert Digit(a % 10) == s[|s| - 1] == Digit(b % 10);
      NatToStringInjective(a / 10, b / 10);
      DigitInjective(a % 10, b % 10);
    } else if a < 10 && b < 10 {
      DigitInjective(a, b);
    }
  }

  /** `n` rendered with at least `width` digits, padded on the left with zeros
      (the `%04d` / `%02d` style used by date formatting). */
  function PadLeft(n: nat, width: nat): (s: string)
    ensures |s| >= width
    decreases width
  {
    if |NatToString(n)| >= width then NatToString(n) else "0" + PadLeft(n, width - 1)
  }

  /** Below 100, two-digit padding gives the tens digit, then the units digit. */
  lemma PadTwoDigits(n: nat)
    requires n < 100
    ensures PadLeft(n, 2) == [Digit(n / 10), Digit(n % 10)]
  {
    if n < 10 {
      assert NatToString(n) == [Digit(n)];
    } else {
      assert NatToString(n) == NatToString(n / 10) + [Digit(n % 10)];
      assert NatToString(n / 10) == [Digit(n / 10)];
    }
  }

  /** Python truthiness of an optional string: `None` and `""` are false. */
  predicate Truthy(s: Option<string>)
  {
    s.Some? && s.value != ""
  }
}
