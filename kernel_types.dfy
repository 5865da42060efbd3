/**
 * The C types the device record is built from: `int` for the condition and
 * for parsed input, `unsigned long` (taken as 64 bits, as on a 64-bit kernel) for the two
 * counters, and the outcome of parsing a decimal integer from a sysfs write.
 */
module KernelTypes {

  /** C `int`. */
  newtype int32 = x: int | -0x8000_0000 <= x < 0x8000_0000

  /** Number of values of a 64-bit `unsigned long`. */
  const ULONG_MODULUS: int := 0x1_0000_0000_0000_0000

  /** C `unsigned long` on a 64-bit kernel. */
  newtype ulong = x: int | 0 <= x < 0x1_0000_0000_0000_0000

  /** `c++` on an `unsigned long`: one more, wrapping to 0 past the largest value. */
  function Incremented(c: ulong): (r: ulong)
    ensures r != c
    ensures r as int == (c as int + 1) % ULONG_MODULUS
  {
    if c as int == ULONG_MODULUS - 1 then 0 else c + 1
  }

  /** The counter `c` after `n` increments. */
  function Wrap(c: ulong, n: nat): ulong
  {
    if n == 0 then c else Incremented(Wrap(c, n - 1))
  }

  /** n increments of an unsigned long add n modulo 2^64. */
  lemma {:induction false} WrapIsModularSum(c: ulong, n: nat)
    ensures Wrap(c, n) as int == (c as int + n) % ULONG_MODULUS
  {
    if n > 0 {
      WrapIsModularSum(c, n - 1);
      var prev := c as int + n - 1;
      var q := prev / ULONG_MODULUS;
      assert prev == q * ULONG_MODULUS + Wrap(c, n - 1) as int;
      if Wrap(c, n - 1) as int == ULONG_MODULUS - 1 {
        assert c as int + n == (q + 1) * ULONG_MODULUS;
      } else {
        assert c as int + n == q * ULONG_MODULUS + (Wrap(c, n - 1) as int + 1);
      }
    }
  }

  /** a increments followed by b increments are a + b increments. */
  lemma {:induction false} WrapComposes(c: ulong, a: nat, b: nat)
    ensures Wrap(Wrap(c, a), b) == Wrap(c, a + b)
  {
    if b > 0 {
      WrapComposes(c, a, b - 1);
    }
  }

  /** Below the wrap-around point a counter only grows, by exactly n. */
  lemma WrapBelowLimit(c: ulong, n: nat)
    requires c as int + n < ULONG_MODULUS
    ensures Wrap(c, n) as int == c as int + n
  {
  }

  /** The two ways `kstrtoint(buf, 10, &value)` fails. */
  datatype ParseError =
    | Invalid     // not a decimal integer: -EINVAL
    | OutOfRange  // does not fit in an int: -ERANGE
  {
    /** The negative errno that kstrtoint returns. */
    function Errno(): (e: int)
      ensures e < 0
    {
      match this
      case Invalid => -22
      case OutOfRange => -34
    }
  }

  /** What parsing the text written to a sysfs attribute produced. */
  datatype Parsed = Value(value: int32) | Failed(error: ParseError)
}
