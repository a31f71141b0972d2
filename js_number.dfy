/**
 * Numbers as the trading server computes with them.
 *
 * JavaScript numbers are doubles; here a finite number is an exact real, and
 * the non-finite values (NaN, +Infinity, -Infinity) are one value, NonFinite.
 * The server only adds, multiplies and divides by an integer share count, and
 * each of those, given a non-finite operand or a zero divisor, yields a
 * non-finite value again, so merging the three loses nothing the model needs.
 */
module JsNumber {

  datatype Number = Finite(value: real) | NonFinite

  function FromInt(n: int): Number {
    Finite(n as real)
  }

  /** `a + b` */
  function Add(a: Number, b: Number): Number {
    if a.Finite? && b.Finite? then Finite(a.value + b.value) else NonFinite
  }

  /** `a * b` */
  function Mul(a: Number, b: Number): Number {
    if a.Finite? && b.Finite? then Finite(a.value * b.value) else NonFinite
  }

  /** `a / d` for an integer divisor: dividing by zero gives NaN or an infinity. */
  function DivInt(a: Number, d: int): Number {
    if a.Finite? && d != 0 then Finite(a.value / (d as real)) else NonFinite
  }

  /** Multiplying a quotient back by its non-zero divisor restores the dividend. */
  lemma DivIntCancels(a: Number, d: int)
    requires d != 0
    ensures Mul(FromInt(d), DivInt(a, d)) == a
  {
  }
}
