/** The few JavaScript value notions the rest of the model needs: values that may be
    undefined, numbers that may be undefined or NaN, Math.floor, Math.max/Math.min and
    the truncating remainder operator `%`. */
module Js {

  datatype Option<+T> = None | Some(value: T) {
    /** `a || b`-style fallback for a possibly undefined value. */
    function GetOr(default: T): T {
      match this
      case Some(v) => v
      case None => default
    }
  }

  /** A numeric property of a JavaScript object. `None` stands for a property that is
      absent (undefined) or that holds NaN: arithmetic on it gives `None` again and every
      comparison with it is false, as with NaN. Finite values are exact reals (no rounding,
      no overflow to Infinity). */
  type Num = Option<real>

  function Add(p: Num, q: Num): Num {
    if p.Some? && q.Some? then Some(p.value + q.value) else None
  }

  function Sub(p: Num, q: Num): Num {
    if p.Some? && q.Some? then Some(p.value - q.value) else None
  }

  function Mul(p: Num, q: Num): Num {
    if p.Some? && q.Some? then Some(p.value * q.value) else None
  }

  /** `p <= c` for a numeric property: false when the property is undefined or NaN. */
  predicate AtMost(p: Num, c: real) {
    p.Some? && p.value <= c
  }

  /** `p >= c`, false on undefined or NaN. */
  predicate AtLeast(p: Num, c: real) {
    p.Some? && p.value >= c
  }

  /** `p > c`, false on undefined or NaN. */
  predicate Above(p: Num, c: real) {
    p.Some? && p.value > c
  }

  /** `Math.max(p, c)`: NaN if either argument is NaN. */
  function MaxN(p: Num, c: real): Num {
    if p.Some? then Some(if p.value >= c then p.value else c) else None
  }

  /** `Math.abs(p)`. */
  function AbsN(p: Num): Num {
    if p.Some? then Some(if p.value >= 0.0 then p.value else -p.value) else None
  }

  /** `Math.cos` and `Math.sin`, which the model leaves uninterpreted: every use takes
      them as a parameter. */
  datatype Trig = Trig(cos: real -> real, sin: real -> real)

  /** A call `f(p)` of a numeric library function such as `Math.cos`. */
  function Apply(f: real -> real, p: Num): Num {
    if p.Some? then Some(f(p.value)) else None
  }

  /** `ms / 1000`: a duration in milliseconds, in seconds. */
  function Seconds(ms: real): real {
    ms / 1000.0
  }

  function Max(a: real, b: real): real { if a >= b then a else b }

  function Min(a: real, b: real): real { if a <= b then a else b }

  /** `Math.floor(x)` for a finite x. */
  function Floor(x: real): (r: int)
    ensures r as real <= x < r as real + 1.0
  {
    x.Floor
  }

  /** JavaScript's `a % b` for a positive integer b: the remainder takes the sign of the
      dividend (Dafny's own `%` is Euclidean and never negative). */
  function Rem(a: int, b: int): (r: int)
    requires b > 0
    ensures a >= 0 ==> 0 <= r < b && r == a % b
    ensures a < 0 ==> -b < r <= 0
  {
    if a >= 0 then a % b else -((-a) % b)
  }

  /** Multiplication distributes over addition; stated once so that proofs about
      products of variables can cite it instead of searching for it. */
  lemma Distribute(a: real, b: real, c: real)
    ensures (a + b) * c == a * c + b * c
  {
  }
}
