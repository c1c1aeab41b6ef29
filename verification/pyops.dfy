/** The small part of Python's integer semantics and exception vocabulary that the
    grid code relies on: floor division, the floor modulo `%`, ceiling division, and
    the errors an operation can raise. Python's `//` and `%` round toward negative
    infinity for every non-zero divisor; Dafny's `/` and `%` are Euclidean, so the two
    agree only for a positive divisor and are reconciled here. */
module PyOps {

  /** The Python exceptions the modelled code can raise. */
  datatype PyError =
    | ZeroDivisionError
    | KeyError(key: string)
    | TypeError
    | IndexError

  datatype Option<+T> = None | Some(value: T)

  /** A computation that either returns a value or raises. */
  datatype Result<+T> = Ok(value: T) | Err(error: PyError)

  /** Python's `a // b`, which `math.floor(a / b)` computes exactly on integers. */
  function FloorDiv(a: int, b: int): (q: int)
    requires b != 0
    ensures b > 0 ==> b * q <= a < b * q + b
    ensures b < 0 ==> b * q + b < a <= b * q
  {
    if b > 0 then a / b else (-a) / (-b)
  }

  /** Python's `a % b`: the remainder that goes with `FloorDiv`, carrying the sign of `b`. */
  function Mod(a: int, b: int): (r: int)
    requires b != 0
    ensures a == b * FloorDiv(a, b) + r
    ensures b > 0 ==> 0 <= r < b
    ensures b < 0 ==> b < r <= 0
  {
    a - b * FloorDiv(a, b)
  }

  /** Python's `math.ceil(a / b)` for a positive divisor, on integers. */
  function CeilDiv(a: int, b: int): (q: int)
    requires b > 0
    ensures b * q - b < a <= b * q
  {
    -((-a) / b)
  }

  /** For a positive divisor, a quotient and remainder in range are the only ones. */
  lemma DivModUnique(a: int, b: int, q: int, r: int)
    requires b > 0
    requires a == b * q + r
    requires 0 <= r < b
    ensures FloorDiv(a, b) == q
    ensures Mod(a, b) == r
  {
    var q' := FloorDiv(a, b);
    if q' < q {
      MulMonotone(b, q' + 1, q);
    } else if q < q' {
      MulMonotone(b, q + 1, q');
    }
  }

  /** Multiplying by a positive factor keeps the order of the other factor. */
  lemma MulMonotone(b: int, lo: int, hi: int)
    requires b > 0
    requires lo <= hi
    ensures b * lo <= b * hi
  {
  }
}
