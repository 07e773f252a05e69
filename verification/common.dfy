/**
 Shared vocabulary of the pitch-control model: optional values (for the
 tracking data's missing coordinates), the error taxonomy of the engine and of
 the Python built-ins it relies on, plane vectors, and the two numerical
 primitives (a norm and the exponential) that the model treats as abstract.
 */
module Common {

  /** A value that may be absent; `None` stands for a NaN entry of the tracking table. */
  datatype Option<+T> = None | Some(value: T)

  /** Every way one of the modelled operations can fail. */
  datatype Error =
    | BallMissing        // the ball position has a missing coordinate
    | MissingGoalKeeper  // the defending goalkeeper is not among the in-frame defenders
    | OutOfField         // a column index outside the three zones
    | ChecksumFailed     // the field-wide average of PPCFa + PPCFd is too far below one
    | IntegrationFailed  // the numerical integration did not converge or went negative
    | EmptyInput         // `min`/`idxmax` over an empty collection (Python's ValueError)
    | IndexOutOfRange    // subscripting past the end of a list (Python's IndexError)
    | KeyNotFound        // looking up a missing column or table row (Python's KeyError)
    | ZeroDivision       // a float division by zero (Python's ZeroDivisionError)
    | ZeroStep           // slicing with step zero (Python's ValueError)

  /** The outcome of an operation that may raise one of the errors above. */
  datatype Result<+T> = Ok(value: T) | Err(error: Error)

  /** A point or displacement in the pitch's metric coordinates. */
  datatype Vec2 = Vec2(x: real, y: real)

  function Add(a: Vec2, b: Vec2): Vec2 { Vec2(a.x + b.x, a.y + b.y) }

  function Sub(a: Vec2, b: Vec2): Vec2 { Vec2(a.x - b.x, a.y - b.y) }

  function Scale(a: Vec2, k: real): Vec2 { Vec2(a.x * k, a.y * k) }

  /** A position read from the tracking table, where either coordinate may be missing. */
  datatype Coords = Coords(x: Option<real>, y: Option<real>) {
    predicate Present() { x.Some? && y.Some? }

    function Point(): Vec2
      requires Present()
    {
      Vec2(x.value, y.value)
    }
  }

  /** The Euclidean norm, kept abstract: only its non-negativity is used. */
  type Norm = f: Vec2 -> real | forall v :: f(v) >= 0.0 witness (v: Vec2) => 0.0

  /** The exponential, kept abstract: positive everywhere and one at zero. */
  type Exp = f: real -> real | f(0.0) == 1.0 && forall t :: f(t) > 0.0 witness (t: real) => 1.0

  /**
   `f` never decreases. Stated through `At` so that the hypothesis is only
   instantiated at the points a proof names explicitly.
   */
  ghost predicate Increasing(f: real -> real)
  {
    forall a, b :: a <= b ==> At(f, a) <= At(f, b)
  }

  function At(f: real -> real, a: real): real { f(a) }

  lemma IncreasingAt(f: real -> real, a: real, b: real)
    requires Increasing(f) && a <= b
    ensures f(a) <= f(b)
  {
    assert At(f, a) <= At(f, b);
  }

  /** A team's possession role in the current frame. */
  datatype Role = Attacking | Defending

  /** The half a team defends: `left` (negative x), `right`, or the empty label when undetermined. */
  datatype Half = Left | Right | Undetermined

  /** The label of a pitch third, as computed from a grid column index. */
  datatype Zone = First | Second | Third

  /**
   One row of the tracking table: the column names in table order, the numeric
   value (or NaN) of each column, and the `ball_owner` label.
   */
  datatype Frame = Frame(columns: seq<string>, values: map<string, Option<real>>, ballOwner: string)
  {
    /** Every listed column has a value (possibly missing) in the row. */
    predicate Valid()
    {
      forall c :: c in columns ==> c in values
    }
  }

  /** Python's `max(a, b)` on two numbers. */
  function Max(a: real, b: real): real { if a >= b then a else b }

  /** Python's `abs` on a number. */
  function Abs(x: real): real { if x < 0.0 then -x else x }

  /** numpy's `sign` on a number that is present. */
  function Sign(x: real): real { if x < 0.0 then -1.0 else if x > 0.0 then 1.0 else 0.0 }

  // Small facts of real arithmetic that the solver does not find unaided.

  lemma DivMonotone(a: real, b: real, k: real)
    requires k > 0.0 && a <= b
    ensures a / k <= b / k
  {
    assert b / k - a / k == (b - a) / k;
  }

  lemma RecipAntitone(d1: real, d2: real)
    requires 0.0 < d2 <= d1
    ensures 1.0 / d1 <= 1.0 / d2
  {
    assert 1.0 / d2 - 1.0 / d1 == (d1 - d2) / (d1 * d2);
  }

  /** Scaling by a negative factor reverses the order. */
  lemma MulNegAntitone(c: real, x: real, y: real)
    requires c < 0.0 && x <= y
    ensures c * y <= c * x
  {
    assert c * x - c * y == (-c) * (y - x);
  }

  lemma NegQuotient(a: real, b: real)
    requires a > 0.0 && b > 0.0
    ensures -a / b < 0.0
  {
    assert a / b > 0.0;
  }
}
