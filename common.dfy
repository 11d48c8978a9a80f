/** Small shared vocabulary: an optional value (JavaScript's `undefined`/`null`,
    Python's `None`), JavaScript's rounding and `%`, the `reduce` sum, and a few
    facts about reals and sequences used throughout. */
module Common {

  datatype Option<+T> = None | Some(value: T) {
    function GetOr(default: T): T {
      match this
      case Some(v) => v
      case None => default
    }
  }

  function Abs(x: real): (r: real)
    ensures r >= 0.0 && (r == x || r == -x)
  {
    if x < 0.0 then -x else x
  }

  function Min(a: real, b: real): (r: real)
    ensures r <= a && r <= b && (r == a || r == b)
  {
    if a <= b then a else b
  }

  function Max(a: real, b: real): (r: real)
    ensures r >= a && r >= b && (r == a || r == b)
  {
    if a >= b then a else b
  }

  function Square(x: real): (r: real)
    ensures r >= 0.0
  {
    x * x
  }

  /** JavaScript's `Math.round`: halves round towards positive infinity. */
  function JsRound(x: real): (r: int)
    ensures x - 0.5 < r as real <= x + 0.5
  {
    (x + 0.5).Floor
  }

  /** Python's `int()` of a float: truncation towards zero. */
  function PyTruncate(x: real): (r: int)
    ensures x >= 0.0 ==> 0 <= r && r as real <= x < r as real + 1.0
    ensures x < 0.0 ==> r <= 0 && r as real - 1.0 < x <= r as real
  {
    if x >= 0.0 then x.Floor else -((-x).Floor)
  }

  // ----- JavaScript's `%` -----
  // The operator is the same on both number kinds the programs use it on: the
  // remainder of truncating division, with the sign of the dividend.

  /** `a % b` on fractional numbers. */
  function JsRemainder(a: real, b: real): (r: real)
    requires b > 0.0
    ensures a >= 0.0 ==> 0.0 <= r < b
    ensures a <= 0.0 ==> -b < r <= 0.0
    ensures 0.0 <= a < b ==> r == a
    ensures b <= a < b + b ==> r == a - b
  {
    var q := (Abs(a) / b).Floor;
    QuotientFloor(Abs(a), b, q);
    if a >= 0.0 then a - b * (q as real) else -(-a - b * (q as real))
  }

  /** `a % b` on whole numbers: it agrees with Dafny's `%` for a non-negative `a`. */
  function JsRem(a: int, b: int): (r: int)
    requires b > 0
    ensures a >= 0 ==> 0 <= r < b && r == a % b
    ensures a < 0 ==> -b < r <= 0
  {
    if a >= 0 then a % b else -((-a) % b)
  }

  // ----- sums -----

  /** The sum of `xs`, accumulated from the front as `reduce` does. */
  function Sum(xs: seq<int>): (r: int)
    ensures xs == [] ==> r == 0
    ensures (forall k :: 0 <= k < |xs| ==> xs[k] >= 0) ==> r >= 0
  {
    if xs == [] then 0
    else
      var init := xs[..|xs| - 1];
      assert forall k :: 0 <= k < |init| ==> init[k] == xs[k];
      Sum(init) + xs[|xs| - 1]
  }

  /** The sum of two runs is the sum of their sums. */
  lemma {:induction false} SumAppend(a: seq<int>, b: seq<int>)
    ensures Sum(a + b) == Sum(a) + Sum(b)
    decreases |b|
  {
    if b == [] {
      assert a + b == a;
    } else {
      var b' := b[..|b| - 1];
      assert (a + b)[..|a + b| - 1] == a + b';
      assert (a + b)[|a + b| - 1] == b[|b| - 1];
      SumAppend(a, b');
    }
  }

  lemma SumSingle(x: int)
    ensures Sum([x]) == x
  {
    assert [x][..0] == [];
  }

  /** `a` occurs in `b` in the same order, possibly with gaps (matched from the end). */
  predicate IsSubsequence<T(==)>(a: seq<T>, b: seq<T>)
    decreases |b|
  {
    if a == [] then true
    else if b == [] then false
    else if a[|a| - 1] == b[|b| - 1] then IsSubsequence(a[..|a| - 1], b[..|b| - 1])
    else IsSubsequence(a, b[..|b| - 1])
  }

  /** Each element of `s` put through `f`, in order. */
  function Map<S, T>(f: S -> T, s: seq<S>): (r: seq<T>)
    ensures |r| == |s|
    ensures forall k :: 0 <= k < |s| ==> r[k] == f(s[k])
  {
    seq(|s|, k requires 0 <= k < |s| => f(s[k]))
  }

  /** An injective map keeps a subsequence a subsequence. */
  lemma {:induction false} MapSubsequence<S, T>(f: S -> T, a: seq<S>, b: seq<S>)
    requires forall x, y :: f(x) == f(y) ==> x == y
    requires IsSubsequence(a, b)
    ensures IsSubsequence(Map(f, a), Map(f, b))
    decreases |b|
  {
    if a != [] && b != [] {
      var a', b' := a[..|a| - 1], b[..|b| - 1];
      assert Map(f, a)[..|a| - 1] == Map(f, a');
      assert Map(f, b)[..|b| - 1] == Map(f, b');
      if a[|a| - 1] == b[|b| - 1] {
        MapSubsequence(f, a', b');
      } else {
        MapSubsequence(f, a, b');
      }
    }
  }

  // ----- monotonicity of real multiplication and division -----

  lemma MulMono(b: real, u: real, v: real)
    requires b > 0.0 && u <= v
    ensures b * u <= b * v
  {}
  lemma MulStrict(b: real, u: real, v: real)
    requires b > 0.0 && u < v
    ensures b * u < b * v
  {}
  lemma DivMono(u: real, v: real, b: real)
    requires b > 0.0 && u <= v
    ensures u / b <= v / b
  {}
  lemma DivStrict(u: real, v: real, b: real)
    requires b > 0.0 && u < v
    ensures u / b < v / b
  {}
  lemma ScaleCancels(b: real, x: real)
    requires b > 0.0
    ensures b * x / b == x
  {}

  /** `q`, the floor of `a / b`, leaves a remainder in [0, b); it is 0 below
      `b` and 1 from `b` up to twice `b`. */
  lemma QuotientFloor(a: real, b: real, q: int)
    requires a >= 0.0 && b > 0.0 && q == (a / b).Floor
    ensures 0.0 <= a - b * (q as real) < b
    ensures a < b ==> q == 0
    ensures b <= a < b + b ==> q == 1
  {
    var x := a / b;
    var qr := q as real;
    assert qr <= x < qr + 1.0;
    FloorBounds(a, b, x, qr);
    if a < b { QuotientBelowOne(a, b); }
    if b <= a < b + b { QuotientBelowTwo(a, b); }
  }

  lemma FloorBounds(a: real, b: real, x: real, qr: real)
    requires b > 0.0 && x == a / b && qr <= x < qr + 1.0
    ensures b * qr <= a
    ensures a < b * qr + b
  {
    assert a == b * x;
    MulMono(b, qr, x);
    MulStrict(b, x, qr + 1.0);
  }

  lemma QuotientBelowOne(a: real, b: real)
    requires 0.0 <= a < b
    ensures 0.0 <= a / b < 1.0
  {
    DivMono(0.0, a, b);
    DivStrict(a, b, b);
    assert b / b == 1.0;
  }

  lemma QuotientBelowTwo(a: real, b: real)
    requires b > 0.0 && b <= a < b + b
    ensures 1.0 <= a / b < 2.0
  {
    DivMono(b, a, b);
    DivStrict(a, b + b, b);
    assert b / b == 1.0;
    assert (b + b) / b == 2.0;
  }
}
