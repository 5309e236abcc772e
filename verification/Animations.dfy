/** Polynomial easings and keyframe interpolation, over the reals. */
module Animations {

  datatype Ease =
    | Linear
    | InQuad | OutQuad | InOutQuad
    | InCubic | OutCubic | InOutCubic
    | InQuart | OutQuart | InOutQuart

  /** The formulas as written; --t is applied before the factors to its right are read. */
  function Apply(e: Ease, t: real): real {
    match e
    case Linear => t
    case InQuad => t * t
    case OutQuad => t * (2.0 - t)
    case InOutQuad => if t < 0.5 then 2.0 * t * t else -1.0 + (4.0 - 2.0 * t) * t
    case InCubic => t * t * t
    case OutCubic => var u := t - 1.0; u * u * u + 1.0
    case InOutCubic =>
      if t < 0.5 then 4.0 * t * t * t else (t - 1.0) * (2.0 * t - 2.0) * (2.0 * t - 2.0) + 1.0
    case InQuart => t * t * t * t
    case OutQuart => var u := t - 1.0; 1.0 - u * u * u * u
    case InOutQuart =>
      if t < 0.5 then 8.0 * t * t * t * t else var u := t - 1.0; 1.0 - 8.0 * u * u * u * u
  }

  function Pow(t: real, n: nat): real {
    if n == 0 then 1.0 else t * Pow(t, n - 1)
  }

  lemma Powers(t: real)
    ensures Pow(t, 2) == t * t && Pow(t, 3) == t * t * t && Pow(t, 4) == t * t * t * t
  {
    assert Pow(t, 1) == t;
    assert Pow(t, 2) == t * t;
    assert Pow(t, 3) == t * (t * t);
    assert Pow(t, 4) == t * (t * (t * t));
  }

  lemma ProductMonotone(a: real, b: real, c: real, d: real)
    requires 0.0 <= a <= b && 0.0 <= c <= d
    ensures 0.0 <= a * c <= b * d
  {
    assert a * c <= b * c;
    assert b * c <= b * d;
  }

  /** Powers of non-negative numbers are monotone. */
  lemma {:induction false} PowMonotone(a: real, b: real, n: nat)
    requires 0.0 <= a <= b
    ensures 0.0 <= Pow(a, n) <= Pow(b, n)
  {
    if n > 0 {
      PowMonotone(a, b, n - 1);
      ProductMonotone(a, b, Pow(a, n - 1), Pow(b, n - 1));
    }
  }

  /** The exponent of the polynomial an easing is built from. */
  function Degree(e: Ease): nat {
    match e
    case Linear => 1
    case InQuad | OutQuad | InOutQuad => 2
    case InCubic | OutCubic | InOutCubic => 3
    case InQuart | OutQuart | InOutQuart => 4
  }

  datatype Shape = In | Out | InOut

  function ShapeOf(e: Ease): Shape {
    match e
    case Linear | InQuad | InCubic | InQuart => In
    case OutQuad | OutCubic | OutQuart => Out
    case InOutQuad | InOutCubic | InOutQuart => InOut
  }

  /** 2^(n-1) t^n: the near half of an in-out easing, reaching 1/2 at 1/2. */
  function Bow(n: nat, t: real): real {
    if n <= 1 then t else (2.0 * t) * Bow(n - 1, t)
  }

  /** The power curve, that curve turned about, or one half of each. */
  function Curve(shape: Shape, n: nat, t: real): real {
    match shape
    case In => Pow(t, n)
    case Out => 1.0 - Pow(1.0 - t, n)
    case InOut => if t < 0.5 then Bow(n, t) else 1.0 - Bow(n, 1.0 - t)
  }

  /** Every formula is the power curve of its shape and degree. */
  lemma EaseIsPowerCurve(e: Ease, t: real)
    ensures Apply(e, t) == Curve(ShapeOf(e), Degree(e), t)
  {
    match e {
      case Linear => assert Pow(t, 1) == t;
      case InQuad | OutQuad | InOutQuad => QuadIsCurve(t);
      case InCubic | OutCubic | InOutCubic => CubicIsCurve(t);
      case InQuart | OutQuart | InOutQuart => QuartIsCurve(t);
    }
  }

  lemma QuadIsCurve(t: real)
    ensures Apply(InQuad, t) == Curve(In, 2, t) && Apply(OutQuad, t) == Curve(Out, 2, t)
    ensures Apply(InOutQuad, t) == Curve(InOut, 2, t)
  {
    Powers(t);
    Powers(1.0 - t);
    Bows(t);
    Bows(1.0 - t);
  }

  lemma CubicIsCurve(t: real)
    ensures Apply(InCubic, t) == Curve(In, 3, t) && Apply(OutCubic, t) == Curve(Out, 3, t)
    ensures Apply(InOutCubic, t) == Curve(InOut, 3, t)
  {
    Powers(t);
    Powers(1.0 - t);
    TurnedCube(1.0 - t, t - 1.0, 2.0 * t - 2.0);
    if t < 0.5 {
      BowOfThree(t);
    } else {
      BowOfThree(1.0 - t);
    }
  }

  lemma QuartIsCurve(t: real)
    ensures Apply(InQuart, t) == Curve(In, 4, t) && Apply(OutQuart, t) == Curve(Out, 4, t)
    ensures Apply(InOutQuart, t) == Curve(InOut, 4, t)
  {
    Powers(t);
    Powers(1.0 - t);
    TurnedFourth(1.0 - t, t - 1.0);
    if t < 0.5 {
      BowOfFour(t);
    } else {
      BowOfFour(1.0 - t);
    }
  }

  lemma Bows(t: real)
    ensures Bow(2, t) == 2.0 * (t * t)
  {
    assert Bow(1, t) == t;
    assert Bow(2, t) == (2.0 * t) * t;
  }

  lemma BowOfThree(t: real)
    ensures Bow(3, t) == 4.0 * t * t * t
  {
    Bows(t);
    assert Bow(3, t) == (2.0 * t) * (2.0 * (t * t));
    var square := t * t;
    assert (2.0 * t) * (2.0 * square) == 4.0 * (t * square);
    assert t * square == t * t * t;
  }

  lemma BowOfFour(t: real)
    ensures Bow(4, t) == 8.0 * t * t * t * t
  {
    BowOfThree(t);
    var cube := t * t * t;
    assert Bow(3, t) == 4.0 * cube;
    assert Bow(4, t) == (2.0 * t) * (4.0 * cube) == 8.0 * (t * cube);
    assert t * cube == t * t * t * t;
    assert 8.0 * t * t * t * t == 8.0 * (t * t * t * t);
  }

  /** Seen from the far end, where t - 1 is -u, cubes change sign. */
  lemma TurnedCube(u: real, v: real, w: real)
    requires v == -u && w == 2.0 * v
    ensures v * v * v == -(u * u * u)
    ensures v * w * w == -(4.0 * u * u * u)
  {
    var square := u * u;
    assert v * v == square;
    assert v * w == 2.0 * square;
    assert (2.0 * square) * w == -4.0 * (square * u);
    assert 4.0 * u * u * u == 4.0 * (square * u);
  }

  /** ... and fourth powers do not. */
  lemma TurnedFourth(u: real, v: real)
    requires v == -u
    ensures v * v * v * v == u * u * u * u
    ensures 8.0 * v * v * v * v == 8.0 * u * u * u * u
  {
    var square := u * u;
    assert v * v == square;
    assert square * v * v == square * (v * v) == square * u * u;
    assert 8.0 * v * v == 8.0 * square == 8.0 * u * u;
    assert (8.0 * square) * v * v == (8.0 * square) * (v * v) == (8.0 * square) * u * u;
  }

  /** The near half keeps its order and reaches at most one half. */
  lemma {:induction false} BowMonotone(n: nat, s: real, t: real)
    requires 0.0 <= s <= t <= 0.5
    ensures 0.0 <= Bow(n, s) <= Bow(n, t) <= 0.5
  {
    if n > 1 {
      BowMonotone(n - 1, s, t);
      ProductMonotone(2.0 * s, 2.0 * t, Bow(n - 1, s), Bow(n - 1, t));
      ProductMonotone(2.0 * t, 1.0, Bow(n - 1, t), 0.5);
    }
  }

  lemma {:induction false} PowOfOne(n: nat)
    ensures Pow(1.0, n) == 1.0 && (n > 0 ==> Pow(0.0, n) == 0.0)
  {
    if n > 0 {
      PowOfOne(n - 1);
    }
  }

  /** Every polynomial easing stays in [0, 1] and never runs backwards. */
  lemma EaseMonotone(e: Ease, s: real, t: real)
    requires 0.0 <= s <= t <= 1.0
    ensures 0.0 <= Apply(e, s) <= Apply(e, t) <= 1.0
  {
    EaseIsPowerCurve(e, s);
    EaseIsPowerCurve(e, t);
    CurveMonotone(ShapeOf(e), Degree(e), s, t);
  }

  lemma CurveMonotone(shape: Shape, n: nat, s: real, t: real)
    requires 0.0 <= s <= t <= 1.0 && 1 <= n
    ensures 0.0 <= Curve(shape, n, s) <= Curve(shape, n, t) <= 1.0
  {
    PowOfOne(n);
    match shape {
      case In =>
        PowMonotone(s, t, n);
        PowMonotone(t, 1.0, n);
      case Out =>
        PowMonotone(1.0 - t, 1.0 - s, n);
        PowMonotone(1.0 - s, 1.0, n);
      case InOut => InOutMonotone(n, s, t);
    }
  }

  lemma InOutMonotone(n: nat, s: real, t: real)
    requires 0.0 <= s <= t <= 1.0
    ensures 0.0 <= Curve(InOut, n, s) <= Curve(InOut, n, t) <= 1.0
  {
    if t < 0.5 {
      BowMonotone(n, s, t);
    } else if s < 0.5 {
      BowMonotone(n, s, s);
      BowMonotone(n, 1.0 - t, 1.0 - t);
    } else {
      BowMonotone(n, 1.0 - t, 1.0 - s);
    }
  }

  lemma BowOfZero(n: nat)
    ensures Bow(n, 0.0) == 0.0
  {
  }

  lemma EaseFixesEnds(e: Ease)
    ensures Apply(e, 0.0) == 0.0 && Apply(e, 1.0) == 1.0
  {
    EaseIsPowerCurve(e, 0.0);
    EaseIsPowerCurve(e, 1.0);
    PowOfOne(Degree(e));
    BowOfZero(Degree(e));
  }

  // ---------------------------------------------------------------- interpolate

  /** One easing for all segments, or one per segment with Linear for those missing. */
  datatype Eases = One(ease: Ease) | PerSegment(eases: seq<Ease>)

  function EaseAt(es: Eases, i: nat): Ease {
    match es
    case One(e) => e
    case PerSegment(list) => if i < |list| then list[i] else Linear
  }

  /** The value on segment i at time t. */
  function OnSegment(input: seq<real>, output: seq<real>, es: Eases, i: nat, t: real): real
    requires |input| == |output| && i + 1 < |input|
  {
    output[i] + (output[i + 1] - output[i]) * Apply(EaseAt(es, i), Local(input, i, t))
  }

  /** How far t is into segment i. */
  function Local(input: seq<real>, i: nat, t: real): real
    requires i + 1 < |input|
  {
    var span := input[i + 1] - input[i];
    if span == 0.0 then 0.0 else (t - input[i]) / span
  }

  ghost predicate Increasing(input: seq<real>) {
    forall i, j :: 0 <= i < j < |input| ==> input[i] < input[j]
  }

  /** `i` is the segment the scan stops at. */
  ghost predicate FirstSegment(input: seq<real>, t: real, i: int) {
    && 0 <= i && i + 1 < |input| && input[i] <= t <= input[i + 1]
    && forall j :: 0 <= j < i ==> !(input[j] <= t <= input[j + 1])
  }

  /** What the closure returned by interpolate answers at t. */
  ghost predicate Answers(input: seq<real>, output: seq<real>, es: Eases, t: real, r: real)
    requires 0 < |input| == |output|
  {
    var n := |input|;
    if t <= input[0] then r == output[0]
    else if t >= input[n - 1] then r == output[n - 1]
    else exists i :: FirstSegment(input, t, i) && r == OnSegment(input, output, es, i, t)
  }

  /** With one easing per segment, segment i uses the i-th, and segments beyond the list are linear. */
  lemma SegmentsUseTheirOwn(input: seq<real>, output: seq<real>, list: seq<Ease>, i: nat, t: real)
    requires |input| == |output| && i + 1 < |input|
    ensures i < |list| ==> OnSegment(input, output, PerSegment(list), i, t) == OnSegment(input, output, One(list[i]), i, t)
    ensures i >= |list| ==> OnSegment(input, output, PerSegment(list), i, t) == OnSegment(input, output, One(Linear), i, t)
  {
  }

  /** Another easing on segment j changes no other segment. */
  lemma OtherSegmentsUnchanged(input: seq<real>, output: seq<real>, list: seq<Ease>, j: nat, e: Ease, i: nat, t: real)
    requires |input| == |output| && i + 1 < |input| && j < |list| && i != j
    ensures OnSegment(input, output, PerSegment(list[j := e]), i, t) == OnSegment(input, output, PerSegment(list), i, t)
  {
  }

  /** A single easing is used on every segment: the value is the blend it makes of the two outputs. */
  lemma SegmentBlends(input: seq<real>, output: seq<real>, e: Ease, i: nat, t: real, k: real)
    requires |input| == |output| && i + 1 < |input| && input[i] < input[i + 1]
    requires t == input[i] + k * (input[i + 1] - input[i])
    ensures OnSegment(input, output, One(e), i, t) == output[i] + (output[i + 1] - output[i]) * Apply(e, k)
  {
    var span := input[i + 1] - input[i];
    Share(k, span);
    assert t - input[i] == k * span;
    assert Local(input, i, t) == k;
  }

  lemma Share(k: real, span: real)
    requires 0.0 < span
    ensures (k * span) / span == k
  {
    var q := (k * span) / span;
    assert q * span == k * span;
    assert (q - k) * span == 0.0;
  }

  method Interpolate(input: seq<real>, output: seq<real>, es: Eases, t: real) returns (r: real)
    requires 0 < |input| == |output|
    ensures Answers(input, output, es, t, r)
  {
    var n := |input|;
    r := output[n - 1];
    if t <= input[0] {
      return output[0];
    }
    if t >= input[n - 1] {
      return;
    }
    for i := 0 to n - 1
      invariant input[i] < t
      invariant forall j :: 0 <= j < i ==> !(input[j] <= t <= input[j + 1])
    {
      if input[i] <= t && t <= input[i + 1] {
        assert FirstSegment(input, t, i);
        return OnSegment(input, output, es, i, t);
      }
    }
    assert false;
  }

  lemma Quotient(a: real, b: real)
    requires 0.0 <= a <= b && 0.0 < b
    ensures 0.0 <= a / b <= 1.0 && b / b == 1.0
  {
    var q := a / b;
    assert q * b == a;
  }

  lemma QuotientMonotone(a: real, c: real, b: real)
    requires a <= c && 0.0 < b
    ensures a / b <= c / b
  {
    var q, r := a / b, c / b;
    assert q * b == a && r * b == c;
  }

  lemma Between(x: real, y: real, k: real)
    requires 0.0 <= k <= 1.0
    ensures x <= y ==> x <= x + (y - x) * k <= y
    ensures y <= x ==> y <= x + (y - x) * k <= x
  {
    var d := y - x;
    var product := d * k;
    if 0.0 <= d {
      Fraction(d, k);
      assert 0.0 <= product <= d;
    } else {
      Fraction(-d, k);
      Negated(d, k);
      assert d <= product <= 0.0;
    }
    assert x + (y - x) * k == x + product;
  }

  lemma Negated(d: real, k: real)
    ensures (-d) * k == -(d * k)
  {
  }

  lemma Fraction(d: real, k: real)
    requires 0.0 <= d && 0.0 <= k <= 1.0
    ensures 0.0 <= d * k <= d
  {
    ProductMonotone(d, d, k, 1.0);
  }

  /** A segment's values stay between its two outputs. */
  lemma SegmentStaysBetween(input: seq<real>, output: seq<real>, es: Eases, i: nat, t: real)
    requires |input| == |output| && i + 1 < |input| && Increasing(input) && input[i] <= t <= input[i + 1]
    ensures var r := OnSegment(input, output, es, i, t);
            && (output[i] <= output[i + 1] ==> output[i] <= r <= output[i + 1])
            && (output[i + 1] <= output[i] ==> output[i + 1] <= r <= output[i])
  {
    var local := Local(input, i, t);
    LocalMonotone(input, i, t, t);
    EaseMonotone(EaseAt(es, i), local, local);
    Between(output[i], output[i + 1], Apply(EaseAt(es, i), local));
  }

  lemma LocalMonotone(input: seq<real>, i: nat, s: real, t: real)
    requires i + 1 < |input| && input[i] < input[i + 1] && input[i] <= s <= t <= input[i + 1]
    ensures 0.0 <= Local(input, i, s) <= Local(input, i, t) <= 1.0
  {
    var span := input[i + 1] - input[i];
    Quotient(s - input[i], span);
    Quotient(t - input[i], span);
    QuotientMonotone(s - input[i], t - input[i], span);
  }

  lemma SegmentHitsEnds(input: seq<real>, output: seq<real>, es: Eases, i: nat)
    requires |input| == |output| && i + 1 < |input| && Increasing(input)
    ensures OnSegment(input, output, es, i, input[i]) == output[i]
    ensures OnSegment(input, output, es, i, input[i + 1]) == output[i + 1]
  {
    var span := input[i + 1] - input[i];
    Quotient(span, span);
    assert (input[i] - input[i]) / span == 0.0;
    EaseFixesEnds(EaseAt(es, i));
  }

  /** At every keyframe the interpolation gives exactly that keyframe's output. */
  lemma HitsKeyframes(input: seq<real>, output: seq<real>, es: Eases, k: nat, r: real)
    requires 0 < |input| == |output| && Increasing(input) && k < |input|
    requires Answers(input, output, es, input[k], r)
    ensures r == output[k]
  {
    if 0 < k < |input| - 1 {
      var i :| FirstSegment(input, input[k], i) && r == OnSegment(input, output, es, i, input[k]);
      assert i + 1 >= k;
      assert FirstSegment(input, input[k], i) ==> i <= k;
      assert input[k - 1] <= input[k] <= input[k];
      assert i == k - 1;
      SegmentHitsEnds(input, output, es, k - 1);
    }
  }

  lemma SegmentMonotone(input: seq<real>, output: seq<real>, es: Eases, i: nat, s: real, t: real)
    requires |input| == |output| && i + 1 < |input| && Increasing(input)
    requires input[i] <= s <= t <= input[i + 1] && output[i] <= output[i + 1]
    ensures OnSegment(input, output, es, i, s) <= OnSegment(input, output, es, i, t)
  {
    var e, ls, lt := EaseAt(es, i), Local(input, i, s), Local(input, i, t);
    LocalMonotone(input, i, s, t);
    EaseMonotone(e, ls, lt);
    Blend(output[i], output[i + 1], Apply(e, ls), Apply(e, lt));
  }

  lemma Blend(x: real, y: real, a: real, b: real)
    requires x <= y && 0.0 <= a <= b
    ensures x + (y - x) * a <= x + (y - x) * b
  {
    ProductMonotone(y - x, y - x, a, b);
  }

  ghost predicate NonDecreasing(output: seq<real>) {
    forall i, j :: 0 <= i <= j < |output| ==> output[i] <= output[j]
  }

  /** With non-decreasing outputs the interpolation never runs backwards. */
  lemma InterpolationMonotone(input: seq<real>, output: seq<real>, es: Eases, s: real, t: real, rs: real, rt: real)
    requires 0 < |input| == |output| && Increasing(input) && NonDecreasing(output) && s <= t
    requires Answers(input, output, es, s, rs) && Answers(input, output, es, t, rt)
    ensures rs <= rt
  {
    var n := |input|;
    if s <= input[0] {
      AboveFirst(input, output, es, t, rt);
    } else if t >= input[n - 1] {
      BelowLast(input, output, es, s, rs);
    } else {
      var i :| FirstSegment(input, s, i) && rs == OnSegment(input, output, es, i, s);
      var j :| FirstSegment(input, t, j) && rt == OnSegment(input, output, es, j, t);
      if i == j {
        SegmentMonotone(input, output, es, i, s, t);
      } else {
        SegmentStaysBetween(input, output, es, i, s);
        SegmentStaysBetween(input, output, es, j, t);
        SegmentsOrdered(input, s, t, i, j);
        assert output[i + 1] <= output[j];
      }
    }
  }

  lemma SegmentsOrdered(input: seq<real>, s: real, t: real, i: int, j: int)
    requires Increasing(input) && s <= t && FirstSegment(input, s, i) && FirstSegment(input, t, j) && i != j
    ensures i < j
  {
    if j < i {
      EarlierSegmentMeets(input, s, t, i, j);
      assert false;
    }
  }

  lemma EarlierSegmentMeets(input: seq<real>, s: real, t: real, i: int, j: int)
    requires Increasing(input) && 0 <= j < i < |input| && input[i] <= s <= t <= input[j + 1]
    ensures input[j] <= s <= input[j + 1]
  {
    assert input[j] < input[i];
  }

  lemma AboveFirst(input: seq<real>, output: seq<real>, es: Eases, t: real, r: real)
    requires 0 < |input| == |output| && Increasing(input) && NonDecreasing(output)
    requires Answers(input, output, es, t, r)
    ensures output[0] <= r
  {
    if input[0] < t < input[|input| - 1] {
      var i :| FirstSegment(input, t, i) && r == OnSegment(input, output, es, i, t);
      SegmentStaysBetween(input, output, es, i, t);
    }
  }

  lemma BelowLast(input: seq<real>, output: seq<real>, es: Eases, t: real, r: real)
    requires 0 < |input| == |output| && Increasing(input) && NonDecreasing(output)
    requires Answers(input, output, es, t, r)
    ensures r <= output[|input| - 1]
  {
    if input[0] < t < input[|input| - 1] {
      var i :| FirstSegment(input, t, i) && r == OnSegment(input, output, es, i, t);
      SegmentStaysBetween(input, output, es, i, t);
    }
  }

  // ---------------------------------------------------------------- animate

  function Animate(a: real, b: real, start: real, end: real, e: Ease, t: real): real {
    if t <= start then a
    else if t >= end then b
    else a + (b - a) * Apply(e, (t - start) / (end - start))
  }

  /** The single-segment tween is interpolation over two keyframes. */
  lemma AnimateIsOneSegment(a: real, b: real, start: real, end: real, e: Ease, t: real)
    requires start < end
    ensures Answers([start, end], [a, b], One(e), t, Animate(a, b, start, end, e, t))
  {
    var input, output := [start, end], [a, b];
    if start < t < end {
      assert FirstSegment(input, t, 0);
      PairSegment(input, output, e, t);
      assert Answers(input, output, One(e), t, Animate(a, b, start, end, e, t));
    }
  }

  lemma PairSegment(input: seq<real>, output: seq<real>, e: Ease, t: real)
    requires |input| == |output| == 2 && input[0] < t < input[1]
    ensures OnSegment(input, output, One(e), 0, t) == Animate(output[0], output[1], input[0], input[1], e, t)
  {
    var local := (t - input[0]) / (input[1] - input[0]);
    assert Local(input, 0, t) == local;
    assert EaseAt(One(e), 0) == e;
  }
}
