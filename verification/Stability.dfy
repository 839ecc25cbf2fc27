/** The numerical heart of the filter bank over exact reals (src/dsp/vocoder.rs): the Jury
    test on the poles, the silent tail of a stable filter, and the envelope follower. */
module Stability {
  import opened Floats
  import V = Vocoder

  // ---------- The Jury test ----------

  predicate Stable(a1: real, a2: real) {
    1.0 + a1 + a2 > 0.0 && 1.0 - a1 + a2 > 0.0 && 1.0 - a2 > 0.0
  }

  /** `coefficients_are_stable`. */
  predicate CoefficientsAreStable(c: V.Coefficients) {
    && c.a1.IsFinite() && c.a2.IsFinite() && c.b0.IsFinite() && c.b1.IsFinite() && c.b2.IsFinite()
    && Stable(c.a1.v, c.a2.v)
  }

  /** The two roots of a monic real quadratic. */
  datatype Roots = RealPair(r: real, s: real) | Conjugates(p: real, q: real)

  /** The coefficients of z^2 + a1 z + a2 with these roots. */
  function A1(z: Roots): real {
    match z
    case RealPair(r, s) => -(r + s)
    case Conjugates(p, _) => -2.0 * p
  }

  function A2(z: Roots): real {
    match z
    case RealPair(r, s) => r * s
    case Conjugates(p, q) => p * p + q * q
  }

  /** Both roots lie strictly inside the unit circle. */
  predicate Inside(z: Roots) {
    match z
    case RealPair(r, s) => -1.0 < r < 1.0 && -1.0 < s < 1.0
    case Conjugates(p, q) => p * p + q * q < 1.0
  }

  /** The test accepts a quadratic exactly when both of its roots are inside the unit circle. */
  lemma JuryIsExact(z: Roots)
    ensures Stable(A1(z), A2(z)) <==> Inside(z)
  {
    match z
    case RealPair(r, s) =>
      if Inside(z) {
        InsideIsStable(r, s);
      }
      if Stable(A1(z), A2(z)) {
        StableIsInside(r, s, A1(z), A2(z));
      }
    case Conjugates(p, q) => ConjugatesExact(p, q);
  }

  /** The check on stored coefficients accepts exactly the finite ones whose two poles are inside the
      unit circle; the feedforward taps need only be finite. */
  lemma StabilityCheckIsExact(c: V.Coefficients, z: Roots)
    requires c.a1.Fin? ==> c.a1.v == A1(z)
    requires c.a2.Fin? ==> c.a2.v == A2(z)
    ensures CoefficientsAreStable(c) <==>
            c.a1.Fin? && c.a2.Fin? && c.b0.Fin? && c.b1.Fin? && c.b2.Fin? && Inside(z)
  {
    JuryIsExact(z);
  }

  /** Every real quadratic is one of the two kinds, given the square root `d` of its discriminant's
      magnitude. */
  lemma EveryQuadraticHasRoots(a1: real, a2: real, d: real) returns (z: Roots)
    requires d * d == Magnitude(a1 * a1 - 4.0 * a2)
    ensures A1(z) == a1 && A2(z) == a2
  {
    var h, e := a1 / 2.0, d / 2.0;
    assert 4.0 * (e * e) == d * d && 4.0 * (h * h) == a1 * a1;
    if a1 * a1 >= 4.0 * a2 {
      z := RealPair(e - h, -e - h);
      assert (e - h) * (-e - h) == h * h - e * e;
    } else {
      z := Conjugates(-h, e);
    }
  }

  lemma InsideIsStable(r: real, s: real)
    requires -1.0 < r < 1.0 && -1.0 < s < 1.0
    ensures Stable(-(r + s), r * s)
  {
    var a, b, c, d := 1.0 - r, 1.0 - s, 1.0 + r, 1.0 + s;
    RealBoundaries(r, s, a, b, c, d);
    Positive(a, b);
    Positive(c, d);
    ProductBelowOne(r, s);
  }

  lemma StableIsInside(r: real, s: real, a1: real, a2: real)
    requires Stable(a1, a2) && a1 == -(r + s) && a2 == r * s
    ensures -1.0 < r < 1.0 && -1.0 < s < 1.0
  {
    BelowOne(r, s);
    BelowOne(s, r);
    AboveMinusOne(r, s);
    AboveMinusOne(s, r);
  }

  /** The two boundary conditions as products over the real roots. */
  lemma RealBoundaries(r: real, s: real, a: real, b: real, c: real, d: real)
    requires a == 1.0 - r && b == 1.0 - s && c == 1.0 + r && d == 1.0 + s
    ensures a * b == 1.0 + -(r + s) + r * s
    ensures c * d == 1.0 - -(r + s) + r * s
  {
  }

  lemma ConjugatesExact(p: real, q: real)
    ensures Stable(-2.0 * p, p * p + q * q) <==> p * p + q * q < 1.0
  {
    if p * p + q * q < 1.0 {
      Square(q);
      SquareBelowOne(p, q);
      ConjugateBoundaries(p, p * p, q * q);
    }
  }

  lemma ConjugateBoundaries(p: real, pp: real, qq: real)
    requires pp == p * p && qq >= 0.0 && -1.0 < p < 1.0
    ensures 1.0 - 2.0 * p + pp + qq > 0.0 && 1.0 + 2.0 * p + pp + qq > 0.0
  {
    ProductIsPositive(1.0 - p, 1.0 - p, 1.0 - 2.0 * p + p * p);
    ProductIsPositive(1.0 + p, 1.0 + p, 1.0 + 2.0 * p + p * p);
  }

  lemma ProductIsPositive(x: real, y: real, product: real)
    requires x > 0.0 && y > 0.0 && product == x * y
    ensures product > 0.0
  {
  }

  lemma Positive(x: real, y: real)
    requires x > 0.0 && y > 0.0
    ensures x * y > 0.0
  {
  }

  lemma NonNegative(x: real, y: real)
    requires x >= 0.0 && y >= 0.0
    ensures x * y >= 0.0
  {
  }

  lemma Square(x: real)
    ensures x * x >= 0.0
  {
    NonNegative(if x < 0.0 then -x else x, if x < 0.0 then -x else x);
  }

  lemma ProductBelowOne(r: real, s: real)
    requires -1.0 < r < 1.0 && -1.0 < s < 1.0
    ensures r * s < 1.0
  {
    var a, b, c, d := 1.0 - r, 1.0 - s, 1.0 + r, 1.0 + s;
    Positive(a, d);
    Positive(c, b);
    assert a * d == 1.0 - r + s - r * s && c * b == 1.0 + r - s - r * s;
  }

  lemma SquareBelowOne(p: real, q: real)
    requires p * p + q * q < 1.0
    ensures -1.0 < p < 1.0
  {
    Square(q);
    var m := Magnitude(p);
    assert m * m == p * p;
    if m >= 1.0 {
      NonNegative(m - 1.0, m);
    }
  }

  /** A real root at or beyond the unit circle would push the product of the roots above one. */
  lemma BelowOne(r: real, s: real)
    requires 1.0 + -(r + s) + r * s > 0.0 && r * s < 1.0
    ensures r < 1.0
  {
    if r >= 1.0 {
      var a, b := r - 1.0, 1.0 - s;
      if s <= 1.0 {
        NonNegative(a, b);
      } else {
        NonNegative(a, s);
      }
    }
  }

  lemma AboveMinusOne(r: real, s: real)
    requires 1.0 - -(r + s) + r * s > 0.0 && r * s < 1.0
    ensures r > -1.0
  {
    if r <= -1.0 {
      var a, b, c := -1.0 - r, 1.0 + s, -s;
      if s >= -1.0 {
        NonNegative(a, b);
      } else {
        NonNegative(a, c);
      }
    }
  }

  function Magnitude(a: real): real {
    if a < 0.0 then -a else a
  }

  /** Every complex root x + iy of an accepted quadratic is inside the unit circle. */
  lemma EveryRootInside(a1: real, a2: real, x: real, y: real)
    requires Stable(a1, a2)
    requires x * x - y * y + a1 * x + a2 == 0.0 && 2.0 * x * y + a1 * y == 0.0
    ensures x * x + y * y < 1.0
  {
    if y == 0.0 {
      var other := -a1 - x;
      assert x * other == a2;
      JuryIsExact(RealPair(x, other));
      ProductBelowOne(x, x);
    } else {
      assert y * (2.0 * x + a1) == 0.0;
      assert a1 == -2.0 * x;
      assert a2 == x * x + y * y;
    }
  }

  // ---------- The silent tail ----------

  /** A quadratic form in the last two outputs. */
  function Energy(a1: real, a2: real, u: real, v: real): real {
    (1.0 + a2) * (u * u + v * v) + 2.0 * a1 * u * v
  }

  function Next(a1: real, a2: real, u: real, v: real): real {
    -a1 * u - a2 * v
  }

  function Margin(a1: real, a2: real): real {
    1.0 + a2 - Magnitude(a1)
  }

  /** Along the zero-input recurrence the energy changes by exactly minus a square. */
  lemma EnergyStep(a1: real, a2: real, u: real, v: real)
    ensures var w := a1 * u + (1.0 + a2) * v;
            Energy(a1, a2, Next(a1, a2, u, v), u) == Energy(a1, a2, u, v) - (1.0 - a2) * (w * w)
  {
    var y := Next(a1, a2, u, v);
    var w := a1 * u + (1.0 + a2) * v;
    var uu, uv, vv := u * u, u * v, v * v;
    assert y * y == a1 * a1 * uu + 2.0 * a1 * a2 * uv + a2 * a2 * vv;
    assert y * u == -a1 * uu - a2 * uv;
    assert w * w == a1 * a1 * uu + 2.0 * a1 * (1.0 + a2) * uv + (1.0 + a2) * (1.0 + a2) * vv;
  }

  /** For accepted coefficients the energy is positive definite. */
  lemma EnergyIsPositive(a1: real, a2: real, u: real, v: real)
    requires Stable(a1, a2)
    ensures Margin(a1, a2) > 0.0
    ensures Energy(a1, a2, u, v) >= Margin(a1, a2) * (u * u + v * v)
  {
    Square(u + v);
    Square(u - v);
    EnergyOverMargin(a1, a2, u, v);
    if a1 < 0.0 {
      NonNegative(-a1, (u - v) * (u - v));
    } else {
      NonNegative(a1, (u + v) * (u + v));
    }
  }

  lemma EnergyOverMargin(a1: real, a2: real, u: real, v: real)
    ensures Energy(a1, a2, u, v) - Margin(a1, a2) * (u * u + v * v) ==
            if a1 < 0.0 then -a1 * ((u - v) * (u - v)) else a1 * ((u + v) * (u + v))
  {
  }

  /** The last two outputs after `n` silent samples. */
  function Tail(a1: real, a2: real, u: real, v: real, n: nat): (real, real)
    decreases n
  {
    if n == 0 then (u, v) else Tail(a1, a2, Next(a1, a2, u, v), u, n - 1)
  }

  lemma EnergyFalls(a1: real, a2: real, u: real, v: real)
    requires Stable(a1, a2)
    ensures Energy(a1, a2, Next(a1, a2, u, v), u) <= Energy(a1, a2, u, v)
  {
    EnergyStep(a1, a2, u, v);
    var w := a1 * u + (1.0 + a2) * v;
    Square(w);
    NonNegative(1.0 - a2, w * w);
  }

  /** The energy never rises, so every silent tail stays bounded for all time. */
  lemma {:induction false} EnergyNeverRises(a1: real, a2: real, u: real, v: real, n: nat)
    requires Stable(a1, a2)
    ensures Energy(a1, a2, Tail(a1, a2, u, v, n).0, Tail(a1, a2, u, v, n).1) <= Energy(a1, a2, u, v)
    decreases n
  {
    if n > 0 {
      EnergyFalls(a1, a2, u, v);
      EnergyNeverRises(a1, a2, Next(a1, a2, u, v), u, n - 1);
    }
  }

  /** `y` is within the bound fixed by the last two outputs `u`, `v` before the silence. */
  predicate WithinBound(a1: real, a2: real, u: real, v: real, y: real) {
    Margin(a1, a2) > 0.0 && Margin(a1, a2) * (y * y) <= Energy(a1, a2, u, v)
  }

  lemma TailIsBounded(a1: real, a2: real, u: real, v: real, n: nat)
    requires Stable(a1, a2)
    ensures WithinBound(a1, a2, u, v, Tail(a1, a2, u, v, n).0)
  {
    EnergyNeverRises(a1, a2, u, v, n);
    EnergyBoundsOutput(a1, a2, u, v, Tail(a1, a2, u, v, n).0, Tail(a1, a2, u, v, n).1);
  }

  lemma EnergyBoundsOutput(a1: real, a2: real, u: real, v: real, y: real, z: real)
    requires Stable(a1, a2) && Energy(a1, a2, y, z) <= Energy(a1, a2, u, v)
    ensures WithinBound(a1, a2, u, v, y)
  {
    EnergyIsPositive(a1, a2, y, z);
    DropSquare(Margin(a1, a2), y, z);
  }

  // ---------- The same for the modelled band ----------

  function ExactAdd(a: Float, b: Float): Float {
    if a.Fin? && b.Fin? then Fin(a.v + b.v) else NaN
  }

  function ExactSub(a: Float, b: Float): Float {
    if a.Fin? && b.Fin? then Fin(a.v - b.v) else NaN
  }

  function ExactMul(a: Float, b: Float): Float {
    if a.Fin? && b.Fin? then Fin(a.v * b.v) else NaN
  }

  const EXACT: V.Machine := V.Machine(ExactAdd, ExactSub, ExactMul)

  ghost predicate Exact(t: V.Tuning) {
    t.machine == EXACT && CoefficientsAreStable(t.coefficients) && t.attack.Fin? && t.release.Fin?
  }

  function Zeros(n: nat): seq<Float> {
    seq(n, i => ZERO)
  }

  /** One silent sample moves the two stored outputs one step along the recurrence. */
  lemma SilentStep(t: V.Tuning, b: V.Band)
    requires Exact(t) && V.Sound(b) && b.filter.x1 == ZERO && b.filter.x2 == ZERO
    ensures var f, c := V.BandStep(t, b, ZERO).filter, t.coefficients;
            && V.Sound(V.BandStep(t, b, ZERO)) && f.x1 == ZERO && f.x2 == ZERO
            && f.y1 == Fin(Next(c.a1.v, c.a2.v, b.filter.y1.v, b.filter.y2.v)) && f.y2 == b.filter.y1
  {
  }

  /** Two silent samples bring any sound band into that state. */
  lemma SilenceClearsInputs(t: V.Tuning, b: V.Band)
    requires Exact(t) && V.Sound(b)
    ensures var f := V.BandFold(t, b, Zeros(2)).filter; f.x1 == ZERO && f.x2 == ZERO
  {
    assert Zeros(2)[1..] == [ZERO] && [ZERO][1..] == [];
    var b' := V.BandStep(t, b, ZERO);
    assert V.BandFold(t, b, Zeros(2)) == V.BandFold(t, b', [ZERO]);
    assert V.BandFold(t, b', [ZERO]) == V.BandStep(t, b', ZERO);
  }

  lemma {:induction false} SilentTail(t: V.Tuning, b: V.Band, n: nat)
    requires Exact(t) && V.Sound(b) && b.filter.x1 == ZERO && b.filter.x2 == ZERO
    ensures var f, c := V.BandFold(t, b, Zeros(n)).filter, t.coefficients;
            && f.y1.Fin? && f.y2.Fin?
            && (f.y1.v, f.y2.v) == Tail(c.a1.v, c.a2.v, b.filter.y1.v, b.filter.y2.v, n)
    decreases n
  {
    if n > 0 {
      SilentStep(t, b);
      SilentTail(t, V.BandStep(t, b, ZERO), n - 1);
      assert Zeros(n)[1..] == Zeros(n - 1);
    }
  }

  lemma EmptyHistoryStaysBounded(t: V.Tuning, b: V.Band, n: nat)
    requires Exact(t) && V.Sound(b) && b.filter.x1 == ZERO && b.filter.x2 == ZERO
    ensures var y := V.BandFold(t, b, Zeros(n)).filter.y1;
            y.Fin? && WithinBound(t.coefficients.a1.v, t.coefficients.a2.v, b.filter.y1.v, b.filter.y2.v, y.v)
  {
    SilentTail(t, b, n);
    TailIsBounded(t.coefficients.a1.v, t.coefficients.a2.v, b.filter.y1.v, b.filter.y2.v, n);
  }

  /** After the input of any sound band falls silent, the outputs of an accepted filter stay within
      a bound fixed by its state two samples into the silence, however long the silence lasts. */
  lemma SilentOutputsStayBounded(t: V.Tuning, b: V.Band, n: nat)
    requires Exact(t) && V.Sound(b)
    ensures var f, y := V.BandFold(t, b, Zeros(2)).filter, V.BandFold(t, b, Zeros(2 + n)).filter.y1;
            && f.y1.Fin? && f.y2.Fin? && y.Fin?
            && WithinBound(t.coefficients.a1.v, t.coefficients.a2.v, f.y1.v, f.y2.v, y.v)
  {
    V.FoldStaysSound(t, b, Zeros(2));
    SilenceClearsInputs(t, b);
    V.FoldConcat(t, b, Zeros(2), Zeros(n));
    assert Zeros(2) + Zeros(n) == Zeros(2 + n);
    EmptyHistoryStaysBounded(t, V.BandFold(t, b, Zeros(2)), n);
  }

  lemma DropSquare(m: real, y: real, z: real)
    requires m > 0.0
    ensures m * (y * y) <= m * (y * y + z * z)
  {
    assert m * (y * y + z * z) == m * (y * y) + m * (z * z);
    Square(z);
    NonNegative(m, z * z);
  }

  // ---------- The envelope follower ----------

  predicate IsRate(c: real) {
    0.0 < c <= 1.0
  }

  function RealFollow(e: real, target: real, attack: real, release: real): real {
    e + (if target > e then attack else release) * (target - e)
  }

  /** One step of the modelled follower computes this on exact arithmetic. */
  lemma FollowIsReal(t: V.Tuning, e: real, target: real)
    requires Exact(t)
    ensures V.Follow(t, Fin(e), Fin(target)) == Fin(RealFollow(e, target, t.attack.v, t.release.v))
  {
  }

  /** One step moves towards the target and never past it. */
  lemma NeverOvershoots(e: real, target: real, attack: real, release: real)
    requires IsRate(attack) && IsRate(release)
    ensures var e' := RealFollow(e, target, attack, release);
            && (target > e ==> e < e' <= target)
            && (target < e ==> target <= e' < e)
            && (target == e ==> e' == e)
  {
    var c := if target > e then attack else release;
    var d := target - e;
    assert RealFollow(e, target, attack, release) == e + c * d;
    assert (1.0 - c) * d == d - c * d;
    if d > 0.0 {
      Positive(c, d);
      NonNegative(1.0 - c, d);
    } else if d < 0.0 {
      Positive(c, -d);
      NonNegative(1.0 - c, -d);
      assert c * -d == -(c * d) && (1.0 - c) * -d == -((1.0 - c) * d);
    }
  }

  function FollowAll(e: real, targets: seq<real>, attack: real, release: real): real
    decreases |targets|
  {
    if |targets| == 0 then e else FollowAll(RealFollow(e, targets[0], attack, release), targets[1..], attack, release)
  }

  /** The modelled follower fed one rectified sample after the other. */
  function FollowFold(t: V.Tuning, e: Float, targets: seq<real>): Float
    decreases |targets|
  {
    if |targets| == 0 then e else FollowFold(t, V.Follow(t, e, Fin(targets[0])), targets[1..])
  }

  /** On exact arithmetic the modelled follower is the real one, over any input. */
  lemma {:induction false} FollowerIsReal(t: V.Tuning, e: real, targets: seq<real>)
    requires Exact(t)
    ensures FollowFold(t, Fin(e), targets) == Fin(FollowAll(e, targets, t.attack.v, t.release.v))
    decreases |targets|
  {
    if |targets| > 0 {
      FollowIsReal(t, e, targets[0]);
      FollowerIsReal(t, RealFollow(e, targets[0], t.attack.v, t.release.v), targets[1..]);
    }
  }

  /** From reset the envelope always lies between zero and the largest rectified input so far. */
  lemma {:induction false} EnvelopeStaysInRange(e: real, targets: seq<real>, top: real, attack: real, release: real)
    requires IsRate(attack) && IsRate(release) && 0.0 <= e <= top
    requires forall k :: 0 <= k < |targets| ==> 0.0 <= targets[k] <= top
    ensures 0.0 <= FollowAll(e, targets, attack, release) <= top
    decreases |targets|
  {
    if |targets| > 0 {
      NeverOvershoots(e, targets[0], attack, release);
      EnvelopeStaysInRange(RealFollow(e, targets[0], attack, release), targets[1..], top, attack, release);
    }
  }

  function Power(x: real, n: nat): real {
    if n == 0 then 1.0 else x * Power(x, n - 1)
  }

  /** Under a constant target the error after `n` samples is exactly (1 - c)^n times the first,
      where `c` is the attack rate when approaching from below and the release rate from above. */
  lemma ErrorShrinksGeometrically(e: real, target: real, n: nat, attack: real, release: real, c: real)
    requires IsRate(attack) && IsRate(release)
    requires (target > e ==> c == attack) && (target < e ==> c == release)
    ensures target - FollowAll(e, seq(n, i => target), attack, release) == Power(1.0 - c, n) * (target - e)
  {
    GeometricError(e, target, n, attack, release, c, 1.0 - c, target - e);
  }

  lemma {:induction false} GeometricError(e: real, target: real, n: nat, attack: real, release: real,
                                          c: real, x: real, d: real)
    requires IsRate(attack) && IsRate(release)
    requires (target > e ==> c == attack) && (target < e ==> c == release)
    requires x == 1.0 - c && d == target - e
    ensures target - FollowAll(e, seq(n, i => target), attack, release) == Power(x, n) * d
    decreases n
  {
    if n > 0 {
      var e', d' := OneStep(e, target, n, attack, release, c, x, d);
      GeometricError(e', target, n - 1, attack, release, c, x, d');
      PowerStep(target - FollowAll(e', seq(n - 1, i => target), attack, release), x, n, d, d');
    }
  }

  lemma PowerStep(error: real, x: real, n: nat, d: real, d': real)
    requires n > 0 && d' == x * d && error == Power(x, n - 1) * d'
    ensures error == Power(x, n) * d
  {
    Regroup(error, Power(x, n), Power(x, n - 1), x, d, d');
  }

  lemma OneStep(e: real, target: real, n: nat, attack: real, release: real, c: real, x: real, d: real)
    returns (e': real, d': real)
    requires IsRate(attack) && IsRate(release) && n > 0
    requires (target > e ==> c == attack) && (target < e ==> c == release)
    requires x == 1.0 - c && d == target - e
    ensures (target > e' ==> c == attack) && (target < e' ==> c == release)
    ensures d' == target - e' && d' == x * d
    ensures FollowAll(e, seq(n, i => target), attack, release) == FollowAll(e', seq(n - 1, i => target), attack, release)
  {
    e' := RealFollow(e, target, attack, release);
    d' := target - e';
    RateStays(e, target, attack, release, c, e');
    ErrorAfterOne(e, target, attack, release, c, e');
    FollowConstant(e, target, n, attack, release);
  }

  lemma RateStays(e: real, target: real, attack: real, release: real, c: real, e': real)
    requires IsRate(attack) && IsRate(release) && e' == RealFollow(e, target, attack, release)
    requires (target > e ==> c == attack) && (target < e ==> c == release)
    ensures (target > e' ==> c == attack) && (target < e' ==> c == release)
  {
    NeverOvershoots(e, target, attack, release);
  }

  lemma FollowConstant(e: real, target: real, n: nat, attack: real, release: real)
    requires n > 0
    ensures FollowAll(e, seq(n, i => target), attack, release) ==
            FollowAll(RealFollow(e, target, attack, release), seq(n - 1, i => target), attack, release)
  {
    var all := seq(n, i => target);
    assert all[1..] == seq(n - 1, i => target) && all[0] == target;
  }

  lemma ErrorAfterOne(e: real, target: real, attack: real, release: real, c: real, e': real)
    requires (target > e ==> c == attack) && (target < e ==> c == release)
    requires e' == RealFollow(e, target, attack, release)
    ensures target - e' == (1.0 - c) * (target - e)
  {
  }

  lemma Regroup(error: real, p': real, p: real, x: real, d: real, d': real)
    requires error == p * d' && d' == x * d && p' == x * p
    ensures error == p' * d
  {
    assert p * (x * d) == x * p * d;
  }

  // ---------- What a band computes ----------

  /** The samples a band has been fed are real numbers. */
  predicate AllReal(samples: seq<Float>) {
    forall k :: 0 <= k < |samples| ==> samples[k].Fin?
  }

  /** The band after the first `n` samples. */
  function After(t: V.Tuning, samples: seq<Float>, n: nat): V.Band
    requires n <= |samples|
  {
    V.BandFold(t, V.FRESH, samples[..n])
  }

  /** Sample `k`, or zero before the start. */
  function X(samples: seq<Float>, k: int): real
    requires AllReal(samples) && k < |samples|
  {
    if k < 0 then 0.0 else samples[k].v
  }

  /** The output at sample `k`, or zero before the start. */
  function Y(t: V.Tuning, samples: seq<Float>, k: int): Float
    requires k < |samples|
  {
    if k < 0 then ZERO else After(t, samples, k + 1).filter.y1
  }

  lemma OneMore(t: V.Tuning, samples: seq<Float>, n: nat)
    requires n < |samples|
    ensures After(t, samples, n + 1) == V.BandStep(t, After(t, samples, n), samples[n])
  {
    assert samples[..n + 1] == samples[..n] + [samples[n]];
    V.FoldConcat(t, V.FRESH, samples[..n], [samples[n]]);
    assert [samples[n]][1..] == [];
    assert V.BandFold(t, After(t, samples, n), [samples[n]]) == V.BandStep(t, After(t, samples, n), samples[n]);
  }

  /** The band's memory is its last two inputs and outputs. */
  lemma {:induction false} MemoryIsRecent(t: V.Tuning, samples: seq<Float>, n: nat)
    requires Exact(t) && AllReal(samples) && n <= |samples|
    ensures var f := After(t, samples, n).filter;
            && f.x1 == Fin(X(samples, n - 1)) && f.x2 == Fin(X(samples, n - 2))
            && f.y1 == Y(t, samples, n - 1) && f.y2 == Y(t, samples, n - 2)
            && V.Sound(After(t, samples, n))
  {
    if n > 0 {
      MemoryIsRecent(t, samples, n - 1);
      OneMore(t, samples, n - 1);
      ExactStep(t, After(t, samples, n - 1), samples[n - 1].v);
    }
  }

  /** On exact arithmetic nothing overflows, so a band takes one step of the difference equation. */
  lemma ExactStep(t: V.Tuning, b: V.Band, x: real)
    requires Exact(t) && V.Sound(b)
    ensures var c, f, next := t.coefficients, b.filter, V.BandStep(t, b, Fin(x));
            var y := c.b0.v * x + c.b1.v * f.x1.v + c.b2.v * f.x2.v - c.a1.v * f.y1.v - c.a2.v * f.y2.v;
            && next.filter == V.Filter(Fin(x), f.x1, Fin(y), f.y1) && V.Sound(next)
            && next.bin == Fin(RealFollow(b.bin.v, if y < 0.0 then -y else y, t.attack.v, t.release.v))
  {
  }

  /** The same step with the band's memory spelled out. */
  lemma EquationStep(t: V.Tuning, b: V.Band, x: real, x1: real, x2: real, y1: real, y2: real)
    requires Exact(t) && V.Sound(b) && b.filter == V.Filter(Fin(x1), Fin(x2), Fin(y1), Fin(y2))
    ensures var c := t.coefficients;
            V.BandStep(t, b, Fin(x)).filter.y1 ==
            Fin(c.b0.v * x + c.b1.v * x1 + c.b2.v * x2 - c.a1.v * y1 - c.a2.v * y2)
  {
    ExactStep(t, b, x);
  }

  lemma NextOutput(t: V.Tuning, samples: seq<Float>, n: nat, x: real, x1: real, x2: real, y1: real, y2: real)
    requires Exact(t) && AllReal(samples) && n < |samples| && samples[n] == Fin(x)
    requires x1 == X(samples, n - 1) && x2 == X(samples, n - 2)
    requires Y(t, samples, n - 1) == Fin(y1) && Y(t, samples, n - 2) == Fin(y2)
    ensures var c := t.coefficients;
            Y(t, samples, n) == Fin(c.b0.v * x + c.b1.v * x1 + c.b2.v * x2 - c.a1.v * y1 - c.a2.v * y2)
  {
    MemoryIsRecent(t, samples, n);
    OneMore(t, samples, n);
    EquationStep(t, After(t, samples, n), x, x1, x2, y1, y2);
  }

  lemma OutputsAreReal(t: V.Tuning, samples: seq<Float>, n: nat)
    requires Exact(t) && AllReal(samples) && n <= |samples|
    ensures Y(t, samples, n - 1).Fin? && Y(t, samples, n - 2).Fin?
  {
    MemoryIsRecent(t, samples, n);
  }

  /** The filter is the difference equation of its five coefficients, from silence. */
  lemma FilterIsDifferenceEquation(t: V.Tuning, samples: seq<Float>, n: nat)
    requires Exact(t) && AllReal(samples) && n < |samples|
    ensures var c := t.coefficients;
            && Y(t, samples, n).Fin? && Y(t, samples, n - 1).Fin? && Y(t, samples, n - 2).Fin?
            && Y(t, samples, n).v ==
               c.b0.v * X(samples, n) + c.b1.v * X(samples, n - 1) + c.b2.v * X(samples, n - 2)
               - c.a1.v * Y(t, samples, n - 1).v - c.a2.v * Y(t, samples, n - 2).v
  {
    OutputsAreReal(t, samples, n);
    NextOutput(t, samples, n, X(samples, n), X(samples, n - 1), X(samples, n - 2),
               Y(t, samples, n - 1).v, Y(t, samples, n - 2).v);
  }

  /** The magnitudes of the first `n` outputs. */
  function Rectified(t: V.Tuning, samples: seq<Float>, n: nat): (targets: seq<real>)
    requires Exact(t) && AllReal(samples) && n <= |samples|
    ensures |targets| == n
  {
    seq(n, k requires 0 <= k < n =>
      (FilterIsDifferenceEquation(t, samples, k);
       if Y(t, samples, k).v < 0.0 then -Y(t, samples, k).v else Y(t, samples, k).v))
  }

  lemma {:induction false} FollowAppend(e: real, targets: seq<real>, last: real, attack: real, release: real)
    ensures FollowAll(e, targets + [last], attack, release) ==
            RealFollow(FollowAll(e, targets, attack, release), last, attack, release)
    decreases |targets|
  {
    if |targets| == 0 {
      assert (targets + [last])[1..] == [];
    } else {
      assert (targets + [last])[1..] == targets[1..] + [last];
      FollowAppend(RealFollow(e, targets[0], attack, release), targets[1..], last, attack, release);
    }
  }

  /** The bin is the envelope follower over the rectified outputs, from zero. */
  lemma {:induction false} BinFollowsRectifiedOutput(t: V.Tuning, samples: seq<Float>, n: nat)
    requires Exact(t) && AllReal(samples) && n <= |samples|
    ensures After(t, samples, n).bin == Fin(FollowAll(0.0, Rectified(t, samples, n), t.attack.v, t.release.v))
  {
    if n > 0 {
      BinFollowsRectifiedOutput(t, samples, n - 1);
      MemoryIsRecent(t, samples, n - 1);
      OneMore(t, samples, n - 1);
      ExactStep(t, After(t, samples, n - 1), samples[n - 1].v);
      var targets := Rectified(t, samples, n - 1);
      assert Rectified(t, samples, n) == targets + [Rectified(t, samples, n)[n - 1]];
      FollowAppend(0.0, targets, Rectified(t, samples, n)[n - 1], t.attack.v, t.release.v);
    }
  }
}
