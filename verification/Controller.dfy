// The pure difficulty controller (internal/pow/controller.go). Durations and instants are
// nanoseconds, rates are real numbers; the exponential 2^(-t/30s) is an unknown function of
// the duration with the laws of an exponential of half-life 30 s.

module Controller {
  import Token

  const SECOND := Token.SECOND
  const MIN_L := 1
  const MAX_L := 16
  const RAISE_ABOVE := 440.0
  const LOWER_BELOW := 140.0
  const SLEW := 30 * SECOND
  const HALF_LIFE := 30 * SECOND

  /** The new L and the time of the last change to carry on with. */
  function NextL(currentL: nat, rate: real, lastChange: int, now: int): (nat, int) {
    if now - lastChange < SLEW then (currentL, lastChange)
    else if rate > RAISE_ABOVE && currentL < MAX_L then (currentL + 1, now)
    else if rate < LOWER_BELOW && currentL > MIN_L then (currentL - 1, now)
    else (currentL, lastChange)
  }

  function MinInterval(l: nat): nat {
    if l <= 5 then 2 else if l <= 11 then 5 else 10
  }

  /** The interval never falls as L rises, and one step of L moves it by at most one rung of
      2, 5 and 10 seconds: from 5 to 6, and from 11 to 12. */
  lemma LadderClimbs(l: nat, m: nat)
    requires l <= m
    ensures MinInterval(MIN_L) == 2 <= MinInterval(l) <= MinInterval(m) <= 10 == MinInterval(MAX_L)
    ensures MinInterval(5) == 2 && MinInterval(6) == MinInterval(11) == 5 && MinInterval(12) == 10
    ensures m == l + 1 ==> (MinInterval(l), MinInterval(m)) in {(2, 2), (2, 5), (5, 5), (5, 10), (10, 10)}
  {
  }

  /** 2^(-t/30s): what is left of an estimate after t. */
  type Decay = int -> real

  ghost predicate Multiplies(decay: Decay, a: nat, b: nat) {
    decay(a + b) == decay(a) * decay(b)
  }

  ghost predicate Fraction(decay: Decay, t: nat) {
    0.0 < decay(t) <= 1.0
  }

  ghost predicate IsDecay(decay: Decay) {
    && decay(HALF_LIFE) == 0.5
    && (forall a: nat, b: nat :: Multiplies(decay, a, b))
    && (forall t: nat :: Fraction(decay, t))
  }

  function EWMA(decay: Decay, prev: real, sample: real, dt: int): real {
    if dt <= 0 then prev
    else
      var alpha := 1.0 - decay(dt);
      prev + alpha * (sample - prev)
  }

  /** A sample cannot pull the estimate past itself. */
  lemma EWMABetween(decay: Decay, prev: real, sample: real, dt: int)
    requires IsDecay(decay)
    ensures prev <= sample ==> prev <= EWMA(decay, prev, sample, dt) <= sample || dt <= 0
    ensures sample <= prev ==> sample <= EWMA(decay, prev, sample, dt) <= prev || dt <= 0
  {
    if dt > 0 {
      assert Fraction(decay, dt);
      var alpha, gap := 1.0 - decay(dt), sample - prev;
      if gap >= 0.0 {
        assert 0.0 <= alpha * gap <= gap;
      } else {
        assert gap <= alpha * gap <= 0.0;
      }
    }
  }

  /** Nonnegative samples let the estimate fall by the decay factor at most. */
  lemma EWMAFallsByDecay(decay: Decay, prev: real, sample: real, dt: int)
    requires IsDecay(decay) && dt > 0 && sample >= 0.0
    ensures EWMA(decay, prev, sample, dt) >= prev * decay(dt)
  {
    assert Fraction(decay, dt);
    var rest := decay(dt);
    assert EWMA(decay, prev, sample, dt) == prev * rest + (1.0 - rest) * sample;
    assert (1.0 - rest) * sample >= 0.0;
  }

  lemma DecayShrinks(decay: Decay, a: nat, b: nat)
    requires IsDecay(decay) && a <= b
    ensures decay(b) <= decay(a)
  {
    assert Multiplies(decay, a, b - a);
    assert Fraction(decay, a) && Fraction(decay, b - a);
    Scale(decay(b - a), 1.0, decay(a));
  }

  lemma Scale(x: real, y: real, z: real)
    requires x <= y && 0.0 <= z
    ensures z * x <= z * y
  {
  }

  lemma SquareOf(decay: Decay, t: nat)
    requires IsDecay(decay)
    ensures decay(2 * t) == decay(t) * decay(t) && decay(t) > 0.0
  {
    assert Multiplies(decay, t, t);
    assert Fraction(decay, t);
  }

  lemma SquareMonotone(x: real, y: real)
    requires 0.0 <= x <= y
    ensures x * x <= y * y
  {
  }

  /** decay(4s) > 0.9001, because its fifteenth power is 1/4. */
  lemma FourSeconds(decay: Decay)
    requires IsDecay(decay)
    ensures decay(4 * SECOND) > 0.9001
  {
    SquareOf(decay, 4 * SECOND);
    SquareOf(decay, 8 * SECOND);
    SquareOf(decay, 16 * SECOND);
    SquareOf(decay, HALF_LIFE);
    var a, b, c, d := decay(4 * SECOND), decay(8 * SECOND), decay(16 * SECOND), decay(32 * SECOND);
    assert Multiplies(decay, 4 * SECOND, 8 * SECOND);
    assert Multiplies(decay, 12 * SECOND, 16 * SECOND);
    assert Multiplies(decay, 28 * SECOND, 32 * SECOND);
    assert a * b * c * d == 0.25;
    if a <= 0.9001 {
      SquareMonotone(a, 0.9001);
      SquareMonotone(b, 0.8102);
      SquareMonotone(c, 0.6565);
      FifteenthPower(a, b, c, d);
    }
  }

  lemma FifteenthPower(a: real, b: real, c: real, d: real)
    requires 0.0 < a <= 0.9001 && 0.0 < b <= 0.8102 && 0.0 < c <= 0.6565 && 0.0 < d <= 0.4310
    ensures a * b * c * d < 0.25
  {
    Scale(b, 0.8102, a);
    assert a * b <= a * 0.8102 <= 0.7293;
    Scale(c, 0.6565, a * b);
    assert a * b * c <= (a * b) * 0.6565 <= 0.4788;
    var abc := a * b * c;
    Scale(d, 0.4310, abc);
    assert abc * d <= abc * 0.4310 <= 0.2064;
  }

  /** In 49 s an estimate cannot fall from 440 to 140: decay(49s) > 140/440. */
  lemma FortyNineSeconds(decay: Decay)
    requires IsDecay(decay)
    ensures 440.0 * decay(49 * SECOND) > 140.0
  {
    FourSeconds(decay);
    SquareOf(decay, 15 * SECOND);
    var x, y := decay(15 * SECOND), decay(4 * SECOND);
    if x <= 0.707 { SquareMonotone(x, 0.707); }
    assert x > 0.707;
    assert Multiplies(decay, HALF_LIFE, 15 * SECOND);
    assert Multiplies(decay, 45 * SECOND, 4 * SECOND);
    assert x * y >= 0.707 * y >= 0.707 * 0.9001;
  }
}
