// The control loop under a given load. Its estimate starts from the count of accepted submissions
// that the process reads when it starts (internal/counterworker/counterworker.go: tick), and a
// failed read counts as 0.

module CalmLoad {
  import opened Controller
  import opened TickLoop

  /** stats:accepted_total as a function of time. */
  type Accepted = int -> nat

  /** A GET of stats fails or gives the count; a missing key stands for 0. */
  predicate Reads(count: Accepted, e: Event) {
    e.stats.Error? || OrZero(e.stats) == count(e.now)
  }

  /** Since the last sample, at most `rate` submissions were accepted per second. */
  predicate AtMost(count: Accepted, rate: nat, s: State, e: Event) {
    Controls(e) && s.prevSample < e.now ==>
      (count(e.now) - count(s.prevSample)) * SECOND <= rate * (e.now - s.prevSample)
  }

  /** That holds of every sample the loop takes. */
  ghost predicate Loaded(decay: Decay, count: Accepted, rate: nat, s: State, events: seq<Event>)
    decreases |events|
  {
    events == [] ||
    (Reads(count, events[0]) && AtMost(count, rate, s, events[0])
     && Loaded(decay, count, rate, After(decay, s, events[0]), events[1..]))
  }

  /** The process starts, over whatever keys there are, and any events follow in the order of time,
      further starts among them; the GET of stats at a start fails only if `startMayFail`. */
  ghost predicate IsLoadRun(decay: Decay, count: Accepted, rate: nat, s: State, events: seq<Event>,
                            startMayFail: bool)
  {
    && InTime(decay, s, events) && Loaded(decay, count, rate, s, events)
    && (events != [] ==> events[0].Restart?)
    && forall i | 0 <= i < |events| && events[i].Restart? && events[i].stats.Error? :: startMayFail
  }

  /** No pass of the run raises L. */
  ghost predicate NeverRaises(decay: Decay, s: State, events: seq<Event>)
    decreases |events|
  {
    events == [] ||
    var s' := After(decay, s, events[0]);
    (events[0].Tick? ==> s'.l <= s.l) && NeverRaises(decay, s', events[1..])
  }

  // ----- no raise up to 440 -----

  /** The estimate is within the threshold, and the next sample starts from a true count. */
  ghost predicate Level(count: Accepted, s: State) {
    s.ewma <= RAISE_ABOVE && s.prevStats == count(s.prevSample)
  }

  lemma SampleIsLow(n: int, dt: int)
    requires dt > 0 && n * SECOND <= 440 * dt
    ensures n as real / (dt as real / SECOND as real) <= RAISE_ABOVE
  {
    var secs := dt as real / SECOND as real;
    assert secs > 0.0 && n as real <= 440.0 * secs;
    Quotient(n as real, secs, RAISE_ABOVE);
  }

  lemma Quotient(x: real, y: real, bound: real)
    requires y > 0.0 && x <= bound * y
    ensures x / y <= bound
  {
  }

  lemma AtMostMore(count: Accepted, rate: nat, s: State, e: Event)
    requires AtMost(count, rate, s, e) && rate <= 440
    ensures AtMost(count, 440, s, e)
  {
    if s.prevSample < e.now { Multiples(rate, 440, e.now - s.prevSample); }
  }

  lemma PassStaysLevel(decay: Decay, count: Accepted, s: State, e: Event)
    requires IsDecay(decay) && Reads(count, e) && AtMost(count, 440, s, e)
    requires if e.Tick? then Level(count, s) else !e.stats.Error?
    ensures Level(count, After(decay, s, e))
    ensures e.Tick? ==> After(decay, s, e).l <= s.l
  {
    if Controls(e) && s.prevSample < e.now {
      var n, dt := OrZero(e.stats) - s.prevStats, e.now - s.prevSample;
      SampleIsLow(n, dt);
      EWMABetween(decay, s.ewma, n as real / (dt as real / SECOND as real), dt);
    }
  }

  lemma {:induction false} StaysLevel(decay: Decay, count: Accepted, rate: nat, s: State, events: seq<Event>)
    requires IsDecay(decay) && rate <= 440 && Loaded(decay, count, rate, s, events)
    requires events == [] || events[0].Restart? || Level(count, s)
    requires forall i | 0 <= i < |events| && events[i].Restart? :: !events[i].stats.Error?
    ensures NeverRaises(decay, s, events)
    decreases |events|
  {
    if events != [] {
      AtMostMore(count, rate, s, events[0]);
      PassStaysLevel(decay, count, s, events[0]);
      StaysLevel(decay, count, rate, After(decay, s, events[0]), events[1..]);
    }
  }

  // ----- a steady load, sampled every second -----

  /** `rate` submissions at every full second from 0 on. */
  function Steadily(rate: nat): Accepted {
    t => if t < 0 then 0 else rate * (t / SECOND)
  }

  function PassAt(rate: nat, k: nat): Event {
    Tick(k * SECOND, Value(0), Value(rate * k), ANSWERED)
  }

  /** The passes of the seconds after k, up to n. */
  function Passes(rate: nat, k: nat, n: nat): seq<Event>
    requires k <= n
    decreases n - k
  {
    if k == n then [] else [PassAt(rate, k + 1)] + Passes(rate, k + 1, n)
  }

  const AT_ZERO := Restart(0, true, Value(0), ANSWERED)

  /** The state after k of these passes: what is left to decay of the load is decay(k seconds). */
  predicate Sampled(decay: Decay, rate: nat, s: State, k: nat) {
    && s.clock == s.prevSample == k * SECOND && s.prevStats == rate * k
    && s.ewma == rate as real * (1.0 - decay(k * SECOND))
  }

  lemma OneMore(decay: Decay, r: real, ewma: real, k: nat)
    requires IsDecay(decay) && ewma == r * (1.0 - decay(k * SECOND))
    ensures EWMA(decay, ewma, r, SECOND) == r * (1.0 - decay((k + 1) * SECOND))
  {
    assert Multiplies(decay, k * SECOND, SECOND);
    assert k * SECOND + SECOND == (k + 1) * SECOND;
    var a, b := decay(k * SECOND), decay(SECOND);
    calc {
      EWMA(decay, ewma, r, SECOND);
      ewma + (1.0 - b) * (r - ewma);
      { assert r - ewma == r * a; }
      r - r * a + (1.0 - b) * (r * a);
      r - b * (r * a);
      { assert b * (r * a) == r * (a * b); }
      r - r * (a * b);
      r * (1.0 - a * b);
    }
  }

  lemma SteadyPass(decay: Decay, rate: nat, s: State, k: nat)
    requires IsDecay(decay) && Sampled(decay, rate, s, k)
    ensures var e := PassAt(rate, k + 1);
            && s.clock <= e.now && Reads(Steadily(rate), e) && AtMost(Steadily(rate), rate, s, e)
            && Sampled(decay, rate, After(decay, s, e), k + 1)
  {
    assert rate * (k + 1) == rate * k + rate;
    assert k * SECOND / SECOND == k && (k + 1) * SECOND / SECOND == k + 1;
    assert rate as real / (SECOND as real / SECOND as real) == rate as real;
    OneMore(decay, rate as real, s.ewma, k);
  }

  lemma {:induction false} SteadyPasses(decay: Decay, rate: nat, s: State, k: nat, n: nat)
    requires IsDecay(decay) && Sampled(decay, rate, s, k) && k <= n
    ensures var events := Passes(rate, k, n);
            && InTime(decay, s, events) && Loaded(decay, Steadily(rate), rate, s, events)
            && (forall i | 0 <= i < |events| :: events[i].Tick?) && Sampled(decay, rate, Run(decay, s, events), n)
    decreases n - k
  {
    if k < n {
      SteadyPass(decay, rate, s, k);
      SteadyPasses(decay, rate, After(decay, s, PassAt(rate, k + 1)), k + 1, n);
      assert Passes(rate, k, n)[1..] == Passes(rate, k + 1, n);
    }
  }

  lemma StartsSampled(decay: Decay, rate: nat, s: State)
    requires IsDecay(decay)
    ensures Sampled(decay, rate, After(decay, s, AT_ZERO), 0)
  {
    DecayAtZero(decay);
  }

  lemma DecayAtZero(decay: Decay)
    requires IsDecay(decay)
    ensures decay(0) == 1.0
  {
    assert Multiplies(decay, 0, 0) && Fraction(decay, 0);
    var d := decay(0);
    assert d * d == d;
    assert d * (d - 1.0) == 0.0;
  }

  /** A load of `rate` per second, read once a second, is a run of the class; after n seconds the
      estimate is the load less what is left to decay. */
  lemma SteadyLoad(decay: Decay, rate: nat, n: nat) returns (events: seq<Event>)
    requires IsDecay(decay)
    ensures events == [AT_ZERO] + Passes(rate, 0, n)
    ensures IsLoadRun(decay, Steadily(rate), rate, Fresh(), events, false)
    ensures Steadily(rate)(n * SECOND) == rate * n
    ensures Run(decay, Fresh(), events).ewma == rate as real * (1.0 - decay(n * SECOND))
  {
    events := [AT_ZERO] + Passes(rate, 0, n);
    assert events[1..] == Passes(rate, 0, n);
    assert n * SECOND / SECOND == n;
    StartsSampled(decay, rate, Fresh());
    SteadyPasses(decay, rate, After(decay, Fresh(), AT_ZERO), 0, n);
  }

  // ----- from 441 on -----

  /** After nine half-lives 1/512 is left. */
  lemma NineHalfLives(decay: Decay)
    requires IsDecay(decay)
    ensures decay(270 * SECOND) == 1.0 / 512.0
  {
    assert Multiplies(decay, HALF_LIFE, HALF_LIFE);
    assert Multiplies(decay, 60 * SECOND, HALF_LIFE);
    assert Multiplies(decay, 90 * SECOND, 90 * SECOND);
    assert Multiplies(decay, 180 * SECOND, 90 * SECOND);
  }

  /** Within 270 s a load above 440 raises L from 1. */
  lemma {:induction false} SteadyRaises(decay: Decay, rate: nat, s: State, k: nat)
    requires IsDecay(decay) && rate > 440 && Sampled(decay, rate, s, k) && k < 270
    requires s.l == MIN_L && s.lastChange == 0
    ensures !NeverRaises(decay, s, Passes(rate, k, 270))
    decreases 270 - k
  {
    var e := PassAt(rate, k + 1);
    var s' := After(decay, s, e);
    assert Passes(rate, k, 270)[1..] == Passes(rate, k + 1, 270);
    SteadyPass(decay, rate, s, k);
    if k + 1 == 270 {
      NineHalfLives(decay);
      assert s'.ewma == rate as real * (1.0 - 1.0 / 512.0) > RAISE_ABOVE;
    } else if s'.l == MIN_L {
      SteadyRaises(decay, rate, s', k + 1);
    }
  }

  lemma HeavyLoadRaises(decay: Decay, rate: nat) returns (events: seq<Event>)
    requires IsDecay(decay) && rate > 440
    ensures IsLoadRun(decay, Steadily(rate), rate, Fresh(), events, false)
    ensures !NeverRaises(decay, Fresh(), events)
  {
    events := SteadyLoad(decay, rate, 270);
    assert events[1..] == Passes(rate, 0, 270);
    StartsSampled(decay, rate, Fresh());
    SteadyRaises(decay, rate, After(decay, Fresh(), AT_ZERO), 0);
  }

  // ----- a start that cannot read the count -----

  /** A pass that finds the count n, or whose reads fail. */
  predicate Finds(n: nat, e: Event) {
    e.Tick? && (e.stats.Error? || OrZero(e.stats) == n)
  }

  /** The estimate after a first sample that takes n for what was accepted within dt. */
  function Peak(decay: Decay, n: nat, dt: int): real
    requires dt > 0
  {
    (1.0 - decay(dt)) * (n as real / (dt as real / SECOND as real))
  }

  /** A pass a slew interval or more after the start, while what is left of the peak exceeds 440. */
  predicate TooHigh(decay: Decay, peak: real, start: int, first: int, e: Event) {
    Controls(e) && start + SLEW <= e.now && peak * decay(e.now - first) > RAISE_ABOVE
  }

  /** Since the start at `start`, L has not changed and could be raised, or the estimate has come
      down too far for that. */
  predicate Waiting(s: State, start: int) {
    || (s.l < MAX_L && s.lastChange == start && (start + SLEW <= s.prevSample ==> s.ewma <= RAISE_ABOVE))
    || s.ewma < LOWER_BELOW
  }

  predicate Decays(decay: Decay, n: nat, s: State, peak: real, first: int) {
    first <= s.prevSample && s.prevStats == n && peak >= 0.0 && s.ewma == peak * decay(s.prevSample - first)
  }

  lemma IdleSample(decay: Decay, ewma: real, peak: real, t: nat, dt: nat)
    requires IsDecay(decay) && dt > 0 && peak >= 0.0 && ewma == peak * decay(t)
    ensures 0 as real / (dt as real / SECOND as real) == 0.0
    ensures EWMA(decay, ewma, 0.0, dt) == peak * decay(t + dt) <= ewma
  {
    var a, b := decay(t), decay(dt);
    assert Multiplies(decay, t, dt) && Fraction(decay, t) && Fraction(decay, dt);
    assert EWMA(decay, ewma, 0.0, dt) == ewma * b;
    assert ewma * b == peak * (a * b);
    assert peak * a >= 0.0;
    Scale(b, 1.0, ewma);
  }

  /** Without load, a pass leaves what the time leaves of the peak. */
  lemma IdlePass(decay: Decay, n: nat, s: State, e: Event, peak: real, start: int, first: int)
    requires IsDecay(decay) && Sound(s) && s.clock <= e.now && Finds(n, e)
    requires Decays(decay, n, s, peak, first) && Waiting(s, start)
    ensures var s' := After(decay, s, e);
            && Sound(s') && s'.clock == e.now && Decays(decay, n, s', peak, first)
            && (s'.l > s.l <==> TooHigh(decay, peak, start, first, e))
            && (s'.l <= s.l ==> Waiting(s', start))
  {
    AfterIsSound(decay, s, e, 0);
    if Controls(e) && s.prevSample < e.now {
      IdleSample(decay, s.ewma, peak, s.prevSample - first, e.now - s.prevSample);
    }
  }

  lemma {:induction false} IdlePasses(decay: Decay, n: nat, s: State, events: seq<Event>, peak: real, start: int,
                                      first: int)
    requires IsDecay(decay) && Sound(s) && InTime(decay, s, events)
    requires forall i | 0 <= i < |events| :: Finds(n, events[i])
    requires Decays(decay, n, s, peak, first) && Waiting(s, start)
    ensures NeverRaises(decay, s, events)
       <==> forall i | 0 <= i < |events| :: !TooHigh(decay, peak, start, first, events[i])
    decreases |events|
  {
    hide After, TooHigh, Waiting, Decays, Sound;
    if events != [] {
      var s' := After(decay, s, events[0]);
      IdlePass(decay, n, s, events[0], peak, start, first);
      if s'.l <= s.l {
        IdlePasses(decay, n, s', events[1..], peak, start, first);
        assert forall i | 0 < i < |events| :: events[i] == events[1..][i - 1];
      }
    }
  }

  /** A process that starts below L = 16 and cannot read the count n takes n for what was accepted
      before its first sample. Without any load after that, a pass raises L if and only if one that
      controls comes 30 s or more after the start while more than 440 is left of that. */
  lemma BlindStartIff(decay: Decay, n: nat, s: State, start: Event, first: Event, later: seq<Event>)
    requires IsDecay(decay) && InTime(decay, s, [start] + ([first] + later))
    requires start.Restart? && start.stats.Error? && After(decay, s, start).l < MAX_L
    requires Controls(first) && start.now < first.now
    requires forall i | 0 <= i < |[first] + later| :: Finds(n, ([first] + later)[i])
    ensures var passes := [first] + later;
            var peak := Peak(decay, n, first.now - start.now);
            && (NeverRaises(decay, s, [start] + passes)
                <==> forall i | 0 <= i < |passes| :: !TooHigh(decay, peak, start.now, first.now, passes[i]))
  {
    var passes := [first] + later;
    assert ([start] + passes)[1..] == passes && passes[1..] == later && passes[0] == first;
    var dt := first.now - start.now;
    var s1 := After(decay, s, start);
    var s2 := After(decay, s1, first);
    var peak := Peak(decay, n, dt);
    FirstSample(decay, n, s1, first, dt);
    if s2.l <= s1.l {
      IdlePasses(decay, n, s2, later, peak, start.now, first.now);
      assert forall i | 0 < i < |passes| :: passes[i] == later[i - 1];
    }
  }

  lemma FirstSample(decay: Decay, n: nat, s: State, first: Event, dt: int)
    requires IsDecay(decay) && Controls(first) && Finds(n, first) && dt == first.now - s.clock > 0
    requires s.clock == s.prevSample == s.lastChange && s.prevStats == 0 && s.ewma == 0.0
    requires MIN_L <= s.l < MAX_L
    ensures var s' := After(decay, s, first);
            var peak := Peak(decay, n, dt);
            && Sound(s') && Decays(decay, n, s', peak, first.now)
            && (s'.l > s.l <==> TooHigh(decay, peak, s.clock, first.now, first))
            && (s'.l <= s.l ==> Waiting(s', s.clock))
  {
    DecayAtZero(decay);
    assert Fraction(decay, dt);
    var rate := n as real / (dt as real / SECOND as real);
    assert rate >= 0.0 && (1.0 - decay(dt)) * rate >= 0.0;
    assert EWMA(decay, 0.0, rate, dt) == Peak(decay, n, dt);
  }

  /** In particular with a first pass 30 s after the start: it raises L exactly from 26,401 on. */
  lemma BlindStartRaises(decay: Decay, n: nat, rate: nat) returns (s: State, events: seq<Event>)
    requires IsDecay(decay)
    ensures IsLoadRun(decay, _ => n, rate, s, events, true)
    ensures NeverRaises(decay, s, events) <==> n <= 26_400
  {
    s := Fresh();
    var start := Restart(0, true, Error, ANSWERED);
    var first := Tick(30 * SECOND, Value(0), Value(n), ANSWERED);
    events := [start, first];
    assert events == [start] + ([first] + []) && events[1..] == [first] && [first][1..] == [];
    var s1 := After(decay, s, start);
    assert InTime(decay, s1, [first]);
    BlindStartIff(decay, n, s, start, first, []);
    RateOf(n);
    DecayAtZero(decay);
    var peak := Peak(decay, n, 30 * SECOND);
    assert peak == n as real / 60.0;
    assert TooHigh(decay, peak, 0, 30 * SECOND, first) <==> n > 26_400;
    assert ([first] + [])[0] == first;
    assert AtMost(_ => n, rate, s1, first) by { assert rate * (30 * SECOND) >= 0; }
    assert Loaded(decay, _ => n, rate, s1, [first]);
  }

  // ----- exactly when -----

  /** No pass of any run of a class raises L if and only if the load is at most 440 per second and the
      GET of stats does not fail when a process starts. */
  lemma CalmIff(decay: Decay, rate: nat, startMayFail: bool)
    requires IsDecay(decay)
    ensures (forall count, s, events | IsLoadRun(decay, count, rate, s, events, startMayFail) ::
               NeverRaises(decay, s, events))
       <==> rate <= 440 && !startMayFail
  {
    if startMayFail {
      var s, events := BlindStartRaises(decay, 26_401, rate);
      assert IsLoadRun(decay, _ => 26_401, rate, s, events, startMayFail) && !NeverRaises(decay, s, events);
    } else if rate > 440 {
      var events := HeavyLoadRaises(decay, rate);
    } else {
      forall count, s, events | IsLoadRun(decay, count, rate, s, events, startMayFail)
        ensures NeverRaises(decay, s, events)
      {
        StaysLevel(decay, count, rate, s, events);
      }
    }
  }
}
