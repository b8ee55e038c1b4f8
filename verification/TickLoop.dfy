// The control loop of the counter worker (internal/counterworker/counterworker.go: tick,
// writeDifficulty, currentL): what one pass of the loop does to its variables and to the
// difficulty keys, and what follows for whole runs.

module TickLoop {
  import opened Controller
  import opened Idem
  import Milestones

  /** The answer to a GET: an error, no such key, or a number. */
  datatype Reading = Error | Missing | Value(n: nat)

  /** The two SETs of writeDifficulty; a failed one is only logged, and may have been stored. */
  datatype Sets = Sets(l: Reply, interval: Reply)

  /** A pass of the loop, with what it reads and how its SETs end, if it makes them; or a restart
      of the process, whose GET of pow:L may fail. */
  datatype Event =
    | Tick(now: int, total: Reading, stats: Reading, sets: Sets)
    | Restart(now: int, gotL: bool, stats: Reading, sets: Sets)

  /** The loop's variables, pow:L and pow:min_interval; `clock` is the time of the last event. A
      key that is missing or no number in 1..16 counts as 0. */
  datatype State = State(
    l: nat, ewma: real, lastChange: int, prevStats: int, prevSample: int, lastPublished: int,
    powL: nat, powInterval: nat, clock: int)

  function OrZero(r: Reading): nat {
    if r.Value? then r.n else 0
  }

  function CurrentL(powL: nat): nat {
    if MIN_L <= powL <= MAX_L then powL else MIN_L
  }

  /** writeDifficulty. */
  function Written(s: State, sets: Sets): State {
    s.(powL := if Stores(sets.l) then s.l else s.powL,
       powInterval := if Stores(sets.interval) then MinInterval(s.l) else s.powInterval)
  }

  /** The start of the loop: a GET of pow:L that fails counts as no key. */
  function Begin(powL: nat, powInterval: nat, now: int, gotL: bool, stats: Reading, sets: Sets): State {
    var l := if gotL then CurrentL(powL) else MIN_L;
    Written(State(l, 0.0, now, OrZero(stats), now, -1, powL, powInterval, now), sets)
  }

  /** The controller part of a pass. */
  function Control(decay: Decay, s: State, now: int, stats: nat, sets: Sets): State {
    var dt := now - s.prevSample;
    if dt <= 0 then s
    else
      var rate := (stats - s.prevStats) as real / (dt as real / SECOND as real);
      var ewma := EWMA(decay, s.ewma, rate, dt);
      var (next, ts) := NextL(s.l, ewma, s.lastChange, now);
      var s' := s.(ewma := ewma, prevStats := stats, prevSample := now);
      if next == s.l then s' else Written(s'.(l := next, lastChange := ts), sets)
  }

  /** A pass is skipped when the total cannot be read, and its control when stats cannot. */
  predicate Controls(e: Event) {
    e.Tick? && !e.total.Error? && !e.stats.Error?
  }

  function After(decay: Decay, s: State, e: Event): State {
    match e
    case Tick(now, total, stats, sets) =>
      var s' := if Controls(e) then Control(decay, s, now, OrZero(stats), sets) else s;
      s'.(lastPublished := if total.Error? then s.lastPublished else OrZero(total), clock := now)
    case Restart(now, gotL, stats, sets) => Begin(s.powL, s.powInterval, now, gotL, stats, sets)
  }

  class Worker {
    const decay: Decay
    var l: nat
    var ewma: real
    var lastChange: int
    var prevStats: int
    var prevSample: int
    var lastPublished: int
    const milestones: Milestones.Claims
    var powL: nat
    var powInterval: nat
    ghost var clock: int

    ghost function Now(): State
      reads this
    {
      State(l, ewma, lastChange, prevStats, prevSample, lastPublished, powL, powInterval, clock)
    }

    /** The process starts: the keys may hold anything, and any command may fail. */
    constructor (decay: Decay, powL: nat, powInterval: nat, now: int, gotL: bool, stats: Reading, sets: Sets,
                 milestones: Milestones.Claims)
      ensures this.decay == decay && this.milestones == milestones
      ensures Now() == Begin(powL, powInterval, now, gotL, stats, sets)
    {
      this.decay, this.milestones := decay, milestones;
      var l := if gotL && MIN_L <= powL <= MAX_L then powL else MIN_L;
      this.l := l;
      this.powL, this.powInterval := powL, powInterval;
      lastChange, ewma, prevStats, prevSample, lastPublished, clock := now, 0.0, OrZero(stats), now, -1, now;
      new;
      WriteDifficulty(sets);
    }

    method WriteDifficulty(sets: Sets)
      modifies this`powL, this`powInterval
      ensures Now() == Written(old(Now()), sets)
    {
      if sets.l.Answered? || sets.l.stored { powL := l; }
      if sets.interval.Answered? || sets.interval.stored { powInterval := MinInterval(l); }
    }

    /** Milestones are claimed only when the total has moved since the last pass that read it;
        errAt and stored say which SETNX fails, if one does. A pass without such an error claims
        all that was reached; after one, only what comes before it. Announced are those won. */
    method Publish(total: nat, errAt: nat, stored: bool)
      modifies this`lastPublished, milestones
      ensures lastPublished == total
      ensures total == old(lastPublished) ==>
                milestones.claimed == old(milestones.claimed) && milestones.announced == old(milestones.announced)
      ensures total != old(lastPublished) ==>
                var count := Milestones.Count(total, 0);
                var hit := errAt < count;
                && milestones.claimed == old(milestones.claimed)
                     + (if hit then Milestones.First(errAt) else Milestones.Reached(total))
                     + (if hit && stored then {Milestones.MILESTONES[errAt]} else {})
                && milestones.announced == old(milestones.announced)
                     + Milestones.Unclaimed(old(milestones.claimed), if hit then errAt else count)
    {
      if total != lastPublished {
        milestones.ClaimMilestones(total, errAt, stored);
        Milestones.FirstIsReached(total);
        lastPublished := total;
      }
    }

    /** The controller: a rate sample, the estimate, and perhaps a new L. */
    method Adjust(now: int, stats: nat, sets: Sets)
      modifies this`l, this`ewma, this`lastChange, this`prevStats, this`prevSample, this`powL, this`powInterval
      ensures Now() == Control(decay, old(Now()), now, stats, sets)
    {
      var dt := now - prevSample;
      if dt > 0 {
        ewma := EWMA(decay, ewma, (stats - prevStats) as real / (dt as real / SECOND as real), dt);
        prevStats, prevSample := stats, now;
        var (next, ts) := NextL(l, ewma, lastChange, now);
        if next != l {
          l, lastChange := next, ts;
          WriteDifficulty(sets);
        }
      }
    }

    /** One pass of the loop. */
    method Pass(now: int, total: Reading, stats: Reading, sets: Sets, errAt: nat, stored: bool)
      modifies this, milestones
      ensures Now() == After(decay, old(Now()), Tick(now, total, stats, sets))
      ensures total.Error? || OrZero(total) == old(lastPublished) ==>
                milestones.claimed == old(milestones.claimed) && milestones.announced == old(milestones.announced)
      ensures !total.Error? && OrZero(total) != old(lastPublished) ==>
                var count := Milestones.Count(OrZero(total), 0);
                var hit := errAt < count;
                && milestones.claimed == old(milestones.claimed)
                     + (if hit then Milestones.First(errAt) else Milestones.Reached(OrZero(total)))
                     + (if hit && stored then {Milestones.MILESTONES[errAt]} else {})
                && milestones.announced == old(milestones.announced)
                     + Milestones.Unclaimed(old(milestones.claimed), if hit then errAt else count)
    {
      hide Milestones.Count, Milestones.First, Milestones.Reached, Milestones.Unclaimed;
      clock := now;
      if total.Error? { return; }
      Publish(OrZero(total), errAt, stored);
      if !stats.Error? { Adjust(now, OrZero(stats), sets); }
    }
  }

  // ----- runs -----

  ghost function Run(decay: Decay, s: State, events: seq<Event>): State
    decreases |events|
  {
    if events == [] then s else Run(decay, After(decay, s, events[0]), events[1..])
  }

  /** Events in the order of time. */
  ghost predicate InTime(decay: Decay, s: State, events: seq<Event>)
    decreases |events|
  {
    events == [] || (s.clock <= events[0].now && InTime(decay, After(decay, s, events[0]), events[1..]))
  }

  ghost predicate Sound(s: State) {
    MIN_L <= s.l <= MAX_L && s.lastChange <= s.clock && s.prevSample <= s.clock
  }

  /** What a restart would go on with is at most this far from L. */
  ghost predicate KeyWithin(s: State, off: int) {
    -off <= CurrentL(s.powL) - s.l <= off
  }

  /** How many SETs of pow:L in a row have been lost since the key last agreed with the loop. */
  function Lost(decay: Decay, s: State, e: Event, lost: nat): nat {
    match e
    case Tick(_, _, _, sets) =>
      if After(decay, s, e).l == s.l then lost else if Stores(sets.l) then 0 else lost + 1
    case Restart(_, gotL, _, sets) => if gotL || Stores(sets.l) then 0 else lost + 1
  }

  /** A pass keeps L or moves it by one, a slew interval after the last change; a restart takes L
      from the key. The key is off by no more than the lost SETs say. */
  lemma AfterIsSound(decay: Decay, s: State, e: Event, lost: nat)
    requires Sound(s) && s.clock <= e.now
    ensures var s' := After(decay, s, e);
            && Sound(s') && s'.clock == e.now && s.lastChange <= s'.lastChange
            && (e.Tick? ==>
                  || s'.l == s.l
                  || ((s'.l == s.l + 1 || s'.l + 1 == s.l) && s.lastChange + SLEW <= e.now == s'.lastChange))
            && (e.Restart? ==> s'.l == (if e.gotL then CurrentL(s.powL) else MIN_L) && s'.lastChange == e.now)
            && (KeyWithin(s, lost) && (e.Tick? || e.gotL) ==> KeyWithin(s', Lost(decay, s, e, lost)))
  {
  }

  /** A start takes over the L of a key that it can read and that is in range, and else begins at 1,
      whatever the key holds; its estimate is 0, and whatever total it reads first is news. */
  lemma StartsAt(powL: nat, powInterval: nat, now: int, gotL: bool, stats: Reading, sets: Sets)
    ensures var s := Begin(powL, powInterval, now, gotL, stats, sets);
            && (if gotL && 1 <= powL <= 16 then s.l == powL else s.l == 1)
            && s.ewma == 0.0 && s.lastChange == s.prevSample == s.clock == now && s.lastPublished < 0
  {
  }

  /** Exactly when a pass moves L: it can read the total and stats, comes later than the last sample and
      30 s or more after the last change, and the estimate it arrives at is above 440 or below 140. */
  lemma MovesIff(decay: Decay, s: State, e: Event)
    requires Sound(s) && e.Tick?
    ensures var s' := After(decay, s, e);
            var samples := !e.total.Error? && !e.stats.Error? && s.prevSample < e.now;
            var free := samples && s.lastChange + 30 * SECOND <= e.now;
            && (s'.l == s.l + 1 <==> free && s'.ewma > 440.0 && s.l < 16)
            && (s'.l + 1 == s.l <==> free && s'.ewma < 140.0 && s.l > 1)
            && (s'.ewma != s.ewma || s'.prevSample != s.prevSample || s'.prevStats != s.prevStats ==> samples)
            && (samples ==> s'.prevSample == e.now && s'.prevStats == OrZero(e.stats))
            && s'.lastPublished == if e.total.Error? then s.lastPublished else OrZero(e.total)
  {
  }

  /** The faults that a class of runs allows: whether the GET of a restart may fail, and how many
      SETs of pow:L in a row may have been lost when the process restarts. */
  datatype Faults = Faults(getMayFail: bool, lost: nat)

  ghost predicate Allowed(decay: Decay, s: State, events: seq<Event>, f: Faults, lost: nat)
    decreases |events|
  {
    events == [] ||
    var e := events[0];
    && (e.Restart? ==> (e.gotL || f.getMayFail) && lost <= f.lost)
    && Allowed(decay, After(decay, s, e), events[1..], f, Lost(decay, s, e, lost))
  }

  // ----- the slew limit -----

  /** L moved by at most one, plus one for every full 30 s. */
  predicate WithinSlew(s: State, f: State) {
    -((f.clock - s.clock) / SLEW + 1) <= f.l - s.l <= (f.clock - s.clock) / SLEW + 1
  }

  /** How far L may have moved since `from` when the last change was at `change`. */
  function Budget(from: int, change: int): int {
    if change < from then 0 else (change - from) / SLEW + 1
  }

  predicate Moved(l0: nat, l: nat, most: int) {
    -most <= l - l0 <= most
  }

  /** What holds along a run, seen from a state s0 of it: the moves of L, and those of the key
      unless more than one SET in a row is lost by now. */
  ghost predicate OnBudget(s0: State, s: State, lost: nat) {
    && s0.clock <= s.clock
    && Moved(s0.l, s.l, Budget(s0.clock, s.lastChange))
    && (lost == 0 ==> CurrentL(s.powL) == s.l)
    && (lost <= 1 ==>
          Moved(s0.l, CurrentL(s.powL), if s.lastChange < s0.clock then 1 else Budget(s0.clock, s.lastChange)))
  }

  lemma BudgetGrows(from: int, change: int, now: int)
    requires change <= now && from <= now
    ensures 1 <= Budget(from, now) == (now - from) / SLEW + 1
    ensures Budget(from, change) <= Budget(from, now)
    ensures change + SLEW <= now ==> Budget(from, change) + 1 <= Budget(from, now)
  {
  }

  lemma AfterOnBudget(decay: Decay, s0: State, s: State, e: Event, lost: nat)
    requires Sound(s) && s.clock <= e.now && OnBudget(s0, s, lost)
    requires e.Restart? ==> e.gotL && lost <= 1
    ensures OnBudget(s0, After(decay, s, e), Lost(decay, s, e, lost))
  {
    AfterIsSound(decay, s, e, lost);
    BudgetGrows(s0.clock, s.lastChange, e.now);
  }

  lemma {:induction false} SlewFrom(decay: Decay, s0: State, s: State, events: seq<Event>, f: Faults, lost: nat)
    requires Sound(s) && InTime(decay, s, events) && OnBudget(s0, s, lost)
    requires Allowed(decay, s, events, f, lost) && !f.getMayFail && f.lost <= 1
    ensures WithinSlew(s0, Run(decay, s, events))
    decreases |events|
  {
    if events == [] {
      BudgetGrows(s0.clock, s.lastChange, s.clock);
    } else {
      AfterIsSound(decay, s, events[0], lost);
      AfterOnBudget(decay, s0, s, events[0], lost);
      SlewFrom(decay, s0, After(decay, s, events[0]), events[1..], f, Lost(decay, s, events[0], lost));
    }
  }

  /** A run splits into what led to a state of it and the rest. */
  lemma {:induction false} Split(decay: Decay, s: State, a: seq<Event>, b: seq<Event>, f: Faults, lost: nat)
    returns (lost': nat)
    requires Sound(s) && InTime(decay, s, a + b) && Allowed(decay, s, a + b, f, lost)
    requires f.getMayFail || KeyWithin(s, lost)
    ensures var m := Run(decay, s, a);
            && Sound(m) && InTime(decay, m, b) && Allowed(decay, m, b, f, lost')
            && (f.getMayFail || KeyWithin(m, lost'))
            && Run(decay, s, a + b) == Run(decay, m, b)
    decreases |a|
  {
    if a == [] {
      assert a + b == b;
      lost' := lost;
    } else {
      assert (a + b)[0] == a[0] && (a + b)[1..] == a[1..] + b;
      AfterIsSound(decay, s, a[0], lost);
      lost' := Split(decay, After(decay, s, a[0]), a[1..], b, f, Lost(decay, s, a[0], lost));
    }
  }

  /** A process that starts and reads whatever pow:L holds, then any events of the class. */
  ghost predicate IsRun(decay: Decay, s: State, events: seq<Event>, f: Faults) {
    && (exists powL, powInterval, now, stats, sets :: s == Begin(powL, powInterval, now, true, stats, sets))
    && InTime(decay, s, events) && Allowed(decay, s, events, f, 0)
  }

  /** The slew limit, between any two states of a run. */
  lemma Slew(decay: Decay, s: State, a: seq<Event>, b: seq<Event>, f: Faults)
    requires IsRun(decay, s, a + b, f) && !f.getMayFail && f.lost <= 1
    ensures WithinSlew(Run(decay, s, a), Run(decay, s, a + b))
  {
    var lost := Split(decay, s, a, b, f, 0);
    SlewFrom(decay, Run(decay, s, a), Run(decay, s, a), b, f, lost);
  }

  /** In every run of a class. */
  ghost predicate AlwaysWithinSlew(decay: Decay, f: Faults) {
    forall s, a, b | IsRun(decay, s, a + b, f) :: WithinSlew(Run(decay, s, a), Run(decay, s, a + b))
  }

  const ANSWERED := Sets(Answered, Answered)

  /** A restart whose GET of pow:L fails brings L down to 1 at one instant. */
  lemma FailedGetDropsL(decay: Decay, l: nat, now: int)
    requires MIN_L <= l <= MAX_L
    ensures var s := Begin(l, 0, now, true, Missing, ANSWERED);
            var s' := After(decay, s, Restart(now, false, Missing, ANSWERED));
            s.l == l && s'.l == s'.powL == MIN_L && s'.clock == s.clock && (WithinSlew(s, s') <==> l <= 2)
  {
    assert (now - now) / SLEW == 0;
  }

  /** Two raises whose SETs are lost, and a restart takes both back at one instant. */
  lemma LostSetsDropL(decay: Decay) returns (s: State, rise: seq<Event>, e: Event)
    requires IsDecay(decay)
    ensures IsRun(decay, s, rise + [e], Faults(false, 2))
    ensures var top := Run(decay, s, rise);
            var end := Run(decay, s, rise + [e]);
            top.l == 3 && end.l == 1 && top.clock == end.clock
  {
    var lose := Sets(Unanswered(false), Answered);
    s := Begin(1, 2, 0, true, Value(0), ANSWERED);
    var a, b := Tick(30 * SECOND, Value(0), Value(30_000), lose), Tick(60 * SECOND, Value(0), Value(60_000), lose);
    var s1 := After(decay, s, a);
    RateOf(30_000);
    assert s1.l == 2 && s1.ewma == 500.0 && s1.powL == 1;
    var s2 := After(decay, s1, b);
    assert s2.l == 3 && s2.powL == 1;
    e := Restart(60 * SECOND, true, Value(60_000), ANSWERED);
    OneEvent(decay, s2, e, Faults(false, 2), 2);
    FirstThenRest(decay, s1, b, [e], Faults(false, 2), 1);
    FirstThenRest(decay, s1, b, [], Faults(false, 2), 1);
    FirstThenRest(decay, s, a, [b] + [e], Faults(false, 2), 0);
    FirstThenRest(decay, s, a, [b], Faults(false, 2), 0);
    rise := [a] + [b];
    assert rise + [e] == [a] + ([b] + [e]) && [b] + [] == [b];
  }

  lemma FirstThenRest(decay: Decay, s: State, e: Event, rest: seq<Event>, f: Faults, lost: nat)
    requires s.clock <= e.now && (e.Restart? ==> (e.gotL || f.getMayFail) && lost <= f.lost)
    ensures var s' := After(decay, s, e);
            && Run(decay, s, [e] + rest) == Run(decay, s', rest)
            && (InTime(decay, s', rest) ==> InTime(decay, s, [e] + rest))
            && (Allowed(decay, s', rest, f, Lost(decay, s, e, lost)) ==> Allowed(decay, s, [e] + rest, f, lost))
  {
    assert ([e] + rest)[1..] == rest;
  }

  lemma RateOf(n: int)
    ensures n as real / ((30 * SECOND) as real / SECOND as real) == n as real / 30.0
  {
  }

  /** The slew limit holds in every run of a class if and only if restarts read pow:L and find at
      most one SET of it missing. */
  lemma SlewIff(decay: Decay, f: Faults)
    requires IsDecay(decay)
    ensures AlwaysWithinSlew(decay, f) <==> !f.getMayFail && f.lost <= 1
  {
    if !f.getMayFail && f.lost <= 1 {
      forall s, a, b | IsRun(decay, s, a + b, f) ensures WithinSlew(Run(decay, s, a), Run(decay, s, a + b)) {
        Slew(decay, s, a, b, f);
      }
    } else if f.getMayFail {
      var s, e := Begin(16, 0, 0, true, Missing, ANSWERED), Restart(0, false, Missing, ANSWERED);
      FailedGetDropsL(decay, 16, 0);
      OneEvent(decay, s, e, f, 0);
      assert [] + [e] == [e];
      assert IsRun(decay, s, [] + [e], f) && !WithinSlew(Run(decay, s, []), Run(decay, s, [] + [e]));
    } else {
      var s, rise, e := LostSetsDropL(decay);
      AllowMore(decay, s, rise + [e], Faults(false, 2), f, 0);
      assert (Run(decay, s, rise).clock - Run(decay, s, rise + [e]).clock) / SLEW == 0;
      assert IsRun(decay, s, rise + [e], f) && !WithinSlew(Run(decay, s, rise), Run(decay, s, rise + [e]));
    }
  }

  lemma {:induction false} AllowMore(decay: Decay, s: State, events: seq<Event>, f: Faults, f': Faults, lost: nat)
    requires Allowed(decay, s, events, f, lost) && (f.getMayFail ==> f'.getMayFail) && f.lost <= f'.lost
    ensures Allowed(decay, s, events, f', lost)
    decreases |events|
  {
    if events != [] {
      AllowMore(decay, After(decay, s, events[0]), events[1..], f, f', Lost(decay, s, events[0], lost));
    }
  }

  lemma OneEvent(decay: Decay, s: State, e: Event, f: Faults, lost: nat)
    requires s.clock <= e.now && (e.Restart? ==> (e.gotL || f.getMayFail) && lost <= f.lost)
    ensures InTime(decay, s, [e]) && Allowed(decay, s, [e], f, lost) && Run(decay, s, [e]) == After(decay, s, e)
  {
    assert [e][1..] == [];
  }

  // ----- the controller reaches the end of its range under pressure -----

  /** Every pass controls, comes at most d after the last, and leaves the estimate beyond the
      edge that moves L up (or down). */
  ghost predicate Pressed(decay: Decay, s: State, events: seq<Event>, d: nat, up: bool)
    decreases |events|
  {
    events == [] ||
    var e, s' := events[0], After(decay, s, events[0]);
    && Controls(e) && s.prevSample < e.now && s.clock <= e.now <= s.clock + d
    && (if up then s'.ewma > RAISE_ABOVE else s'.ewma < LOWER_BELOW)
    && Pressed(decay, s', events[1..], d, up)
  }

  function Goal(up: bool): nat { if up then MAX_L else MIN_L }

  function StepsTo(up: bool, l: nat): int { if up then MAX_L - l else l - MIN_L }

  /** Held above 440 with passes at most d apart, L is 16 after 15 (30 s + d), whatever it was;
      held below 140, it is 1. */
  lemma Converges(decay: Decay, s: State, events: seq<Event>, d: nat, up: bool)
    requires Sound(s) && Pressed(decay, s, events, d, up)
    ensures var f := Run(decay, s, events);
            f.clock >= s.clock + 15 * (SLEW + d) ==> f.l == Goal(up)
  {
    Approach(decay, s.clock, s, events, d, up, 15 - StepsTo(up, s.l));
  }

  lemma {:induction false} Approach(decay: Decay, t0: int, s: State, events: seq<Event>, d: nat, up: bool, k: nat)
    requires Sound(s) && Pressed(decay, s, events, d, up) && k == 15 - StepsTo(up, s.l)
    requires s.l == Goal(up) || (s.lastChange <= t0 + k * (SLEW + d) && s.clock < t0 + k * (SLEW + d) + SLEW)
    ensures var f := Run(decay, s, events);
            f.clock >= t0 + 15 * (SLEW + d) ==> f.l == Goal(up)
    decreases |events|
  {
    if events == [] {
      if s.l != Goal(up) { Multiples(k, 14, SLEW + d); }
    } else {
      var s' := After(decay, s, events[0]);
      AfterIsSound(decay, s, events[0], 0);
      var k' := 15 - StepsTo(up, s'.l);
      assert k' == k || (k' == k + 1 && s'.lastChange == s'.clock == events[0].now);
      assert (k + 1) * (SLEW + d) == k * (SLEW + d) + SLEW + d;
      Approach(decay, t0, s', events[1..], d, up, k');
    }
  }

  lemma Multiples(a: nat, b: nat, m: nat)
    requires a <= b
    ensures a * m <= b * m
  {
  }

  // ----- no fast flip-flop -----

  /** Samples are not negative, because the count of accepted submissions does not fall. */
  ghost predicate Steady(decay: Decay, s: State, events: seq<Event>)
    decreases |events|
  {
    events == [] ||
    var e := events[0];
    (Controls(e) ==> s.prevStats <= OrZero(e.stats)) && Steady(decay, After(decay, s, e), events[1..])
  }

  predicate RestartsAfter(events: seq<Event>, t: int) {
    forall i | 0 <= i < |events| && events[i].Restart? :: t < events[i].now
  }

  /** The last event, be it a pass or a restart, leaves L lower than it finds it. */
  ghost predicate LastLowers(decay: Decay, s: State, events: seq<Event>) {
    events != [] &&
    var m := Run(decay, s, events[..|events| - 1]);
    After(decay, m, events[|events| - 1]).l < m.l
  }

  /** One pass keeps at least the decayed part of the estimate. */
  lemma PassKeepsDecay(decay: Decay, s: State, e: Event, since: int, floor: real)
    requires IsDecay(decay) && Sound(s) && floor >= 0.0 && since <= s.prevSample
    requires e.Tick? && s.clock <= e.now && (Controls(e) ==> s.prevStats <= OrZero(e.stats))
    requires s.ewma >= floor * decay(s.prevSample - since)
    ensures var s' := After(decay, s, e);
            s.prevSample <= s'.prevSample && s'.ewma >= floor * decay(s'.prevSample - since)
  {
    if Controls(e) && s.prevSample < e.now {
      var dt := e.now - s.prevSample;
      var sample := (OrZero(e.stats) - s.prevStats) as real / (dt as real / SECOND as real);
      assert sample >= 0.0;
      EWMAFallsByDecay(decay, s.ewma, sample, dt);
      var a, b := decay(s.prevSample - since), decay(dt);
      assert Multiplies(decay, s.prevSample - since, dt);
      assert Fraction(decay, dt);
      Scale(floor * a, s.ewma, b);
      assert floor * a * b == floor * (a * b);
    }
  }

  lemma RestLowers(decay: Decay, s: State, events: seq<Event>)
    requires LastLowers(decay, s, events) && |events| > 1
    ensures LastLowers(decay, After(decay, s, events[0]), events[1..])
  {
    var rest := events[1..];
    assert rest[..|rest| - 1] == events[..|events| - 1][1..];
    assert rest[|rest| - 1] == events[|events| - 1];
  }

  /** A pass that lowers L this soon would have to undo more than the decay can. */
  lemma PassLowersLate(decay: Decay, s: State, e: Event, since: int, lost: nat)
    requires IsDecay(decay) && Sound(s) && s.clock <= e.now && e.Tick? && since <= s.prevSample
    requires Controls(e) ==> s.prevStats <= OrZero(e.stats)
    requires s.ewma >= RAISE_ABOVE * decay(s.prevSample - since)
    requires After(decay, s, e).l < s.l
    ensures e.now - since > 49 * SECOND
  {
    PassKeepsDecay(decay, s, e, since, RAISE_ABOVE);
    AfterIsSound(decay, s, e, lost);
    var s', gap := After(decay, s, e), e.now - since;
    assert s'.prevSample == e.now && s'.ewma < LOWER_BELOW;
    if gap <= 49 * SECOND {
      FortyNineSeconds(decay);
      DecayShrinks(decay, gap, 49 * SECOND);
    }
  }

  /** What is known some time after a raise at `since`: before any restart, the estimate; after
      one, that the last change is late. */
  ghost predicate Guards(decay: Decay, s: State, since: int, g: nat, restarted: bool)
    requires Sound(s)
  {
    if restarted then since + g < s.lastChange
    else since <= s.prevSample && s.ewma >= RAISE_ABOVE * decay(s.prevSample - since)
  }

  /** The classes of runs in which a lowering is slow, whatever restarts there are. */
  predicate SlowClass(g: nat, f: Faults) {
    (g >= 19 * SECOND && !f.getMayFail && f.lost == 0) || g >= 49 * SECOND
  }

  lemma EventLowersLate(decay: Decay, s: State, e: Event, since: int, g: nat, f: Faults, lost: nat, restarted: bool)
    requires IsDecay(decay) && Sound(s) && s.clock <= e.now && SlowClass(g, f)
    requires Guards(decay, s, since, g, restarted) && (f.getMayFail || KeyWithin(s, lost))
    requires Controls(e) ==> s.prevStats <= OrZero(e.stats)
    requires e.Restart? ==> (e.gotL || f.getMayFail) && lost <= f.lost && since + g < e.now
    ensures var s' := After(decay, s, e);
            && Sound(s') && Guards(decay, s', since, g, restarted || e.Restart?)
            && (s'.l < s.l ==> e.now - since > 49 * SECOND)
  {
    AfterIsSound(decay, s, e, lost);
    if e.Tick? && !restarted {
      PassKeepsDecay(decay, s, e, since, RAISE_ABOVE);
      if After(decay, s, e).l < s.l { PassLowersLate(decay, s, e, since, lost); }
    }
  }

  lemma {:induction false} LoweringTakesTime(decay: Decay, s: State, events: seq<Event>, since: int, g: nat, f: Faults,
                                             lost: nat, restarted: bool)
    requires IsDecay(decay) && Sound(s) && InTime(decay, s, events) && Steady(decay, s, events) && SlowClass(g, f)
    requires Allowed(decay, s, events, f, lost) && (f.getMayFail || KeyWithin(s, lost))
    requires Guards(decay, s, since, g, restarted) && RestartsAfter(events, since + g) && LastLowers(decay, s, events)
    ensures events[|events| - 1].now - since > 49 * SECOND
    decreases |events|
  {
    EventLowersLate(decay, s, events[0], since, g, f, lost, restarted);
    if |events| == 1 {
      assert events[..0] == [];
    } else {
      RestLowers(decay, s, events);
      AfterIsSound(decay, s, events[0], lost);
      LoweringTakesTime(decay, After(decay, s, events[0]), events[1..], since, g, f, Lost(decay, s, events[0], lost),
                        restarted || events[0].Restart?);
    }
  }

  /** In a run of the class, the pass `raise` raises L, the restarts that follow it come more than
      g after it, and the last event lowers L. */
  ghost predicate Flips(decay: Decay, s: State, before: seq<Event>, raise: Event, events: seq<Event>, f: Faults,
                        g: nat) {
    && IsRun(decay, s, before + ([raise] + events), f)
    && var m := Run(decay, s, before);
    && Steady(decay, m, [raise] + events)
    && raise.Tick? && After(decay, m, raise).l > m.l
    && RestartsAfter(events, raise.now + g)
    && LastLowers(decay, After(decay, m, raise), events)
  }

  /** In the slow classes L is never lowered within 49 s after a raise, although the slew limit
      alone would allow it after 30 s. */
  lemma NoFastFlipFlop(decay: Decay, s: State, before: seq<Event>, raise: Event, events: seq<Event>, f: Faults, g: nat)
    requires IsDecay(decay) && Flips(decay, s, before, raise, events, f, g) && SlowClass(g, f)
    ensures events[|events| - 1].now - raise.now > 49 * SECOND
  {
    var lost := Split(decay, s, before, [raise] + events, f, 0);
    var m := Run(decay, s, before);
    var s' := After(decay, m, raise);
    AfterIsSound(decay, m, raise, lost);
    assert ([raise] + events)[1..] == events;
    assert Fraction(decay, 0) && Multiplies(decay, 0, 0);
    assert s'.prevSample == raise.now && s'.ewma > RAISE_ABOVE && decay(0) <= 1.0;
    LoweringTakesTime(decay, s', events, raise.now, g, f, Lost(decay, m, raise, lost), false);
  }

  ghost predicate NeverFlipsFast(decay: Decay, f: Faults, g: nat) {
    forall s, before, raise: Event, events: seq<Event> | Flips(decay, s, before, raise, events, f, g) ::
      events[|events| - 1].now - raise.now > 49 * SECOND
  }

  /** L goes from 1 to 2 at 30 s. */
  function Fresh(): State {
    Begin(1, 2, 0, true, Value(0), ANSWERED)
  }

  function Raise(sets: Sets): Event {
    Tick(30 * SECOND, Value(0), Value(30_000), sets)
  }

  lemma Raised(decay: Decay, sets: Sets) returns (s: State)
    requires IsDecay(decay)
    ensures s == After(decay, Fresh(), Raise(sets))
    ensures s.l == 2 && s.clock == s.lastChange == 30 * SECOND && s.prevStats == 30_000
    ensures s.powL == if Stores(sets.l) then 2 else 1
    ensures Lost(decay, Fresh(), Raise(sets), 0) == if Stores(sets.l) then 0 else 1
  {
    s := After(decay, Fresh(), Raise(sets));
    RateOf(30_000);
    assert s.ewma == 500.0;
  }

  /** Two events that follow a raise are a run. */
  lemma FlipRun(decay: Decay, raise: Event, events: seq<Event>, f: Faults, g: nat)
    requires InTime(decay, Fresh(), [raise] + events) && Allowed(decay, Fresh(), [raise] + events, f, 0)
    requires Steady(decay, Fresh(), [raise] + events) && RestartsAfter(events, raise.now + g)
    requires raise.Tick? && After(decay, Fresh(), raise).l > Fresh().l
    requires LastLowers(decay, After(decay, Fresh(), raise), events)
    ensures Flips(decay, Fresh(), [], raise, events, f, g)
  {
    assert [] + ([raise] + events) == [raise] + events;
  }

  /** A restart no later than 19 s after the raise forgets the estimate, and 30 s later L comes
      down again. */
  lemma EarlyRestartFlips(decay: Decay, f: Faults, g: nat)
    requires IsDecay(decay) && g < 19 * SECOND
    ensures !NeverFlipsFast(decay, f, g)
  {
    var t := 30 * SECOND + g + 1;
    var raise := Raise(ANSWERED);
    var restart := Restart(t, true, Value(30_000), ANSWERED);
    var lower := Tick(t + 30 * SECOND, Value(0), Value(30_000), ANSWERED);
    var s1 := Raised(decay, ANSWERED);
    var s2 := After(decay, s1, restart);
    assert s2.l == 2;
    var s3 := After(decay, s2, lower);
    RateOf(0);
    assert s3.l == 1;
    var events := [restart, lower];
    OneEvent(decay, s2, lower, f, 0);
    FirstThenRest(decay, s1, restart, [lower], f, 0);
    FirstThenRest(decay, Fresh(), raise, [restart] + [lower], f, 0);
    assert events == [restart] + [lower] && [lower][1..] == [] && events[1..] == [lower];
    assert ([raise] + events)[1..] == events;
    assert Steady(decay, s2, [lower]) && Steady(decay, s1, events);
    OneEvent(decay, s1, restart, f, 0);
    assert events[..1] == [restart];
    FlipRun(decay, raise, events, f, g);
  }

  /** A restart that does not find the raised L lowers it itself. */
  lemma RestartLowers(decay: Decay, f: Faults, g: nat)
    requires IsDecay(decay) && g < 49 * SECOND && (f.getMayFail || f.lost > 0)
    ensures !NeverFlipsFast(decay, f, g)
  {
    var raise := Raise(if f.getMayFail then ANSWERED else Sets(Unanswered(false), Answered));
    var restart := Restart(30 * SECOND + g + 1, !f.getMayFail, Value(30_000), ANSWERED);
    var s1 := Raised(decay, raise.sets);
    assert After(decay, s1, restart).l == 1;
    var events := [restart];
    assert ([raise] + events)[1..] == events && events[1..] == [] && events[..0] == [];
    FlipRun(decay, raise, events, f, g);
  }

  /** With restarts more than g after the raise, L is never lowered within 49 s of a raise if and
      only if g is at least 19 s and restarts find L where it was, or g is at least 49 s. */
  lemma FlipFlopIff(decay: Decay, f: Faults, g: nat)
    requires IsDecay(decay)
    ensures NeverFlipsFast(decay, f, g) <==> SlowClass(g, f)
  {
    if SlowClass(g, f) {
      forall s, before, raise: Event, events: seq<Event> | Flips(decay, s, before, raise, events, f, g)
        ensures events[|events| - 1].now - raise.now > 49 * SECOND
      {
        NoFastFlipFlop(decay, s, before, raise, events, f, g);
      }
    } else if g < 19 * SECOND {
      EarlyRestartFlips(decay, f, g);
    } else {
      RestartLowers(decay, f, g);
    }
  }
}
