// The difficulty pair crosses two keys and two atomics without a lock: the worker sets pow:L,
// then pow:min_interval (internal/counterworker/counterworker.go: writeDifficulty); a replica
// gets one, then the other, stores one, then the other (internal/difficulty/difficulty.go:
// refresh), while Get loads one, then the other. How far apart can the pair get?

module Difficulty {
  import opened Controller
  import opened Wrappers

  /** The replica's cache. */
  class Cache {
    var l: nat
    var minInterval: nat
    var have: bool

    constructor ()
      ensures !have && l == 0 && minInterval == 0
    {
      l, minInterval, have := 0, 0, false;
    }

    function Get(): (nat, nat, bool)
      reads this
    {
      (l, minInterval, have)
    }

    /** The two GETs; either may fail. */
    method Refresh(powL: Option<nat>, powInterval: Option<nat>)
      modifies this
      ensures Get() == if powL.Some? && powInterval.Some? then (powL.value, powInterval.value, true) else old(Get())
    {
      if powL.None? { return; }
      if powInterval.None? { return; }
      l := powL.value;
      minInterval := powInterval.value;
      have := true;
    }
  }

  // ----- the protocol -----

  /** What a key holds, and the L it was written for. */
  datatype Cell = Cell(value: nat, level: nat)

  /** A value got from a key: when, and in which era. */
  datatype Got = Got(cell: Cell, era: nat, at: int)

  /** Down: the process has crashed, perhaps between its two SETs. */
  datatype Writer = Quiet | Decided | WroteL | Down

  datatype Refresher = Resting | GotL(l: Got) | GotBoth(l: Got, mi: Got) | StoredL(mi: Got) | StoredBoth

  /** A call of Get: `warm` is whether a refresh had completed when it began. */
  datatype Getter = Idle | LoadedL(warm: bool, l: Option<Got>) | LoadedMI(warm: bool, l: Option<Got>, mi: Option<Got>)
                  | Returned(warm: bool, l: Option<Got>, mi: Option<Got>, ok: bool)

  /** History: from one decision of the controller to the next, restarts in between included. L
      was `was` before the decision and was to become `will`. */
  datatype Era = Era(at: int, was: nat, will: nat)

  /** `level` is the worker's L, `round` when it last set out to write it, `lost` whether a SET
      of this round was lost. */
  datatype State = State(
    now: int, level: nat, round: int, lost: bool, writer: Writer, powL: Cell, powInterval: Cell, eras: seq<Era>,
    refresher: Refresher, l: Option<Got>, mi: Option<Got>, have: bool, getter: Getter)

  datatype Step =
    | Wait(d: nat)
    | Decide(l: nat)                             // the controller changes L
    | SetL(stored: bool) | SetInterval(stored: bool)   // writeDifficulty; a failed SET is only logged
    | Crash
    | Restart(gotL: bool)                        // currentL, whose GET may fail; the pair is written again
    | FetchL | FetchInterval | FetchFails | StoreL | StoreInterval | StoreHave   // refresh
    | LoadL | LoadInterval | LoadHave | Forget                                   // Get

  /** A class of runs: `lag` bounds the time from a decision or restart to the end of its two
      writes, unless the process crashes; getMayFail allows restarts that cannot read pow:L, and
      goOn allows the controller to change L again after a lost SET, without a restart first. */
  datatype Limits = Limits(lag: nat, getMayFail: bool, goOn: bool)

  predicate CanStep(s: State, step: Step, lim: Limits) {
    match step
    case Wait(d) => s.writer.Quiet? || s.writer.Down? || s.now + d <= s.round + lim.lag
    case Decide(l) =>
      && s.writer.Quiet? && s.round + SLEW <= s.now && (s.lost ==> lim.goOn)
      && (l == s.level + 1 || l + 1 == s.level) && MIN_L <= l <= MAX_L
    case SetL(_) => s.writer.Decided?
    case SetInterval(_) => s.writer.WroteL?
    case Crash => true
    case Restart(gotL) => s.writer.Down? && (gotL || lim.getMayFail)
    case FetchL => s.refresher.Resting?
    case FetchInterval => s.refresher.GotL?
    case FetchFails => s.refresher.Resting? || s.refresher.GotL?
    case StoreL => s.refresher.GotBoth?
    case StoreInterval => s.refresher.StoredL?
    case StoreHave => s.refresher.StoredBoth?
    case LoadL => s.getter.Idle?
    case LoadInterval => s.getter.LoadedL?
    case LoadHave => s.getter.LoadedMI?
    case Forget => s.getter.Returned?
  }

  function EraNow(s: State): nat {
    if s.eras == [] then 0 else |s.eras| - 1
  }

  function Next(s: State, step: Step, lim: Limits): State
    requires CanStep(s, step, lim)
  {
    match step
    case Wait(d) => s.(now := s.now + d)
    case Decide(l) =>
      s.(level := l, round := s.now, lost := false, writer := Decided, eras := s.eras + [Era(s.now, s.level, l)])
    case SetL(stored) =>
      s.(powL := if stored then Cell(s.level, s.level) else s.powL, lost := s.lost || !stored, writer := WroteL)
    case SetInterval(stored) =>
      s.(powInterval := if stored then Cell(MinInterval(s.level), s.level) else s.powInterval,
         lost := s.lost || !stored, writer := Quiet)
    case Crash => s.(writer := Down)
    case Restart(gotL) =>
      s.(level := if gotL then s.powL.value else MIN_L, round := s.now, lost := false, writer := Decided)
    case FetchL => s.(refresher := GotL(Got(s.powL, EraNow(s), s.now)))
    case FetchInterval => s.(refresher := GotBoth(s.refresher.l, Got(s.powInterval, EraNow(s), s.now)))
    case FetchFails => s.(refresher := Resting)
    case StoreL => s.(l := Some(s.refresher.l), refresher := StoredL(s.refresher.mi))
    case StoreInterval => s.(mi := Some(s.refresher.mi), refresher := StoredBoth)
    case StoreHave => s.(have := true, refresher := Resting)
    case LoadL => s.(getter := LoadedL(s.have, s.l))
    case LoadInterval => s.(getter := LoadedMI(s.getter.warm, s.getter.l, s.mi))
    case LoadHave => s.(getter := Returned(s.getter.warm, s.getter.l, s.getter.mi, s.have))
    case Forget => s.(getter := Idle)
  }

  ghost predicate IsRun(s: State, steps: seq<Step>, lim: Limits)
    decreases |steps|
  {
    steps == [] || (CanStep(s, steps[0], lim) && IsRun(Next(s, steps[0], lim), steps[1..], lim))
  }

  ghost function Final(s: State, steps: seq<Step>, lim: Limits): State
    requires IsRun(s, steps, lim)
    decreases |steps|
  {
    if steps == [] then s else Final(Next(s, steps[0], lim), steps[1..], lim)
  }

  /** The worker has written its first difficulty; the cache is empty. */
  function Start(l: nat, now: int): State {
    State(now, l, now, false, Quiet, Cell(l, l), Cell(MinInterval(l), l), [Era(now, l, l)],
          Resting, None, None, false, Idle)
  }

  // ----- a warm Get finds both numbers, whatever fails -----

  ghost predicate Loaded(s: State) {
    && (s.have || s.refresher.StoredBoth? ==> s.l.Some? && s.mi.Some?)
    && (s.refresher.StoredL? ==> s.l.Some?)
    && (!s.getter.Idle? && s.getter.warm ==> s.have && s.getter.l.Some?)
    && ((s.getter.LoadedMI? || s.getter.Returned?) && s.getter.warm ==> s.getter.mi.Some?)
    && (s.getter.Returned? && s.getter.warm ==> s.getter.ok)
  }

  lemma {:induction false} RunKeepsLoaded(s: State, steps: seq<Step>, lim: Limits)
    requires Loaded(s) && IsRun(s, steps, lim)
    ensures Loaded(Final(s, steps, lim))
    decreases |steps|
  {
    if steps != [] { RunKeepsLoaded(Next(s, steps[0], lim), steps[1..], lim); }
  }

  /** One step more in front of a run. */
  lemma Before(s: State, step: Step, rest: seq<Step>, lim: Limits) returns (steps: seq<Step>)
    requires CanStep(s, step, lim) && IsRun(Next(s, step, lim), rest, lim)
    ensures IsRun(s, steps, lim) && Final(s, steps, lim) == Final(Next(s, step, lim), rest, lim)
  {
    steps := [step] + rest;
  }

  /** A refresh that nothing disturbs, as the method does it: both values are got, then all three are
      stored; if a GET fails, the cache stays as it is. */
  lemma RefreshIsSteps(s: State, lim: Limits, gotL: bool, gotInterval: bool) returns (steps: seq<Step>)
    requires s.refresher.Resting?
    ensures IsRun(s, steps, lim)
    ensures Final(s, steps, lim)
         == if gotL && gotInterval
            then s.(l := Some(Got(s.powL, EraNow(s), s.now)), mi := Some(Got(s.powInterval, EraNow(s), s.now)),
                    have := true)
            else s
  {
    var s1 := Next(s, FetchL, lim);
    if !gotL {
      steps := Before(s, FetchFails, [], lim);
    } else if !gotInterval {
      steps := Before(s1, FetchFails, [], lim);
      steps := Before(s, FetchL, steps, lim);
    } else {
      var s2 := Next(s1, FetchInterval, lim);
      steps := StoresAll(s2, lim);
      steps := Before(s1, FetchInterval, steps, lim);
      steps := Before(s, FetchL, steps, lim);
    }
  }

  lemma StoresAll(s: State, lim: Limits) returns (steps: seq<Step>)
    requires s.refresher.GotBoth?
    ensures IsRun(s, steps, lim)
    ensures Final(s, steps, lim)
         == s.(l := Some(s.refresher.l), mi := Some(s.refresher.mi), have := true, refresher := Resting)
  {
    var s1 := Next(s, StoreL, lim);
    var s2 := Next(s1, StoreInterval, lim);
    steps := Before(s2, StoreHave, [], lim);
    steps := Before(s1, StoreInterval, steps, lim);
    steps := Before(s, StoreL, steps, lim);
  }

  /** A Get that begins before the first refresh has completed may return ok without L: it loads
      the empty l, then the refresh stores all three, then it loads the rest. */
  lemma ColdGetWithoutL(l0: nat, t0: int, lim: Limits) returns (steps: seq<Step>)
    ensures IsRun(Start(l0, t0), steps, lim)
    ensures var g := Final(Start(l0, t0), steps, lim).getter;
            g.Returned? && !g.warm && g.ok && g.l.None? && g.mi.Some?
  {
    var s0 := Start(l0, t0);
    var s1 := Next(s0, FetchL, lim);
    var s2 := Next(s1, FetchInterval, lim);
    var s3 := Next(s2, LoadL, lim);
    var s4 := Next(s3, StoreL, lim);
    steps := StoresThenLoads(s4, lim);
    steps := Before(s3, StoreL, steps, lim);
    steps := Before(s2, LoadL, steps, lim);
    steps := Before(s1, FetchInterval, steps, lim);
    steps := Before(s0, FetchL, steps, lim);
  }

  lemma StoresThenLoads(s: State, lim: Limits) returns (steps: seq<Step>)
    requires s.refresher.StoredL? && s.getter.LoadedL?
    ensures IsRun(s, steps, lim)
    ensures Final(s, steps, lim).getter == Returned(s.getter.warm, s.getter.l, Some(s.refresher.mi), true)
  {
    var s1 := Next(s, StoreInterval, lim);
    var s2 := Next(s1, StoreHave, lim);
    var s3 := Next(s2, LoadInterval, lim);
    steps := Before(s3, LoadHave, [], lim);
    steps := Before(s2, LoadInterval, steps, lim);
    steps := Before(s1, StoreHave, steps, lim);
    steps := Before(s, StoreInterval, steps, lim);
  }

  /** Or with L and without the interval, which the challenge then gives as 0: it loads both
      between the store of L and that of the interval. */
  lemma ColdGetWithoutInterval(l0: nat, t0: int, lim: Limits) returns (steps: seq<Step>)
    ensures IsRun(Start(l0, t0), steps, lim)
    ensures var g := Final(Start(l0, t0), steps, lim).getter;
            g.Returned? && !g.warm && g.ok && g.mi.None? && g.l.Some? && g.l.value.cell.value == l0
  {
    var s0 := Start(l0, t0);
    var s1 := Next(s0, FetchL, lim);
    var s2 := Next(s1, FetchInterval, lim);
    var s3 := Next(s2, StoreL, lim);
    steps := LoadsThenStores(s3, lim);
    steps := Before(s2, StoreL, steps, lim);
    steps := Before(s1, FetchInterval, steps, lim);
    steps := Before(s0, FetchL, steps, lim);
  }

  lemma LoadsThenStores(s: State, lim: Limits) returns (steps: seq<Step>)
    requires s.refresher.StoredL? && s.getter.Idle?
    ensures IsRun(s, steps, lim)
    ensures Final(s, steps, lim).getter == Returned(s.have, s.l, s.mi, true)
  {
    var s1 := Next(s, LoadL, lim);
    var s2 := Next(s1, LoadInterval, lim);
    var s3 := Next(s2, StoreInterval, lim);
    var s4 := Next(s3, StoreHave, lim);
    steps := Before(s4, LoadHave, [], lim);
    steps := Before(s3, StoreHave, steps, lim);
    steps := Before(s2, StoreInterval, steps, lim);
    steps := Before(s1, LoadInterval, steps, lim);
    steps := Before(s, LoadL, steps, lim);
  }

  /** Every Get that returns, and began after a refresh had completed or before, as warm says, finds
      both numbers when it says ok. */
  ghost predicate OkMeansLoaded(l0: nat, t0: int, lim: Limits, warm: bool) {
    forall steps | IsRun(Start(l0, t0), steps, lim) ::
      var g := Final(Start(l0, t0), steps, lim).getter;
      g.Returned? && g.warm == warm && g.ok ==> g.l.Some? && g.mi.Some?
  }

  /** "ok" means that both numbers are loaded if and only if the Get began after a refresh had
      completed. */
  lemma OkMeansLoadedIffWarm(l0: nat, t0: int, lim: Limits, warm: bool)
    ensures OkMeansLoaded(l0, t0, lim, warm) <==> warm
  {
    if warm {
      forall steps | IsRun(Start(l0, t0), steps, lim)
        ensures var g := Final(Start(l0, t0), steps, lim).getter;
                g.Returned? && g.warm && g.ok ==> g.l.Some? && g.mi.Some?
      {
        RunKeepsLoaded(Start(l0, t0), steps, lim);
      }
    } else {
      var steps := ColdGetWithoutL(l0, t0, lim);
    }
  }

  // ----- how far apart the two numbers can be -----

  /** In each era L moves by one, at least a slew interval after the last round of the era before,
      and from a value of that era. */
  ghost predicate ErasFit(eras: seq<Era>) {
    && eras != []
    && (forall i | 0 <= i < |eras| :: -1 <= eras[i].will - eras[i].was <= 1)
    && (forall i | 0 < i < |eras| ::
          eras[i - 1].at + SLEW <= eras[i].at && (eras[i].was == eras[i - 1].was || eras[i].was == eras[i - 1].will))
  }

  /** A value got in an era is one of its two; and one that the era did not end with was got before
      the writes of its last round were over, a slew interval before the next era. */
  ghost predicate Current(s: State, g: Got, lag: nat) {
    && g.era < |s.eras| && g.at <= s.now
    && (g.cell.level == s.eras[g.era].was || g.cell.level == s.eras[g.era].will)
    && s.eras[g.era].at <= g.at
    && (g.era + 1 < |s.eras| ==>
          && g.at <= s.eras[g.era + 1].at
          && (g.cell.level == s.eras[g.era + 1].was || g.at + SLEW <= s.eras[g.era + 1].at + lag))
  }

  /** In the era under way, a value that the key no longer holds was got no later than lag after
      the last round began. */
  ghost predicate Fresh(s: State, g: Got, key: Cell, lag: nat) {
    Current(s, g, lag) && (g.era + 1 == |s.eras| ==> g.cell.level == key.level || g.at <= s.round + lag)
  }

  ghost predicate LFresh(s: State, g: Got, lag: nat) {
    Fresh(s, g, s.powL, lag) && g.cell.value == g.cell.level
  }

  ghost predicate IntervalFresh(s: State, g: Got, lag: nat) {
    Fresh(s, g, s.powInterval, lag) && g.cell.value == MinInterval(g.cell.level)
  }

  predicate InEra(e: Era, l: nat) {
    l == e.was || l == e.will
  }

  ghost predicate KeysFit(s: State, lag: nat) {
    && ErasFit(s.eras)
    && var e := s.eras[|s.eras| - 1];
    && e.at <= s.round <= s.now
    && InEra(e, s.level) && InEra(e, s.powL.level) && InEra(e, s.powInterval.level)
    && s.powL.value == s.powL.level && s.powInterval.value == MinInterval(s.powInterval.level)
    && (s.writer.Decided? || s.writer.WroteL? ==> s.now <= s.round + lag)
    && (s.writer.WroteL? || s.writer.Quiet? ==> s.lost || s.powL.level == s.level)
    && (s.writer.Quiet? ==> s.lost || s.powInterval.level == s.level)
  }

  ghost predicate MaybeL(s: State, g: Option<Got>, lag: nat) {
    g.Some? ==> LFresh(s, g.value, lag)
  }

  ghost predicate MaybeInterval(s: State, g: Option<Got>, lag: nat) {
    g.Some? ==> IntervalFresh(s, g.value, lag)
  }

  ghost predicate CopiesFit(s: State, lag: nat) {
    && MaybeL(s, s.l, lag) && MaybeInterval(s, s.mi, lag)
    && RefresherFits(s, lag) && GetterFits(s, lag)
  }

  ghost predicate RefresherFits(s: State, lag: nat) {
    && (s.refresher.GotL? || s.refresher.GotBoth? ==> LFresh(s, s.refresher.l, lag))
    && (s.refresher.GotBoth? || s.refresher.StoredL? ==> IntervalFresh(s, s.refresher.mi, lag))
  }

  ghost predicate GetterFits(s: State, lag: nat) {
    && (!s.getter.Idle? ==> MaybeL(s, s.getter.l, lag))
    && (s.getter.LoadedMI? || s.getter.Returned? ==> MaybeInterval(s, s.getter.mi, lag))
  }

  ghost predicate Inv(s: State, lag: nat) {
    KeysFit(s, lag) && CopiesFit(s, lag)
  }

  predicate Disciplined(lim: Limits) {
    !lim.getMayFail && !lim.goOn
  }

  lemma NewEraFits(eras: seq<Era>, e: Era)
    requires ErasFit(eras) && -1 <= e.will - e.was <= 1
    requires var last := eras[|eras| - 1];
             last.at + SLEW <= e.at && InEra(last, e.was)
    ensures ErasFit(eras + [e])
  {
  }

  lemma DecideKeepsKeys(s: State, l: nat, lim: Limits)
    requires KeysFit(s, lim.lag) && CanStep(s, Decide(l), lim) && Disciplined(lim)
    ensures KeysFit(Next(s, Decide(l), lim), lim.lag)
  {
    var e := Era(s.now, s.level, l);
    NewEraFits(s.eras, e);
    assert (s.eras + [e])[|s.eras|] == e;
  }

  lemma NextKeepsKeys(s: State, step: Step, lim: Limits)
    requires KeysFit(s, lim.lag) && CanStep(s, step, lim) && Disciplined(lim)
    ensures KeysFit(Next(s, step, lim), lim.lag)
  {
    if step.Decide? {
      DecideKeepsKeys(s, step.l, lim);
    } else {
      assert Next(s, step, lim).eras == s.eras;
    }
  }

  /** What a copy is known to be survives every step. */
  lemma StaysFresh(s: State, step: Step, l: Option<Got>, mi: Option<Got>, lim: Limits)
    requires KeysFit(s, lim.lag) && CanStep(s, step, lim) && Disciplined(lim)
    requires MaybeL(s, l, lim.lag) && MaybeInterval(s, mi, lim.lag)
    ensures MaybeL(Next(s, step, lim), l, lim.lag) && MaybeInterval(Next(s, step, lim), mi, lim.lag)
  {
  }

  lemma KeysAreFresh(s: State, lag: nat)
    requires KeysFit(s, lag)
    ensures LFresh(s, Got(s.powL, EraNow(s), s.now), lag) && IntervalFresh(s, Got(s.powInterval, EraNow(s), s.now), lag)
  {
  }

  lemma NextKeepsRefresher(s: State, step: Step, lim: Limits)
    requires Inv(s, lim.lag) && CanStep(s, step, lim) && Disciplined(lim)
    ensures RefresherFits(Next(s, step, lim), lim.lag)
  {
    KeysAreFresh(s, lim.lag);
    StaysFresh(s, step, Some(Got(s.powL, EraNow(s), s.now)), Some(Got(s.powInterval, EraNow(s), s.now)), lim);
    if s.refresher.GotL? || s.refresher.GotBoth? { StaysFresh(s, step, Some(s.refresher.l), None, lim); }
    if s.refresher.GotBoth? || s.refresher.StoredL? { StaysFresh(s, step, None, Some(s.refresher.mi), lim); }
  }

  lemma NextKeepsGetter(s: State, step: Step, lim: Limits)
    requires Inv(s, lim.lag) && CanStep(s, step, lim) && Disciplined(lim)
    ensures GetterFits(Next(s, step, lim), lim.lag)
  {
    StaysFresh(s, step, s.l, s.mi, lim);
    if !s.getter.Idle? {
      StaysFresh(s, step, s.getter.l, if s.getter.LoadedL? then None else s.getter.mi, lim);
    }
  }

  lemma NextKeepsCopies(s: State, step: Step, lim: Limits)
    requires Inv(s, lim.lag) && CanStep(s, step, lim) && Disciplined(lim)
    ensures CopiesFit(Next(s, step, lim), lim.lag)
  {
    NextKeepsRefresher(s, step, lim);
    NextKeepsGetter(s, step, lim);
    StaysFresh(s, step, s.l, s.mi, lim);
    if step.StoreL? { StaysFresh(s, step, Some(s.refresher.l), None, lim); }
    if step.StoreInterval? { StaysFresh(s, step, None, Some(s.refresher.mi), lim); }
  }

  lemma NextKeepsInv(s: State, step: Step, lim: Limits)
    requires Inv(s, lim.lag) && CanStep(s, step, lim) && Disciplined(lim)
    ensures Inv(Next(s, step, lim), lim.lag)
  {
    NextKeepsKeys(s, step, lim);
    NextKeepsCopies(s, step, lim);
  }

  lemma {:induction false} RunKeepsInv(s: State, steps: seq<Step>, lim: Limits)
    requires Inv(s, lim.lag) && IsRun(s, steps, lim) && Disciplined(lim)
    ensures Inv(Final(s, steps, lim), lim.lag)
    decreases |steps|
  {
    if steps != [] {
      NextKeepsInv(s, steps[0], lim);
      RunKeepsInv(Next(s, steps[0], lim), steps[1..], lim);
    }
  }

  /** Eras that are n apart are n slew intervals apart. */
  lemma {:induction false} ErasAreSlow(eras: seq<Era>, i: nat, j: nat)
    requires ErasFit(eras) && i <= j < |eras|
    ensures eras[i].at + (j - i) * SLEW <= eras[j].at
    decreases j
  {
    if i < j { ErasAreSlow(eras, i, j - 1); }
  }

  /** The two GETs are less than a slew interval apart, lag included. */
  predicate Near(l: Got, mi: Got, lag: nat) {
    mi.at - l.at + lag < SLEW && l.at - mi.at + lag < SLEW
  }

  /** Of two values that were got near each other, the levels are at most one apart. */
  lemma NearGotsAgree(s: State, a: Got, b: Got, lag: nat)
    requires ErasFit(s.eras) && Current(s, a, lag) && Current(s, b, lag) && a.era <= b.era && b.at - a.at + lag < SLEW
    ensures -1 <= b.cell.level - a.cell.level <= 1
  {
    if a.era + 1 < b.era {
      ErasAreSlow(s.eras, a.era + 1, b.era);
    }
  }

  /** The pair is (L, MinInterval(L')) with L and L' at most one apart. */
  ghost predicate Close(l: Got, mi: Got) {
    exists d: nat :: mi.cell.value == MinInterval(d) && -1 <= d - l.cell.value <= 1
  }

  /** Bounded tearing: in every interleaving of the worker's writes, crashes and restarts with
      refreshes and calls of Get, a Get that began after a refresh had completed returns ok and a
      close pair, provided the GETs behind its two numbers are near. They may come from different
      refreshes, and either may be the older one. */
  lemma BoundedTearing(l0: nat, t0: int, steps: seq<Step>, lim: Limits)
    requires IsRun(Start(l0, t0), steps, lim) && Disciplined(lim)
    requires var g := Final(Start(l0, t0), steps, lim).getter;
             g.Returned? && g.warm
    ensures var g := Final(Start(l0, t0), steps, lim).getter;
            && g.ok && g.l.Some? && g.mi.Some?
            && (Near(g.l.value, g.mi.value, lim.lag) ==> Close(g.l.value, g.mi.value))
  {
    RunKeepsLoaded(Start(l0, t0), steps, lim);
    RunKeepsInv(Start(l0, t0), steps, lim);
    var s := Final(Start(l0, t0), steps, lim);
    var l, mi := s.getter.l.value, s.getter.mi.value;
    if Near(l, mi, lim.lag) {
      if l.era <= mi.era { NearGotsAgree(s, l, mi, lim.lag); } else { NearGotsAgree(s, mi, l, lim.lag); }
      assert mi.cell.value == MinInterval(mi.cell.level);
    }
  }

  /** A refresh and then a Get, with nothing in between, return what the keys hold. */
  lemma RefreshThenGet(s: State, lim: Limits) returns (steps: seq<Step>)
    requires s.refresher.Resting? && s.getter.Idle?
    ensures IsRun(s, steps, lim)
    ensures Final(s, steps, lim).getter
         == Returned(true, Some(Got(s.powL, EraNow(s), s.now)), Some(Got(s.powInterval, EraNow(s), s.now)), true)
  {
    var s1 := Next(s, FetchL, lim);
    var s2 := Next(s1, FetchInterval, lim);
    var s3 := Next(s2, StoreL, lim);
    steps := StoresThenGet(s3, lim);
    steps := Before(s2, StoreL, steps, lim);
    steps := Before(s1, FetchInterval, steps, lim);
    steps := Before(s, FetchL, steps, lim);
  }

  lemma StoresThenGet(s: State, lim: Limits) returns (steps: seq<Step>)
    requires s.refresher.StoredL? && s.getter.Idle?
    ensures IsRun(s, steps, lim)
    ensures Final(s, steps, lim).getter == Returned(true, s.l, Some(s.refresher.mi), true)
  {
    var s1 := Next(s, StoreInterval, lim);
    var s2 := Next(s1, StoreHave, lim);
    var s3 := Next(s2, LoadL, lim);
    var s4 := Next(s3, LoadInterval, lim);
    steps := Before(s4, LoadHave, [], lim);
    steps := Before(s3, LoadInterval, steps, lim);
    steps := Before(s2, LoadL, steps, lim);
    steps := Before(s1, StoreHave, steps, lim);
    steps := Before(s, StoreInterval, steps, lim);
  }

  ghost predicate Torn(g: Getter, lag: nat) {
    && g.Returned? && g.warm && g.l.Some? && g.mi.Some?
    && Near(g.l.value, g.mi.value, lag) && !Close(g.l.value, g.mi.value)
  }

  lemma NotClose(l: Got, mi: Got)
    requires (l.cell.value == 1 && mi.cell.value == 10) || (l.cell.value == 7 && mi.cell.value == 2)
    ensures !Close(l, mi)
  {
    forall d: nat | -1 <= d - l.cell.value <= 1 ensures mi.cell.value != MinInterval(d) {
    }
  }

  /** The worker restarts at L == 16, cannot read it and has written 1, but not yet the interval. */
  lemma FailedGetTears(t0: int, lim: Limits) returns (steps: seq<Step>)
    requires lim.getMayFail && lim.lag < SLEW
    ensures IsRun(Start(16, t0), steps, lim) && Torn(Final(Start(16, t0), steps, lim).getter, lim.lag)
  {
    var s0 := Start(16, t0);
    var s1 := Next(s0, Crash, lim);
    var s2 := Next(s1, Restart(false), lim);
    var s3 := Next(s2, SetL(true), lim);
    NotClose(Got(s3.powL, EraNow(s3), s3.now), Got(s3.powInterval, EraNow(s3), s3.now));
    steps := RefreshThenGet(s3, lim);
    steps := Before(s2, SetL(true), steps, lim);
    steps := Before(s1, Restart(false), steps, lim);
    steps := Before(s0, Crash, steps, lim);
  }

  /** L goes from 5 to 7 in two steps, and the SET of the interval is lost in the first. */
  lemma LostSetTears(t0: int, lim: Limits) returns (steps: seq<Step>)
    requires lim.goOn && lim.lag < SLEW
    ensures IsRun(Start(5, t0), steps, lim) && Torn(Final(Start(5, t0), steps, lim).getter, lim.lag)
  {
    var s0 := Start(5, t0);
    var s1 := Next(s0, Wait(SLEW), lim);
    var s2 := Next(s1, Decide(6), lim);
    var s3 := Next(s2, SetL(true), lim);
    var s4 := Next(s3, SetInterval(false), lim);
    steps := GoesOn(s4, lim);
    steps := Before(s3, SetInterval(false), steps, lim);
    steps := Before(s2, SetL(true), steps, lim);
    steps := Before(s1, Decide(6), steps, lim);
    steps := Before(s0, Wait(SLEW), steps, lim);
  }

  lemma GoesOn(s: State, lim: Limits) returns (steps: seq<Step>)
    requires lim.goOn && lim.lag < SLEW && s.writer.Quiet? && s.level == 6 && s.round == s.now
    requires s.powInterval == Cell(2, 5) && s.refresher.Resting? && s.getter.Idle?
    ensures IsRun(s, steps, lim) && Torn(Final(s, steps, lim).getter, lim.lag)
  {
    var s1 := Next(s, Wait(SLEW), lim);
    var s2 := Next(s1, Decide(7), lim);
    var s3 := Next(s2, SetL(true), lim);
    NotClose(Got(s3.powL, EraNow(s3), s3.now), Got(s3.powInterval, EraNow(s3), s3.now));
    steps := RefreshThenGet(s3, lim);
    steps := Before(s2, SetL(true), steps, lim);
    steps := Before(s1, Decide(7), steps, lim);
    steps := Before(s, Wait(SLEW), steps, lim);
  }

  ghost predicate NeverTorn(lim: Limits) {
    forall l0, t0, steps | MIN_L <= l0 <= MAX_L && IsRun(Start(l0, t0), steps, lim) ::
      !Torn(Final(Start(l0, t0), steps, lim).getter, lim.lag)
  }

  /** No run of a class returns a torn pair to a warm Get if and only if, in the class, restarts
      read pow:L and a process that has lost a SET restarts before it changes L again; or if its
      writes take a slew interval, so that no GETs count as near. A crash between the two SETs does
      no harm. */
  lemma TearingIff(lim: Limits)
    ensures NeverTorn(lim) <==> (!lim.getMayFail && !lim.goOn) || lim.lag >= SLEW
  {
    if Disciplined(lim) || lim.lag >= SLEW {
      forall l0, t0, steps | MIN_L <= l0 <= MAX_L && IsRun(Start(l0, t0), steps, lim)
        ensures !Torn(Final(Start(l0, t0), steps, lim).getter, lim.lag)
      {
        if lim.lag < SLEW && Torn(Final(Start(l0, t0), steps, lim).getter, lim.lag) {
          BoundedTearing(l0, t0, steps, lim);
        }
      }
    } else if lim.getMayFail {
      var steps := FailedGetTears(0, lim);
    } else {
      var steps := LostSetTears(0, lim);
    }
  }
}
