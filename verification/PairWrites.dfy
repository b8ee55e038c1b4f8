// What the control loop writes to pow:L and pow:min_interval (internal/counterworker/counterworker.go:
// tick, writeDifficulty), and that its passes and starts are the writer's steps of the protocol
// in Difficulty.

module PairWrites {
  import opened Controller
  import opened Idem
  import opened TickLoop
  import D = Difficulty

  // ----- what the keys hold -----

  /** A start writes the pair, and so does a pass that changes L. */
  predicate Writes(decay: Decay, s: State, e: Event) {
    e.Restart? || After(decay, s, e).l != s.l
  }

  /** Of which level the key pow:L, and of which level the key pow:min_interval is after a run: of the L
      of the last SET that was stored, or still of the one it was of before. */
  function LevelOfL(decay: Decay, s: State, events: seq<Event>, level: nat): nat
    decreases |events|
  {
    if events == [] then level
    else
      var s' := After(decay, s, events[0]);
      LevelOfL(decay, s', events[1..],
               if Writes(decay, s, events[0]) && Stores(events[0].sets.l) then s'.l else level)
  }

  function LevelOfInterval(decay: Decay, s: State, events: seq<Event>, level: nat): nat
    decreases |events|
  {
    if events == [] then level
    else
      var s' := After(decay, s, events[0]);
      LevelOfInterval(decay, s', events[1..],
                      if Writes(decay, s, events[0]) && Stores(events[0].sets.interval) then s'.l else level)
  }

  lemma AfterWrites(decay: Decay, s: State, e: Event)
    ensures var s' := After(decay, s, e);
            && s'.powL == (if Writes(decay, s, e) && Stores(e.sets.l) then s'.l else s.powL)
            && s'.powInterval
               == if Writes(decay, s, e) && Stores(e.sets.interval) then MinInterval(s'.l) else s.powInterval
  {
  }

  /** In every run, whichever SETs are lost: pow:L holds the L, and pow:min_interval the interval that
      belongs to the L, of the last SET of that key that was stored. */
  lemma {:induction false} KeysHoldLastStored(decay: Decay, s: State, events: seq<Event>, l: nat, m: nat)
    requires s.powL == l && s.powInterval == MinInterval(m)
    ensures var f := Run(decay, s, events);
            && f.powL == LevelOfL(decay, s, events, l)
            && f.powInterval == MinInterval(LevelOfInterval(decay, s, events, m))
    decreases |events|
  {
    hide After, Controller.MinInterval;
    if events != [] {
      var e := events[0];
      var s' := After(decay, s, e);
      AfterWrites(decay, s, e);
      KeysHoldLastStored(decay, s', events[1..],
                         if Writes(decay, s, e) && Stores(e.sets.l) then s'.l else l,
                         if Writes(decay, s, e) && Stores(e.sets.interval) then s'.l else m);
    }
  }

  /** After a start, while no SET is lost, the keys are the loop's L and the interval that belongs to it. */
  lemma {:induction false} PairAgrees(decay: Decay, s: State, events: seq<Event>)
    requires events != [] && events[0].Restart?
    requires forall i | 0 <= i < |events| :: Stores(events[i].sets.l) && Stores(events[i].sets.interval)
    ensures var f := Run(decay, s, events); f.powL == f.l && f.powInterval == MinInterval(f.l)
  {
    AfterWrites(decay, s, events[0]);
    StillAgrees(decay, After(decay, s, events[0]), events[1..]);
  }

  lemma {:induction false} StillAgrees(decay: Decay, s: State, events: seq<Event>)
    requires s.powL == s.l && s.powInterval == MinInterval(s.l)
    requires forall i | 0 <= i < |events| :: Stores(events[i].sets.l) && Stores(events[i].sets.interval)
    ensures var f := Run(decay, s, events); f.powL == f.l && f.powInterval == MinInterval(f.l)
    decreases |events|
  {
    hide After, Controller.MinInterval;
    if events != [] {
      AfterWrites(decay, s, events[0]);
      StillAgrees(decay, After(decay, s, events[0]), events[1..]);
    }
  }

  // ----- the loop is the writer of the protocol -----

  /** The loop between two events, as the protocol sees it; pow:L is in range. */
  ghost predicate Tracks(s: State, d: D.State) {
    && d.writer.Quiet? && d.now == s.clock && d.level == s.l && d.round == s.lastChange
    && d.powL.value == s.powL && d.powInterval.value == s.powInterval && MIN_L <= s.powL <= MAX_L
  }

  /** The replica's part of the state. */
  predicate SameReader(d: D.State, d': D.State) {
    d'.refresher == d.refresher && d'.l == d.l && d'.mi == d.mi && d'.have == d.have && d'.getter == d.getter
  }

  /** The limits allow the event: a GET that fails, a change of L after a lost SET. */
  predicate Permits(decay: Decay, s: State, e: Event, lost: bool, lim: D.Limits) {
    if e.Restart? then e.gotL || lim.getMayFail else After(decay, s, e).l != s.l && lost ==> lim.goOn
  }

  function StepsOf(decay: Decay, s: State, e: Event): seq<D.Step>
    requires s.clock <= e.now
  {
    [D.Wait(e.now - s.clock)]
    + (if e.Restart? then [D.Crash, D.Restart(e.gotL)]
       else if Writes(decay, s, e) then [D.Decide(After(decay, s, e).l)] else [])
    + if Writes(decay, s, e) then [D.SetL(Stores(e.sets.l)), D.SetInterval(Stores(e.sets.interval))] else []
  }

  function LostAfter(decay: Decay, s: State, e: Event, lost: bool): bool {
    if Writes(decay, s, e) then !Stores(e.sets.l) || !Stores(e.sets.interval) else lost
  }

  /** The two SETs. */
  lemma WritesPair(d: D.State, lim: D.Limits, sets: Sets) returns (d': D.State)
    requires d.writer.Decided?
    ensures var steps := [D.SetL(Stores(sets.l)), D.SetInterval(Stores(sets.interval))];
            D.IsRun(d, steps, lim) && D.Final(d, steps, lim) == d'
    ensures d'.writer.Quiet? && d'.now == d.now && d'.level == d.level && d'.round == d.round && SameReader(d, d')
    ensures d'.powL.value == if Stores(sets.l) then d.level else d.powL.value
    ensures d'.powInterval.value == if Stores(sets.interval) then MinInterval(d.level) else d.powInterval.value
    ensures d'.lost == (d.lost || !Stores(sets.l) || !Stores(sets.interval))
  {
    hide D.IsRun, D.Final;
    var a, b := D.SetL(Stores(sets.l)), D.SetInterval(Stores(sets.interval));
    var d1 := D.Next(d, a, lim);
    d' := D.Next(d1, b, lim);
    NoSteps(d', lim);
    RunStep(d1, b, [], lim);
    assert [b] + [] == [b] && [a] + [b] == [a, b];
    RunStep(d, a, [b], lim);
  }

  lemma NoSteps(d: D.State, lim: D.Limits)
    ensures D.IsRun(d, [], lim) && D.Final(d, [], lim) == d
  {
  }

  lemma RunStep(d: D.State, step: D.Step, rest: seq<D.Step>, lim: D.Limits)
    requires D.CanStep(d, step, lim) && D.IsRun(D.Next(d, step, lim), rest, lim)
    ensures D.IsRun(d, [step] + rest, lim)
    ensures D.Final(d, [step] + rest, lim) == D.Final(D.Next(d, step, lim), rest, lim)
  {
    assert ([step] + rest)[1..] == rest;
  }

  lemma StartIsSteps(decay: Decay, s: State, e: Event, d: D.State, lim: D.Limits)
    requires s.clock <= e.now && Tracks(s, d) && e.Restart? && Permits(decay, s, e, d.lost, lim)
    ensures var steps := StepsOf(decay, s, e);
            && D.IsRun(d, steps, lim)
            && var d' := D.Final(d, steps, lim);
            && Tracks(After(decay, s, e), d') && SameReader(d, d') && d'.lost == LostAfter(decay, s, e, d.lost)
  {
    AfterWrites(decay, s, e);
    var wait := D.Wait(e.now - s.clock);
    var d1 := D.Next(d, wait, lim);
    var d2 := D.Next(d1, D.Crash, lim);
    var d3 := D.Next(d2, D.Restart(e.gotL), lim);
    var d4 := WritesPair(d3, lim, e.sets);
    var pair := [D.SetL(Stores(e.sets.l)), D.SetInterval(Stores(e.sets.interval))];
    RunStep(d2, D.Restart(e.gotL), pair, lim);
    RunStep(d1, D.Crash, [D.Restart(e.gotL)] + pair, lim);
    RunStep(d, wait, [D.Crash] + ([D.Restart(e.gotL)] + pair), lim);
    assert StepsOf(decay, s, e) == [wait] + ([D.Crash] + ([D.Restart(e.gotL)] + pair));
  }

  lemma PassIsSteps(decay: Decay, s: State, e: Event, d: D.State, lim: D.Limits)
    requires Sound(s) && s.clock <= e.now && Tracks(s, d) && e.Tick? && Permits(decay, s, e, d.lost, lim)
    ensures var steps := StepsOf(decay, s, e);
            && D.IsRun(d, steps, lim)
            && var d' := D.Final(d, steps, lim);
            && Tracks(After(decay, s, e), d') && SameReader(d, d') && d'.lost == LostAfter(decay, s, e, d.lost)
  {
    AfterIsSound(decay, s, e, 0);
    AfterWrites(decay, s, e);
    var s' := After(decay, s, e);
    var wait := D.Wait(e.now - s.clock);
    var d1 := D.Next(d, wait, lim);
    hide After;
    if Writes(decay, s, e) {
      var d2 := D.Next(d1, D.Decide(s'.l), lim);
      var d3 := WritesPair(d2, lim, e.sets);
      var pair := [D.SetL(Stores(e.sets.l)), D.SetInterval(Stores(e.sets.interval))];
      RunStep(d1, D.Decide(s'.l), pair, lim);
      RunStep(d, wait, [D.Decide(s'.l)] + pair, lim);
      assert StepsOf(decay, s, e) == [wait] + ([D.Decide(s'.l)] + pair);
    } else {
      NoSteps(d1, lim);
      RunStep(d, wait, [], lim);
      assert StepsOf(decay, s, e) == [wait] + [];
      QuietPass(decay, s, e);
    }
  }

  /** A pass, and a crash with the start that follows it, are steps of the writer: a decision or a
      restart, then SetL, then SetInterval. */
  lemma EventIsSteps(decay: Decay, s: State, e: Event, d: D.State, lim: D.Limits)
    requires Sound(s) && s.clock <= e.now && Tracks(s, d) && Permits(decay, s, e, d.lost, lim)
    ensures var steps := StepsOf(decay, s, e);
            && D.IsRun(d, steps, lim)
            && var d' := D.Final(d, steps, lim);
            && Tracks(After(decay, s, e), d') && SameReader(d, d') && d'.lost == LostAfter(decay, s, e, d.lost)
  {
    hide After, StepsOf, Tracks;
    if e.Restart? {
      StartIsSteps(decay, s, e, d, lim);
    } else {
      PassIsSteps(decay, s, e, d, lim);
    }
  }

  lemma QuietPass(decay: Decay, s: State, e: Event)
    requires e.Tick? && !Writes(decay, s, e)
    ensures After(decay, s, e).lastChange == s.lastChange
  {
  }

  /** Every event of a run is permitted. */
  ghost predicate Obeys(decay: Decay, s: State, events: seq<Event>, lost: bool, lim: D.Limits)
    decreases |events|
  {
    events == [] ||
    (Permits(decay, s, events[0], lost, lim)
     && Obeys(decay, After(decay, s, events[0]), events[1..], LostAfter(decay, s, events[0], lost), lim))
  }

  /** So a run of the loop is a run of the protocol's writer, and what is proved of the pair that a Get
      returns is about what this loop writes. */
  lemma {:induction false} RunIsSteps(decay: Decay, s: State, events: seq<Event>, d: D.State, lim: D.Limits)
    returns (steps: seq<D.Step>)
    requires Sound(s) && InTime(decay, s, events) && Tracks(s, d) && Obeys(decay, s, events, d.lost, lim)
    ensures D.IsRun(d, steps, lim)
    ensures var d' := D.Final(d, steps, lim); Tracks(Run(decay, s, events), d') && SameReader(d, d')
    decreases |events|
  {
    hide After, StepsOf, Permits, Tracks;
    if events == [] {
      steps := [];
    } else {
      var e := events[0];
      AfterIsSound(decay, s, e, 0);
      EventIsSteps(decay, s, e, d, lim);
      var first := StepsOf(decay, s, e);
      var rest := RunIsSteps(decay, After(decay, s, e), events[1..], D.Final(d, first, lim), lim);
      RunsJoin(d, first, rest, lim);
      steps := first + rest;
    }
  }

  lemma {:induction false} RunsJoin(d: D.State, a: seq<D.Step>, b: seq<D.Step>, lim: D.Limits)
    requires D.IsRun(d, a, lim) && D.IsRun(D.Final(d, a, lim), b, lim)
    ensures D.IsRun(d, a + b, lim) && D.Final(d, a + b, lim) == D.Final(D.Final(d, a, lim), b, lim)
    decreases |a|
  {
    if a == [] {
      assert a + b == b;
    } else {
      RunsJoin(D.Next(d, a[0], lim), a[1..], b, lim);
      assert (a + b)[1..] == a[1..] + b;
    }
  }

  /** A first start whose two SETs are stored is where the runs of the protocol start. */
  lemma BeginIsStart(powL: nat, powInterval: nat, now: int, gotL: bool, stats: Reading, sets: Sets)
    requires Stores(sets.l) && Stores(sets.interval)
    ensures var s := Begin(powL, powInterval, now, gotL, stats, sets);
            Sound(s) && Tracks(s, D.Start(s.l, now)) && !D.Start(s.l, now).lost
  {
  }

  /** The replica's steps leave the loop's part as it is, so they may come in between. */
  lemma ReaderKeepsTracks(s: State, d: D.State, step: D.Step, lim: D.Limits)
    requires Tracks(s, d) && D.CanStep(d, step, lim)
    requires !step.Wait? && !step.Decide? && !step.Crash?
    ensures Tracks(s, D.Next(d, step, lim)) && D.Next(d, step, lim).lost == d.lost
  {
  }
}
