// The consumer loop of the counter group (internal/counterworker/counterworker.go: consume,
// apply) as the source writes it, tied to the protocol in Pipeline: whatever the loop does to
// Redis and to its offsets is a sequence of protocol steps.

module CounterWorker {
  import opened ClickEvent
  import opened ConsumerRuns
  import opened Idem
  import opened Pipeline

  /** A Redis error while one record is applied; `stored` as in Pipeline. */
  datatype Fault = NoFault | OnSee(stored: bool) | OnCount(stored: bool) | OnTally(stored: bool)

  /** seen:counter:*, counter:total and stats:accepted_total. */
  datatype Keys = Keys(seen: Seen, total: nat, stats: nat)

  /** The keys, and the consumer client: the offset its next poll starts at and the offset it
      last committed. */
  datatype State = State(keys: Keys, position: nat, committed: nat)

  datatype Outcome = Outcome(keys: Keys, ok: bool)

  function ApplySpec(k: Keys, r: Record, now: int, fault: Fault): Outcome {
    if r.Malformed? then Outcome(k, true)
    else
      var id := r.click.challengeId;
      var seen := k.(seen := SetNX(k.seen, id, now));
      var counted := seen.(total := k.total + r.click.count);
      var tallied := counted.(stats := k.stats + 1);
      if fault.OnSee? then Outcome(if fault.stored then seen else k, false)
      else if Live(k.seen, id, now) then Outcome(k, true)
      else if fault.OnCount? then Outcome(if fault.stored then counted else seen, false)
      else if fault.OnTally? then Outcome(if fault.stored then tallied else counted, false)
      else Outcome(tallied, true)
  }

  /** The batch stops at the first error. */
  function BatchSpec(k: Keys, recs: seq<Record>, now: seq<int>, faults: seq<Fault>): Outcome
    requires |now| == |faults| == |recs|
    decreases |recs|
  {
    if recs == [] then Outcome(k, true)
    else
      var head := ApplySpec(k, recs[0], now[0], faults[0]);
      if head.ok then BatchSpec(head.keys, recs[1..], now[1..], faults[1..]) else head
  }

  function ConsumeSpec(s: State, recs: seq<Record>, now: seq<int>, faults: seq<Fault>): State
    requires |now| == |faults| == |recs|
  {
    var out := BatchSpec(s.keys, recs, now, faults);
    var position := s.position + |recs|;
    State(out.keys, position, if out.ok && |recs| > 0 then position else s.committed)
  }

  class Worker {
    var seen: Seen
    var total: nat
    var stats: nat
    var position: nat
    var committed: nat

    function Now(): State
      reads this
    {
      State(Keys(seen, total, stats), position, committed)
    }

    constructor ()
      ensures Now() == State(Keys(map[], 0, 0), 0, 0)
    {
      seen, total, stats, position, committed := map[], 0, 0, 0, 0;
    }

    method Apply(rec: Record, now: int, fault: Fault) returns (ok: bool)
      modifies this`seen, this`total, this`stats
      ensures Outcome(Now().keys, ok) == ApplySpec(old(Now().keys), rec, now, fault)
    {
      if rec.Malformed? { return true; }  // poison record: skip, never block the group
      var first;
      var reply := if fault.OnSee? then Unanswered(fault.stored) else Answered;
      seen, first := FirstSee(seen, rec.click.challengeId, now, reply);
      if fault.OnSee? { return false; }
      if !first { return true; }
      if fault.OnCount? {
        if fault.stored { total := total + rec.click.count; }
        return false;
      }
      total := total + rec.click.count;
      if fault.OnTally? {
        if fault.stored { stats := stats + 1; }
        return false;
      }
      stats := stats + 1;
      return true;
    }

    /** One round of the loop: the poll has moved the client past recs; the offsets are
        committed only when every record was applied. */
    method Consume(recs: seq<Record>, now: seq<int>, faults: seq<Fault>)
      requires |now| == |faults| == |recs|
      modifies this
      ensures Now() == ConsumeSpec(old(Now()), recs, now, faults)
    {
      position := position + |recs|;
      var ok, i := true, 0;
      while i < |recs| && ok
        invariant 0 <= i <= |recs|
        invariant position == old(position) + |recs| && committed == old(committed)
        invariant ok ==> BatchSpec(Now().keys, recs[i..], now[i..], faults[i..])
                           == BatchSpec(old(Now().keys), recs, now, faults)
        invariant !ok ==> Outcome(Now().keys, false) == BatchSpec(old(Now().keys), recs, now, faults)
      {
        ok := Apply(recs[i], now[i], faults[i]);
        i := i + 1;
      }
      if ok && |recs| > 0 {
        committed := position;
      }
    }

    /** A restarted client resumes from the committed offset. */
    method Restart()
      modifies this`position
      ensures Now() == old(Now()).(position := committed)
    {
      position := committed;
    }
  }

  // ----- what can stop the loop -----

  /** A command that was made for the record failed: the SETNX, or for its winner an increment. */
  predicate CommandFails(k: Keys, r: Record, now: int, fault: Fault) {
    r.Accepted? && (fault.OnSee? || (!Live(k.seen, r.click.challengeId, now) && !fault.NoFault?))
  }

  /** Only a failed command breaks a batch off: not a record that does not decode, and not one that
      was delivered before. A failed command always does. */
  lemma FailsIffCommandFails(k: Keys, r: Record, now: int, fault: Fault)
    ensures ApplySpec(k, r, now, fault).ok <==> !CommandFails(k, r, now, fault)
    ensures r.Malformed? ==> ApplySpec(k, r, now, fault).keys == k
    ensures r.Accepted? && Live(k.seen, r.click.challengeId, now) ==> ApplySpec(k, r, now, fault).keys == k
  {
  }

  /** A batch without faults at its well-formed records is applied to the end and committed. */
  lemma {:induction false} CleanBatchCommits(s: State, recs: seq<Record>, now: seq<int>, faults: seq<Fault>)
    requires |now| == |faults| == |recs|
    requires forall i | 0 <= i < |recs| && recs[i].Accepted? :: faults[i].NoFault?
    ensures BatchSpec(s.keys, recs, now, faults).ok
    ensures recs != [] ==> ConsumeSpec(s, recs, now, faults).committed == s.position + |recs|
    decreases |recs|
  {
    if recs != [] {
      var head := ApplySpec(s.keys, recs[0], now[0], faults[0]);
      CleanBatchCommits(s.(keys := head.keys), recs[1..], now[1..], faults[1..]);
    }
  }

  /** Poison records make no difference: the batch has the keys and the result that it has without
      them. */
  lemma {:induction false} PoisonIsSkipped(k: Keys, recs: seq<Record>, now: seq<int>, faults: seq<Fault>)
    requires |now| == |faults| == |recs|
    ensures |Decoded(recs, now)| == |Decoded(recs, faults)| == |Decoded(recs, recs)|
    ensures BatchSpec(k, recs, now, faults)
         == BatchSpec(k, Decoded(recs, recs), Decoded(recs, now), Decoded(recs, faults))
    decreases |recs|
  {
    DecodedInStep(recs, now, faults);
    DecodedInStep(recs, now, recs);
    if recs != [] {
      PoisonIsSkipped(ApplySpec(k, recs[0], now[0], faults[0]).keys, recs[1..], now[1..], faults[1..]);
      DecodedFront(recs, recs);
      DecodedFront(recs, now);
      DecodedFront(recs, faults);
    }
  }

  // ----- the loop is a run of the protocol -----

  function KeysOf(g: GroupState): Keys
    requires g.effects.Totals?
  {
    Keys(g.seen, g.effects.total, g.effects.stats)
  }

  /** The protocol actions that applying one record amounts to. */
  function Actions(k: Keys, r: Record, now: int, fault: Fault): seq<Timed> {
    if r.Malformed? then [Timed(See, now)]
    else if fault.OnSee? then [Timed(SeeFault(fault.stored), now)]
    else if Live(k.seen, r.click.challengeId, now) then [Timed(See, now)]
    else if fault.OnCount? then [Timed(See, now), Timed(ApplyFault(fault.stored), now)]
    else if fault.OnTally? then [Timed(See, now), Timed(Action.Apply, now), Timed(TallyFault(fault.stored), now)]
    else [Timed(See, now), Timed(Action.Apply, now), Timed(Tally, now)]
  }

  /** g' is g after consumer k moved to c; other consumers and all offsets stand still. */
  predicate OnlyMoves(g: GroupState, g': GroupState, k: nat, c: Consumer) {
    && k < |g.consumers|
    && g'.consumers == g.consumers[k := c]
    && g'.committed == g.committed
    && g'.effects.Totals?
  }

  /** What applying a record does, as protocol actions on consumer k. */
  ghost predicate Matches(g: GroupState, parts: seq<seq<Record>>, k: nat, now: int, fault: Fault, acts: seq<Timed>)
    requires WellFormed(g, parts) && g.effects.Totals? && Enabled(g, parts, k, See)
  {
    var c := g.consumers[k];
    var out := ApplySpec(KeysOf(g), parts[c.part][c.next], now, fault);
    && CanAll(g, parts, k, acts)
    && var g' := DoAll(g, parts, k, acts);
    && OnlyMoves(g, g', k, if out.ok then c.(next := c.next + 1) else Abort(c))
    && KeysOf(g') == out.keys
  }

  /** The SETNX was won and the first increment fails. */
  lemma WonFailsIsSteps(g: GroupState, parts: seq<seq<Record>>, k: nat, now: int, fault: Fault)
    requires WellFormed(g, parts) && g.effects.Totals? && Enabled(g, parts, k, See)
    requires var r := parts[g.consumers[k].part][g.consumers[k].next];
             r.Accepted? && !Live(g.seen, r.click.challengeId, now)
    requires fault.OnCount?
    ensures var r := parts[g.consumers[k].part][g.consumers[k].next];
            Matches(g, parts, k, now, fault, Actions(KeysOf(g), r, now, fault))
  {
    var see, count := Timed(See, now), Timed(ApplyFault(fault.stored), now);
    One(g, parts, k, see);
    var g1 := DoAll(g, parts, k, [see]);
    assert g1.wins[|g.wins|].click == parts[g.consumers[k].part][g.consumers[k].next].click;
    Push(g, parts, k, [see], count);
    assert [see, count] == [see] + [count];
  }

  /** The SETNX was won and the first increment runs; the second may fail. */
  lemma WonCountsIsSteps(g: GroupState, parts: seq<seq<Record>>, k: nat, now: int, fault: Fault)
    requires WellFormed(g, parts) && g.effects.Totals? && Enabled(g, parts, k, See)
    requires var r := parts[g.consumers[k].part][g.consumers[k].next];
             r.Accepted? && !Live(g.seen, r.click.challengeId, now)
    requires fault.NoFault? || fault.OnTally?
    ensures var r := parts[g.consumers[k].part][g.consumers[k].next];
            Matches(g, parts, k, now, fault, Actions(KeysOf(g), r, now, fault))
  {
    var see, count := Timed(See, now), Timed(Action.Apply, now);
    var tally := if fault.OnTally? then Timed(TallyFault(fault.stored), now) else Timed(Tally, now);
    One(g, parts, k, see);
    var g1 := DoAll(g, parts, k, [see]);
    assert g1.wins[|g.wins|].click == parts[g.consumers[k].part][g.consumers[k].next].click;
    Push(g, parts, k, [see], count);
    assert [see, count] == [see] + [count];
    Push(g, parts, k, [see, count], tally);
    assert [see, count, tally] == [see, count] + [tally];
  }

  lemma RecordIsSteps(g: GroupState, parts: seq<seq<Record>>, k: nat, now: int, fault: Fault)
    requires WellFormed(g, parts) && g.effects.Totals? && Enabled(g, parts, k, See)
    ensures var r := parts[g.consumers[k].part][g.consumers[k].next];
            Matches(g, parts, k, now, fault, Actions(KeysOf(g), r, now, fault))
  {
    var r := parts[g.consumers[k].part][g.consumers[k].next];
    if r.Accepted? && !fault.OnSee? && !Live(g.seen, r.click.challengeId, now) {
      if fault.OnCount? {
        WonFailsIsSteps(g, parts, k, now, fault);
      } else {
        WonCountsIsSteps(g, parts, k, now, fault);
      }
    } else {
      One(g, parts, k, Actions(KeysOf(g), r, now, fault)[0]);
    }
  }

  lemma {:induction false} BatchIsSteps(g: GroupState, parts: seq<seq<Record>>, k: nat, now: seq<int>,
                                        faults: seq<Fault>)
    returns (acts: seq<Timed>)
    requires WellFormed(g, parts) && g.effects.Totals? && k < |g.consumers|
    requires var c := g.consumers[k];
             c.stage.Ready? && c.ok && |now| == |faults| == c.end - c.next
    ensures var c := g.consumers[k];
            var out := BatchSpec(KeysOf(g), parts[c.part][c.next..c.end], now, faults);
            && CanAll(g, parts, k, acts)
            && var g' := DoAll(g, parts, k, acts);
            && OnlyMoves(g, g', k, c.(next := c.end, ok := out.ok))
            && KeysOf(g') == out.keys
    decreases |now|
  {
    var c := g.consumers[k];
    var recs := parts[c.part][c.next..c.end];
    if recs == [] {
      acts := [];
    } else {
      assert Enabled(g, parts, k, See);
      RecordIsSteps(g, parts, k, now[0], faults[0]);
      acts := Actions(KeysOf(g), recs[0], now[0], faults[0]);
      var g1 := DoAll(g, parts, k, acts);
      if ApplySpec(KeysOf(g), recs[0], now[0], faults[0]).ok {
        assert recs[1..] == parts[c.part][c.next + 1..c.end];
        var rest := BatchIsSteps(g1, parts, k, now[1..], faults[1..]);
        DoAllAppend(g, parts, k, acts, rest);
        acts := acts + rest;
      }
    }
  }

  /** A round of the loop, with any errors at any records, is a run of one consumer of the
      protocol: poll, commands, and the commit if there is one. What is proved about runs
      holds of the loop. */
  lemma ConsumeIsSteps(g: GroupState, parts: seq<seq<Record>>, k: nat, n: nat, now: seq<int>, faults: seq<Fault>)
    returns (acts: seq<Timed>)
    requires WellFormed(g, parts) && g.effects.Totals? && Enabled(g, parts, k, Poll(n)) && |now| == |faults| == n
    ensures var c := g.consumers[k];
            var s := State(KeysOf(g), c.next, g.committed[c.part]);
            && CanAll(g, parts, k, acts)
            && var g' := DoAll(g, parts, k, acts);
            && g'.effects.Totals? && k < |g'.consumers| && g'.consumers[k].part == c.part
            && g'.consumers[k].stage.Ready? && g'.consumers[k].next == g'.consumers[k].end
            && State(KeysOf(g'), g'.consumers[k].next, g'.committed[c.part])
               == ConsumeSpec(s, parts[c.part][c.next..c.next + n], now, faults)
  {
    var c := g.consumers[k];
    var poll := [Timed(Poll(n), 0)];
    One(g, parts, k, poll[0]);
    var g1 := DoAll(g, parts, k, poll);
    var batch := BatchIsSteps(g1, parts, k, now, faults);
    DoAllAppend(g, parts, k, poll, batch);
    acts := poll + batch;
    var g2 := DoAll(g, parts, k, acts);
    if g2.consumers[k].ok && n > 0 {
      Push(g, parts, k, acts, Timed(Action.Commit, 0));
      acts := acts + [Timed(Action.Commit, 0)];
    }
  }

  // ----- two claims of the source's comments that the code does not meet -----

  /** The group after a consumer won the SETNX of the only record and crashed. */
  function Crashed(click: Click, t0: int): GroupState {
    GroupState(map[click.challengeId := t0 + SEEN_TTL], Totals(0, 0), [0], [Consumer(0, 0, 0, true, Ready)],
               [Win(click, false, false)], [1])
  }

  lemma WinThenCrash(click: Click, at: int, t0: int)
    ensures var parts := [[Accepted(click, at)]];
            var g := StartGroup(Totals(0, 0), 1, [0]);
            var acts := [Timed(Poll(1), t0), Timed(See, t0), Timed(Action.Restart, t0)];
            WellFormed(g, parts) && CanAll(g, parts, 0, acts) && DoAll(g, parts, 0, acts) == Crashed(click, t0)
  {
    var parts, g := [[Accepted(click, at)]], StartGroup(Totals(0, 0), 1, [0]);
    var poll, see, restart := Timed(Poll(1), t0), Timed(See, t0), Timed(Action.Restart, t0);
    One(g, parts, 0, poll);
    assert DoAll(g, parts, 0, [poll]).consumers == [Consumer(0, 0, 1, true, Ready)];
    Push(g, parts, 0, [poll], see);
    assert [poll] + [see] == [poll, see];
    Push(g, parts, 0, [poll, see], restart);
    assert [poll, see] + [restart] == [poll, see, restart];
  }

  lemma RedeliveryIsSkipped(click: Click, at: int, t0: int, t1: int)
    requires t0 <= t1 < t0 + SEEN_TTL
    ensures var parts := [[Accepted(click, at)]];
            var g := Crashed(click, t0);
            var acts := [Timed(Poll(1), t1), Timed(See, t1), Timed(Action.Commit, t1)];
            && WellFormed(g, parts) && CanAll(g, parts, 0, acts)
            && DoAll(g, parts, 0, acts).committed == [1] && DoAll(g, parts, 0, acts).effects == Totals(0, 0)
  {
    var parts, g := [[Accepted(click, at)]], Crashed(click, t0);
    var poll, see, commit := Timed(Poll(1), t1), Timed(See, t1), Timed(Action.Commit, t1);
    One(g, parts, 0, poll);
    assert DoAll(g, parts, 0, [poll]).consumers == [Consumer(0, 0, 1, true, Ready)];
    Push(g, parts, 0, [poll], see);
    assert [poll] + [see] == [poll, see];
    Push(g, parts, 0, [poll, see], commit);
    assert [poll, see] + [commit] == [poll, see, commit];
  }

  /** "A crash re-delivers rather than drops": the record is delivered again, but the key its
      first delivery left makes the second one skip it. For every click whatever: the restart
      after the SETNX leaves the counter group done with the log and without the click. */
  lemma CrashDropsClick(click: Click, at: int, t0: int, t1: int)
    requires t0 <= t1 < t0 + SEEN_TTL
    ensures var parts := [[Accepted(click, at)]];
            var g := StartGroup(Totals(0, 0), 1, [0]);
            var acts := [Timed(Poll(1), t0), Timed(See, t0), Timed(Action.Restart, t0)]
                        + [Timed(Poll(1), t1), Timed(See, t1), Timed(Action.Commit, t1)];
            && WellFormed(g, parts) && CanAll(g, parts, 0, acts)
            && var g' := DoAll(g, parts, 0, acts);
               g'.committed == [1] && g'.effects == Totals(0, 0)
  {
    WinThenCrash(click, at, t0);
    RedeliveryIsSkipped(click, at, t0, t1);
    DoAllAppend(StartGroup(Totals(0, 0), 1, [0]), [[Accepted(click, at)]], 0,
                [Timed(Poll(1), t0), Timed(See, t0), Timed(Action.Restart, t0)],
                [Timed(Poll(1), t1), Timed(See, t1), Timed(Action.Commit, t1)]);
  }

  /** What happens to the client after a batch: rounds of the loop, with errors or not, and
      restarts. */
  datatype Event = Round(recs: seq<Record>, now: seq<int>, faults: seq<Fault>) | Restarted

  predicate Timely(events: seq<Event>) {
    forall i | 0 <= i < |events| && events[i].Round? :: |events[i].now| == |events[i].faults| == |events[i].recs|
  }

  function After(s: State, e: Event): State
    requires Timely([e])
  {
    assert [e][0] == e;
    match e
    case Round(recs, now, faults) => ConsumeSpec(s, recs, now, faults)
    case Restarted => s.(position := s.committed)
  }

  /** A restart is the protocol's restart: the client stands at its committed offset, with no batch, and
      the keys are as they were. */
  lemma RestartIsStep(g: GroupState, parts: seq<seq<Record>>, k: nat, now: int)
    requires WellFormed(g, parts) && g.effects.Totals? && k < |g.consumers|
    ensures var c, g' := g.consumers[k], Do(g, parts, now, k, Action.Restart);
            var s := State(KeysOf(g), c.next, g.committed[c.part]);
            && Timely([Restarted]) && g'.effects.Totals?
            && State(KeysOf(g'), g'.consumers[k].next, g'.committed[c.part]) == After(s, Restarted)
            && g'.consumers[k].end == g'.consumers[k].next && g'.consumers[k].part == c.part && g'.wins == g.wins
  {
    assert [Restarted][0] == Restarted;
  }

  /** A round with records in it, all of them applied without an error. */
  predicate Succeeds(s: State, e: Event)
    requires Timely([e])
  {
    assert [e][0] == e;
    e.Round? && |e.recs| > 0 && BatchSpec(s.keys, e.recs, e.now, e.faults).ok
  }

  /** At some point the client stands at or before the offset again, so it polls it again. */
  ghost predicate Redelivered(s: State, events: seq<Event>, offset: nat)
    requires Timely(events)
    decreases |events|
  {
    s.position <= offset ||
    (events != [] && (assert Timely([events[0]]); Redelivered(After(s, events[0]), events[1..], offset)))
  }

  /** The process restarts before any later batch with records in it succeeds. */
  predicate RestartsFirst(s: State, events: seq<Event>)
    requires Timely(events)
    decreases |events|
  {
    if events == [] then false
    else if events[0].Restarted? then true
    else
      assert Timely([events[0]]);
      !Succeeds(s, events[0]) && RestartsFirst(After(s, events[0]), events[1..])
  }

  lemma {:induction false} CommittedNeverFallsBack(s: State, events: seq<Event>, offset: nat)
    requires Timely(events) && offset < s.committed <= s.position
    ensures !Redelivered(s, events, offset)
    decreases |events|
  {
    if events != [] {
      assert Timely([events[0]]);
      CommittedNeverFallsBack(After(s, events[0]), events[1..], offset);
    }
  }

  /** "On a Redis error it stops before committing (so the batch re-delivers)": for a record that
      the loop has moved past without committing it, over any later rounds of the loop, this
      holds if and only if the process restarts before its next successful batch; otherwise that
      batch's commit covers it. */
  lemma {:induction false} RedeliveredIffRestart(s: State, events: seq<Event>, offset: nat)
    requires Timely(events) && s.committed <= offset < s.position
    ensures Redelivered(s, events, offset) <==> RestartsFirst(s, events)
    decreases |events|
  {
    if events != [] {
      assert Timely([events[0]]);
      var s' := After(s, events[0]);
      if events[0].Restarted? {
        assert Redelivered(s', events[1..], offset);
      } else if Succeeds(s, events[0]) {
        CommittedNeverFallsBack(s', events[1..], offset);
      } else {
        RedeliveredIffRestart(s', events[1..], offset);
      }
    }
  }

  /** In particular for a batch that an error broke off: every record of it. */
  lemma BrokenBatchRedelivered(s: State, batch: Event, events: seq<Event>, offset: nat)
    requires Timely([batch]) && Timely(events) && batch.Round? && s.committed <= s.position <= offset
    requires offset < s.position + |batch.recs| && !Succeeds(s, batch)
    ensures Redelivered(After(s, batch), events, offset) <==> RestartsFirst(After(s, batch), events)
  {
    assert [batch][0] == batch;
    RedeliveredIffRestart(After(s, batch), events, offset);
  }
}
