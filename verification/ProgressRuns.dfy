// Any number of rounds of the progress group, by any of its consumers, with errors, batches
// broken off and records delivered again: Redis is what Views says of the events that took
// effect.

module ProgressRuns {
  import opened ClickEvent
  import opened Idem
  import opened Pipeline
  import opened ProgressWorker
  import opened Token
  import opened Views
  import Achievements

  /** A polled batch and how its records go. */
  datatype Round = Round(recs: seq<Record>, turns: seq<Turn>)

  predicate Polled(round: Round) {
    |round.turns| == |round.recs| && forall i | 0 <= i < |round.recs| :: Known(round.recs[i])
  }

  predicate AllPolled(rounds: seq<Round>) {
    forall i | 0 <= i < |rounds| :: Polled(rounds[i])
  }

  /** The seen keys and the other keys after the rounds, one Consume each. */
  ghost function RoundsSpec(rules: Achievements.Rules, seen: Seen, r: Redis, rounds: seq<Round>): (Seen, Redis)
    requires AllPolled(rounds)
    decreases |rounds|
  {
    if rounds == [] then (seen, r)
    else
      assert Polled(rounds[0]);
      var out := BatchSpec(rules, seen, r, rounds[0].recs, rounds[0].turns);
      RoundsSpec(rules, out.seen, out.redis, rounds[1..])
  }

  // ----- the events that took effect -----

  /** A pipeline that ran although its reply was lost: none of the unlocks it earns is claimed and
      the streak is not saved. */
  ghost function Unclaimed(ths: seq<Achievements.Threshold>, r: Redis, c: Click, t: Turn): Event
    requires c.tsUnix >= 0
  {
    var total := ScoreOf(r.alltime, c.sub) + c.count;
    var ids := Achievements.RulesOf(ths)(total, Achievements.Batch(c.count, c.tsUnix, {}));
    Event(c, t.readAt, t.at, (set id | id in ids), WriteFails)
  }

  ghost function RecordEvents(ths: seq<Achievements.Threshold>, seen: Seen, r: Redis, rec: Record, t: Turn): seq<Event>
    requires Known(rec)
  {
    if rec.Malformed? || t.fault.OnSee? || Live(seen, rec.click.challengeId, t.now) || !Stored(t) then []
    else if t.fault.OnPipe? then [Unclaimed(ths, r, rec.click, t)]
    else [EventOf(rec.click, t)]
  }

  ghost function BatchEvents(ths: seq<Achievements.Threshold>, seen: Seen, r: Redis, recs: seq<Record>,
                             turns: seq<Turn>): seq<Event>
    requires |turns| == |recs| && forall i | 0 <= i < |recs| :: Known(recs[i])
    decreases |recs|
  {
    if recs == [] then []
    else
      var head := ApplySpec(Achievements.RulesOf(ths), seen, r, recs[0], turns[0]);
      RecordEvents(ths, seen, r, recs[0], turns[0])
      + if head.ok then BatchEvents(ths, head.seen, head.redis, recs[1..], turns[1..]) else []
  }

  ghost function RoundsEvents(ths: seq<Achievements.Threshold>, seen: Seen, r: Redis, rounds: seq<Round>): seq<Event>
    requires AllPolled(rounds)
    decreases |rounds|
  {
    if rounds == [] then []
    else
      assert Polled(rounds[0]);
      var out := BatchSpec(Achievements.RulesOf(ths), seen, r, rounds[0].recs, rounds[0].turns);
      BatchEvents(ths, seen, r, rounds[0].recs, rounds[0].turns)
      + RoundsEvents(ths, out.seen, out.redis, rounds[1..])
  }

  // ----- and Redis after them -----

  /** The lost reply is an event that missed all its claims. */
  lemma UnclaimedIsPiped(ths: seq<Achievements.Threshold>, r: Redis, c: Click, t: Turn)
    requires 0 <= c.tsUnix && Dated(EventOf(c, t))
    ensures var e := Unclaimed(ths, r, c, t);
            Dated(e) && Applied(Achievements.RulesOf(ths), r, e) == Piped(r, c, t.readAt, t.at)
  {
    hide Views.Applied, Views.Piped;
    CrashIsMissed(Achievements.RulesOf(ths), r, Unclaimed(ths, r, c, t));
  }

  lemma RecordIsEvents(ths: seq<Achievements.Threshold>, seen: Seen, log: seq<Event>, rec: Record, t: Turn)
    requires AllDated(log) && Known(rec)
    ensures var rules := Achievements.RulesOf(ths);
            var es := RecordEvents(ths, seen, After(rules, log), rec, t);
            && AllDated(log + es)
            && After(rules, log + es) == ApplySpec(rules, seen, After(rules, log), rec, t).redis
  {
    hide Views.Applied, Views.Piped, Views.After, Unclaimed, Achievements.RulesOf;
    var rules := Achievements.RulesOf(ths);
    var r := After(rules, log);
    var es := RecordEvents(ths, seen, r, rec, t);
    if es == [] {
      assert log + es == log;
    } else {
      UnclaimedIsPiped(ths, r, rec.click, t);
      AfterPush(rules, log, es[0]);
    }
  }

  lemma {:induction false} BatchIsEvents(ths: seq<Achievements.Threshold>, seen: Seen, log: seq<Event>,
                                         recs: seq<Record>, turns: seq<Turn>)
    requires AllDated(log) && |turns| == |recs| && forall i | 0 <= i < |recs| :: Known(recs[i])
    ensures var rules := Achievements.RulesOf(ths);
            var es := BatchEvents(ths, seen, After(rules, log), recs, turns);
            && AllDated(log + es)
            && After(rules, log + es) == BatchSpec(rules, seen, After(rules, log), recs, turns).redis
    decreases |recs|
  {
    hide Views.After, RecordEvents, ProgressWorker.ApplySpec, Achievements.RulesOf;
    var rules := Achievements.RulesOf(ths);
    var r := After(rules, log);
    if recs == [] {
      assert log + [] == log;
    } else {
      RecordIsEvents(ths, seen, log, recs[0], turns[0]);
      var head := ApplySpec(rules, seen, r, recs[0], turns[0]);
      var es := RecordEvents(ths, seen, r, recs[0], turns[0]);
      if head.ok {
        BatchIsEvents(ths, head.seen, log + es, recs[1..], turns[1..]);
        var rest := BatchEvents(ths, head.seen, head.redis, recs[1..], turns[1..]);
        assert log + es + rest == log + (es + rest);
      } else {
        assert es + [] == es;
      }
    }
  }

  lemma {:induction false} RoundsAreEvents(ths: seq<Achievements.Threshold>, seen: Seen, log: seq<Event>,
                                           rounds: seq<Round>)
    requires AllDated(log) && AllPolled(rounds)
    ensures var rules := Achievements.RulesOf(ths);
            var es := RoundsEvents(ths, seen, After(rules, log), rounds);
            && AllDated(log + es)
            && After(rules, log + es) == RoundsSpec(rules, seen, After(rules, log), rounds).1
    decreases |rounds|
  {
    hide Views.After, BatchEvents, ProgressWorker.BatchSpec, Achievements.RulesOf;
    var rules := Achievements.RulesOf(ths);
    var r := After(rules, log);
    if rounds == [] {
      assert log + [] == log;
    } else {
      assert Polled(rounds[0]);
      var recs, turns := rounds[0].recs, rounds[0].turns;
      BatchIsEvents(ths, seen, log, recs, turns);
      var out := BatchSpec(rules, seen, r, recs, turns);
      var es := BatchEvents(ths, seen, r, recs, turns);
      RoundsAreEvents(ths, out.seen, log + es, rounds[1..]);
      var rest := RoundsEvents(ths, out.seen, out.redis, rounds[1..]);
      assert log + es + rest == log + (es + rest);
    }
  }

  // ----- every event is a record of some round -----

  predicate IsFrom(e: Event, rec: Record, t: Turn) {
    rec.Accepted? && e.click == rec.click && e.readAt == t.readAt && e.at == t.at
  }

  predicate FromRound(e: Event, round: Round)
    requires Polled(round)
  {
    exists j :: 0 <= j < |round.recs| && IsFrom(e, round.recs[j], round.turns[j])
  }

  lemma {:induction false} BatchEventsAreFrom(ths: seq<Achievements.Threshold>, seen: Seen, r: Redis,
                                              recs: seq<Record>, turns: seq<Turn>)
    requires |turns| == |recs| && forall i | 0 <= i < |recs| :: Known(recs[i])
    ensures forall e | e in BatchEvents(ths, seen, r, recs, turns) :: FromRound(e, Round(recs, turns))
    decreases |recs|
  {
    hide ProgressWorker.ApplySpec, Achievements.RulesOf;
    if recs != [] {
      var head := ApplySpec(Achievements.RulesOf(ths), seen, r, recs[0], turns[0]);
      if head.ok { BatchEventsAreFrom(ths, head.seen, head.redis, recs[1..], turns[1..]); }
      forall e | e in BatchEvents(ths, seen, r, recs, turns) ensures FromRound(e, Round(recs, turns)) {
        if e in RecordEvents(ths, seen, r, recs[0], turns[0]) {
          assert IsFrom(e, recs[0], turns[0]);
        } else {
          assert FromRound(e, Round(recs[1..], turns[1..]));
          var j :| 0 <= j < |recs| - 1 && IsFrom(e, recs[1..][j], turns[1..][j]);
          assert IsFrom(e, recs[j + 1], turns[j + 1]);
        }
      }
    }
  }

  lemma {:induction false} RoundsEventsAreFrom(ths: seq<Achievements.Threshold>, seen: Seen, r: Redis,
                                               rounds: seq<Round>)
    requires AllPolled(rounds)
    ensures forall e | e in RoundsEvents(ths, seen, r, rounds) ::
              exists i :: 0 <= i < |rounds| && FromRound(e, rounds[i])
    decreases |rounds|
  {
    hide ProgressWorker.BatchSpec, BatchEvents, Achievements.RulesOf, FromRound;
    if rounds != [] {
      assert Polled(rounds[0]);
      var recs, turns := rounds[0].recs, rounds[0].turns;
      var out := BatchSpec(Achievements.RulesOf(ths), seen, r, recs, turns);
      BatchEventsAreFrom(ths, seen, r, recs, turns);
      RoundsEventsAreFrom(ths, out.seen, out.redis, rounds[1..]);
      forall e | e in RoundsEvents(ths, seen, r, rounds)
        ensures exists i :: 0 <= i < |rounds| && FromRound(e, rounds[i])
      {
        if e in BatchEvents(ths, seen, r, recs, turns) {
          assert FromRound(e, rounds[0]);
        } else {
          assert e in RoundsEvents(ths, out.seen, out.redis, rounds[1..]);
          var i :| 0 <= i < |rounds[1..]| && FromRound(e, rounds[1..][i]);
          assert FromRound(e, rounds[i + 1]);
        }
      }
    }
  }

  /** The pipeline of each record runs no sooner than the batch was accepted and at most `late`
      after its second. */
  predicate RoundInTime(round: Round, late: int)
    requires Polled(round)
  {
    forall j | 0 <= j < |round.recs| && round.recs[j].Accepted? ::
      var second := round.recs[j].click.tsUnix * SECOND;
      second <= round.turns[j].readAt <= round.turns[j].at <= second + late
  }

  /** After any rounds from an empty Redis, scores, names, unlocks and streaks are what the events
      that took effect say; and every other key as well when the rounds are in time. */
  lemma RoundsMatch(ths: seq<Achievements.Threshold>, rounds: seq<Round>, late: int)
    requires AllPolled(rounds)
    ensures var rules := Achievements.RulesOf(ths);
            var r := RoundsSpec(rules, map[], EMPTY, rounds).1;
            var log := RoundsEvents(ths, map[], EMPTY, rounds);
            && AllDated(log) && TotalsMatch(r.alltime, r.names, log)
            && UnlocksMatch(rules, r.unlocks, log) && StreaksMatch(r.streaks, log)
            && (0 <= late < SAFE_DELAY && (forall i | 0 <= i < |rounds| :: RoundInTime(rounds[i], late)) ==>
                  Views.Matches(rules, r, log))
  {
    hide Views.Applied, Views.Matches, RoundsEvents, RoundsSpec, Achievements.RulesOf;
    hide Views.TotalsMatch, Views.UnlocksMatch, Views.StreaksMatch;
    var rules := Achievements.RulesOf(ths);
    var log := RoundsEvents(ths, map[], EMPTY, rounds);
    RoundsAreEvents(ths, map[], [], rounds);
    assert [] + log == log;
    LastingMatch(rules, log);
    if 0 <= late < SAFE_DELAY && forall i | 0 <= i < |rounds| :: RoundInTime(rounds[i], late) {
      RoundsEventsAreFrom(ths, map[], EMPTY, rounds);
      forall n | 0 <= n < |log| ensures InTime(log[n], late) {
        assert log[n] in log;
        var i :| 0 <= i < |rounds| && FromRound(log[n], rounds[i]);
        assert RoundInTime(rounds[i], late);
      }
      PromptRunMatches(rules, log, late);
    }
  }
}
