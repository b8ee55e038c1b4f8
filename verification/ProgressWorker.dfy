// The consumer of the progress group (internal/progressworker/progressworker.go: consume,
// apply, applyEvent, loadStreak) as the source writes it: one Redis command after the other,
// any of which may fail. Views says what the keys then mean.

module ProgressWorker {
  import opened Calendar
  import opened ClickEvent
  import opened ConsumerRuns
  import opened Idem
  import opened Views
  import opened Pipeline
  import Achievements
  import Streak
  import Troll

  /** Which command of one record fails for the consumer; the commands after the pipeline never
      fail it, but may be missed. */
  datatype Fault = NoFault | OnSee(stored: bool) | OnRead | OnPipe(stored: bool)

  /** How one record goes: the clock at the SETNX, at the read of maxbatch and at the pipeline,
      and the failures. */
  datatype Turn = Turn(now: int, readAt: int, at: int, fault: Fault, missed: set<string>, streak: StreakFault)

  datatype Outcome = Outcome(seen: Seen, redis: Redis, ok: bool)

  predicate Known(rec: Record) {
    rec.Accepted? ==> 0 <= rec.click.tsUnix && DayOf(rec.click.tsUnix) <= LAST_DAY
  }

  function EventOf(c: Click, t: Turn): Event {
    Event(c, t.readAt, t.at, t.missed, t.streak)
  }

  /** The pipeline took effect. */
  predicate Stored(t: Turn) {
    !t.fault.OnRead? && (t.fault.OnPipe? ==> t.fault.stored)
  }

  ghost function EventSpec(rules: Achievements.Rules, r: Redis, c: Click, t: Turn): (out: (Redis, bool))
    requires 0 <= c.tsUnix && DayOf(c.tsUnix) <= LAST_DAY
  {
    if t.fault.OnRead? then (r, false)
    else if t.fault.OnPipe? then (if t.fault.stored then Piped(r, c, t.readAt, t.at) else r, false)
    else (Applied(rules, r, EventOf(c, t)), true)
  }

  ghost function ApplySpec(rules: Achievements.Rules, seen: Seen, r: Redis, rec: Record, t: Turn): Outcome
    requires Known(rec)
  {
    if rec.Malformed? then Outcome(seen, r, true)
    else
      var c := rec.click;
      var seen' := SetNX(seen, c.challengeId, t.now);
      if t.fault.OnSee? then Outcome(if t.fault.stored then seen' else seen, r, false)
      else if Live(seen, c.challengeId, t.now) then Outcome(seen, r, true)
      else
        var (r', ok) := EventSpec(rules, r, c, t);
        Outcome(seen', r', ok)
  }

  ghost function BatchSpec(rules: Achievements.Rules, seen: Seen, r: Redis, recs: seq<Record>,
                           turns: seq<Turn>): Outcome
    requires |turns| == |recs| && forall i | 0 <= i < |recs| :: Known(recs[i])
    decreases |recs|
  {
    if recs == [] then Outcome(seen, r, true)
    else
      var head := ApplySpec(rules, seen, r, recs[0], turns[0]);
      if head.ok then BatchSpec(rules, head.seen, head.redis, recs[1..], turns[1..]) else head
  }

  /** The keys and the consumer client, as in the counter group. */
  datatype Client = Client(seen: Seen, redis: Redis, position: nat, committed: nat)

  ghost function ConsumeSpec(rules: Achievements.Rules, s: Client, recs: seq<Record>, turns: seq<Turn>): Client
    requires |turns| == |recs| && forall i | 0 <= i < |recs| :: Known(recs[i])
  {
    var out := BatchSpec(rules, s.seen, s.redis, recs, turns);
    var position := s.position + |recs|;
    Client(out.seen, out.redis, position, if out.ok && |recs| > 0 then position else s.committed)
  }

  class Worker {
    const ths: seq<Achievements.Threshold>
    var seen: Seen
    var redis: Redis
    var position: nat
    var committed: nat

    constructor (ths: seq<Achievements.Threshold>)
      ensures this.ths == ths && seen == map[] && redis == EMPTY && position == committed == 0
    {
      this.ths := ths;
      seen, redis, position, committed := map[], EMPTY, 0, 0;
    }

    /** ZINCRBY, EXPIRE. */
    static method IncrWeek(weeks: map<int, Week>, c: Click, at: int) returns (weeks': map<int, Week>)
      requires c.tsUnix >= 0
      ensures weeks' == AddWeek(weeks, c, at)
    {
      var monday := WeekStartDay(c.tsUnix);
      var board := LiveWeek(weeks, monday, at);
      board := board.(scores := board.scores[c.sub := ScoreOf(board.scores, c.sub) + c.count]);
      board := board.(expiry := at + WEEK_TTL);
      weeks' := weeks[monday := board];
    }

    /** HINCRBY, HINCRBY, perhaps HSET, EXPIRE. */
    static method IncrDay(days: map<(string, int), Daily>, c: Click, curMax: nat, at: int, ghost readAt: int)
      returns (days': map<(string, int), Daily>)
      requires c.tsUnix >= 0 && curMax == LiveDay(days, (c.sub, DayOf(c.tsUnix)), readAt).maxbatch
      ensures days' == AddDay(days, c, readAt, at)
    {
      var dk := (c.sub, DayOf(c.tsUnix));
      var day := LiveDay(days, dk, at);
      day := day.(clicks := day.clicks + c.count);
      day := day.(batches := day.batches + 1);
      if c.count > curMax { day := day.(maxbatch := c.count); }
      day := day.(expiry := at + DAILY_TTL);
      days' := days[dk := day];
    }

    /** SADD, EXPIRE. */
    static method AddToWeekdays(weekdays: map<(string, int), Weekdays>, c: Click, at: int)
      returns (weekdays': map<(string, int), Weekdays>)
      requires c.tsUnix >= 0
      ensures weekdays' == AddWeekday(weekdays, c, at)
    {
      var wk := (c.sub, WeekStartDay(c.tsUnix));
      var held := LiveWeekdays(weekdays, wk, at);
      held := held.(days := held.days + {DayOf(c.tsUnix)});
      weekdays' := weekdays[wk := held.(expiry := at + WEEK_TTL)];
    }

    /** TxPipeline: all of its commands, in order, at one instant. */
    method Pipe(c: Click, curMax: nat, at: int, ghost readAt: int)
      requires c.tsUnix >= 0 && curMax == LiveDay(redis.days, (c.sub, DayOf(c.tsUnix)), readAt).maxbatch
      modifies this`redis
      ensures redis == Piped(old(redis), c, readAt, at)
    {
      var alltime := redis.alltime[c.sub := ScoreOf(redis.alltime, c.sub) + c.count];
      var weeks := IncrWeek(redis.weeks, c, at);
      var names := redis.names[c.sub := c.displayName];
      var days := IncrDay(redis.days, c, curMax, at, readAt);
      var weekdays := AddToWeekdays(redis.weekdays, c, at);
      redis := redis.(alltime := alltime, weeks := weeks, names := names, days := days, weekdays := weekdays);
    }

    /** Two loops over what the two rule sets return. */
    method ClaimUnlocks(held: map<string, nat>, newTotal: nat, c: Click, t: Turn) returns (held': map<string, nat>)
      requires 0 <= c.tsUnix
      ensures held' == Claimed(Achievements.RulesOf(ths), held, newTotal, EventOf(c, t))
    {
      var earned := Achievements.Evaluate(ths, newTotal, c.count, c.tsUnix);
      var hidden := Troll.Evaluate(newTotal, c.tsUnix, false);
      var announced;
      held', announced := Achievements.ClaimLoop(held, earned, c.tsUnix, t.missed);
      held', announced := Achievements.ClaimLoop(held', hidden, c.tsUnix, t.missed);
      Achievements.ClaimAllAppend(held, earned, hidden, c.tsUnix, t.missed);
    }

    /** loadStreak, Advance, HSET. */
    method AdvanceStreak(c: Click, fault: StreakFault)
      requires 0 <= c.tsUnix && DayOf(c.tsUnix) <= LAST_DAY
      modifies this`redis
      ensures redis == old(redis).(streaks := SaveStreak(old(redis.streaks), c, fault))
    {
      var loaded := if fault.ReadFails? then Streak.NEVER else StreakOf(redis.streaks, c.sub);
      var (st, advanced) := Streak.Advance(loaded, DateHCM(c.tsUnix));
      if advanced && !fault.WriteFails? {
        redis := redis.(streaks := redis.streaks[c.sub := st]);
      }
    }

    /** The pipeline, then the engine layer, whose failures are not reported. */
    method ApplyEvent(c: Click, t: Turn) returns (ok: bool)
      requires 0 <= c.tsUnix && DayOf(c.tsUnix) <= LAST_DAY
      modifies this`redis
      ensures (redis, ok) == EventSpec(Achievements.RulesOf(ths), old(redis), c, t)
    {
      if t.fault.OnRead? { return false; }
      var curMax := LiveDay(redis.days, (c.sub, DayOf(c.tsUnix)), t.readAt).maxbatch;
      if t.fault.OnPipe? {
        if t.fault.stored { Pipe(c, curMax, t.at, t.readAt); }
        return false;
      }
      Pipe(c, curMax, t.at, t.readAt);
      var held := ClaimUnlocks(UnlocksOf(redis.unlocks, c.sub), ScoreOf(redis.alltime, c.sub), c, t);
      redis := redis.(unlocks := SaveUnlocks(redis.unlocks, c.sub, held));
      AdvanceStreak(c, t.streak);
      return true;
    }

    method Apply(rec: Record, t: Turn) returns (ok: bool)
      requires Known(rec)
      modifies this
      ensures position == old(position) && committed == old(committed)
      ensures Outcome(seen, redis, ok) == ApplySpec(Achievements.RulesOf(ths), old(seen), old(redis), rec, t)
    {
      if rec.Malformed? { return true; }
      var c := rec.click;
      var first;
      var reply := if t.fault.OnSee? then Unanswered(t.fault.stored) else Answered;
      seen, first := FirstSee(seen, c.challengeId, t.now, reply);
      if t.fault.OnSee? { return false; }
      if !first { return true; }
      ok := ApplyEvent(c, t);
    }

    /** One round of the loop, with the batch that was polled. */
    method Consume(recs: seq<Record>, turns: seq<Turn>)
      requires |turns| == |recs| && forall i | 0 <= i < |recs| :: Known(recs[i])
      modifies this
      ensures Client(seen, redis, position, committed)
           == ConsumeSpec(Achievements.RulesOf(ths), old(Client(seen, redis, position, committed)), recs, turns)
    {
      position := position + |recs|;
      var ok, i := true, 0;
      while i < |recs| && ok
        invariant 0 <= i <= |recs|
        invariant position == old(position) + |recs| && committed == old(committed)
        invariant ok ==> BatchSpec(Achievements.RulesOf(ths), seen, redis, recs[i..], turns[i..])
                           == BatchSpec(Achievements.RulesOf(ths), old(seen), old(redis), recs, turns)
        invariant !ok ==> Outcome(seen, redis, false)
                            == BatchSpec(Achievements.RulesOf(ths), old(seen), old(redis), recs, turns)
      {
        ok := Apply(recs[i], turns[i]);
        i := i + 1;
      }
      if ok && |recs| > 0 { committed := position; }
    }
  }

  // ----- what can stop the loop -----

  /** A command that was made for the record failed: the SETNX, or for its winner the read of
      maxbatch or the pipeline. */
  predicate CommandFails(seen: Seen, rec: Record, t: Turn) {
    rec.Accepted? && (t.fault.OnSee? || (!Live(seen, rec.click.challengeId, t.now) && !t.fault.NoFault?))
  }

  /** Only a failed command breaks a batch off: not a record that does not decode, not one that was
      delivered before, and no claim or streak that failed. A failed command always does. */
  lemma FailsIffCommandFails(rules: Achievements.Rules, seen: Seen, r: Redis, rec: Record, t: Turn)
    requires Known(rec)
    ensures var out := ApplySpec(rules, seen, r, rec, t);
            && (out.ok <==> !CommandFails(seen, rec, t))
            && (rec.Malformed? || (Live(seen, rec.click.challengeId, t.now) && !t.fault.OnSee?) ==>
                  out.seen == seen && out.redis == r)
  {
    hide Views.Applied, Views.Piped;
  }

  /** A batch without faults at its well-formed records is applied to the end and committed. */
  lemma CleanBatchCommits(rules: Achievements.Rules, s: Client, recs: seq<Record>, turns: seq<Turn>)
    requires |turns| == |recs| && forall i | 0 <= i < |recs| :: Known(recs[i])
    requires forall i | 0 <= i < |recs| && recs[i].Accepted? :: turns[i].fault.NoFault?
    ensures BatchSpec(rules, s.seen, s.redis, recs, turns).ok
    ensures recs != [] ==> ConsumeSpec(rules, s, recs, turns).committed == s.position + |recs|
  {
    CleanBatchIsOk(rules, s.seen, s.redis, recs, turns);
  }

  lemma {:induction false} CleanBatchIsOk(rules: Achievements.Rules, seen: Seen, r: Redis, recs: seq<Record>,
                                          turns: seq<Turn>)
    requires |turns| == |recs| && forall i | 0 <= i < |recs| :: Known(recs[i])
    requires forall i | 0 <= i < |recs| && recs[i].Accepted? :: turns[i].fault.NoFault?
    ensures BatchSpec(rules, seen, r, recs, turns).ok
    decreases |recs|
  {
    hide ApplySpec;
    if recs != [] {
      FailsIffCommandFails(rules, seen, r, recs[0], turns[0]);
      var head := ApplySpec(rules, seen, r, recs[0], turns[0]);
      CleanBatchIsOk(rules, head.seen, head.redis, recs[1..], turns[1..]);
    }
  }

  lemma {:induction false} DecodedKnown(recs: seq<Record>)
    requires forall i | 0 <= i < |recs| :: Known(recs[i])
    ensures forall i | 0 <= i < |Decoded(recs, recs)| :: Known(Decoded(recs, recs)[i])
    decreases |recs|
  {
    if recs != [] { DecodedKnown(recs[1..]); }
  }

  /** Poison records make no difference: the batch has the keys and the result that it has without
      them. */
  lemma {:induction false} PoisonIsSkipped(rules: Achievements.Rules, seen: Seen, r: Redis, recs: seq<Record>,
                                           turns: seq<Turn>)
    requires |turns| == |recs| && forall i | 0 <= i < |recs| :: Known(recs[i])
    ensures |Decoded(recs, turns)| == |Decoded(recs, recs)|
    ensures forall i | 0 <= i < |Decoded(recs, recs)| :: Known(Decoded(recs, recs)[i])
    ensures BatchSpec(rules, seen, r, recs, turns)
         == BatchSpec(rules, seen, r, Decoded(recs, recs), Decoded(recs, turns))
    decreases |recs|
  {
    hide ApplySpec;
    DecodedInStep(recs, turns, recs);
    DecodedKnown(recs);
    if recs != [] {
      FailsIffCommandFails(rules, seen, r, recs[0], turns[0]);
      var head := ApplySpec(rules, seen, r, recs[0], turns[0]);
      PoisonIsSkipped(rules, head.seen, head.redis, recs[1..], turns[1..]);
      DecodedFront(recs, recs);
      DecodedFront(recs, turns);
    }
  }

  // ----- the loop is a run of the protocol -----

  /** The protocol actions that applying one record amounts to. */
  function Actions(seen: Seen, rec: Record, t: Turn): seq<Timed> {
    var see := Timed(See, t.now);
    if rec.Malformed? then [see]
    else if t.fault.OnSee? then [Timed(SeeFault(t.fault.stored), t.now)]
    else if Live(seen, rec.click.challengeId, t.now) then [see]
    else if t.fault.OnRead? then [see, Timed(ApplyFault(false), t.at)]
    else if t.fault.OnPipe? then [see, Timed(ApplyFault(t.fault.stored), t.at)]
    else [see, Timed(Action.Apply, t.at), Timed(Tally, t.at)]
  }

  /** The keys of the protocol are seen:progress:* and the all-time board. */
  predicate Holds(g: GroupState, seen: Seen, r: Redis) {
    g.seen == seen && g.effects == Board(r.alltime)
  }

  /** g' is g after consumer k moved to c. */
  predicate Moved(g: GroupState, g': GroupState, k: nat, c: Consumer) {
    k < |g.consumers| && g'.consumers == g.consumers[k := c] && g'.committed == g.committed
  }

  /** The actions lead to the outcome of one record. */
  ghost predicate Matches(g: GroupState, parts: seq<seq<Record>>, k: nat, out: Outcome, acts: seq<Timed>)
    requires WellFormed(g, parts) && Enabled(g, parts, k, See)
  {
    var c := g.consumers[k];
    && CanAll(g, parts, k, acts)
    && var g' := DoAll(g, parts, k, acts);
    && Moved(g, g', k, if out.ok then c.(next := c.next + 1) else Abort(c))
    && Holds(g', out.seen, out.redis)
  }

  /** The SETNX was won and the pipeline fails. */
  lemma WonFails(g: GroupState, parts: seq<seq<Record>>, k: nat, now: int, at: int, stored: bool)
    requires WellFormed(g, parts) && Enabled(g, parts, k, See) && g.effects.Board?
    requires var rec := parts[g.consumers[k].part][g.consumers[k].next];
             rec.Accepted? && !Live(g.seen, rec.click.challengeId, now)
    ensures var c := g.consumers[k];
            var click := parts[c.part][c.next].click;
            var acts := [Timed(See, now), Timed(ApplyFault(stored), at)];
            && CanAll(g, parts, k, acts)
            && var g' := DoAll(g, parts, k, acts);
            && Moved(g, g', k, Abort(c)) && g'.seen == SetNX(g.seen, click.challengeId, now)
            && g'.effects == if stored then AddClick(g.effects, click) else g.effects
  {
    var see, pipe := Timed(See, now), Timed(ApplyFault(stored), at);
    One(g, parts, k, see);
    var g1 := DoAll(g, parts, k, [see]);
    assert g1.wins[|g.wins|].click == parts[g.consumers[k].part][g.consumers[k].next].click;
    Push(g, parts, k, [see], pipe);
    assert [see, pipe] == [see] + [pipe];
  }

  /** The SETNX was won and the pipeline runs. */
  lemma WonApplies(g: GroupState, parts: seq<seq<Record>>, k: nat, now: int, at: int)
    requires WellFormed(g, parts) && Enabled(g, parts, k, See) && g.effects.Board?
    requires var rec := parts[g.consumers[k].part][g.consumers[k].next];
             rec.Accepted? && !Live(g.seen, rec.click.challengeId, now)
    ensures var c := g.consumers[k];
            var click := parts[c.part][c.next].click;
            var acts := [Timed(See, now), Timed(Action.Apply, at), Timed(Tally, at)];
            && CanAll(g, parts, k, acts)
            && var g' := DoAll(g, parts, k, acts);
            && Moved(g, g', k, c.(next := c.next + 1)) && g'.seen == SetNX(g.seen, click.challengeId, now)
            && g'.effects == AddClick(g.effects, click)
  {
    var see, pipe, tally := Timed(See, now), Timed(Action.Apply, at), Timed(Tally, at);
    One(g, parts, k, see);
    var g1 := DoAll(g, parts, k, [see]);
    assert g1.wins[|g.wins|].click == parts[g.consumers[k].part][g.consumers[k].next].click;
    Push(g, parts, k, [see], pipe);
    assert [see, pipe] == [see] + [pipe];
    Push(g, parts, k, [see, pipe], tally);
    assert [see, pipe, tally] == [see, pipe] + [tally];
  }

  lemma BoardOf(rules: Achievements.Rules, r: Redis, c: Click, t: Turn)
    requires 0 <= c.tsUnix && DayOf(c.tsUnix) <= LAST_DAY && !t.fault.OnSee?
    ensures EventSpec(rules, r, c, t).1 == t.fault.NoFault?
    ensures EventSpec(rules, r, c, t).0.alltime
         == if Stored(t) then r.alltime[c.sub := ScoreOf(r.alltime, c.sub) + c.count] else r.alltime
  {
    hide Views.SaveStreak, Views.Claimed, Views.AddDay, Views.AddWeek, Views.AddWeekday;
  }

  lemma WonMatches(g: GroupState, parts: seq<seq<Record>>, k: nat, t: Turn, out: Outcome)
    requires WellFormed(g, parts) && Enabled(g, parts, k, See) && g.effects.Board? && !t.fault.OnSee?
    requires var rec := parts[g.consumers[k].part][g.consumers[k].next];
             && rec.Accepted? && !Live(g.seen, rec.click.challengeId, t.now)
             && out.ok == t.fault.NoFault? && out.seen == SetNX(g.seen, rec.click.challengeId, t.now)
             && Board(out.redis.alltime) == if Stored(t) then AddClick(g.effects, rec.click) else g.effects
    ensures var rec := parts[g.consumers[k].part][g.consumers[k].next];
            Matches(g, parts, k, out, Actions(g.seen, rec, t))
  {
    if t.fault.NoFault? {
      WonApplies(g, parts, k, t.now, t.at);
    } else {
      WonFails(g, parts, k, t.now, t.at, t.fault.OnPipe? && t.fault.stored);
    }
  }

  lemma WonOutcome(rules: Achievements.Rules, seen: Seen, r: Redis, rec: Record, t: Turn)
    requires Known(rec) && rec.Accepted? && !t.fault.OnSee? && !Live(seen, rec.click.challengeId, t.now)
    ensures var out := ApplySpec(rules, seen, r, rec, t);
            && out.ok == t.fault.NoFault? && out.seen == SetNX(seen, rec.click.challengeId, t.now)
            && out.redis.alltime == EventSpec(rules, r, rec.click, t).0.alltime
  {
    BoardOf(rules, r, rec.click, t);
  }

  lemma WonIsSteps(rules: Achievements.Rules, g: GroupState, parts: seq<seq<Record>>, k: nat, r: Redis, t: Turn)
    requires WellFormed(g, parts) && Enabled(g, parts, k, See) && Holds(g, g.seen, r) && !t.fault.OnSee?
    requires var rec := parts[g.consumers[k].part][g.consumers[k].next];
             Known(rec) && rec.Accepted? && !Live(g.seen, rec.click.challengeId, t.now)
    ensures var rec := parts[g.consumers[k].part][g.consumers[k].next];
            Matches(g, parts, k, ApplySpec(rules, g.seen, r, rec, t), Actions(g.seen, rec, t))
  {
    hide Pipeline.Do, ConsumerRuns.DoAll, ConsumerRuns.CanAll, Matches, EventSpec, ApplySpec, Views.Applied, Actions;
    var rec := parts[g.consumers[k].part][g.consumers[k].next];
    WonOutcome(rules, g.seen, r, rec, t);
    BoardOf(rules, r, rec.click, t);
    WonMatches(g, parts, k, t, ApplySpec(rules, g.seen, r, rec, t));
  }

  lemma RecordIsSteps(rules: Achievements.Rules, g: GroupState, parts: seq<seq<Record>>, k: nat, r: Redis, t: Turn)
    requires WellFormed(g, parts) && Enabled(g, parts, k, See) && Holds(g, g.seen, r)
    requires Known(parts[g.consumers[k].part][g.consumers[k].next])
    ensures var rec := parts[g.consumers[k].part][g.consumers[k].next];
            Matches(g, parts, k, ApplySpec(rules, g.seen, r, rec, t), Actions(g.seen, rec, t))
  {
    var rec := parts[g.consumers[k].part][g.consumers[k].next];
    if rec.Accepted? && !t.fault.OnSee? && !Live(g.seen, rec.click.challengeId, t.now) {
      WonIsSteps(rules, g, parts, k, r, t);
    } else {
      One(g, parts, k, Actions(g.seen, rec, t)[0]);
    }
  }

  lemma {:induction false} BatchIsSteps(rules: Achievements.Rules, g: GroupState, parts: seq<seq<Record>>, k: nat,
                                        r: Redis, turns: seq<Turn>)
    returns (acts: seq<Timed>)
    requires WellFormed(g, parts) && Holds(g, g.seen, r) && k < |g.consumers|
    requires var c := g.consumers[k];
             && c.stage.Ready? && c.ok && |turns| == c.end - c.next
             && forall i | c.next <= i < c.end :: Known(parts[c.part][i])
    ensures var c := g.consumers[k];
            var out := BatchSpec(rules, g.seen, r, parts[c.part][c.next..c.end], turns);
            && CanAll(g, parts, k, acts)
            && var g' := DoAll(g, parts, k, acts);
            && Moved(g, g', k, c.(next := c.end, ok := out.ok))
            && Holds(g', out.seen, out.redis)
    decreases |turns|
  {
    var c := g.consumers[k];
    var recs := parts[c.part][c.next..c.end];
    if recs == [] {
      acts := [];
    } else {
      assert recs[0] == parts[c.part][c.next] && Enabled(g, parts, k, See);
      RecordIsSteps(rules, g, parts, k, r, turns[0]);
      acts := Actions(g.seen, recs[0], turns[0]);
      var head := ApplySpec(rules, g.seen, r, recs[0], turns[0]);
      if head.ok {
        assert recs[1..] == parts[c.part][c.next + 1..c.end];
        var rest := BatchIsSteps(rules, DoAll(g, parts, k, acts), parts, k, head.redis, turns[1..]);
        DoAllAppend(g, parts, k, acts, rest);
        acts := acts + rest;
      }
    }
  }

  /** A round of the loop is a run of one consumer of the protocol: what is proved about its
      runs holds of the loop, with lb:alltime for the board. */
  lemma ConsumeIsSteps(rules: Achievements.Rules, g: GroupState, parts: seq<seq<Record>>, k: nat, n: nat,
                       r: Redis, turns: seq<Turn>)
    returns (acts: seq<Timed>)
    requires WellFormed(g, parts) && Holds(g, g.seen, r) && Enabled(g, parts, k, Poll(n)) && |turns| == n
    requires var c := g.consumers[k]; forall i | c.next <= i < c.next + n :: Known(parts[c.part][i])
    ensures var c := g.consumers[k];
            var recs := parts[c.part][c.next..c.next + n];
            && |recs| == n && (forall i | 0 <= i < |recs| :: Known(recs[i]))
            && var out := BatchSpec(rules, g.seen, r, recs, turns);
            && CanAll(g, parts, k, acts)
            && var g' := DoAll(g, parts, k, acts);
            && Holds(g', out.seen, out.redis)
            && g'.consumers == g.consumers[k := Consumer(c.part, c.next + n, c.next + n, out.ok, Ready)]
            && g'.committed == (if out.ok && n > 0 then g.committed[c.part := c.next + n] else g.committed)
            && Client(g'.seen, out.redis, g'.consumers[k].next, g'.committed[c.part])
               == ConsumeSpec(rules, Client(g.seen, r, c.next, g.committed[c.part]), recs, turns)
  {
    var c := g.consumers[k];
    var poll := [Timed(Poll(n), 0)];
    One(g, parts, k, poll[0]);
    var g1 := DoAll(g, parts, k, poll);
    var batch := BatchIsSteps(rules, g1, parts, k, r, turns);
    DoAllAppend(g, parts, k, poll, batch);
    acts := poll + batch;
    var g2 := DoAll(g, parts, k, acts);
    if g2.consumers[k].ok && n > 0 {
      Push(g, parts, k, acts, Timed(Action.Commit, 0));
      acts := acts + [Timed(Action.Commit, 0)];
    }
  }
}
