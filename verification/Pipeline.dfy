// The click pipeline as a protocol. Replicas of the API issue challenges and append
// accepted batches to a log partitioned by user; two consumer groups read that log under
// at-least-once delivery and fold it into Redis. One step is one Redis command, one log
// append, one poll, one commit, one restart or a passage of time, so a run is any
// interleaving of any number of consumers, with Redis errors and crashes between commands.

module Pipeline {
  import opened ClickEvent
  import opened Token
  import opened Idem

  datatype Group = Counter | Progress

  /** Where a consumer stands on the record it is working on. `win` indexes the group's wins. */
  datatype Stage = Ready | Won(win: nat) | Counted(win: nat)

  /** One consumer of one partition. `next..end` is the part of the polled batch still to
      process; `ok` is false after an error broke the batch off. */
  datatype Consumer = Consumer(part: nat, next: nat, end: nat, ok: bool, stage: Stage)

  /** A SETNX that won: history of the run, with what has been done for it since. */
  datatype Win = Win(click: Click, applied: bool, tallied: bool)

  /** The Redis keys a group's effects write. */
  datatype Effects =
    | Totals(total: nat, stats: nat)   // counter:total and stats:accepted_total
    | Board(scores: map<string, nat>)  // lb:alltime

  /** `high[p]` is history: one more than the highest offset of partition p processed. */
  datatype GroupState = GroupState(
    seen: Seen, effects: Effects, committed: seq<nat>, consumers: seq<Consumer>,
    wins: seq<Win>, high: seq<nat>)

  datatype System = System(
    now: int, route: string -> nat, issued: map<string, Challenge>, parts: seq<seq<Record>>,
    counter: GroupState, progress: GroupState)

  /** A fault is a Redis error seen by the worker; `stored` says whether the command
      nevertheless took effect before its reply was lost. */
  datatype Action =
    | Poll(n: nat)
    | See
    | SeeFault(stored: bool)
    | Apply
    | ApplyFault(stored: bool)
    | Tally
    | TallyFault(stored: bool)
    | Commit
    | Restart
    | Seek(part: nat, from: nat)

  datatype Step =
    | Issue(id: string, sub: string)
    | Accept(id: string, sub: string, count: nat, name: string, at: int)
    | Garble(part: nat)
    | Tick(d: nat)
    | Act(group: Group, k: nat, action: Action)

  function ScoreOf(scores: map<string, nat>, sub: string): nat {
    if sub in scores then scores[sub] else 0
  }

  /** The main effect of a won click: INCRBY counter:total, or the board pipeline. */
  function AddClick(e: Effects, c: Click): Effects {
    match e
    case Totals(total, stats) => Totals(total + c.count, stats)
    case Board(scores) => Board(scores[c.sub := ScoreOf(scores, c.sub) + c.count])
  }

  /** The second command of the counter group; the progress group's effect is one pipeline. */
  function AddTally(e: Effects): Effects {
    match e
    case Totals(total, stats) => Totals(total, stats + 1)
    case Board(_) => e
  }

  // ----- the steps of one consumer -----

  predicate WellFormed(g: GroupState, parts: seq<seq<Record>>) {
    && |g.committed| == |g.high| == |parts|
    && (forall p | 0 <= p < |parts| :: g.committed[p] <= |parts[p]| && g.high[p] <= |parts[p]|)
    && (forall k | 0 <= k < |g.consumers| :: ConsumerFits(g, g.consumers[k], parts))
  }

  predicate ConsumerFits(g: GroupState, c: Consumer, parts: seq<seq<Record>>) {
    && c.part < |parts|
    && c.next <= c.end <= |parts[c.part]|
    && (!c.stage.Ready? ==> c.next < c.end && c.stage.win < |g.wins|)
  }

  predicate Enabled(g: GroupState, parts: seq<seq<Record>>, k: nat, a: Action)
    requires WellFormed(g, parts)
  {
    k < |g.consumers| && var c := g.consumers[k];
    match a
    case Poll(n) => c.stage.Ready? && c.next == c.end && c.end + n <= |parts[c.part]|
    case See => c.stage.Ready? && c.next < c.end
    case SeeFault(_) => c.stage.Ready? && c.next < c.end && parts[c.part][c.next].Accepted?
    case Apply => c.stage.Won?
    case ApplyFault(_) => c.stage.Won?
    case Tally => c.stage.Counted?
    case TallyFault(_) => c.stage.Counted? && g.effects.Totals?
    case Commit => c.stage.Ready? && c.next == c.end && c.ok
    case Restart => true
    case Seek(p, from) => p < |parts| && from <= |parts[p]|
  }

  function Max(a: nat, b: nat): nat { if a < b then b else a }

  /** SET NX on a record's challenge; a win is remembered. */
  function Store(g: GroupState, click: Click, now: int): GroupState {
    if Live(g.seen, click.challengeId, now) then g
    else g.(seen := SetNX(g.seen, click.challengeId, now), wins := g.wins + [Win(click, false, false)])
  }

  function ApplyWin(g: GroupState, w: nat): GroupState
    requires w < |g.wins|
  {
    g.(effects := AddClick(g.effects, g.wins[w].click), wins := g.wins[w := g.wins[w].(applied := true)])
  }

  function TallyWin(g: GroupState, w: nat): GroupState
    requires w < |g.wins|
  {
    g.(effects := AddTally(g.effects), wins := g.wins[w := g.wins[w].(tallied := true)])
  }

  function SetConsumer(g: GroupState, k: nat, c: Consumer): GroupState
    requires k < |g.consumers|
  {
    g.(consumers := g.consumers[k := c])
  }

  /** An error breaks the batch off: the rest of it is not processed and not committed, and
      the client's own position stays behind the whole batch. */
  function Abort(c: Consumer): Consumer {
    c.(next := c.end, ok := false, stage := Ready)
  }

  function Do(g: GroupState, parts: seq<seq<Record>>, now: int, k: nat, a: Action): GroupState
    requires WellFormed(g, parts) && Enabled(g, parts, k, a)
  {
    var c := g.consumers[k];
    match a
    case Poll(n) => SetConsumer(g, k, c.(end := c.end + n, ok := true))
    case See =>
      var g' := g.(high := g.high[c.part := Max(g.high[c.part], c.next + 1)]);
      (match parts[c.part][c.next]
       case Malformed => SetConsumer(g', k, c.(next := c.next + 1))
       case Accepted(click, _) =>
         if Live(g.seen, click.challengeId, now) then SetConsumer(g', k, c.(next := c.next + 1))
         else SetConsumer(Store(g', click, now), k, c.(stage := Won(|g.wins|))))
    case SeeFault(stored) =>
      var click := parts[c.part][c.next].click;
      var g' := g.(high := g.high[c.part := Max(g.high[c.part], c.next + 1)]);
      SetConsumer(if stored then Store(g', click, now) else g, k, Abort(c))
    case Apply => SetConsumer(ApplyWin(g, c.stage.win), k, c.(stage := Counted(c.stage.win)))
    case ApplyFault(stored) => SetConsumer(if stored then ApplyWin(g, c.stage.win) else g, k, Abort(c))
    case Tally => SetConsumer(TallyWin(g, c.stage.win), k, c.(next := c.next + 1, stage := Ready))
    case TallyFault(stored) => SetConsumer(if stored then TallyWin(g, c.stage.win) else g, k, Abort(c))
    case Commit => g.(committed := g.committed[c.part := c.end])
    case Restart =>
      SetConsumer(g, k, Consumer(c.part, g.committed[c.part], g.committed[c.part], true, Ready))
    case Seek(p, from) => SetConsumer(g, k, Consumer(p, from, from, true, Ready))
  }

  // ----- the steps of the whole system -----

  function GroupOf(s: System, group: Group): GroupState {
    if group == Counter then s.counter else s.progress
  }

  predicate Shaped(s: System) {
    WellFormed(s.counter, s.parts) && WellFormed(s.progress, s.parts)
  }

  predicate CanStep(s: System, step: Step)
    requires Shaped(s)
  {
    match step
    case Issue(id, sub) => id !in s.issued
    case Accept(id, sub, count, name, at) =>
      && id in s.issued
      && s.issued[id].iat <= at <= s.now
      && Verify(s.issued[id], sub, at) == Ok
      && 1 <= count <= MAX_BATCH
      && s.route(sub) < |s.parts|
    case Garble(p) => p < |s.parts|
    case Tick(_) => true
    case Act(group, k, a) => Enabled(GroupOf(s, group), s.parts, k, a)
  }

  function Append(parts: seq<seq<Record>>, p: nat, r: Record): seq<seq<Record>>
    requires p < |parts|
  {
    parts[p := parts[p] + [r]]
  }

  function Next(s: System, step: Step): System
    requires Shaped(s) && CanStep(s, step)
  {
    match step
    case Issue(id, sub) => s.(issued := s.issued[id := Token.Issue(sub, s.now)])
    case Accept(id, sub, count, name, at) =>
      var click := Click(sub, count, id, at / SECOND, name);
      s.(parts := Append(s.parts, s.route(sub), Accepted(click, at)))
    case Garble(p) => s.(parts := Append(s.parts, p, Malformed))
    case Tick(d) => s.(now := s.now + d)
    case Act(group, k, a) =>
      var g := Do(GroupOf(s, group), s.parts, s.now, k, a);
      if group == Counter then s.(counter := g) else s.(progress := g)
  }

  lemma StepKeepsShape(s: System, step: Step)
    requires Shaped(s) && CanStep(s, step)
    ensures Shaped(Next(s, step))
  {
    match step
    case Accept(id, sub, count, name, at) =>
    case Act(group, k, a) => DoKeepsShape(GroupOf(s, group), s.parts, s.now, k, a);
    case _ =>
  }

  lemma DoKeepsShape(g: GroupState, parts: seq<seq<Record>>, now: int, k: nat, a: Action)
    requires WellFormed(g, parts) && Enabled(g, parts, k, a)
    ensures WellFormed(Do(g, parts, now, k, a), parts)
    ensures |Do(g, parts, now, k, a).wins| >= |g.wins|
  {
  }

  /** steps can be taken one after the other from s. */
  ghost predicate IsRun(s: System, steps: seq<Step>)
    requires Shaped(s)
    decreases |steps|
  {
    if steps == [] then true
    else
      CanStep(s, steps[0]) &&
      (StepKeepsShape(s, steps[0]); IsRun(Next(s, steps[0]), steps[1..]))
  }

  ghost function Final(s: System, steps: seq<Step>): (f: System)
    requires Shaped(s) && IsRun(s, steps)
    ensures Shaped(f)
    decreases |steps|
  {
    if steps == [] then s
    else
      StepKeepsShape(s, steps[0]);
      Final(Next(s, steps[0]), steps[1..])
  }

  /** Every step of the run satisfies p in the state where it is taken. */
  ghost predicate Every(s: System, steps: seq<Step>, p: (System, Step) -> bool)
    requires Shaped(s) && IsRun(s, steps)
    decreases |steps|
  {
    if steps == [] then true
    else
      p(s, steps[0]) &&
      (StepKeepsShape(s, steps[0]); Every(Next(s, steps[0]), steps[1..], p))
  }

  /** Empty log, empty Redis; consumers stand at offset 0 of the partitions given. */
  function StartGroup(effects: Effects, partitions: nat, owners: seq<nat>): GroupState {
    GroupState(map[], effects, seq(partitions, _ => 0),
               seq(|owners|, i requires 0 <= i < |owners| => Consumer(owners[i], 0, 0, true, Ready)),
               [], seq(partitions, _ => 0))
  }

  ghost function Start(route: string -> nat, partitions: nat, owners: seq<nat>): (s: System)
    requires forall k | 0 <= k < |owners| :: owners[k] < partitions
    ensures Shaped(s)
  {
    System(0, route, map[], seq(partitions, _ => []),
           StartGroup(Totals(0, 0), partitions, owners), StartGroup(Board(map[]), partitions, owners))
  }
}
