// Snapshots are not atomic: while one copies Redis key by key, the workers go on applying
// events, and it may stop at any point. What Postgres then holds, and what a restore from it
// is worth.

module SnapshotRuns {
  import opened Snapshot
  import opened Wrappers

  /** The next thing a snapshot does; reads and writes are separate steps. */
  datatype Stage =
    | ReadCounter | WriteCounter | ReadClicks | WriteClicks | ReadWeek | WriteWeek
    | ReadNames | WriteNames | ReadUnlocks | WriteUnlocks | ReadStreaks | WriteStreaks

  /** `read` is what has been read so far. The unlock and streak hashes are read one user at a
      time; `todo` are the users still to read. */
  datatype Snap = Off | On(stage: Stage, week: int, read: Data, todo: set<string>)

  /** A value that a Redis cell has held. */
  datatype Cell =
    | Counter(n: nat)
    | Clicks(sub: string, n: nat)
    | Weekly(key: (string, int), n: nat)
    | Name(sub: string, name: string)
    | Unlocked(unlock: Unlock, at: int)
    | Streaks(sub: string, streak: Streak)

  /** `past` is history: every value any Redis cell ever held. */
  datatype State = State(redis: Data, tables: Data, week: int, snap: Snap, past: set<Cell>)

  datatype Step =
    | Increment(n: nat)                                          // counter worker
    | Pipeline(sub: string, week: int, n: nat, name: string)     // progress worker: the boards
    | Claim(unlock: Unlock, at: int)                             // progress worker: HSETNX
    | SaveStreak(sub: string, streak: Streak)                    // progress worker
    | NewWeek
    | ExpireWeek(week: int)
    | Begin | Advance(readable: bool) | ReadUser(sub: string) | Stop   // the snapshotter
    | Reboot   // Redis is lost, the worker starts and restores before it consumes anything
    | Lose     // Redis is lost, and workers and snapshotter run on

  function OrZero<K>(m: map<K, nat>, k: K): nat {
    if k in m then m[k] else 0
  }

  predicate CanStep(s: State, step: Step) {
    match step
    case Claim(unlock, _) => unlock.0 in s.redis.clicks
    case SaveStreak(sub, st) => sub in s.redis.clicks && FitsColumn(st)  // Views.StreaksFit
    case ExpireWeek(w) => w < s.week && (s.snap.On? ==> s.snap.week != w)
    case Begin => s.snap.Off?
    case Advance(_) => s.snap.On? && s.snap.todo == {}
    case ReadUser(sub) => s.snap.On? && sub in s.snap.todo && (s.snap.stage.ReadUnlocks? || s.snap.stage.ReadStreaks?)
    case _ => true
  }

  function AfterStage(stage: Stage): Stage {
    match stage
    case ReadCounter => WriteCounter case WriteCounter => ReadClicks
    case ReadClicks => WriteClicks case WriteClicks => ReadWeek
    case ReadWeek => WriteWeek case WriteWeek => ReadNames
    case ReadNames => WriteNames case WriteNames => ReadUnlocks
    case ReadUnlocks => WriteUnlocks case WriteUnlocks => ReadStreaks
    case ReadStreaks => WriteStreaks case WriteStreaks => ReadCounter
  }

  /** The read stages; a profile read that fails is skipped. */
  function Read(r: Data, buffer: Data, stage: Stage, week: int, readable: bool): Data {
    match stage
    case ReadCounter => buffer.(counter := r.counter)
    case ReadClicks => buffer.(clicks := r.clicks)
    case ReadWeek => buffer.(weekly := OfWeek(r.weekly, week))
    case ReadNames => if readable then buffer.(names := r.names) else buffer
    case _ => buffer
  }

  function Write(t: Data, buffer: Data, stage: Stage): Data {
    match stage
    case WriteCounter => t.(counter := if buffer.counter.Some? then buffer.counter else t.counter)
    case WriteClicks => t.(clicks := t.clicks + buffer.clicks)
    case WriteWeek => t.(weekly := t.weekly + buffer.weekly)
    case WriteNames => t.(names := t.names + buffer.names)
    case WriteUnlocks => t.(unlocks := buffer.unlocks + t.unlocks)
    case WriteStreaks => t.(streaks := t.streaks + buffer.streaks)
    case _ => t
  }

  function Next(s: State, step: Step): State
    requires CanStep(s, step)
  {
    var r := s.redis;
    match step
    case Increment(n) =>
      var total := n + if r.counter.Some? then r.counter.value else 0;
      s.(redis := r.(counter := Some(total)), past := s.past + {Counter(total)})
    case Pipeline(sub, w, n, name) =>
      var clicks, weekly := OrZero(r.clicks, sub) + n, OrZero(r.weekly, (sub, w)) + n;
      s.(redis := r.(clicks := r.clicks[sub := clicks], weekly := r.weekly[(sub, w) := weekly],
                     names := r.names[sub := name]),
         past := s.past + {Cell.Clicks(sub, clicks), Weekly((sub, w), weekly), Name(sub, name)})
    case Claim(unlock, at) =>
      if unlock in r.unlocks then s
      else s.(redis := r.(unlocks := r.unlocks[unlock := at]), past := s.past + {Unlocked(unlock, at)})
    case SaveStreak(sub, st) =>
      s.(redis := r.(streaks := r.streaks[sub := st]), past := s.past + {Cell.Streaks(sub, st)})
    case NewWeek => s.(week := s.week + 7)
    case ExpireWeek(w) => s.(redis := r.(weekly := map k | k in r.weekly && k.1 != w :: r.weekly[k]))
    case Begin => s.(snap := On(ReadCounter, s.week, EMPTY, {}))
    case Advance(readable) =>
      var On(stage, w, buffer, _) := s.snap;
      var next := AfterStage(stage);
      var todo := if next.ReadUnlocks? || next.ReadStreaks? then buffer.clicks.Keys else {};
      s.(tables := Write(s.tables, buffer, stage),
         snap := if stage.WriteStreaks? then Off else On(next, w, Read(r, buffer, stage, w, readable), todo))
    case ReadUser(sub) =>
      var On(stage, w, buffer, todo) := s.snap;
      var read := if stage.ReadUnlocks? then buffer.(unlocks := buffer.unlocks + UnlocksOf(r.unlocks, {sub}))
                  else buffer.(streaks := buffer.streaks + StreaksOf(r.streaks, {sub}));
      s.(snap := On(stage, w, read, todo - {sub}))
    case Stop => s.(snap := Off)
    case Reboot => s.(redis := RestoreSpec(EMPTY, s.tables, s.week), snap := Off)
    case Lose => s.(redis := EMPTY)
  }

  ghost predicate IsRun(s: State, steps: seq<Step>)
    decreases |steps|
  {
    steps == [] || (CanStep(s, steps[0]) && IsRun(Next(s, steps[0]), steps[1..]))
  }

  ghost function Final(s: State, steps: seq<Step>): State
    requires IsRun(s, steps)
    decreases |steps|
  {
    if steps == [] then s else Final(Next(s, steps[0]), steps[1..])
  }

  function Start(week: int): State {
    State(EMPTY, EMPTY, week, Off, {})
  }

  /** Redis is never lost without a restart of the worker. */
  predicate NoLoss(steps: seq<Step>) {
    forall i | 0 <= i < |steps| :: !steps[i].Lose?
  }

  // ----- what every step keeps -----

  /** Every number, name, time and streak in d was once in its Redis cell, and streaks fit their
      columns. */
  ghost predicate Had(past: set<Cell>, d: Data) {
    && (d.counter.Some? ==> Counter(d.counter.value) in past)
    && (forall k | k in d.clicks :: Cell.Clicks(k, d.clicks[k]) in past)
    && (forall k | k in d.weekly :: Weekly(k, d.weekly[k]) in past)
    && (forall k | k in d.names :: Name(k, d.names[k]) in past)
    && (forall k | k in d.unlocks :: Unlocked(k, d.unlocks[k]) in past)
    && (forall k | k in d.streaks :: Cell.Streaks(k, d.streaks[k]) in past && FitsColumn(d.streaks[k]))
  }

  ghost predicate CounterBelow(a: Option<nat>, b: Option<nat>) {
    a.Some? ==> b.Some? && a.value <= b.value
  }

  ghost predicate NumbersBelow<K>(a: map<K, nat>, b: map<K, nat>) {
    forall k | k in a :: k in b && a[k] <= b[k]
  }

  ghost predicate SameTimes(a: map<Unlock, int>, b: map<Unlock, int>) {
    forall k | k in a :: k in b && b[k] == a[k]
  }

  /** d holds no more than Redis does; of the weekly boards this is known of two weeks. */
  ghost predicate Below(d: Data, r: Data, week: int) {
    && CounterBelow(d.counter, r.counter)
    && NumbersBelow(d.clicks, r.clicks)
    && NumbersBelow(OfWeek(d.weekly, week), OfWeek(r.weekly, week))
    && d.names.Keys <= r.names.Keys
    && SameTimes(d.unlocks, r.unlocks)
    && d.streaks.Keys <= r.streaks.Keys
  }

  /** Unlocks and streaks belong to users on the all-time board. */
  ghost predicate OnBoard(d: Data, clicks: map<string, nat>) {
    && (forall k | k in d.unlocks :: k.0 in clicks)
    && d.streaks.Keys <= clicks.Keys
  }

  /** What a snapshot of week w has read. */
  ghost predicate BufferFits(past: set<Cell>, redis: Data, b: Data, w: int) {
    && Had(past, b) && Below(b, redis, w)
    && (forall k | k in b.weekly :: k.1 == w)
    && OnBoard(b, b.clicks)
  }

  /** What is about to be written does not lie below what the tables hold, and the users whose
      unlocks and streaks are read are in the tables. */
  ghost predicate StageFits(t: Data, b: Data, stage: Stage, w: int) {
    match stage
    case ReadCounter => b.unlocks == map[] && b.streaks == map[]
    case WriteCounter => b.unlocks == map[] && b.streaks == map[] && CounterBelow(t.counter, b.counter)
    case ReadClicks => b.unlocks == map[] && b.streaks == map[]
    case WriteClicks => NumbersBelow(t.clicks, b.clicks)
    case WriteWeek => b.clicks.Keys <= t.clicks.Keys && NumbersBelow(OfWeek(t.weekly, w), b.weekly)
    case _ => b.clicks.Keys <= t.clicks.Keys
  }

  /** What the tables hold, seen from week w. */
  ghost predicate TablesFit(past: set<Cell>, redis: Data, week: int, t: Data, w: int) {
    && Had(past, t) && Below(t, redis, w)
    && (forall k | k in t.weekly :: k.1 <= week)
    && OnBoard(t, t.clicks)
  }

  ghost predicate SnapFits(s: State) {
    s.snap.On? ==>
      var On(stage, w, b, todo) := s.snap;
      && w <= s.week && todo <= b.clicks.Keys
      && BufferFits(s.past, s.redis, b, w) && TablesFit(s.past, s.redis, s.week, s.tables, w)
      && StageFits(s.tables, b, stage, w)
  }

  ghost predicate Inv(s: State) {
    && Had(s.past, s.redis) && OnBoard(s.redis, s.redis.clicks)
    && TablesFit(s.past, s.redis, s.week, s.tables, s.week)
    && SnapFits(s)
  }

  /** No number in the tables falls, no unlock time changes, nothing is removed. */
  ghost predicate TablesGrow(t: Data, t': Data) {
    && CounterBelow(t.counter, t'.counter)
    && NumbersBelow(t.clicks, t'.clicks)
    && NumbersBelow(t.weekly, t'.weekly)
    && SameTimes(t.unlocks, t'.unlocks)
    && t.names.Keys <= t'.names.Keys && t.streaks.Keys <= t'.streaks.Keys
  }

  // ----- a step of the workers -----

  lemma StillHad(past: set<Cell>, past': set<Cell>, d: Data)
    requires Had(past, d) && past <= past'
    ensures Had(past', d)
  {
  }

  /** TablesGrow says of Redis, too, that it only gained. */
  lemma StillBelow(d: Data, r: Data, r': Data, week: int)
    requires Below(d, r, week) && TablesGrow(r, r')
    ensures Below(d, r', week)
  {
    forall k | k in OfWeek(d.weekly, week)
      ensures k in OfWeek(r'.weekly, week) && OfWeek(d.weekly, week)[k] <= OfWeek(r'.weekly, week)[k]
    {
      assert k in OfWeek(r.weekly, week);
    }
  }

  lemma PipelineGrowsRedis(s: State, step: Step)
    requires Had(s.past, s.redis) && OnBoard(s.redis, s.redis.clicks) && step.Pipeline?
    ensures var s' := Next(s, step);
            && TablesGrow(s.redis, s'.redis) && s.past <= s'.past
            && Had(s'.past, s'.redis) && OnBoard(s'.redis, s'.redis.clicks)
  {
  }

  lemma WorkerGrowsRedis(s: State, step: Step)
    requires Had(s.past, s.redis) && OnBoard(s.redis, s.redis.clicks) && CanStep(s, step)
    requires step.Increment? || step.Pipeline? || step.Claim? || step.SaveStreak?
    ensures var s' := Next(s, step);
            && TablesGrow(s.redis, s'.redis) && s.past <= s'.past
            && Had(s'.past, s'.redis) && OnBoard(s'.redis, s'.redis.clicks)
  {
    if step.Pipeline? { PipelineGrowsRedis(s, step); }
    if step.Claim? { ClaimGrowsRedis(s, step); }
  }

  lemma ClaimGrowsRedis(s: State, step: Step)
    requires Had(s.past, s.redis) && OnBoard(s.redis, s.redis.clicks) && CanStep(s, step) && step.Claim?
    ensures var s' := Next(s, step);
            && TablesGrow(s.redis, s'.redis) && s.past <= s'.past
            && Had(s'.past, s'.redis) && OnBoard(s'.redis, s'.redis.clicks)
  {
  }

  /** A change of Redis that takes nothing away leaves the snapshot in progress in order. */
  lemma SnapStillFits(s: State, s': State)
    requires SnapFits(s) && s'.snap == s.snap && s'.tables == s.tables && s.week <= s'.week
    requires s.past <= s'.past && TablesGrow(s.redis, s'.redis)
    ensures SnapFits(s')
  {
    if s.snap.On? {
      StillHad(s.past, s'.past, s.snap.read);
      StillBelow(s.snap.read, s.redis, s'.redis, s.snap.week);
      StillBelow(s.tables, s.redis, s'.redis, s.snap.week);
    }
  }

  lemma WorkerStep(s: State, step: Step)
    requires Inv(s) && CanStep(s, step)
    requires step.Increment? || step.Pipeline? || step.Claim? || step.SaveStreak?
    ensures Inv(Next(s, step)) && Next(s, step).tables == s.tables
  {
    var s' := Next(s, step);
    WorkerGrowsRedis(s, step);
    StillHad(s.past, s'.past, s.tables);
    StillBelow(s.tables, s.redis, s'.redis, s.week);
    SnapStillFits(s, s');
  }

  lemma WeekStep(s: State, step: Step)
    requires Inv(s) && CanStep(s, step) && (step.NewWeek? || step.ExpireWeek?)
    ensures Inv(Next(s, step)) && Next(s, step).tables == s.tables
  {
  }

  lemma RebootStep(s: State)
    requires Inv(s)
    ensures Inv(Next(s, Reboot)) && Next(s, Reboot).tables == s.tables
  {
    RestoreIsTables(s.tables, s.week);
  }

  // ----- a step of the snapshotter -----

  lemma ReadCounterFits(s: State, b: Data, w: int)
    requires Had(s.past, s.redis) && BufferFits(s.past, s.redis, b, w)
    ensures BufferFits(s.past, s.redis, b.(counter := s.redis.counter), w)
  {
  }

  lemma ReadClicksFits(s: State, b: Data, w: int)
    requires Had(s.past, s.redis) && BufferFits(s.past, s.redis, b, w) && b.unlocks == map[] && b.streaks == map[]
    ensures BufferFits(s.past, s.redis, b.(clicks := s.redis.clicks), w)
  {
  }

  lemma ReadWeekFits(s: State, b: Data, w: int)
    requires Had(s.past, s.redis) && BufferFits(s.past, s.redis, b, w)
    ensures BufferFits(s.past, s.redis, b.(weekly := OfWeek(s.redis.weekly, w)), w)
  {
  }

  lemma ReadNamesFits(s: State, b: Data, w: int)
    requires Had(s.past, s.redis) && BufferFits(s.past, s.redis, b, w)
    ensures BufferFits(s.past, s.redis, b.(names := s.redis.names), w)
  {
  }

  lemma ReadUnlocksFits(s: State, b: Data, w: int, sub: string)
    requires Had(s.past, s.redis) && BufferFits(s.past, s.redis, b, w) && sub in b.clicks
    ensures BufferFits(s.past, s.redis, b.(unlocks := b.unlocks + UnlocksOf(s.redis.unlocks, {sub})), w)
  {
  }

  lemma ReadStreaksFits(s: State, b: Data, w: int, sub: string)
    requires Had(s.past, s.redis) && BufferFits(s.past, s.redis, b, w) && sub in b.clicks
    ensures BufferFits(s.past, s.redis, b.(streaks := b.streaks + StreaksOf(s.redis.streaks, {sub})), w)
  {
  }

  lemma ReadFits(s: State, readable: bool)
    requires Inv(s) && CanStep(s, Advance(readable))
    ensures BufferFits(s.past, s.redis, Read(s.redis, s.snap.read, s.snap.stage, s.snap.week, readable), s.snap.week)
  {
    var b, w := s.snap.read, s.snap.week;
    match s.snap.stage
    case ReadCounter => ReadCounterFits(s, b, w);
    case ReadClicks => ReadClicksFits(s, b, w);
    case ReadWeek => ReadWeekFits(s, b, w);
    case ReadNames => ReadNamesFits(s, b, w);
    case _ =>
  }

  lemma WriteCounterFits(s: State, t: Data, b: Data, w: int)
    requires TablesFit(s.past, s.redis, s.week, t, w) && BufferFits(s.past, s.redis, b, w)
    requires CounterBelow(t.counter, b.counter)
    ensures var t' := Write(t, b, WriteCounter); TablesFit(s.past, s.redis, s.week, t', w) && TablesGrow(t, t')
  {
  }

  lemma WriteClicksFits(s: State, t: Data, b: Data, w: int)
    requires TablesFit(s.past, s.redis, s.week, t, w) && BufferFits(s.past, s.redis, b, w)
    requires NumbersBelow(t.clicks, b.clicks)
    ensures var t' := Write(t, b, WriteClicks); TablesFit(s.past, s.redis, s.week, t', w) && TablesGrow(t, t')
  {
  }

  /** v is any week: the rows written are of week w. */
  lemma UpsertWeek(tw: map<(string, int), nat>, bw: map<(string, int), nat>, rw: map<(string, int), nat>, w: int,
                   v: int)
    requires NumbersBelow(OfWeek(tw, v), OfWeek(rw, v)) && NumbersBelow(OfWeek(bw, w), OfWeek(rw, w))
    requires (forall k | k in bw :: k.1 == w) && NumbersBelow(OfWeek(tw, w), bw)
    ensures NumbersBelow(OfWeek(tw + bw, v), OfWeek(rw, v)) && NumbersBelow(tw, tw + bw)
  {
    forall k | k in OfWeek(tw + bw, v)
      ensures k in OfWeek(rw, v) && OfWeek(tw + bw, v)[k] <= OfWeek(rw, v)[k]
    {
      if k in bw { assert k in OfWeek(bw, w); } else { assert k in OfWeek(tw, v); }
    }
    forall k | k in tw ensures tw[k] <= (tw + bw)[k] {
      if k in bw { assert k in OfWeek(tw, w); }
    }
  }

  lemma WriteWeekFits(s: State, t: Data, b: Data, w: int, v: int)
    requires TablesFit(s.past, s.redis, s.week, t, v) && BufferFits(s.past, s.redis, b, w) && w <= s.week
    requires NumbersBelow(OfWeek(t.weekly, w), b.weekly)
    ensures var t' := Write(t, b, WriteWeek); TablesFit(s.past, s.redis, s.week, t', v) && TablesGrow(t, t')
  {
    UpsertWeek(t.weekly, b.weekly, s.redis.weekly, w, v);
  }

  lemma WriteNamesFits(s: State, t: Data, b: Data, w: int)
    requires TablesFit(s.past, s.redis, s.week, t, w) && BufferFits(s.past, s.redis, b, w)
    ensures var t' := Write(t, b, WriteNames); TablesFit(s.past, s.redis, s.week, t', w) && TablesGrow(t, t')
  {
  }

  lemma WriteUnlocksFits(s: State, t: Data, b: Data, w: int)
    requires TablesFit(s.past, s.redis, s.week, t, w) && BufferFits(s.past, s.redis, b, w)
    requires b.clicks.Keys <= t.clicks.Keys
    ensures var t' := Write(t, b, WriteUnlocks); TablesFit(s.past, s.redis, s.week, t', w) && TablesGrow(t, t')
  {
  }

  lemma WriteStreaksFits(s: State, t: Data, b: Data, w: int)
    requires TablesFit(s.past, s.redis, s.week, t, w) && BufferFits(s.past, s.redis, b, w)
    requires b.clicks.Keys <= t.clicks.Keys
    ensures var t' := Write(t, b, WriteStreaks); TablesFit(s.past, s.redis, s.week, t', w) && TablesGrow(t, t')
  {
  }

  /** What a buffer fits it fits seen from any week of the tables, weekly rows aside. */
  lemma FitsOtherWeek(s: State, b: Data, w: int, v: int)
    requires BufferFits(s.past, s.redis, b, w)
    ensures BufferFits(s.past, s.redis, b.(weekly := map[]), v)
  {
  }

  /** The write stages, seen from the week of the snapshot and from the current one. */
  lemma WriteFits(s: State, v: int)
    requires s.snap.On? && SnapFits(s) && TablesFit(s.past, s.redis, s.week, s.tables, v)
    ensures var t' := Write(s.tables, s.snap.read, s.snap.stage);
            TablesFit(s.past, s.redis, s.week, t', v) && TablesGrow(s.tables, t')
  {
    var t, b, w := s.tables, s.snap.read, s.snap.week;
    var b' := b.(weekly := map[]);
    FitsOtherWeek(s, b, w, v);
    match s.snap.stage
    case WriteCounter => WriteCounterFits(s, t, b', v);
    case WriteClicks => WriteClicksFits(s, t, b', v);
    case WriteWeek => WriteWeekFits(s, t, b, w, v);
    case WriteNames => WriteNamesFits(s, t, b', v);
    case WriteUnlocks => WriteUnlocksFits(s, t, b', v);
    case WriteStreaks => WriteStreaksFits(s, t, b', v);
    case _ => GrowsItself(t);
  }

  lemma GrowsItself(t: Data)
    ensures TablesGrow(t, t)
  {
  }

  /** After a read of the stage's cell the tables, which lie below Redis, lie below it. */
  lemma ReadThenWrite(t: Data, b: Data, r: Data, stage: Stage, w: int, readable: bool)
    requires StageFits(t, b, stage, w) && Below(t, r, w)
    requires || stage.ReadCounter? || stage.ReadClicks? || stage.ReadWeek?
             || stage.ReadNames? || stage.ReadUnlocks? || stage.ReadStreaks?
    ensures StageFits(t, Read(r, b, stage, w, readable), AfterStage(stage), w)
  {
  }

  lemma WriteThenRead(t: Data, b: Data, stage: Stage, w: int)
    requires StageFits(t, b, stage, w)
    requires stage.WriteCounter? || stage.WriteClicks? || stage.WriteWeek? || stage.WriteNames? || stage.WriteUnlocks?
    ensures StageFits(Write(t, b, stage), b, AfterStage(stage), w)
  {
  }

  lemma NextStageFits(s: State, readable: bool)
    requires Inv(s) && CanStep(s, Advance(readable)) && !s.snap.stage.WriteStreaks?
    ensures var On(stage, w, b, _) := s.snap;
            StageFits(Write(s.tables, b, stage), Read(s.redis, b, stage, w, readable), AfterStage(stage), w)
  {
    var On(stage, w, b, _) := s.snap;
    if stage.WriteCounter? || stage.WriteClicks? || stage.WriteWeek? || stage.WriteNames? || stage.WriteUnlocks? {
      WriteThenRead(s.tables, b, stage, w);
    } else {
      ReadThenWrite(s.tables, b, s.redis, stage, w, readable);
    }
  }

  /** What a stage that is not the last leads to. */
  lemma AdvanceMeans(s: State, readable: bool)
    requires CanStep(s, Advance(readable)) && !s.snap.stage.WriteStreaks?
    ensures var s' := Next(s, Advance(readable));
            var On(stage, w, b, _) := s.snap;
            && s'.past == s.past && s'.redis == s.redis && s'.week == s.week && s'.tables == Write(s.tables, b, stage)
            && s'.snap.On? && s'.snap.stage == AfterStage(stage) && s'.snap.week == w
            && s'.snap.read == Read(s.redis, b, stage, w, readable) && s'.snap.todo <= s'.snap.read.clicks.Keys
  {
  }

  lemma AdvancedSnapFits(s: State, readable: bool)
    requires Inv(s) && CanStep(s, Advance(readable))
    ensures SnapFits(Next(s, Advance(readable)))
  {
    if !s.snap.stage.WriteStreaks? {
      AdvanceMeans(s, readable);
      ReadFits(s, readable);
      WriteFits(s, s.snap.week);
      NextStageFits(s, readable);
    }
  }

  lemma AdvanceStep(s: State, readable: bool)
    requires Inv(s) && CanStep(s, Advance(readable))
    ensures Inv(Next(s, Advance(readable))) && TablesGrow(s.tables, Next(s, Advance(readable)).tables)
  {
    WriteFits(s, s.week);
    AdvancedSnapFits(s, readable);
  }

  lemma ReadUserStep(s: State, sub: string)
    requires Inv(s) && CanStep(s, ReadUser(sub))
    ensures Inv(Next(s, ReadUser(sub))) && Next(s, ReadUser(sub)).tables == s.tables
  {
    ReadUnlocksFits(s, s.snap.read, s.snap.week, sub);
    ReadStreaksFits(s, s.snap.read, s.snap.week, sub);
  }

  lemma BeginOrStop(s: State, step: Step)
    requires Inv(s) && CanStep(s, step) && (step.Begin? || step.Stop?)
    ensures Inv(Next(s, step)) && Next(s, step).tables == s.tables
  {
  }

  // ----- runs -----

  lemma NextKeepsInv(s: State, step: Step)
    requires Inv(s) && CanStep(s, step) && !step.Lose?
    ensures Inv(Next(s, step)) && TablesGrow(s.tables, Next(s, step).tables)
  {
    match step
    case Advance(readable) => AdvanceStep(s, readable);
    case ReadUser(sub) => ReadUserStep(s, sub); GrowsItself(s.tables);
    case Reboot => RebootStep(s); GrowsItself(s.tables);
    case NewWeek => WeekStep(s, step); GrowsItself(s.tables);
    case ExpireWeek(_) => WeekStep(s, step); GrowsItself(s.tables);
    case Begin => BeginOrStop(s, step); GrowsItself(s.tables);
    case Stop => BeginOrStop(s, step); GrowsItself(s.tables);
    case _ => WorkerStep(s, step); GrowsItself(s.tables);
  }

  lemma GrowsThrough(a: Data, b: Data, c: Data)
    requires TablesGrow(a, b) && TablesGrow(b, c)
    ensures TablesGrow(a, c)
  {
  }

  /** In every run of the workers and one snapshotter, stopped and restarted anywhere and
      through losses of Redis followed by a restore: the tables never lose a row, a number in
      them never falls and an unlock time never changes. */
  lemma {:induction false} TablesOnlyGrow(s: State, steps: seq<Step>)
    requires Inv(s) && IsRun(s, steps) && NoLoss(steps)
    ensures Inv(Final(s, steps)) && TablesGrow(s.tables, Final(s, steps).tables)
    decreases |steps|
  {
    if steps == [] {
      GrowsItself(s.tables);
    } else {
      NextKeepsInv(s, steps[0]);
      TablesOnlyGrow(Next(s, steps[0]), steps[1..]);
      GrowsThrough(s.tables, Next(s, steps[0]).tables, Final(s, steps).tables);
    }
  }

  /** In every reachable state, in the middle of a snapshot or not: each value in the tables is
      one that its Redis cell really had, no number there exceeds the one in Redis, and each
      unlock there has the time it has in Redis. */
  lemma TablesAreReal(week: int, steps: seq<Step>)
    requires IsRun(Start(week), steps) && NoLoss(steps)
    ensures var s := Final(Start(week), steps);
            Had(s.past, s.tables) && Below(s.tables, s.redis, s.week)
  {
    TablesOnlyGrow(Start(week), steps);
  }

  /** From every reachable state: a snapshot taken in quiet, the loss of Redis and a restore in
      the same week give back the counter, the all-time board, this week's board, the names,
      the unlocks with their times and the streaks. */
  lemma QuietRoundTrip(week: int, steps: seq<Step>)
    requires IsRun(Start(week), steps) && NoLoss(steps)
    ensures var s := Final(Start(week), steps);
            RestoreSpec(EMPTY, SnapshotSpec(s.redis, s.tables, s.week), s.week)
              == s.redis.(weekly := OfWeek(s.redis.weekly, s.week))
  {
    TablesOnlyGrow(Start(week), steps);
    var s := Final(Start(week), steps);
    assert Covers(s.redis, s.tables, s.week) by {
      forall sub | (sub, s.week) in s.tables.weekly ensures (sub, s.week) in s.redis.weekly {
        assert (sub, s.week) in OfWeek(s.tables.weekly, s.week);
      }
    }
    RoundTrip(s.redis, s.tables, s.week);
  }

  // ----- a run without interruption is the method -----

  lemma {:induction false} RunAppend(s: State, a: seq<Step>, b: seq<Step>)
    requires IsRun(s, a) && IsRun(Final(s, a), b)
    ensures IsRun(s, a + b) && Final(s, a + b) == Final(Final(s, a), b)
    decreases |a|
  {
    if a == [] {
      assert a + b == b;
    } else {
      RunAppend(Next(s, a[0]), a[1..], b);
      assert (a + b)[1..] == a[1..] + b;
    }
  }

  lemma RunPush(s: State, steps: seq<Step>, step: Step)
    requires IsRun(s, steps) && CanStep(Final(s, steps), step)
    ensures IsRun(s, steps + [step]) && Final(s, steps + [step]) == Next(Final(s, steps), step)
  {
    assert [step][1..] == [];
    RunAppend(s, steps, [step]);
  }

  /** s after its snapshot has come to the given stage. */
  function Reached(s: State, t: Data, stage: Stage, read: Data): State {
    var todo := if stage.ReadUnlocks? || stage.ReadStreaks? then read.clicks.Keys else {};
    s.(tables := t, snap := On(stage, s.week, read, todo))
  }

  /** Reading the hashes of all users, one by one. */
  lemma {:induction false} ReadUsers(s: State) returns (steps: seq<Step>)
    requires s.snap.On? && (s.snap.stage.ReadUnlocks? || s.snap.stage.ReadStreaks?)
    ensures IsRun(s, steps)
    ensures var On(stage, w, b, todo) := s.snap;
            Final(s, steps) == s.(snap := On(stage, w,
              if stage.ReadUnlocks? then b.(unlocks := b.unlocks + UnlocksOf(s.redis.unlocks, todo))
              else b.(streaks := b.streaks + StreaksOf(s.redis.streaks, todo)), {}))
    decreases s.snap.todo
  {
    var On(stage, w, b, todo) := s.snap;
    if todo == {} {
      steps := [];
      PlusNothing(b.unlocks);
      PlusNothing(b.streaks);
      assert UnlocksOf(s.redis.unlocks, {}) == map[] && StreaksOf(s.redis.streaks, {}) == map[];
    } else {
      var sub :| sub in todo;
      var rest := ReadUsers(Next(s, ReadUser(sub)));
      steps := [ReadUser(sub)] + rest;
      assert steps[1..] == rest;
      UnlocksJoined(b.unlocks, s.redis.unlocks, todo, sub);
      StreaksJoined(b.streaks, s.redis.streaks, todo, sub);
    }
  }

  lemma UnlocksJoined(more: map<Unlock, int>, unlocks: map<Unlock, int>, todo: set<string>, sub: string)
    requires sub in todo
    ensures more + UnlocksOf(unlocks, {sub}) + UnlocksOf(unlocks, todo - {sub}) == more + UnlocksOf(unlocks, todo)
  {
    assert UnlocksOf(unlocks, {sub}) + UnlocksOf(unlocks, todo - {sub}) == UnlocksOf(unlocks, todo);
  }

  lemma StreaksJoined(more: map<string, Streak>, streaks: map<string, Streak>, todo: set<string>, sub: string)
    requires sub in todo
    ensures more + StreaksOf(streaks, {sub}) + StreaksOf(streaks, todo - {sub}) == more + StreaksOf(streaks, todo)
  {
    assert StreaksOf(streaks, {sub}) + StreaksOf(streaks, todo - {sub}) == StreaksOf(streaks, todo);
  }

  /** Reading one key and writing its table. */
  lemma OneKey(s: State) returns (steps: seq<Step>)
    requires s.snap.On? && s.snap.todo == {}
    requires s.snap.stage.ReadCounter? || s.snap.stage.ReadClicks? || s.snap.stage.ReadWeek? || s.snap.stage.ReadNames?
    ensures IsRun(s, steps)
    ensures var On(stage, w, b, _) := s.snap;
            var read := Read(s.redis, b, stage, w, true);
            Final(s, steps) == s.(tables := Write(s.tables, read, AfterStage(stage)),
              snap := On(AfterStage(AfterStage(stage)), w, read, if stage.ReadNames? then read.clicks.Keys else {}))
  {
    steps := [];
    RunPush(s, steps, Advance(true));
    steps := steps + [Advance(true)];
    RunPush(s, steps, Advance(true));
    steps := steps + [Advance(true)];
  }

  /** Two keys, one after the other. */
  lemma TwoKeys(s: State) returns (steps: seq<Step>)
    requires s.snap.On? && s.snap.todo == {} && (s.snap.stage.ReadCounter? || s.snap.stage.ReadWeek?)
    ensures IsRun(s, steps)
    ensures var On(stage, w, b, _) := s.snap;
            var r, t := s.redis, s.tables;
            Final(s, steps) ==
              if stage.ReadCounter? then
                s.(tables := t.(counter := if r.counter.Some? then r.counter else t.counter,
                                clicks := t.clicks + r.clicks),
                   snap := On(ReadWeek, w, b.(counter := r.counter, clicks := r.clicks), {}))
              else
                s.(tables := t.(weekly := t.weekly + OfWeek(r.weekly, w), names := t.names + r.names),
                   snap := On(ReadUnlocks, w, b.(weekly := OfWeek(r.weekly, w), names := r.names), b.clicks.Keys))
  {
    steps := OneKey(s);
    var second := OneKey(Final(s, steps));
    RunAppend(s, steps, second);
    steps := steps + second;
  }

  /** The stages up to the unlocks, with nothing in between. */
  lemma FirstStages(s: State) returns (steps: seq<Step>)
    requires s.snap.Off?
    ensures IsRun(s, steps)
    ensures var r, t := s.redis, s.tables;
            var read := Data(r.counter, r.clicks, OfWeek(r.weekly, s.week), r.names, map[], map[]);
            var tables := SnapshotSpec(r, t, s.week).(unlocks := t.unlocks, streaks := t.streaks);
            Final(s, steps) == Reached(s, tables, ReadUnlocks, read)
  {
    RunPush(s, [], Begin);
    steps := [] + [Begin];
    var boards := TwoKeys(Final(s, steps));
    RunAppend(s, steps, boards);
    steps := steps + boards;
    var others := TwoKeys(Final(s, steps));
    RunAppend(s, steps, others);
    steps := steps + others;
  }

  /** From reading the unlocks or the streaks to after writing them. */
  lemma UserStages(s: State) returns (steps: seq<Step>)
    requires s.snap.On? && (s.snap.stage.ReadUnlocks? || s.snap.stage.ReadStreaks?)
    ensures IsRun(s, steps)
    ensures var On(stage, w, b, todo) := s.snap;
            var unlocks := b.unlocks + UnlocksOf(s.redis.unlocks, todo);
            var streaks := b.streaks + StreaksOf(s.redis.streaks, todo);
            Final(s, steps) ==
              if stage.ReadUnlocks? then
                s.(tables := s.tables.(unlocks := unlocks + s.tables.unlocks),
                   snap := On(ReadStreaks, w, b.(unlocks := unlocks), b.clicks.Keys))
              else
                s.(tables := s.tables.(streaks := s.tables.streaks + streaks), snap := Off)
  {
    steps := ReadUsers(s);
    RunPush(s, steps, Advance(true));
    steps := steps + [Advance(true)];
    RunPush(s, steps, Advance(true));
    steps := steps + [Advance(true)];
  }

  /** A snapshot that nothing interrupts leaves the tables as the method Snapshot does. */
  lemma QuietSnapshot(s: State) returns (steps: seq<Step>)
    requires s.snap.Off?
    ensures IsRun(s, steps)
    ensures Final(s, steps) == s.(tables := SnapshotSpec(s.redis, s.tables, s.week))
  {
    steps := FirstStages(s);
    var unlocks := UserStages(Final(s, steps));
    RunAppend(s, steps, unlocks);
    steps := steps + unlocks;
    var streaks := UserStages(Final(s, steps));
    RunAppend(s, steps, streaks);
    steps := steps + streaks;
    PlusNothing(UnlocksOf(s.redis.unlocks, s.redis.clicks.Keys));
    PlusNothing(StreaksOf(s.redis.streaks, s.redis.clicks.Keys));
  }

  // ----- Redis is lost while the workers run on -----

  ghost predicate HadAll(s: State) {
    Had(s.past, s.redis) && Had(s.past, s.tables) && (s.snap.On? ==> Had(s.past, s.snap.read))
  }

  lemma WriteHad(past: set<Cell>, t: Data, b: Data, stage: Stage)
    requires Had(past, t) && Had(past, b)
    ensures Had(past, Write(t, b, stage))
  {
  }

  lemma ReadHad(past: set<Cell>, r: Data, b: Data, stage: Stage, week: int, readable: bool)
    requires Had(past, r) && Had(past, b)
    ensures Had(past, Read(r, b, stage, week, readable))
  {
  }

  lemma ReadUserHad(past: set<Cell>, r: Data, b: Data, sub: string)
    requires Had(past, r) && Had(past, b)
    ensures Had(past, b.(unlocks := b.unlocks + UnlocksOf(r.unlocks, {sub})))
    ensures Had(past, b.(streaks := b.streaks + StreaksOf(r.streaks, {sub})))
  {
    UnlockHad(past, r, b, sub);
  }

  lemma UnlockHad(past: set<Cell>, r: Data, b: Data, sub: string)
    requires Had(past, r) && Had(past, b)
    ensures Had(past, b.(unlocks := b.unlocks + UnlocksOf(r.unlocks, {sub})))
  {
  }

  lemma WorkerHad(s: State, step: Step)
    requires Had(s.past, s.redis) && CanStep(s, step)
    requires step.Increment? || step.Pipeline? || step.Claim? || step.SaveStreak? || step.ExpireWeek?
    ensures s.past <= Next(s, step).past && Had(Next(s, step).past, Next(s, step).redis)
  {
  }

  lemma NextKeepsHad(s: State, step: Step)
    requires HadAll(s) && CanStep(s, step)
    ensures HadAll(Next(s, step))
  {
    var s' := Next(s, step);
    match step
    case Advance(readable) =>
      WriteHad(s.past, s.tables, s.snap.read, s.snap.stage);
      ReadHad(s.past, s.redis, s.snap.read, s.snap.stage, s.snap.week, readable);
    case ReadUser(sub) => ReadUserHad(s.past, s.redis, s.snap.read, sub);
    case Reboot => RestoreIsTables(s.tables, s.week);
    case Begin => case Stop => case Lose => case NewWeek =>
    case _ =>
      WorkerHad(s, step);
      StillHad(s.past, s'.past, s.tables);
      if s.snap.On? { StillHad(s.past, s'.past, s.snap.read); }
  }

  /** Even in runs that lose Redis, each value in the tables is one that its Redis cell had. */
  lemma {:induction false} RunKeepsHad(s: State, steps: seq<Step>)
    requires HadAll(s) && IsRun(s, steps)
    ensures HadAll(Final(s, steps))
    decreases |steps|
  {
    if steps != [] {
      NextKeepsHad(s, steps[0]);
      RunKeepsHad(Next(s, steps[0]), steps[1..]);
    }
  }

  ghost predicate NoneLower<K>(t: map<K, nat>, d: map<K, nat>) {
    forall k | k in t && k in d :: t[k] <= d[k]
  }

  /** No number that a snapshot of week w would write is below the one it replaces. */
  ghost predicate Replaces(t: Data, r: Data, w: int) {
    && (t.counter.Some? && r.counter.Some? ==> t.counter.value <= r.counter.value)
    && NoneLower(t.clicks, r.clicks)
    && NoneLower(t.weekly, OfWeek(r.weekly, w))
  }

  lemma UpsertGrowsIff<K>(t: map<K, nat>, d: map<K, nat>)
    ensures NumbersBelow(t, t + d) <==> NoneLower(t, d)
  {
    if NumbersBelow(t, t + d) {
      forall k | k in t && k in d ensures t[k] <= d[k] {
        assert k in t + d && (t + d)[k] == d[k];
      }
    }
  }

  /** A quiet snapshot of whatever Redis lowers nothing in the tables if and only if the counter
      and the scores that are there on both sides are not lower in Redis. */
  lemma SnapshotGrowsIff(r: Data, t: Data, w: int)
    ensures TablesGrow(t, SnapshotSpec(r, t, w)) <==> Replaces(t, r, w)
  {
    UpsertGrowsIff(t.clicks, r.clicks);
    UpsertGrowsIff(t.weekly, OfWeek(r.weekly, w));
  }

  /** No number that this step writes is below the one it replaces. */
  ghost predicate WritesNoneLower(s: State, step: Step)
    requires CanStep(s, step)
  {
    step.Advance? ==>
      var t, b := s.tables, s.snap.read;
      match s.snap.stage
      case WriteCounter => t.counter.Some? && b.counter.Some? ==> t.counter.value <= b.counter.value
      case WriteClicks => NoneLower(t.clicks, b.clicks)
      case WriteWeek => NoneLower(t.weekly, b.weekly)
      case _ => true
  }

  /** Step by step, in every state whatever: only such a write can lower the tables. */
  lemma StepGrowsIff(s: State, step: Step)
    requires CanStep(s, step)
    ensures TablesGrow(s.tables, Next(s, step).tables) <==> WritesNoneLower(s, step)
  {
    if step.Advance? {
      AdvanceGrowsIff(s, step.readable);
    } else {
      GrowsItself(s.tables);
    }
  }

  lemma AdvanceGrowsIff(s: State, readable: bool)
    requires CanStep(s, Advance(readable))
    ensures TablesGrow(s.tables, Write(s.tables, s.snap.read, s.snap.stage)) <==> WritesNoneLower(s, Advance(readable))
  {
    match s.snap.stage
    case WriteClicks => UpsertGrowsIff(s.tables.clicks, s.snap.read.clicks);
    case WriteWeek => UpsertGrowsIff(s.tables.weekly, s.snap.read.weekly);
    case _ =>
  }

  ghost predicate EveryStepGrows(s: State, steps: seq<Step>)
    requires IsRun(s, steps)
    decreases |steps|
  {
    steps == [] || (TablesGrow(s.tables, Next(s, steps[0]).tables) && EveryStepGrows(Next(s, steps[0]), steps[1..]))
  }

  ghost predicate EveryWriteHigher(s: State, steps: seq<Step>)
    requires IsRun(s, steps)
    decreases |steps|
  {
    steps == [] || (WritesNoneLower(s, steps[0]) && EveryWriteHigher(Next(s, steps[0]), steps[1..]))
  }

  /** Over a whole run, through losses and restores: the tables never lose anything if and only if
      no write of a snapshot replaces a number by a lower one. */
  lemma {:induction false} RunGrowsIff(s: State, steps: seq<Step>)
    requires IsRun(s, steps)
    ensures EveryStepGrows(s, steps) <==> EveryWriteHigher(s, steps)
    decreases |steps|
  {
    if steps != [] {
      StepGrowsIff(s, steps[0]);
      RunGrowsIff(Next(s, steps[0]), steps[1..]);
    }
  }

  lemma {:induction false} NoLossGrows(s: State, steps: seq<Step>)
    requires Inv(s) && IsRun(s, steps) && NoLoss(steps)
    ensures EveryStepGrows(s, steps)
    decreases |steps|
  {
    if steps != [] {
      NextKeepsInv(s, steps[0]);
      NoLossGrows(Next(s, steps[0]), steps[1..]);
    }
  }

  lemma {:induction false} GrowsToTheEnd(s: State, steps: seq<Step>)
    requires IsRun(s, steps) && EveryStepGrows(s, steps)
    ensures TablesGrow(s.tables, Final(s, steps).tables)
    decreases |steps|
  {
    if steps == [] {
      GrowsItself(s.tables);
    } else {
      GrowsToTheEnd(Next(s, steps[0]), steps[1..]);
      GrowsThrough(s.tables, Next(s, steps[0]).tables, Final(s, steps).tables);
    }
  }

  lemma {:induction false} GrowsInParts(s: State, a: seq<Step>, b: seq<Step>)
    requires IsRun(s, a) && IsRun(Final(s, a), b) && IsRun(s, a + b) && EveryStepGrows(s, a + b)
    ensures EveryStepGrows(Final(s, a), b)
    decreases |a|
  {
    if a == [] {
      assert a + b == b;
    } else {
      assert (a + b)[0] == a[0] && (a + b)[1..] == a[1..] + b;
      GrowsInParts(Next(s, a[0]), a[1..], b);
    }
  }

  /** Into an empty Redis, one batch of a user; then a snapshot. */
  lemma ClickThenSnapshot(s: State, sub: string, n: nat, name: string) returns (steps: seq<Step>)
    requires s.redis == EMPTY && s.snap.Off?
    ensures IsRun(s, steps)
    ensures var f := Final(s, steps);
            && f.snap.Off? && f.week == s.week && f.redis.clicks == map[sub := n]
            && sub in f.tables.clicks && f.tables.clicks[sub] == n
  {
    var click := Pipeline(sub, s.week, n, name);
    RunPush(s, [], click);
    steps := [] + [click];
    var copy := QuietSnapshot(Final(s, steps));
    RunAppend(s, steps, copy);
    steps := steps + copy;
  }

  /** The order "restore before consuming" is needed. A user's clicks are saved; Redis is lost
      while the workers run on; the user's next click makes Redis non-empty, so that a restore
      would leave it alone; and the next snapshot lowers the number that the tables had saved. */
  lemma LossWhileRunning(sub: string, week: int, saved: nat, name: string) returns (a: seq<Step>, b: seq<Step>)
    requires saved > 1
    ensures IsRun(Start(week), a) && IsRun(Final(Start(week), a), b)
    ensures var before, after := Final(Start(week), a), Final(Final(Start(week), a), b);
            && sub in before.tables.clicks && before.tables.clicks[sub] == saved
            && sub in after.tables.clicks && after.tables.clicks[sub] == 1
            && RestoreSpec(after.redis, after.tables, week) == after.redis
  {
    a := ClickThenSnapshot(Start(week), sub, saved, name);
    var m := Final(Start(week), a);
    RunPush(m, [], Lose);
    b := [] + [Lose];
    var rest := ClickThenSnapshot(Final(m, b), sub, 1, name);
    RunAppend(m, b, rest);
    b := b + rest;
  }

  ghost predicate AlwaysGrow(week: int, mayLose: bool) {
    forall steps | IsRun(Start(week), steps) && (mayLose || NoLoss(steps)) :: EveryStepGrows(Start(week), steps)
  }

  /** The tables only grow in every run if and only if Redis is never lost without a restart of
      the worker. */
  lemma GrowIffNoLoss(week: int, mayLose: bool)
    ensures AlwaysGrow(week, mayLose) <==> !mayLose
  {
    if mayLose {
      var a, b := LossWhileRunning([], week, 2, []);
      RunAppend(Start(week), a, b);
      if EveryStepGrows(Start(week), a + b) {
        GrowsInParts(Start(week), a, b);
        GrowsToTheEnd(Final(Start(week), a), b);
      }
    } else {
      forall steps | IsRun(Start(week), steps) && NoLoss(steps) ensures EveryStepGrows(Start(week), steps) {
        NoLossGrows(Start(week), steps);
      }
    }
  }
}
