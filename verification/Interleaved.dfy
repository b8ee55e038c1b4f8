// The progress group command by command: any number of consumers work on records of different
// users at the same time, and any of them may stop at any command. Redis is then what Views says
// of the events in the order of their pipelines.

module Interleaved {
  import opened Calendar
  import opened ClickEvent
  import opened Pipeline
  import opened ProgressWorker
  import opened Token
  import opened Views
  import opened Wrappers
  import Achievements
  import ProgressRuns
  import Streak

  /** Where a consumer stands on the record it works on: after its read of maxbatch, its pipeline,
      some of its claims, its load of the streak. */
  datatype Stage =
    | HasRead(curMax: nat)
    | HasPiped
    | Claiming(todo: seq<string>)
    | HasLoaded(loaded: Streak.State)

  /** What will fail of the claims and the streak is fixed at the start; `e.at` counts from the
      pipeline on. */
  datatype Job = Idle | Busy(e: Event, stage: Stage)

  /** `log` is history: the events in the order of their pipelines. */
  datatype State = State(redis: Redis, jobs: seq<Job>, log: seq<Event>)

  datatype Step =
    | Begin(k: nat, click: Click, now: int, missed: set<string>, streak: StreakFault)  // HGET maxbatch
    | Pipe(k: nat, now: int)   // the pipeline
    | Score(k: nat)            // ZSCORE, and what the rules make of it
    | Claim(k: nat)            // HSETNX
    | Load(k: nat)             // HGETALL
    | Save(k: nat)             // HSET
    | Stop(k: nat)             // an error, a crash, or the end

  predicate Owns(j: Job, sub: string) {
    j.Busy? && j.e.click.sub == sub
  }

  /** Nothing that is still to be done would have an effect. */
  ghost predicate NothingLeft(rules: Achievements.Rules, r: Redis, e: Event, stage: Stage)
    requires e.click.tsUnix >= 0
  {
    match stage
    case HasRead(_) => true
    case HasPiped =>
      e.streak.WriteFails? && forall id | id in rules(ScoreOf(r.alltime, e.click.sub), AsBatch(e)) :: id in e.missed
    case Claiming(todo) => e.streak.WriteFails? && forall id | id in todo :: id in e.missed
    case HasLoaded(_) => e.streak.WriteFails?
  }

  predicate At(s: State, k: nat) {
    k < |s.jobs| && s.jobs[k].Busy? && Dated(s.jobs[k].e)
  }

  ghost predicate Enabled(rules: Achievements.Rules, s: State, step: Step) {
    match step
    case Begin(k, c, now, missed, streak) =>
      k < |s.jobs| && s.jobs[k].Idle? && Dated(Event(c, now, now, missed, streak))
    case Pipe(k, now) => At(s, k) && s.jobs[k].stage.HasRead?
    case Score(k) => At(s, k) && s.jobs[k].stage.HasPiped?
    case Claim(k) => At(s, k) && s.jobs[k].stage.Claiming? && s.jobs[k].stage.todo != []
    case Load(k) => At(s, k) && s.jobs[k].stage == Claiming([])
    case Save(k) => At(s, k) && s.jobs[k].stage.HasLoaded?
    case Stop(k) => At(s, k) && NothingLeft(rules, s.redis, s.jobs[k].e, s.jobs[k].stage)
  }

  /** A user's records are on one partition, so no other consumer works for the user. */
  predicate Alone(s: State, step: Step) {
    step.Begin? ==> forall j | 0 <= j < |s.jobs| :: !Owns(s.jobs[j], step.click.sub)
  }

  ghost predicate CanStep(rules: Achievements.Rules, s: State, step: Step) {
    Enabled(rules, s, step) && Alone(s, step)
  }

  /** The pipeline with the maximum that was read before it. */
  function PipedWith(r: Redis, c: Click, curMax: nat, now: int): Redis
    requires c.tsUnix >= 0
  {
    var key := (c.sub, DayOf(c.tsUnix));
    var d := LiveDay(r.days, key, now);
    var day := Daily(d.clicks + c.count, d.batches + 1, if c.count > curMax then c.count else d.maxbatch,
                     now + DAILY_TTL);
    r.(alltime := r.alltime[c.sub := ScoreOf(r.alltime, c.sub) + c.count],
       weeks := AddWeek(r.weeks, c, now),
       names := r.names[c.sub := c.displayName],
       days := r.days[key := day],
       weekdays := AddWeekday(r.weekdays, c, now))
  }

  /** HSETNX of one id; a hash without fields does not exist. */
  function ClaimOne(r: Redis, e: Event, id: string): Redis
    requires e.click.tsUnix >= 0
  {
    var held := UnlocksOf(r.unlocks, e.click.sub);
    if id in held || id in e.missed then r
    else r.(unlocks := r.unlocks[e.click.sub := held[id := e.click.tsUnix]])
  }

  /** Advance what was loaded, and HSET it if that is a new day. */
  function StoreStreak(streaks: map<string, Streak.State>, e: Event, loaded: Streak.State): map<string, Streak.State>
    requires Dated(e)
  {
    var (st, advanced) := Streak.Advance(loaded, DateHCM(e.click.tsUnix));
    if advanced && !e.streak.WriteFails? then streaks[e.click.sub := st] else streaks
  }

  function SaveLoaded(r: Redis, e: Event, loaded: Streak.State): Redis
    requires Dated(e)
  {
    r.(streaks := StoreStreak(r.streaks, e, loaded))
  }

  function Loads(r: Redis, e: Event): Streak.State {
    if e.streak.ReadFails? then Streak.NEVER else StreakOf(r.streaks, e.click.sub)
  }

  ghost function Next(rules: Achievements.Rules, s: State, step: Step): State
    requires Enabled(rules, s, step)
  {
    match step
    case Begin(k, c, now, missed, streak) =>
      var curMax := LiveDay(s.redis.days, (c.sub, DayOf(c.tsUnix)), now).maxbatch;
      s.(jobs := s.jobs[k := Busy(Event(c, now, now, missed, streak), HasRead(curMax))])
    case Pipe(k, now) =>
      var e := s.jobs[k].e.(at := now);
      State(PipedWith(s.redis, e.click, s.jobs[k].stage.curMax, now), s.jobs[k := Busy(e, HasPiped)], s.log + [e])
    case Score(k) =>
      var e := s.jobs[k].e;
      s.(jobs := s.jobs[k := Busy(e, Claiming(rules(ScoreOf(s.redis.alltime, e.click.sub), AsBatch(e))))])
    case Claim(k) =>
      var e, todo := s.jobs[k].e, s.jobs[k].stage.todo;
      s.(redis := ClaimOne(s.redis, e, todo[0]), jobs := s.jobs[k := Busy(e, Claiming(todo[1..]))])
    case Load(k) =>
      var e := s.jobs[k].e;
      s.(jobs := s.jobs[k := Busy(e, HasLoaded(Loads(s.redis, e)))])
    case Save(k) =>
      s.(redis := SaveLoaded(s.redis, s.jobs[k].e, s.jobs[k].stage.loaded), jobs := s.jobs[k := Idle])
    case Stop(k) => s.(jobs := s.jobs[k := Idle])
  }

  // ----- what every step keeps -----

  ghost function Claims(r: Redis, e: Event, todo: seq<string>): map<string, nat>
    requires e.click.tsUnix >= 0
  {
    Achievements.ClaimAll(UnlocksOf(r.unlocks, e.click.sub), todo, e.click.tsUnix, e.missed)
  }

  ghost function Saves(r: Redis, e: Event): Streak.State
    requires Dated(e)
  {
    StreakOf(SaveStreak(r.streaks, e.click, e.streak), e.click.sub)
  }

  /** The user's hashes in r become those in a when the rest of the job is done; a is Redis after all
      of the log, one event after the other. */
  ghost predicate JobFits(rules: Achievements.Rules, r: Redis, a: Redis, e: Event, stage: Stage) {
    var sub := e.click.sub;
    && Dated(e)
    && (!stage.HasRead? ==> Saves(r, e) == StreakOf(a.streaks, sub))
    && match stage
       case HasRead(curMax) =>
         && curMax == LiveDay(r.days, (sub, DayOf(e.click.tsUnix)), e.readAt).maxbatch
         && SameHashes(r, a, sub)
       case HasPiped =>
         Claims(r, e, rules(ScoreOf(r.alltime, sub), AsBatch(e))) == UnlocksOf(a.unlocks, sub)
       case Claiming(todo) => Claims(r, e, todo) == UnlocksOf(a.unlocks, sub)
       case HasLoaded(loaded) => loaded == Loads(r, e) && UnlocksOf(r.unlocks, sub) == UnlocksOf(a.unlocks, sub)
  }

  predicate SameHashes(r: Redis, a: Redis, sub: string) {
    UnlocksOf(r.unlocks, sub) == UnlocksOf(a.unlocks, sub) && StreakOf(r.streaks, sub) == StreakOf(a.streaks, sub)
  }

  /** Nobody has anything left to do for the user. */
  predicate Settled(jobs: seq<Job>, sub: string) {
    forall k | 0 <= k < |jobs| && Owns(jobs[k], sub) :: jobs[k].stage.HasRead?
  }

  /** The keys that the pipeline writes. */
  predicate SameBoards(r: Redis, a: Redis) {
    r.alltime == a.alltime && r.weeks == a.weeks && r.names == a.names && r.days == a.days && r.weekdays == a.weekdays
  }

  ghost predicate Inv(rules: Achievements.Rules, s: State) {
    && AllDated(s.log)
    && var a := After(rules, s.log);
    && SameBoards(s.redis, a)
    && (forall j, k | 0 <= j < k < |s.jobs| && s.jobs[j].Busy? :: !Owns(s.jobs[k], s.jobs[j].e.click.sub))
    && (forall k | 0 <= k < |s.jobs| && s.jobs[k].Busy? :: JobFits(rules, s.redis, a, s.jobs[k].e, s.jobs[k].stage))
    && forall sub | Settled(s.jobs, sub) :: SameHashes(s.redis, a, sub)
  }

  /** What a job looks at of one user. */
  ghost predicate Untouched(r: Redis, r': Redis, sub: string) {
    && ScoreOf(r.alltime, sub) == ScoreOf(r'.alltime, sub) && SameHashes(r, r', sub)
    && forall day: int :: DayHash(r, sub, day) == DayHash(r', sub, day)
  }

  function DayHash(r: Redis, sub: string, day: int): Option<Daily> {
    if (sub, day) in r.days then Some(r.days[(sub, day)]) else None
  }

  lemma FitsStays(rules: Achievements.Rules, r: Redis, a: Redis, r': Redis, a': Redis, e: Event, stage: Stage)
    requires JobFits(rules, r, a, e, stage)
    requires Untouched(r, r', e.click.sub) && SameHashes(a, a', e.click.sub)
    ensures JobFits(rules, r', a', e, stage)
  {
    assert DayHash(r, e.click.sub, DayOf(e.click.tsUnix)) == DayHash(r', e.click.sub, DayOf(e.click.tsUnix));
  }

  /** A step of consumer k for one user leaves the work for all others as it is. */
  lemma FrameInv(rules: Achievements.Rules, s: State, s': State, k: nat, sub: string)
    requires Inv(rules, s) && k < |s.jobs| == |s'.jobs| && s'.jobs == s.jobs[k := s'.jobs[k]]
    requires s.jobs[k].Busy? ==> s.jobs[k].e.click.sub == sub
    requires forall j | 0 <= j < |s.jobs| && j != k :: !Owns(s.jobs[j], sub)
    requires AllDated(s'.log) && SameBoards(s'.redis, After(rules, s'.log))
    requires forall other | other != sub ::
               Untouched(s.redis, s'.redis, other) && SameHashes(After(rules, s.log), After(rules, s'.log), other)
    requires s'.jobs[k].Busy? ==>
               && s'.jobs[k].e.click.sub == sub
               && JobFits(rules, s'.redis, After(rules, s'.log), s'.jobs[k].e, s'.jobs[k].stage)
    requires s'.jobs[k].Idle? ==> SameHashes(s'.redis, After(rules, s'.log), sub)
    ensures Inv(rules, s')
  {
    hide JobFits, After, SameBoards, Untouched, SameHashes;
    var a, a' := After(rules, s.log), After(rules, s'.log);
    forall j | 0 <= j < |s'.jobs| && s'.jobs[j].Busy?
      ensures JobFits(rules, s'.redis, a', s'.jobs[j].e, s'.jobs[j].stage)
    {
      if j != k {
        assert !Owns(s.jobs[j], sub);
        FitsStays(rules, s.redis, a, s'.redis, a', s.jobs[j].e, s.jobs[j].stage);
      }
    }
    forall other | Settled(s'.jobs, other) ensures SameHashes(s'.redis, a', other) {
      if other == sub {
        if s'.jobs[k].Busy? {
          assert Owns(s'.jobs[k], sub);
          FitsIsSame(rules, s'.redis, a', s'.jobs[k].e, s'.jobs[k].stage);
        }
      } else {
        forall j | 0 <= j < |s.jobs| && Owns(s.jobs[j], other) ensures s.jobs[j].stage.HasRead? {
          assert s'.jobs[j] == s.jobs[j];
        }
        SameStays(s.redis, a, s'.redis, a', other);
      }
    }
  }

  lemma FitsIsSame(rules: Achievements.Rules, r: Redis, a: Redis, e: Event, stage: Stage)
    requires JobFits(rules, r, a, e, stage) && stage.HasRead?
    ensures SameHashes(r, a, e.click.sub)
  {
  }

  lemma SameStays(r: Redis, a: Redis, r': Redis, a': Redis, sub: string)
    requires SameHashes(r, a, sub) && Untouched(r, r', sub) && SameHashes(a, a', sub)
    ensures SameHashes(r', a', sub)
  {
  }

  lemma BeginKeepsInv(rules: Achievements.Rules, s: State, step: Step)
    requires Inv(rules, s) && CanStep(rules, s, step) && step.Begin?
    ensures Inv(rules, Next(rules, s, step))
  {
    hide After;
    assert Settled(s.jobs, step.click.sub);
    FrameInv(rules, s, Next(rules, s, step), step.k, step.click.sub);
  }

  /** The read maximum is still what a read at that time would give, so this is the pipeline of Views. */
  lemma PipeIsPiped(r: Redis, c: Click, curMax: nat, readAt: int, now: int)
    requires c.tsUnix >= 0 && curMax == LiveDay(r.days, (c.sub, DayOf(c.tsUnix)), readAt).maxbatch
    ensures PipedWith(r, c, curMax, now) == Piped(r, c, readAt, now)
  {
  }

  lemma PipeBoards(rules: Achievements.Rules, r: Redis, a: Redis, e: Event)
    requires Dated(e) && SameBoards(r, a)
    ensures SameBoards(Piped(r, e.click, e.readAt, e.at), Applied(rules, a, e))
  {
    hide AddWeek, AddWeekday, AddDay, Claimed, SaveUnlocks, SaveStreak;
  }

  lemma PipeHashes(rules: Achievements.Rules, r: Redis, a: Redis, e: Event)
    requires Dated(e) && SameBoards(r, a) && SameHashes(r, a, e.click.sub)
    ensures JobFits(rules, Piped(r, e.click, e.readAt, e.at), Applied(rules, a, e), e, HasPiped)
  {
    hide AddWeek, AddWeekday, AddDay, Streak.Advance, Achievements.ClaimAll, SaveUnlocks;
    SavedUnlocks(rules, a.unlocks, ScoreOf(a.alltime, e.click.sub) + e.click.count, e);
  }

  lemma PipeOthers(rules: Achievements.Rules, r: Redis, a: Redis, e: Event, other: string)
    requires Dated(e) && other != e.click.sub
    ensures Untouched(r, Piped(r, e.click, e.readAt, e.at), other) && SameHashes(a, Applied(rules, a, e), other)
  {
    hide AddWeek, AddWeekday, Streak.Advance, Claimed;
  }

  lemma PipeKeepsInv(rules: Achievements.Rules, s: State, step: Step)
    requires Inv(rules, s) && CanStep(rules, s, step) && step.Pipe?
    ensures Inv(rules, Next(rules, s, step))
  {
    hide After, Views.Applied, Piped, PipedWith, Untouched, SameHashes, SameBoards;
    var k, a := step.k, After(rules, s.log);
    var old_e := s.jobs[k].e;
    var e := old_e.(at := step.now);
    assert JobFits(rules, s.redis, a, old_e, s.jobs[k].stage);
    FitsIsSame(rules, s.redis, a, old_e, s.jobs[k].stage);
    PipeIsPiped(s.redis, e.click, s.jobs[k].stage.curMax, e.readAt, e.at);
    AfterPush(rules, s.log, e);
    PipeBoards(rules, s.redis, a, e);
    PipeHashes(rules, s.redis, a, e);
    forall other | other != e.click.sub
      ensures Untouched(s.redis, Next(rules, s, step).redis, other)
      ensures SameHashes(a, After(rules, s.log + [e]), other)
    {
      PipeOthers(rules, s.redis, a, e, other);
    }
    FrameInv(rules, s, Next(rules, s, step), k, e.click.sub);
  }

  /** The commands after the pipeline: what the job is about to do, the step has done or leaves to do. */
  ghost predicate TailStep(rules: Achievements.Rules, r: Redis, r': Redis, a: Redis, e: Event, stage: Stage) {
    && SameBoards(r', r) && JobFits(rules, r', a, e, stage)
    && forall other | other != e.click.sub :: Untouched(r, r', other)
  }

  lemma ScoreFits(rules: Achievements.Rules, r: Redis, a: Redis, e: Event)
    requires JobFits(rules, r, a, e, HasPiped)
    ensures TailStep(rules, r, r, a, e, Claiming(rules(ScoreOf(r.alltime, e.click.sub), AsBatch(e))))
  {
  }

  lemma ClaimFits(rules: Achievements.Rules, r: Redis, a: Redis, e: Event, todo: seq<string>)
    requires todo != [] && JobFits(rules, r, a, e, Claiming(todo))
    ensures TailStep(rules, r, ClaimOne(r, e, todo[0]), a, e, Claiming(todo[1..]))
  {
    hide SaveStreak, Claims;
    ClaimsFirst(r, e, todo);
    hide ClaimOne;
    ClaimTouches(r, e, todo[0]);
    LeavesOthers(r, ClaimOne(r, e, todo[0]), e.click.sub);
  }

  /** All of r' is r, but for the hashes of one user. */
  predicate OnlyHashes(r: Redis, r': Redis, sub: string) {
    && SameBoards(r', r)
    && (r'.unlocks == r.unlocks || (sub in r'.unlocks && r'.unlocks == r.unlocks[sub := r'.unlocks[sub]]))
    && (r'.streaks == r.streaks || (sub in r'.streaks && r'.streaks == r.streaks[sub := r'.streaks[sub]]))
  }

  lemma LeavesOthers(r: Redis, r': Redis, sub: string)
    requires OnlyHashes(r, r', sub)
    ensures forall other | other != sub :: Untouched(r, r', other)
  {
  }

  lemma ClaimTouches(r: Redis, e: Event, id: string)
    requires e.click.tsUnix >= 0
    ensures OnlyHashes(r, ClaimOne(r, e, id), e.click.sub) && ClaimOne(r, e, id).streaks == r.streaks
  {
  }

  lemma SaveTouches(r: Redis, e: Event, loaded: Streak.State)
    requires Dated(e)
    ensures OnlyHashes(r, SaveLoaded(r, e, loaded), e.click.sub) && SaveLoaded(r, e, loaded).unlocks == r.unlocks
  {
    hide Streak.Advance, DateHCM;
  }

  lemma SaveMeans(r: Redis, e: Event)
    requires Dated(e)
    ensures SaveLoaded(r, e, Loads(r, e)) == r.(streaks := SaveStreak(r.streaks, e.click, e.streak))
  {
    hide Streak.Advance, DateHCM;
  }

  lemma ClaimsFirst(r: Redis, e: Event, todo: seq<string>)
    requires Dated(e) && todo != []
    ensures Claims(ClaimOne(r, e, todo[0]), e, todo[1..]) == Claims(r, e, todo)
  {
    var held := UnlocksOf(r.unlocks, e.click.sub);
    assert [todo[0]] + todo[1..] == todo;
    Achievements.ClaimAllAppend(held, [todo[0]], todo[1..], e.click.tsUnix, e.missed);
    assert [todo[0]][..0] == [];
    assert Achievements.ClaimAll(held, [], e.click.tsUnix, e.missed) == held;
  }

  lemma LoadFits(rules: Achievements.Rules, r: Redis, a: Redis, e: Event)
    requires JobFits(rules, r, a, e, Claiming([]))
    ensures TailStep(rules, r, r, a, e, HasLoaded(Loads(r, e)))
  {
  }

  lemma StoreFits(rules: Achievements.Rules, r: Redis, a: Redis, e: Event, loaded: Streak.State)
    requires JobFits(rules, r, a, e, HasLoaded(loaded))
    ensures var r' := SaveLoaded(r, e, loaded);
            && SameBoards(r', r) && SameHashes(r', a, e.click.sub)
            && forall other | other != e.click.sub :: Untouched(r, r', other)
  {
    SaveTouches(r, e, loaded);
    SaveMeans(r, e);
    hide SaveLoaded, SaveStreak;
    LeavesOthers(r, SaveLoaded(r, e, loaded), e.click.sub);
  }

  lemma TailKeepsInv(rules: Achievements.Rules, s: State, step: Step)
    requires Inv(rules, s) && CanStep(rules, s, step) && !step.Begin? && !step.Pipe?
    ensures Inv(rules, Next(rules, s, step))
  {
    hide After, JobFits, Untouched, SameBoards, SameHashes, NothingLeft, ClaimOne, SaveLoaded;
    var job, r, a := s.jobs[step.k], s.redis, After(rules, s.log);
    assert JobFits(rules, r, a, job.e, job.stage);
    match step {
      case Score(k) => ScoreFits(rules, r, a, job.e);
      case Claim(k) => ClaimFits(rules, r, a, job.e, job.stage.todo);
      case Load(k) => LoadFits(rules, r, a, job.e);
      case Save(k) => StoreFits(rules, r, a, job.e, job.stage.loaded);
      case Stop(k) => StopFits(rules, r, a, job.e, job.stage);
    }
    var s' := Next(rules, s, step);
    SameBoardsAre(s'.redis, r, a);
    SameAsItself(r);
    SameAsItself(a);
    FrameInv(rules, s, s', step.k, job.e.click.sub);
  }

  lemma SameBoardsAre(r': Redis, r: Redis, a: Redis)
    ensures SameBoards(r, r)
    ensures SameBoards(r', r) && SameBoards(r, a) ==> SameBoards(r', a)
  {
  }

  lemma StopFits(rules: Achievements.Rules, r: Redis, a: Redis, e: Event, stage: Stage)
    requires JobFits(rules, r, a, e, stage) && NothingLeft(rules, r, e, stage)
    ensures SameHashes(r, a, e.click.sub)
  {
    var held, now := UnlocksOf(r.unlocks, e.click.sub), e.click.tsUnix;
    match stage
    case HasPiped =>
      Achievements.AllMissed(held, rules(ScoreOf(r.alltime, e.click.sub), AsBatch(e)), now, e.missed);
    case Claiming(todo) => Achievements.AllMissed(held, todo, now, e.missed);
    case _ =>
  }

  lemma NextKeepsInv(rules: Achievements.Rules, s: State, step: Step)
    requires Inv(rules, s) && CanStep(rules, s, step)
    ensures Inv(rules, Next(rules, s, step))
  {
    if step.Begin? {
      BeginKeepsInv(rules, s, step);
    } else if step.Pipe? {
      PipeKeepsInv(rules, s, step);
    } else {
      TailKeepsInv(rules, s, step);
    }
  }

  lemma SameAsItself(a: Redis)
    ensures forall sub :: SameHashes(a, a, sub) && Untouched(a, a, sub)
  {
  }

  // ----- any run -----

  /** `shared` says whether several consumers may work for one user, as after a rebalance. */
  ghost predicate IsRun(rules: Achievements.Rules, s: State, steps: seq<Step>, shared: bool)
    decreases |steps|
  {
    steps == [] ||
    (Enabled(rules, s, steps[0]) && (shared || Alone(s, steps[0]))
     && IsRun(rules, Next(rules, s, steps[0]), steps[1..], shared))
  }

  ghost function Final(rules: Achievements.Rules, s: State, steps: seq<Step>, shared: bool): State
    requires IsRun(rules, s, steps, shared)
    decreases |steps|
  {
    if steps == [] then s else Final(rules, Next(rules, s, steps[0]), steps[1..], shared)
  }

  /** An empty Redis and n consumers. */
  function Empty(n: nat): State {
    State(EMPTY, seq(n, _ => Idle), [])
  }

  lemma {:induction false} RunKeepsInv(rules: Achievements.Rules, s: State, steps: seq<Step>)
    requires Inv(rules, s) && IsRun(rules, s, steps, false)
    ensures Inv(rules, Final(rules, s, steps, false))
    decreases |steps|
  {
    hide Inv, Enabled, Alone, Next;
    if steps != [] {
      NextKeepsInv(rules, s, steps[0]);
      RunKeepsInv(rules, Next(rules, s, steps[0]), steps[1..]);
    }
  }

  lemma EmptyFits(rules: Achievements.Rules, n: nat)
    ensures Inv(rules, Empty(n))
  {
  }

  /** A user's unlocks and streak are what the user's events say. */
  ghost predicate HashesMatch(rules: Achievements.Rules, r: Redis, log: seq<Event>, sub: string)
    requires AllDated(log)
  {
    && UnlocksOf(r.unlocks, sub) == Achievements.Unlocks(rules, UserBatches(log, sub))
    && (StreakFaultless(log, sub) ==> StreakOf(r.streaks, sub) == FoldOf(log, sub))
  }

  /** In every interleaving, wherever its consumers stand: scores and names are what the events say,
      in the order of their pipelines; so are the boards and sets of every week and the hashes of
      every day unless events were too late; so are unlocks and streak of every user nobody has
      anything left to do for. When all consumers are idle and events were in time, all of Redis is. */
  lemma InterleavedMatch(rules: Achievements.Rules, n: nat, steps: seq<Step>, late: nat)
    requires IsRun(rules, Empty(n), steps, false)
    ensures var f := Final(rules, Empty(n), steps, false);
            && AllDated(f.log) && TotalsMatch(f.redis.alltime, f.redis.names, f.log)
            && (Within(f.log, late) && late < SAFE_WEEK_DELAY ==>
                  WeeksMatch(f.redis.weeks, f.log) && WeekdaysMatch(f.redis.weekdays, f.log))
            && (Within(f.log, late) && late < SAFE_DELAY ==> DaysMatch(f.redis.days, f.log))
            && (forall sub | Settled(f.jobs, sub) :: HashesMatch(rules, f.redis, f.log, sub))
            && (Within(f.log, late) && late < SAFE_DELAY && (forall k | 0 <= k < |f.jobs| :: f.jobs[k].Idle?) ==>
                  Views.Matches(rules, f.redis, f.log))
  {
    hide After, IsRun, Final, TotalsMatch, WeeksMatch, WeekdaysMatch, DaysMatch, Settled, Views.Matches;
    hide HashesMatch;
    EmptyFits(rules, n);
    RunKeepsInv(rules, Empty(n), steps);
    var f := Final(rules, Empty(n), steps, false);
    LastingMatch(rules, f.log);
    if Within(f.log, late) && late < SAFE_WEEK_DELAY {
      RunKeepsWeeks(rules, f.log, late);
      RunKeepsWeekdays(rules, f.log, late);
    }
    if Within(f.log, late) && late < SAFE_DELAY { RunKeepsDays(rules, f.log, late); }
    forall sub | Settled(f.jobs, sub) ensures HashesMatch(rules, f.redis, f.log, sub) {
      SameMatches(rules, f.redis, After(rules, f.log), f.log, sub);
    }
    if forall k | 0 <= k < |f.jobs| :: f.jobs[k].Idle? {
      forall sub ensures HashesMatch(rules, f.redis, f.log, sub) {
        IdleIsSettled(f.jobs, sub);
      }
      if Within(f.log, late) && late < SAFE_DELAY { AllMatches(rules, f.redis, f.log); }
    }
  }

  lemma AllMatches(rules: Achievements.Rules, r: Redis, log: seq<Event>)
    requires AllDated(log) && TotalsMatch(r.alltime, r.names, log) && WeeksMatch(r.weeks, log)
    requires DaysMatch(r.days, log) && WeekdaysMatch(r.weekdays, log)
    requires forall sub :: HashesMatch(rules, r, log, sub)
    ensures Views.Matches(rules, r, log)
  {
    hide TotalsMatch, WeeksMatch, DaysMatch, WeekdaysMatch;
    forall sub ensures UnlocksOf(r.unlocks, sub) == Achievements.Unlocks(rules, UserBatches(log, sub)) {
      assert HashesMatch(rules, r, log, sub);
    }
    forall sub | StreakFaultless(log, sub) ensures StreakOf(r.streaks, sub) == FoldOf(log, sub) {
      assert HashesMatch(rules, r, log, sub);
    }
  }

  lemma IdleIsSettled(jobs: seq<Job>, sub: string)
    requires forall k | 0 <= k < |jobs| :: jobs[k].Idle?
    ensures Settled(jobs, sub)
  {
  }

  lemma SameMatches(rules: Achievements.Rules, r: Redis, a: Redis, log: seq<Event>, sub: string)
    requires AllDated(log) && SameHashes(r, a, sub)
    requires UnlocksMatch(rules, a.unlocks, log) && StreaksMatch(a.streaks, log)
    ensures HashesMatch(rules, r, log, sub)
  {
  }

  // ----- one record that nothing disturbs -----

  lemma RunPush(rules: Achievements.Rules, s: State, steps: seq<Step>, step: Step)
    requires IsRun(rules, s, steps, false) && CanStep(rules, Final(rules, s, steps, false), step)
    ensures IsRun(rules, s, steps + [step], false)
    ensures Final(rules, s, steps + [step], false) == Next(rules, Final(rules, s, steps, false), step)
    decreases |steps|
  {
    hide Enabled, Alone, Next;
    if steps == [] {
      assert [] + [step] == [step] && [step][1..] == [];
    } else {
      RunPush(rules, Next(rules, s, steps[0]), steps[1..], step);
      assert (steps + [step])[1..] == steps[1..] + [step];
    }
  }

  /** The claim loop. */
  lemma {:induction false} ClaimsRun(rules: Achievements.Rules, s: State, steps: seq<Step>, k: nat, e: Event,
                                     todo: seq<string>)
    returns (steps': seq<Step>)
    requires IsRun(rules, s, steps, false) && Dated(e)
    requires var m := Final(rules, s, steps, false); k < |m.jobs| && m.jobs[k] == Busy(e, Claiming(todo))
    ensures IsRun(rules, s, steps', false)
    ensures var m := Final(rules, s, steps, false);
            var unlocks := SaveUnlocks(m.redis.unlocks, e.click.sub, Claims(m.redis, e, todo));
            Final(rules, s, steps', false)
              == m.(redis := m.redis.(unlocks := unlocks), jobs := m.jobs[k := Busy(e, Claiming([]))])
    decreases |todo|
  {
    hide IsRun, Final, Claims;
    var m := Final(rules, s, steps, false);
    if todo == [] {
      steps' := steps;
      NoClaims(m.redis, e);
      assert m.jobs[k := m.jobs[k]] == m.jobs;
    } else {
      RunPush(rules, s, steps, Claim(k));
      steps' := ClaimsRun(rules, s, steps + [Claim(k)], k, e, todo[1..]);
      FirstClaimed(m.redis, e, todo);
    }
  }

  lemma NoClaims(r: Redis, e: Event)
    requires Dated(e)
    ensures SaveUnlocks(r.unlocks, e.click.sub, Claims(r, e, [])) == r.unlocks
  {
    SavedNothing(r.unlocks, e.click.sub);
  }

  lemma FirstClaimed(r: Redis, e: Event, todo: seq<string>)
    requires Dated(e) && todo != []
    ensures var r' := ClaimOne(r, e, todo[0]);
            && r'.(unlocks := r.unlocks) == r
            && SaveUnlocks(r'.unlocks, e.click.sub, Claims(r', e, todo[1..]))
               == SaveUnlocks(r.unlocks, e.click.sub, Claims(r, e, todo))
  {
    var r' := ClaimOne(r, e, todo[0]);
    ClaimsFirst(r, e, todo);
    if r' != r {
      var held := UnlocksOf(r'.unlocks, e.click.sub);
      assert todo[0] in held;
      ClaimsOnlyAdd(held, todo[1..], e.click.tsUnix, e.missed);
    }
  }

  /** applyEvent, undisturbed, is such a run, whatever fails. */
  lemma EventIsRun(ths: seq<Achievements.Threshold>, s: State, k: nat, c: Click, t: Turn) returns (steps: seq<Step>)
    requires k < |s.jobs| && s.jobs[k].Idle? && Dated(EventOf(c, t))
    requires forall j | 0 <= j < |s.jobs| :: !Owns(s.jobs[j], c.sub)
    ensures var rules := Achievements.RulesOf(ths);
            && IsRun(rules, s, steps, false)
            && var f := Final(rules, s, steps, false);
            f.redis == EventSpec(rules, s.redis, c, t).0 && f.jobs == s.jobs
  {
    hide IsRun, Final, Piped, PipedWith, Achievements.RulesOf, Views.Applied;
    var rules := Achievements.RulesOf(ths);
    if t.fault.OnPipe? && t.fault.stored {
      steps := LostReplyIsRun(ths, s, k, c, t);
    } else if t.fault.OnRead? || t.fault.OnPipe? {
      steps := StoppedIsRun(rules, s, k, c, t);
    } else {
      steps := WholeIsRun(rules, s, k, c, t);
    }
  }

  /** Begin and Pipe. */
  lemma PipeRun(rules: Achievements.Rules, s: State, k: nat, e: Event) returns (steps: seq<Step>)
    requires k < |s.jobs| && s.jobs[k].Idle? && Dated(e)
    requires forall j | 0 <= j < |s.jobs| :: !Owns(s.jobs[j], e.click.sub)
    ensures IsRun(rules, s, steps, false)
    ensures Final(rules, s, steps, false)
         == State(Piped(s.redis, e.click, e.readAt, e.at), s.jobs[k := Busy(e, HasPiped)], s.log + [e])
  {
    hide PipedWith, Piped;
    var begin, pipe := Begin(k, e.click, e.readAt, e.missed, e.streak), Pipe(k, e.at);
    RunPush(rules, s, [], begin);
    var s1 := Next(rules, s, begin);
    assert [] + [begin] == [begin];
    PipeIsPiped(s.redis, e.click, s1.jobs[k].stage.curMax, e.readAt, e.at);
    RunPush(rules, s, [begin], pipe);
    steps := [begin] + [pipe];
    assert s.jobs[k := s1.jobs[k]][k := Busy(e, HasPiped)] == s.jobs[k := Busy(e, HasPiped)];
  }

  lemma StoppedIsRun(rules: Achievements.Rules, s: State, k: nat, c: Click, t: Turn) returns (steps: seq<Step>)
    requires k < |s.jobs| && s.jobs[k].Idle? && Dated(EventOf(c, t))
    requires forall j | 0 <= j < |s.jobs| :: !Owns(s.jobs[j], c.sub)
    ensures IsRun(rules, s, steps, false) && Final(rules, s, steps, false) == s
  {
    var begin := Begin(k, c, t.readAt, {}, Fine);
    RunPush(rules, s, [], begin);
    assert [] + [begin] == [begin];
    RunPush(rules, s, [begin], Stop(k));
    steps := [begin] + [Stop(k)];
    assert s.jobs[k := Next(rules, s, begin).jobs[k]][k := Idle] == s.jobs;
  }

  lemma LostReplyIsRun(ths: seq<Achievements.Threshold>, s: State, k: nat, c: Click, t: Turn)
    returns (steps: seq<Step>)
    requires k < |s.jobs| && s.jobs[k].Idle? && Dated(EventOf(c, t))
    requires forall j | 0 <= j < |s.jobs| :: !Owns(s.jobs[j], c.sub)
    ensures var rules := Achievements.RulesOf(ths);
            && IsRun(rules, s, steps, false)
            && var f := Final(rules, s, steps, false);
            f.redis == Piped(s.redis, c, t.readAt, t.at) && f.jobs == s.jobs
  {
    hide IsRun, Final, AddDay, AddWeek, AddWeekday;
    var rules := Achievements.RulesOf(ths);
    var e := ProgressRuns.Unclaimed(ths, s.redis, c, t);
    var pipe := PipeRun(rules, s, k, e);
    RunPush(rules, s, pipe, Stop(k));
    steps := pipe + [Stop(k)];
    assert s.jobs[k := Busy(e, HasPiped)][k := Idle] == s.jobs;
  }

  lemma WholeIsRun(rules: Achievements.Rules, s: State, k: nat, c: Click, t: Turn) returns (steps: seq<Step>)
    requires k < |s.jobs| && s.jobs[k].Idle? && Dated(EventOf(c, t))
    requires forall j | 0 <= j < |s.jobs| :: !Owns(s.jobs[j], c.sub)
    ensures && IsRun(rules, s, steps, false)
            && var f := Final(rules, s, steps, false);
            f.redis == Applied(rules, s.redis, EventOf(c, t)) && f.jobs == s.jobs && f.log == s.log + [EventOf(c, t)]
  {
    hide IsRun, Final, Piped, PipedWith, SaveLoaded, SaveStreak, Claims;
    var e := EventOf(c, t);
    steps := PipeRun(rules, s, k, e);
    var r := Piped(s.redis, c, t.readAt, t.at);
    RunPush(rules, s, steps, Score(k));
    steps := steps + [Score(k)];
    var todo := rules(ScoreOf(r.alltime, c.sub), AsBatch(e));
    assert Final(rules, s, steps, false).jobs[k] == Busy(e, Claiming(todo));
    steps := ClaimsRun(rules, s, steps, k, e, todo);
    RunPush(rules, s, steps, Load(k));
    steps := steps + [Load(k)];
    var m := Final(rules, s, steps, false);
    RunPush(rules, s, steps, Save(k));
    steps := steps + [Save(k)];
    WholeIsApplied(rules, s.redis, m.redis, e);
    assert Final(rules, s, steps, false).jobs == s.jobs;
  }

  lemma WholeIsApplied(rules: Achievements.Rules, r: Redis, m: Redis, e: Event)
    requires Dated(e)
    requires var piped := Piped(r, e.click, e.readAt, e.at);
             var claimed := Claims(piped, e, rules(ScoreOf(piped.alltime, e.click.sub), AsBatch(e)));
             m == piped.(unlocks := SaveUnlocks(piped.unlocks, e.click.sub, claimed))
    ensures SaveLoaded(m, e, Loads(m, e)) == Applied(rules, r, e)
  {
    hide AddDay, AddWeek, AddWeekday, SaveStreak;
    SaveMeans(m, e);
  }

  // ----- two consumers for one user -----

  function FiveOrThree(count: nat): Click {
    Click([], count, [], 61_200, [])
  }

  /** Both consumers read maxbatch before either pipeline runs. */
  function Crossed(): seq<Step> {
    var now := 61_200 * SECOND;
    [Begin(0, FiveOrThree(5), now, {}, Fine), Begin(1, FiveOrThree(3), now, {}, Fine), Pipe(0, now), Pipe(1, now)]
  }

  /** The second pipeline then lowers a maximum of 5 to 3. */
  lemma CrossedLosesMax(rules: Achievements.Rules)
    ensures IsRun(rules, Empty(2), Crossed(), true)
    ensures var f := Final(rules, Empty(2), Crossed(), true);
            && Within(f.log, 0) && ([], 1) in f.redis.days
            && f.redis.days[([], 1)].maxbatch == 3 && MaxBatch(f.log, [], OneDay(1)) == 5
  {
    hide AddWeek, AddWeekday;
    var now, steps := 61_200 * SECOND, Crossed();
    assert DayOf(61_200) == 1;
    assert steps[1..] == [steps[1], steps[2], steps[3]] && steps[1..][1..] == [steps[2], steps[3]];
    assert steps[1..][1..][1..] == [steps[3]] && [steps[3]][1..] == [];
    var a, b := Event(FiveOrThree(5), now, now, {}, Fine), Event(FiveOrThree(3), now, now, {}, Fine);
    var s1 := Next(rules, Empty(2), steps[0]);
    var s2 := Next(rules, s1, steps[1]);
    assert s2.jobs == [Busy(a, HasRead(0)), Busy(b, HasRead(0))];
    var s3 := Next(rules, s2, steps[2]);
    var s4 := Next(rules, s3, steps[3]);
    assert s3.log == [a] && s4.log == [a, b];
    assert [a, b][..1] == [a] && [a][..0] == [];
    assert MaxBatch([a], [], OneDay(1)) == 5;
  }

  /** The daily hashes are exact in every interleaving of timely events if and only if no two
      consumers work for one user at a time. */
  lemma MaxIffAlone(rules: Achievements.Rules, shared: bool)
    ensures (forall n: nat, steps, late: nat |
               && IsRun(rules, Empty(n), steps, shared)
               && Within(Final(rules, Empty(n), steps, shared).log, late) && late < SAFE_DELAY ::
               DaysMatch(Final(rules, Empty(n), steps, shared).redis.days, Final(rules, Empty(n), steps, shared).log))
       <==> !shared
  {
    hide IsRun, Final, DaysMatch, TotalsMatch, WeeksMatch, WeekdaysMatch, HashesMatch, Views.Matches, Empty, Crossed;
    if shared {
      CrossedLosesMax(rules);
      var f := Final(rules, Empty(2), Crossed(), true);
      WrongMax(f.redis.days, f.log);
      assert Within(f.log, 0 as nat);
    } else {
      forall n: nat, steps, late: nat |
        && IsRun(rules, Empty(n), steps, shared)
        && Within(Final(rules, Empty(n), steps, shared).log, late) && late < SAFE_DELAY
        ensures DaysMatch(Final(rules, Empty(n), steps, shared).redis.days,
                          Final(rules, Empty(n), steps, shared).log)
      {
        InterleavedMatch(rules, n, steps, late);
      }
    }
  }

  lemma WrongMax(days: map<(string, int), Daily>, log: seq<Event>)
    requires ([], 1) in days && days[([], 1)].maxbatch == 3 && MaxBatch(log, [], OneDay(1)) == 5
    ensures !DaysMatch(days, log)
  {
  }
}
