// The per-user views of the progress group (internal/progressworker/progressworker.go:
// applyEvent): what Redis holds after any sequence of applied events, one pipeline each,
// against a recomputation from the events themselves.

module Views {
  import opened Calendar
  import opened ClickEvent
  import opened Token
  import opened Pipeline
  import Achievements
  import Leaderboard
  import Streak

  const DAILY_TTL := 48 * 3600 * SECOND
  const WEEK_TTL := Leaderboard.WEEK_TTL

  /** Lateness below which no daily hash expires between two writes to it: a day and a second. */
  const SAFE_DELAY := 86_401 * SECOND

  /** The same for a week's board and a user's weekday set: a week and a second. */
  const SAFE_WEEK_DELAY := 604_801 * SECOND

  /** A failed HGETALL makes loadStreak return the zero state; a failed HSET stores nothing. */
  datatype StreakFault = Fine | ReadFails | WriteFails

  /** One applied event: when maxbatch was read, when the pipeline ran, the unlock ids whose
      claim failed, and what happened to the streak. */
  datatype Event = Event(click: Click, readAt: int, at: int, missed: set<string>, streak: StreakFault)

  datatype Week = Week(scores: map<string, nat>, expiry: int)
  datatype Daily = Daily(clicks: nat, batches: nat, maxbatch: nat, expiry: int)
  datatype Weekdays = Weekdays(days: set<nat>, expiry: int)

  /** lb:alltime; lb:week:<monday>; profile:names; daily:<sub>:<day>; weekdays:<sub>:<monday>;
      unlocks:<sub>; streak:<sub>. Days and Mondays are day numbers, which the printed keys
      tell apart. */
  datatype Redis = Redis(
    alltime: map<string, nat>, weeks: map<int, Week>, names: map<string, string>,
    days: map<(string, int), Daily>, weekdays: map<(string, int), Weekdays>,
    unlocks: map<string, map<string, nat>>, streaks: map<string, Streak.State>)

  const EMPTY := Redis(map[], map[], map[], map[], map[], map[], map[])

  /** The key as a command at `now` finds it: expired keys are gone. */
  function LiveWeek(weeks: map<int, Week>, monday: int, now: int): Week {
    if monday in weeks && now < weeks[monday].expiry then weeks[monday] else Week(map[], 0)
  }

  function LiveDay(days: map<(string, int), Daily>, key: (string, int), now: int): Daily {
    if key in days && now < days[key].expiry then days[key] else Daily(0, 0, 0, 0)
  }

  function LiveWeekdays(weekdays: map<(string, int), Weekdays>, key: (string, int), now: int): Weekdays {
    if key in weekdays && now < weekdays[key].expiry then weekdays[key] else Weekdays({}, 0)
  }

  // ----- one event -----

  /** ZINCRBY and EXPIRE on the week's board. */
  function AddWeek(weeks: map<int, Week>, c: Click, now: int): map<int, Week>
    requires c.tsUnix >= 0
  {
    var monday := WeekStartDay(c.tsUnix);
    var scores := LiveWeek(weeks, monday, now).scores;
    weeks[monday := Week(scores[c.sub := ScoreOf(scores, c.sub) + c.count], now + WEEK_TTL)]
  }

  /** HINCRBY clicks, HINCRBY batches, HSET maxbatch if the count exceeds the value read before
      the pipeline, EXPIRE. */
  function AddDay(days: map<(string, int), Daily>, c: Click, readAt: int, now: int): map<(string, int), Daily>
    requires c.tsUnix >= 0
  {
    var key := (c.sub, DayOf(c.tsUnix));
    var read, d := LiveDay(days, key, readAt), LiveDay(days, key, now);
    days[key := Daily(d.clicks + c.count, d.batches + 1,
                      if c.count > read.maxbatch then c.count else d.maxbatch, now + DAILY_TTL)]
  }

  /** SADD and EXPIRE. */
  function AddWeekday(weekdays: map<(string, int), Weekdays>, c: Click, now: int): map<(string, int), Weekdays>
    requires c.tsUnix >= 0
  {
    var key := (c.sub, WeekStartDay(c.tsUnix));
    weekdays[key := Weekdays(LiveWeekdays(weekdays, key, now).days + {DayOf(c.tsUnix)}, now + WEEK_TTL)]
  }

  /** A hash without fields does not exist. */
  function UnlocksOf(all: map<string, map<string, nat>>, sub: string): map<string, nat> {
    if sub in all then all[sub] else map[]
  }

  function SaveUnlocks(all: map<string, map<string, nat>>, sub: string, unlocks: map<string,
                       nat>): map<string, map<string, nat>> {
    if unlocks == map[] then all else all[sub := unlocks]
  }

  function StreakOf(streaks: map<string, Streak.State>, sub: string): Streak.State {
    if sub in streaks then streaks[sub] else Streak.NEVER
  }

  function SaveStreak(streaks: map<string, Streak.State>, c: Click, fault: StreakFault): map<string, Streak.State>
    requires 0 <= c.tsUnix && DayOf(c.tsUnix) <= LAST_DAY
  {
    var loaded := if fault.ReadFails? then Streak.NEVER else StreakOf(streaks, c.sub);
    var (st, advanced) := Streak.Advance(loaded, DateHCM(c.tsUnix));
    if advanced && !fault.WriteFails? then streaks[c.sub := st] else streaks
  }

  /** The claims of one event, in the order of the loops. */
  ghost function Claimed(rules: Achievements.Rules, held: map<string, nat>, total: nat, e: Event): map<string, nat>
    requires e.click.tsUnix >= 0
  {
    var b := AsBatch(e);
    Achievements.ClaimAll(held, rules(total, b), b.now, b.missed)
  }

  /** The event as the achievement rules see it. */
  function AsBatch(e: Event): Achievements.Batch
    requires e.click.tsUnix >= 0
  {
    Achievements.Batch(e.click.count, e.click.tsUnix, e.missed)
  }

  predicate Dated(e: Event) {
    0 <= e.click.tsUnix && DayOf(e.click.tsUnix) <= LAST_DAY
  }

  function Piped(r: Redis, c: Click, readAt: int, now: int): Redis
    requires c.tsUnix >= 0
  {
    r.(alltime := r.alltime[c.sub := ScoreOf(r.alltime, c.sub) + c.count],
       weeks := AddWeek(r.weeks, c, now),
       names := r.names[c.sub := c.displayName],
       days := AddDay(r.days, c, readAt, now),
       weekdays := AddWeekday(r.weekdays, c, now))
  }

  ghost function Applied(rules: Achievements.Rules, r: Redis, e: Event): Redis
    requires Dated(e)
  {
    var sub, piped := e.click.sub, Piped(r, e.click, e.readAt, e.at);
    var claimed := Claimed(rules, UnlocksOf(r.unlocks, sub), ScoreOf(piped.alltime, sub), e);
    piped.(unlocks := SaveUnlocks(r.unlocks, sub, claimed), streaks := SaveStreak(r.streaks, e.click, e.streak))
  }

  /** Redis after all of a log, from nothing. */
  ghost function After(rules: Achievements.Rules, log: seq<Event>): Redis
    requires forall i | 0 <= i < |log| :: Dated(log[i])
    decreases |log|
  {
    if log == [] then EMPTY else Applied(rules, After(rules, log[..|log| - 1]), log[|log| - 1])
  }

  // ----- the recomputation -----

  function Day(e: Event): nat {
    if e.click.tsUnix >= 0 then DayOf(e.click.tsUnix) else 0
  }

  /** The days lo <= day < hi. */
  datatype Span = Span(lo: int, hi: int)

  function OneDay(day: int): Span { Span(day, day + 1) }

  function OneWeek(monday: int): Span { Span(monday, monday + 7) }

  predicate Mine(e: Event, sub: string, span: Span) {
    e.click.sub == sub && span.lo <= Day(e) < span.hi
  }

  /** A user's clicks, batches and largest batch in a span of days. */
  function Clicks(log: seq<Event>, sub: string, span: Span): nat {
    if log == [] then 0
    else Clicks(log[..|log| - 1], sub, span) + if Mine(log[|log| - 1], sub, span) then log[|log| - 1].click.count else 0
  }

  function Batches(log: seq<Event>, sub: string, span: Span): nat {
    if log == [] then 0
    else Batches(log[..|log| - 1], sub, span) + if Mine(log[|log| - 1], sub, span) then 1 else 0
  }

  function MaxBatch(log: seq<Event>, sub: string, span: Span): nat {
    if log == [] then 0
    else
      var before, e := MaxBatch(log[..|log| - 1], sub, span), log[|log| - 1];
      if Mine(e, sub, span) && e.click.count > before then e.click.count else before
  }

  function AllTime(log: seq<Event>, sub: string): nat {
    if log == [] then 0
    else AllTime(log[..|log| - 1], sub) + if log[|log| - 1].click.sub == sub then log[|log| - 1].click.count else 0
  }

  /** A user's events, in order, as the achievement rules and the streak see them. */
  function UserBatches(log: seq<Event>, sub: string): seq<Achievements.Batch> {
    if log == [] then []
    else
      var e := log[|log| - 1];
      UserBatches(log[..|log| - 1], sub)
      + if e.click.sub == sub && e.click.tsUnix >= 0 then [AsBatch(e)] else []
  }

  function UserDays(log: seq<Event>, sub: string): seq<nat> {
    if log == [] then []
    else UserDays(log[..|log| - 1], sub) + if log[|log| - 1].click.sub == sub then [Day(log[|log| - 1])] else []
  }

  function LastName(log: seq<Event>, sub: string): string {
    if log == [] then ""
    else if log[|log| - 1].click.sub == sub then log[|log| - 1].click.displayName
    else LastName(log[..|log| - 1], sub)
  }

  predicate StreakFaultless(log: seq<Event>, sub: string) {
    forall i | 0 <= i < |log| && log[i].click.sub == sub :: log[i].streak.Fine?
  }

  // ----- what it means for Redis to match the log -----

  /** All three commands of the board, names included, know exactly the users that clicked. */
  ghost predicate TotalsMatch(alltime: map<string, nat>, names: map<string, string>, log: seq<Event>) {
    && (forall sub :: sub in alltime <==> |UserDays(log, sub)| > 0)
    && (forall sub | sub in alltime :: alltime[sub] == AllTime(log, sub))
    && (forall sub :: sub in names <==> sub in alltime)
    && (forall sub | sub in names :: names[sub] == LastName(log, sub))
  }

  /** A week's board holds the users of that week and their clicks from Monday to Sunday. */
  ghost predicate WeekMatches(weeks: map<int, Week>, log: seq<Event>, monday: int) {
    && (monday in weeks ==> weeks[monday].expiry >= Midnight(monday) * SECOND + WEEK_TTL)
    && (forall sub :: monday in weeks && sub in weeks[monday].scores <==> Batches(log, sub, OneWeek(monday)) > 0)
    && (forall sub | monday in weeks && sub in weeks[monday].scores ::
          weeks[monday].scores[sub] == Clicks(log, sub, OneWeek(monday)))
  }

  ghost predicate WeeksMatch(weeks: map<int, Week>, log: seq<Event>) {
    && (forall monday | monday in weeks :: monday % 7 == 4)
    && (forall monday: int | monday % 7 == 4 :: WeekMatches(weeks, log, monday))
  }

  ghost predicate DaysMatch(days: map<(string, int), Daily>, log: seq<Event>) {
    && (forall k: (string, int) :: k in days <==> Batches(log, k.0, OneDay(k.1)) > 0)
    && (forall k | k in days ::
          && days[k].expiry >= Midnight(k.1) * SECOND + DAILY_TTL
          && days[k].clicks == Clicks(log, k.0, OneDay(k.1))
          && days[k].batches == Batches(log, k.0, OneDay(k.1))
          && days[k].maxbatch == MaxBatch(log, k.0, OneDay(k.1)))
  }

  /** A user's weekday set holds the days of that week on which the user clicked. */
  ghost predicate WeekdaysMatch(weekdays: map<(string, int), Weekdays>, log: seq<Event>) {
    && (forall k | k in weekdays ::
          && weekdays[k].expiry >= Midnight(k.1) * SECOND + WEEK_TTL
          && (forall day | day in weekdays[k].days :: MondayOf(day) == k.1))
    && (forall sub, day: nat ::
          var week := (sub, MondayOf(day));
          Batches(log, sub, OneDay(day)) > 0 <==> week in weekdays && day in weekdays[week].days)
  }

  /** Unlocks are those of the user's batches. */
  ghost predicate UnlocksMatch(rules: Achievements.Rules, unlocks: map<string, map<string, nat>>, log: seq<Event>) {
    forall sub :: UnlocksOf(unlocks, sub) == Achievements.Unlocks(rules, UserBatches(log, sub))
  }

  /** A streak is that of the user's days, unless a streak command failed for the user. */
  ghost predicate StreaksMatch(streaks: map<string, Streak.State>, log: seq<Event>)
    requires forall i | 0 <= i < |log| :: Dated(log[i])
  {
    forall sub | StreakFaultless(log, sub) :: StreakOf(streaks, sub) == FoldOf(log, sub)
  }

  ghost function FoldOf(log: seq<Event>, sub: string): Streak.State
    requires forall i | 0 <= i < |log| :: Dated(log[i])
  {
    UserDaysBound(log, sub);
    Streak.Fold(UserDays(log, sub))
  }

  lemma {:induction false} UserDaysBound(log: seq<Event>, sub: string)
    requires forall i | 0 <= i < |log| :: Dated(log[i])
    ensures forall i | 0 <= i < |UserDays(log, sub)| :: UserDays(log, sub)[i] <= LAST_DAY
  {
    if log != [] { UserDaysBound(log[..|log| - 1], sub); }
  }

  ghost predicate Matches(rules: Achievements.Rules, r: Redis, log: seq<Event>)
    requires forall i | 0 <= i < |log| :: Dated(log[i])
  {
    && TotalsMatch(r.alltime, r.names, log)
    && WeeksMatch(r.weeks, log)
    && DaysMatch(r.days, log)
    && WeekdaysMatch(r.weekdays, log)
    && UnlocksMatch(rules, r.unlocks, log)
    && StreaksMatch(r.streaks, log)
  }

  /** A dated event, applied no sooner than accepted and at most `late` after the second it was
      accepted in. */
  predicate InTime(e: Event, late: int) {
    && Dated(e)
    && e.click.tsUnix * SECOND <= e.readAt <= e.at <= e.click.tsUnix * SECOND + late
  }

  predicate Within(log: seq<Event>, late: int) {
    forall i | 0 <= i < |log| :: InTime(log[i], late)
  }

  // ----- one more event -----

  function Front(log: seq<Event>): seq<Event>
    requires log != []
  {
    log[..|log| - 1]
  }

  function Last(log: seq<Event>): Event
    requires log != []
  {
    log[|log| - 1]
  }

  lemma MondayMod(day: nat)
    ensures MondayOf(day) % 7 == 4 && MondayOf(day) <= day < MondayOf(day) + 7
  {
    var q := (day + 3) / 7;
    assert MondayOf(day) == 7 * q - 3;
    DivUnique(MondayOf(day), 7, q - 1, 4);
  }

  /** The only Monday whose week a day is in. */
  lemma MondayIsUnique(day: nat, monday: int)
    requires monday % 7 == 4
    ensures monday <= day < monday + 7 <==> monday == MondayOf(day)
  {
    MondayMod(day);
    var a, b := monday / 7, MondayOf(day) / 7;
    assert monday == 7 * a + 4 && MondayOf(day) == 7 * b + 4;
  }

  lemma {:induction false} NoEvents(log: seq<Event>, sub: string)
    ensures |UserDays(log, sub)| == 0 ==> AllTime(log, sub) == 0
  {
    if log != [] { NoEvents(Front(log), sub); }
  }

  lemma {:induction false} NoBatches(log: seq<Event>, sub: string, span: Span)
    ensures Batches(log, sub, span) == 0 ==> Clicks(log, sub, span) == 0 && MaxBatch(log, sub, span) == 0
  {
    if log != [] { NoBatches(Front(log), sub, span); }
  }

  /** An event applied in time finds its day's hash alive, and up to six days later still its
      week's keys. */
  lemma DayAlive(e: Event, late: int)
    requires 0 <= late < SAFE_DELAY && InTime(e, late)
    ensures e.at < Midnight(Day(e)) * SECOND + DAILY_TTL
  {
    DayBounds(e.click.tsUnix);
  }

  lemma WeekAlive(e: Event, late: int)
    requires 0 <= late < SAFE_WEEK_DELAY && InTime(e, late)
    ensures e.at < Midnight(MondayOf(Day(e))) * SECOND + WEEK_TTL
  {
    DayBounds(e.click.tsUnix);
    MondayMod(Day(e));
  }

  lemma TotalsStep(alltime: map<string, nat>, names: map<string, string>, log: seq<Event>)
    requires log != [] && TotalsMatch(alltime, names, Front(log))
    ensures var c := Last(log).click;
            TotalsMatch(alltime[c.sub := ScoreOf(alltime, c.sub) + c.count], names[c.sub := c.displayName], log)
  {
    NoEvents(Front(log), Last(log).click.sub);
  }

  lemma DaysStep(days: map<(string, int), Daily>, log: seq<Event>, late: int)
    requires log != [] && DaysMatch(days, Front(log)) && 0 <= late < SAFE_DELAY && InTime(Last(log), late)
    ensures DaysMatch(AddDay(days, Last(log).click, Last(log).readAt, Last(log).at), log)
  {
    var e := Last(log);
    var key := (e.click.sub, Day(e) as int);
    DayAlive(e, late);
    DayBounds(e.click.tsUnix);
    NoBatches(Front(log), key.0, OneDay(key.1));
    var days' := AddDay(days, e.click, e.readAt, e.at);
    forall k: (string, int) ensures Mine(e, k.0, OneDay(k.1)) <==> k == key {
    }
    forall k: (string, int) ensures k in days' <==> Batches(log, k.0, OneDay(k.1)) > 0 {
      assert Mine(e, k.0, OneDay(k.1)) <==> k == key;
    }
    forall k | k in days' ensures
        && days'[k].expiry >= Midnight(k.1) * SECOND + DAILY_TTL
        && days'[k].clicks == Clicks(log, k.0, OneDay(k.1))
        && days'[k].batches == Batches(log, k.0, OneDay(k.1))
        && days'[k].maxbatch == MaxBatch(log, k.0, OneDay(k.1))
    {
      assert Mine(e, k.0, OneDay(k.1)) <==> k == key;
    }
  }

  lemma ScoresStep(scores: map<string, nat>, log: seq<Event>, span: Span)
    requires log != [] && Mine(Last(log), Last(log).click.sub, span)
    requires forall sub :: sub in scores <==> Batches(Front(log), sub, span) > 0
    requires forall sub | sub in scores :: scores[sub] == Clicks(Front(log), sub, span)
    ensures var c := Last(log).click;
            var scores' := scores[c.sub := ScoreOf(scores, c.sub) + c.count];
            && (forall sub :: sub in scores' <==> Batches(log, sub, span) > 0)
            && (forall sub | sub in scores' :: scores'[sub] == Clicks(log, sub, span))
  {
    NoBatches(Front(log), Last(log).click.sub, span);
  }

  lemma ThisWeekStep(weeks: map<int, Week>, log: seq<Event>, late: int)
    requires log != [] && WeekMatches(weeks, Front(log), MondayOf(Day(Last(log))))
    requires 0 <= late < SAFE_WEEK_DELAY && InTime(Last(log), late)
    ensures WeekMatches(AddWeek(weeks, Last(log).click, Last(log).at), log, MondayOf(Day(Last(log))))
  {
    var e := Last(log);
    var mine := MondayOf(Day(e));
    WeekStartDayIs(e.click.tsUnix);
    MondayMod(Day(e));
    WeekAlive(e, late);
    DayBounds(e.click.tsUnix);
    ScoresStep(if mine in weeks then weeks[mine].scores else map[], log, OneWeek(mine));
  }

  lemma OtherWeekStep(weeks: map<int, Week>, log: seq<Event>, monday: int)
    requires log != [] && WeekMatches(weeks, Front(log), monday) && Dated(Last(log))
    requires monday % 7 == 4 && monday != MondayOf(Day(Last(log)))
    ensures WeekMatches(AddWeek(weeks, Last(log).click, Last(log).at), log, monday)
  {
    WeekStartDayIs(Last(log).click.tsUnix);
    MondayIsUnique(Day(Last(log)), monday);
    forall sub
      ensures Batches(log, sub, OneWeek(monday)) == Batches(Front(log), sub, OneWeek(monday))
      ensures Clicks(log, sub, OneWeek(monday)) == Clicks(Front(log), sub, OneWeek(monday))
    {
      assert !Mine(Last(log), sub, OneWeek(monday));
    }
  }

  lemma WeeksStep(weeks: map<int, Week>, log: seq<Event>, late: int)
    requires log != [] && WeeksMatch(weeks, Front(log)) && 0 <= late < SAFE_WEEK_DELAY && InTime(Last(log), late)
    ensures WeeksMatch(AddWeek(weeks, Last(log).click, Last(log).at), log)
  {
    var weeks' := AddWeek(weeks, Last(log).click, Last(log).at);
    WeekStartDayIs(Last(log).click.tsUnix);
    MondayMod(Day(Last(log)));
    forall monday: int | monday % 7 == 4 ensures WeekMatches(weeks', log, monday) {
      if monday == MondayOf(Day(Last(log))) {
        ThisWeekStep(weeks, log, late);
      } else {
        OtherWeekStep(weeks, log, monday);
      }
    }
  }

  lemma WeekdaysStep(weekdays: map<(string, int), Weekdays>, log: seq<Event>, late: int)
    requires log != [] && WeekdaysMatch(weekdays, Front(log)) && 0 <= late < SAFE_WEEK_DELAY && InTime(Last(log), late)
    ensures WeekdaysMatch(AddWeekday(weekdays, Last(log).click, Last(log).at), log)
  {
    var e := Last(log);
    WeekStartDayIs(e.click.tsUnix);
    MondayMod(Day(e));
    WeekAlive(e, late);
    DayBounds(e.click.tsUnix);
    var weekdays' := AddWeekday(weekdays, e.click, e.at);
    forall sub, day: nat
      ensures Batches(log, sub, OneDay(day)) > 0
         <==> (sub, MondayOf(day)) in weekdays' && day in weekdays'[(sub, MondayOf(day))].days
    {
      assert Mine(e, sub, OneDay(day)) <==> sub == e.click.sub && day == Day(e);
    }
  }

  lemma {:induction false} UserBatchesTotal(log: seq<Event>, sub: string)
    requires forall i | 0 <= i < |log| :: Dated(log[i])
    ensures Achievements.Total(UserBatches(log, sub)) == AllTime(log, sub)
  {
    if log != [] {
      UserBatchesTotal(Front(log), sub);
      TotalPush(UserBatches(Front(log), sub), AsBatch(Last(log)));
    }
  }

  lemma TotalPush(batches: seq<Achievements.Batch>, b: Achievements.Batch)
    ensures Achievements.Total(batches + [b]) == Achievements.Total(batches) + b.count
    ensures batches + [] == batches
  {
    assert (batches + [b])[..|batches|] == batches;
  }

  lemma UnlocksPush(rules: Achievements.Rules, batches: seq<Achievements.Batch>, b: Achievements.Batch, total: nat)
    requires total == Achievements.Total(batches + [b])
    ensures Achievements.Unlocks(rules, batches + [b])
         == Achievements.ClaimAll(Achievements.Unlocks(rules, batches), rules(total, b), b.now, b.missed)
  {
    assert (batches + [b])[..|batches|] == batches;
  }

  /** The hash of the event's own user. */
  lemma OwnUnlocks(rules: Achievements.Rules, held: map<string, nat>, log: seq<Event>)
    requires log != [] && (forall i | 0 <= i < |log| :: Dated(log[i])) && Dated(Last(log))
    requires held == Achievements.Unlocks(rules, UserBatches(Front(log), Last(log).click.sub))
    ensures var sub := Last(log).click.sub;
            Claimed(rules, held, AllTime(log, sub), Last(log)) == Achievements.Unlocks(rules, UserBatches(log, sub))
  {
    var sub := Last(log).click.sub;
    UserBatchesTotal(log, sub);
    UnlocksPush(rules, UserBatches(Front(log), sub), AsBatch(Last(log)), AllTime(log, sub));
  }

  lemma {:induction false} ClaimsOnlyAdd(held: map<string, nat>, ids: seq<string>, now: nat, missed: set<string>)
    ensures Achievements.ClaimAll(held, ids, now, missed) == map[] ==> held == map[]
    decreases |ids|
  {
    if ids != [] { ClaimsOnlyAdd(held, ids[..|ids| - 1], now, missed); }
  }

  lemma SavedUnlocks(rules: Achievements.Rules, all: map<string, map<string, nat>>, total: nat, e: Event)
    requires e.click.tsUnix >= 0
    ensures var sub := e.click.sub;
            var claimed := Claimed(rules, UnlocksOf(all, sub), total, e);
            var all' := SaveUnlocks(all, sub, claimed);
            && UnlocksOf(all', sub) == claimed
            && forall other | other != sub :: UnlocksOf(all', other) == UnlocksOf(all, other)
  {
    var b := AsBatch(e);
    ClaimsOnlyAdd(UnlocksOf(all, e.click.sub), rules(total, b), b.now, b.missed);
  }

  lemma UnlocksStep(rules: Achievements.Rules, all: map<string, map<string, nat>>, log: seq<Event>)
    requires log != [] && (forall i | 0 <= i < |log| :: Dated(log[i])) && Dated(Last(log))
    requires UnlocksMatch(rules, all, Front(log))
    ensures var sub := Last(log).click.sub;
            var claimed := Claimed(rules, UnlocksOf(all, sub), AllTime(log, sub), Last(log));
            UnlocksMatch(rules, SaveUnlocks(all, sub, claimed), log)
  {
    hide Achievements.ClaimAll, Achievements.Unlocks, SaveUnlocks, Claimed;
    var sub := Last(log).click.sub;
    SavedUnlocks(rules, all, AllTime(log, sub), Last(log));
    OwnUnlocks(rules, UnlocksOf(all, sub), log);
    forall other | other != sub ensures UserBatches(log, other) == UserBatches(Front(log), other) {
      TotalPush(UserBatches(Front(log), other), AsBatch(Last(log)));
    }
  }

  lemma FoldPush(days: seq<nat>, day: nat)
    requires day <= LAST_DAY && forall i | 0 <= i < |days| :: days[i] <= LAST_DAY
    ensures DateOf(day).y <= 9999
    ensures Streak.Fold(days + [day]) == Streak.Advance(Streak.Fold(days), Iso(DateOf(day))).0
    ensures days + [] == days
  {
    FourDigitYears(day);
    assert (days + [day])[..|days|] == days;
  }

  lemma SavedStreak(streaks: map<string, Streak.State>, c: Click)
    requires 0 <= c.tsUnix && DayOf(c.tsUnix) <= LAST_DAY
    ensures StreakOf(SaveStreak(streaks, c, Fine), c.sub)
         == Streak.Advance(StreakOf(streaks, c.sub), DateHCM(c.tsUnix)).0
  {
  }

  lemma OwnStreak(streaks: map<string, Streak.State>, log: seq<Event>)
    requires log != [] && (forall i | 0 <= i < |log| :: Dated(log[i]))
    requires var e := Last(log); e.streak.Fine? && StreakOf(streaks, e.click.sub) == FoldOf(Front(log), e.click.sub)
    ensures var e := Last(log);
            Dated(e) && StreakOf(SaveStreak(streaks, e.click, Fine), e.click.sub) == FoldOf(log, e.click.sub)
  {
    var e := Last(log);
    SavedStreak(streaks, e.click);
    UserDaysBound(Front(log), e.click.sub);
    UserDaysBound(log, e.click.sub);
    FoldPush(UserDays(Front(log), e.click.sub), Day(e));
  }

  lemma StreaksStep(streaks: map<string, Streak.State>, log: seq<Event>)
    requires log != [] && (forall i | 0 <= i < |log| :: Dated(log[i])) && StreaksMatch(streaks, Front(log))
    ensures Dated(Last(log)) && StreaksMatch(SaveStreak(streaks, Last(log).click, Last(log).streak), log)
  {
    var e := Last(log);
    forall sub | StreakFaultless(log, sub)
      ensures StreakOf(SaveStreak(streaks, e.click, e.streak), sub) == FoldOf(log, sub)
    {
      assert StreakFaultless(Front(log), sub);
      if sub == e.click.sub {
        OwnStreak(streaks, log);
      } else {
        OtherStreak(log, sub);
      }
    }
  }

  lemma OtherStreak(log: seq<Event>, sub: string)
    requires log != [] && (forall i | 0 <= i < |log| :: Dated(log[i])) && sub != Last(log).click.sub
    ensures FoldOf(log, sub) == FoldOf(Front(log), sub)
  {
    assert UserDays(log, sub) == UserDays(Front(log), sub) + [] == UserDays(Front(log), sub);
  }

  // ----- any number of events -----

  predicate AllDated(log: seq<Event>) {
    forall i | 0 <= i < |log| :: Dated(log[i])
  }

  lemma AfterPush(rules: Achievements.Rules, log: seq<Event>, e: Event)
    requires AllDated(log) && Dated(e)
    ensures AllDated(log + [e]) && After(rules, log + [e]) == Applied(rules, After(rules, log), e)
  {
    hide Applied;
    assert (log + [e])[..|log|] == log;
  }

  lemma {:induction false} RunKeepsTotals(rules: Achievements.Rules, log: seq<Event>)
    requires forall i | 0 <= i < |log| :: Dated(log[i])
    ensures TotalsMatch(After(rules, log).alltime, After(rules, log).names, log)
    decreases |log|
  {
    if log != [] {
      RunKeepsTotals(rules, Front(log));
      TotalsStep(After(rules, Front(log)).alltime, After(rules, Front(log)).names, log);
    }
  }

  lemma {:induction false} RunKeepsWeeks(rules: Achievements.Rules, log: seq<Event>, late: int)
    requires 0 <= late < SAFE_WEEK_DELAY && Within(log, late)
    ensures WeeksMatch(After(rules, log).weeks, log)
    decreases |log|
  {
    if log != [] {
      RunKeepsWeeks(rules, Front(log), late);
      WeeksStep(After(rules, Front(log)).weeks, log, late);
    }
  }

  lemma {:induction false} RunKeepsDays(rules: Achievements.Rules, log: seq<Event>, late: int)
    requires 0 <= late < SAFE_DELAY && Within(log, late)
    ensures DaysMatch(After(rules, log).days, log)
    decreases |log|
  {
    if log != [] {
      RunKeepsDays(rules, Front(log), late);
      DaysStep(After(rules, Front(log)).days, log, late);
    }
  }

  lemma {:induction false} RunKeepsWeekdays(rules: Achievements.Rules, log: seq<Event>, late: int)
    requires 0 <= late < SAFE_WEEK_DELAY && Within(log, late)
    ensures WeekdaysMatch(After(rules, log).weekdays, log)
    decreases |log|
  {
    if log != [] {
      RunKeepsWeekdays(rules, Front(log), late);
      WeekdaysStep(After(rules, Front(log)).weekdays, log, late);
    }
  }

  lemma {:induction false} RunKeepsUnlocks(rules: Achievements.Rules, log: seq<Event>)
    requires forall i | 0 <= i < |log| :: Dated(log[i])
    ensures UnlocksMatch(rules, After(rules, log).unlocks, log)
    decreases |log|
  {
    if log != [] {
      RunKeepsUnlocks(rules, Front(log));
      RunKeepsTotals(rules, log);
      NoEvents(log, Last(log).click.sub);
      UnlocksStep(rules, After(rules, Front(log)).unlocks, log);
    }
  }

  lemma {:induction false} RunKeepsStreaks(rules: Achievements.Rules, log: seq<Event>)
    requires forall i | 0 <= i < |log| :: Dated(log[i])
    ensures StreaksMatch(After(rules, log).streaks, log)
    decreases |log|
  {
    if log != [] {
      RunKeepsStreaks(rules, Front(log));
      StreaksStep(After(rules, Front(log)).streaks, log);
    }
  }

  /** Boards and hashes without an expiry are exact however late the events were. */
  lemma LastingMatch(rules: Achievements.Rules, log: seq<Event>)
    requires forall i | 0 <= i < |log| :: Dated(log[i])
    ensures var r := After(rules, log);
            TotalsMatch(r.alltime, r.names, log) && UnlocksMatch(rules, r.unlocks, log) && StreaksMatch(r.streaks, log)
  {
    RunKeepsTotals(rules, log);
    RunKeepsUnlocks(rules, log);
    RunKeepsStreaks(rules, log);
  }

  /** After any events, each applied at most a day after its second, every board, day hash,
      weekday set, unlocks hash and streak is what the events say. */
  lemma PromptRunMatches(rules: Achievements.Rules, log: seq<Event>, late: int)
    requires 0 <= late < SAFE_DELAY && Within(log, late)
    ensures Matches(rules, After(rules, log), log)
  {
    LastingMatch(rules, log);
    RunKeepsWeeks(rules, log, late);
    RunKeepsDays(rules, log, late);
    RunKeepsWeekdays(rules, log, late);
  }

  // ----- how late is too late -----

  /** What two events of one user do to the keys that expire. */
  lemma AfterTwo(rules: Achievements.Rules, a: Event, b: Event)
    requires Dated(a) && Dated(b)
    ensures After(rules, [a, b]).days
         == AddDay(AddDay(map[], a.click, a.readAt, a.at), b.click, b.readAt, b.at)
    ensures After(rules, [a, b]).weeks == AddWeek(AddWeek(map[], a.click, a.at), b.click, b.at)
    ensures After(rules, [a, b]).weekdays == AddWeekday(AddWeekday(map[], a.click, a.at), b.click, b.at)
  {
    hide AddDay, AddWeek, AddWeekday, Claimed, SaveStreak, SaveUnlocks;
    assert Front([a, b]) == [a] && Front([a]) == [];
    assert After(rules, [a]) == Applied(rules, EMPTY, a);
    assert After(rules, [a, b]) == Applied(rules, After(rules, [a]), b);
  }

  lemma TwoClicks(a: Event, b: Event, span: Span)
    requires Mine(a, a.click.sub, span) && Mine(b, a.click.sub, span)
    ensures Clicks([a, b], a.click.sub, span) == a.click.count + b.click.count
  {
    assert [a, b][..1] == [a] && [a][..0] == [];
    assert Clicks([a], a.click.sub, span) == Clicks([], a.click.sub, span) + a.click.count;
  }

  /** Two batches of one user and day, the second applied 48 hours after the first or later: the
      day's hash of the first has expired, and the second starts it over. */
  lemma ExpiryLosesDay(rules: Achievements.Rules, a: Event, b: Event)
    requires Dated(a) && Dated(b) && a.click.sub == b.click.sub && Day(a) == Day(b)
    requires a.click.count > 0 && a.at + DAILY_TTL <= b.at
    ensures var log := [a, b];
            var key := (a.click.sub, Day(a) as int);
            key in After(rules, log).days && After(rules, log).days[key].clicks < Clicks(log, key.0, OneDay(key.1))
  {
    hide After;
    AfterTwo(rules, a, b);
    TwoClicks(a, b, OneDay(Day(a)));
  }

  /** Two batches of one user and week, the second applied 14 days after the first or later: the
      week's board has expired, and the second starts it over. */
  lemma ExpiryLosesWeek(rules: Achievements.Rules, a: Event, b: Event)
    requires Dated(a) && Dated(b) && a.click.sub == b.click.sub && MondayOf(Day(a)) == MondayOf(Day(b))
    requires a.click.count > 0 && a.at + WEEK_TTL <= b.at
    ensures var log := [a, b];
            var monday := MondayOf(Day(a));
            WeekScore(After(rules, log).weeks, a.click.sub, monday) < Clicks(log, a.click.sub, OneWeek(monday))
  {
    hide After;
    AfterTwo(rules, a, b);
    WeekStartDayIs(a.click.tsUnix);
    WeekStartDayIs(b.click.tsUnix);
    MondayMod(Day(a));
    MondayMod(Day(b));
    TwoClicks(a, b, OneWeek(MondayOf(Day(a))));
  }

  /** And the user's weekday set, which forgets the day of the first. */
  lemma ExpiryLosesWeekday(rules: Achievements.Rules, a: Event, b: Event)
    requires Dated(a) && Dated(b) && a.click.sub == b.click.sub && MondayOf(Day(a)) == MondayOf(Day(b))
    requires Day(a) != Day(b) && a.at + WEEK_TTL <= b.at
    ensures var log := [a, b];
            var week := (a.click.sub, MondayOf(Day(a)));
            && Batches(log, a.click.sub, OneDay(Day(a))) > 0
            && week in After(rules, log).weekdays && Day(a) !in After(rules, log).weekdays[week].days
  {
    hide After;
    AfterTwo(rules, a, b);
    WeekStartDayIs(a.click.tsUnix);
    WeekStartDayIs(b.click.tsUnix);
    assert [a, b][..1] == [a] && [a][..0] == [];
    assert Batches([a], a.click.sub, OneDay(Day(a))) == Batches([], a.click.sub, OneDay(Day(a))) + 1;
  }

  /** A batch of one click at a second, applied so much later. */
  function ClickAt(t: nat, delay: nat): Event {
    Event(Click([], 1, [], t, []), t * SECOND + delay, t * SECOND + delay, {}, Fine)
  }

  /** The last second of a day is 86,399 s after its first one. */
  lemma LateDay() returns (a: Event, b: Event)
    ensures InTime(a, SAFE_DELAY) && InTime(b, SAFE_DELAY)
    ensures a.click.sub == b.click.sub && Day(a) == Day(b) && a.click.count > 0 && a.at + DAILY_TTL <= b.at
  {
    a, b := ClickAt(61_200, 0), ClickAt(147_599, SAFE_DELAY);
    assert DayOf(61_200) == DayOf(147_599) == 1;
  }

  /** The last second of a Sunday is 604,799 s after the first one of its Monday. */
  lemma LateWeek() returns (a: Event, b: Event)
    ensures InTime(a, SAFE_WEEK_DELAY) && InTime(b, SAFE_WEEK_DELAY)
    ensures a.click.sub == b.click.sub && MondayOf(Day(a)) == MondayOf(Day(b)) && Day(a) != Day(b)
    ensures a.click.count > 0 && a.at + WEEK_TTL <= b.at
  {
    a, b := ClickAt(320_400, 0), ClickAt(925_199, SAFE_WEEK_DELAY);
    assert DayOf(320_400) == 4 && DayOf(925_199) == 10;
  }

  /** The daily hashes are exact in every run whose events are at most `late` late if and only if
      that is less than 86,401 seconds. */
  lemma DaysIffInTime(rules: Achievements.Rules, late: int)
    requires 0 <= late
    ensures (forall log | Within(log, late) :: DaysMatch(After(rules, log).days, log)) <==> late < SAFE_DELAY
  {
    hide After, DaysMatch;
    if late < SAFE_DELAY {
      forall log | Within(log, late) ensures DaysMatch(After(rules, log).days, log) { RunKeepsDays(rules, log, late); }
    } else {
      var log := LateDays(rules, late);
    }
  }

  lemma LateDays(rules: Achievements.Rules, late: int) returns (log: seq<Event>)
    requires SAFE_DELAY <= late
    ensures Within(log, late) && !DaysMatch(After(rules, log).days, log)
  {
    hide After;
    var a, b := LateDay();
    log := [a, b];
    ExpiryLosesDay(rules, a, b);
  }

  /** The weekly boards if and only if it is less than 604,801 seconds. */
  lemma WeeksIffInTime(rules: Achievements.Rules, late: int)
    requires 0 <= late
    ensures (forall log | Within(log, late) :: WeeksMatch(After(rules, log).weeks, log)) <==> late < SAFE_WEEK_DELAY
  {
    hide After, WeeksMatch;
    if late < SAFE_WEEK_DELAY {
      forall log | Within(log, late) ensures WeeksMatch(After(rules, log).weeks, log) {
        RunKeepsWeeks(rules, log, late);
      }
    } else {
      var log := LateWeeks(rules, late);
    }
  }

  lemma LateWeeks(rules: Achievements.Rules, late: int) returns (log: seq<Event>)
    requires SAFE_WEEK_DELAY <= late
    ensures Within(log, late) && !WeeksMatch(After(rules, log).weeks, log)
    ensures !WeekdaysMatch(After(rules, log).weekdays, log)
  {
    hide After, WeeksMatch;
    var a, b := LateWeek();
    log := [a, b];
    MondayMod(Day(a));
    ExpiryLosesWeek(rules, a, b);
    ExpiryLosesWeekday(rules, a, b);
    if WeeksMatch(After(rules, log).weeks, log) {
      WeekScoreIs(After(rules, log).weeks, log, a.click.sub, MondayOf(Day(a)));
    }
  }

  /** And so are the weekday sets. */
  lemma WeekdaysIffInTime(rules: Achievements.Rules, late: int)
    requires 0 <= late
    ensures (forall log | Within(log, late) :: WeekdaysMatch(After(rules, log).weekdays, log))
       <==> late < SAFE_WEEK_DELAY
  {
    hide After, WeekdaysMatch;
    if late < SAFE_WEEK_DELAY {
      forall log | Within(log, late) ensures WeekdaysMatch(After(rules, log).weekdays, log) {
        RunKeepsWeekdays(rules, log, late);
      }
    } else {
      var log := LateWeeks(rules, late);
    }
  }

  /** All the views are exact in every run whose events are at most `late` late if and only if
      that is less than 86,401 seconds. */
  lemma ExactIffInTime(rules: Achievements.Rules, late: int)
    requires 0 <= late
    ensures (forall log | Within(log, late) :: Matches(rules, After(rules, log), log)) <==> late < SAFE_DELAY
  {
    hide After, DaysMatch, WeeksMatch, WeekdaysMatch, TotalsMatch, UnlocksMatch, StreaksMatch;
    if late < SAFE_DELAY {
      forall log | Within(log, late) ensures Matches(rules, After(rules, log), log) {
        PromptRunMatches(rules, log, late);
      }
    } else {
      var log := LateDays(rules, late);
      assert !Matches(rules, After(rules, log), log);
    }
  }

  // ----- what the views add up to -----

  /** Clicks of a span are those of its two parts. */
  lemma {:induction false} ClicksSplit(log: seq<Event>, sub: string, lo: int, mid: int, hi: int)
    requires lo <= mid <= hi
    ensures Clicks(log, sub, Span(lo, hi)) == Clicks(log, sub, Span(lo, mid)) + Clicks(log, sub, Span(mid, hi))
  {
    if log != [] { ClicksSplit(Front(log), sub, lo, mid, hi); }
  }

  lemma {:induction false} NoDaysNoClicks(log: seq<Event>, sub: string, lo: int)
    ensures Clicks(log, sub, Span(lo, lo)) == 0
  {
    if log != [] { NoDaysNoClicks(Front(log), sub, lo); }
  }

  function DayScore(days: map<(string, int), Daily>, sub: string, day: int): nat {
    if (sub, day) in days then days[(sub, day)].clicks else 0
  }

  function WeekScore(weeks: map<int, Week>, sub: string, monday: int): nat {
    if monday in weeks then ScoreOf(weeks[monday].scores, sub) else 0
  }

  function DaysSum(days: map<(string, int), Daily>, sub: string, lo: int, n: nat): nat {
    if n == 0 then 0 else DaysSum(days, sub, lo, n - 1) + DayScore(days, sub, lo + n - 1)
  }

  /** The scores of a user in the first n weeks, from the Monday before the epoch. */
  function WeeksSum(weeks: map<int, Week>, sub: string, n: nat): nat {
    if n == 0 then 0 else WeeksSum(weeks, sub, n - 1) + WeekScore(weeks, sub, 7 * (n - 1) - 3)
  }

  lemma {:induction false} DaysSumIs(days: map<(string, int), Daily>, log: seq<Event>, sub: string, lo: int, n: nat)
    requires DaysMatch(days, log)
    ensures DaysSum(days, sub, lo, n) == Clicks(log, sub, Span(lo, lo + n))
  {
    if n == 0 {
      NoDaysNoClicks(log, sub, lo);
    } else {
      DaysSumIs(days, log, sub, lo, n - 1);
      ClicksSplit(log, sub, lo, lo + n - 1, lo + n);
      var k := (sub, lo + n - 1);
      NoBatches(log, k.0, OneDay(k.1));
      assert DayScore(days, sub, k.1) == Clicks(log, k.0, OneDay(k.1));
    }
  }

  lemma WeekScoreIs(weeks: map<int, Week>, log: seq<Event>, sub: string, monday: int)
    requires WeeksMatch(weeks, log) && monday % 7 == 4
    ensures WeekScore(weeks, sub, monday) == Clicks(log, sub, OneWeek(monday))
  {
    NoBatches(log, sub, OneWeek(monday));
    assert WeekMatches(weeks, log, monday);
  }

  lemma {:induction false} WeeksSumIs(weeks: map<int, Week>, log: seq<Event>, sub: string, n: nat)
    requires WeeksMatch(weeks, log)
    ensures WeeksSum(weeks, sub, n) == Clicks(log, sub, Span(-3, 7 * n - 3))
  {
    if n == 0 {
      NoDaysNoClicks(log, sub, -3);
    } else {
      WeeksSumIs(weeks, log, sub, n - 1);
      var monday := 7 * (n - 1) - 3;
      DivUnique(monday, 7, n - 2, 4);
      WeekScoreIs(weeks, log, sub, monday);
      ClicksSplit(log, sub, -3, monday, monday + 7);
    }
  }

  lemma {:induction false} AllTimeIsAllDays(log: seq<Event>, sub: string, hi: int)
    requires forall i | 0 <= i < |log| :: Day(log[i]) < hi
    ensures AllTime(log, sub) == Clicks(log, sub, Span(-3, hi))
  {
    if log != [] { AllTimeIsAllDays(Front(log), sub, hi); }
  }

  /** A user's weekly score is the sum of the seven daily click counts of that week. */
  lemma WeekIsItsDays(weeks: map<int, Week>, days: map<(string, int), Daily>, log: seq<Event>, sub: string, monday: int)
    requires WeeksMatch(weeks, log) && DaysMatch(days, log) && monday % 7 == 4
    ensures WeekScore(weeks, sub, monday) == DaysSum(days, sub, monday, 7)
  {
    WeekScoreIs(weeks, log, sub, monday);
    DaysSumIs(days, log, sub, monday, 7);
  }

  /** The all-time score is the sum of the weekly ones, over any weeks that reach far enough. */
  lemma AllTimeIsItsWeeks(alltime: map<string, nat>, names: map<string, string>, weeks: map<int, Week>,
                          log: seq<Event>, sub: string, n: nat)
    requires TotalsMatch(alltime, names, log) && WeeksMatch(weeks, log)
    requires forall i | 0 <= i < |log| :: Day(log[i]) < 7 * n - 3
    ensures ScoreOf(alltime, sub) == WeeksSum(weeks, sub, n)
  {
    NoEvents(log, sub);
    WeeksSumIs(weeks, log, sub, n);
    AllTimeIsAllDays(log, sub, 7 * n - 3);
  }

  /** A set of days of one week has at most seven. */
  lemma {:induction false} WeekOfSeven(days: set<nat>, lo: int, n: nat)
    requires forall day | day in days :: lo <= day < lo + n
    ensures |days| <= n
  {
    if n == 0 {
      assert days == {} by { assert forall day :: day !in days; }
    } else {
      var rest := set day | day in days && day < lo + n - 1;
      WeekOfSeven(rest, lo, n - 1);
      if rest != days {
        assert days == rest + {lo + n - 1};
      }
    }
  }

  /** The weekday set counts the days of that week on which the user clicked: at most seven, and
      exactly those with a daily hash. */
  lemma WeekdaysAreClickedDays(weekdays: map<(string, int), Weekdays>, days: map<(string, int), Daily>,
                               log: seq<Event>, key: (string, int))
    requires WeekdaysMatch(weekdays, log) && DaysMatch(days, log) && key in weekdays
    ensures |weekdays[key].days| <= 7
    ensures forall day: nat :: day in weekdays[key].days <==> (key.0, day as int) in days && MondayOf(day) == key.1
  {
    var held := weekdays[key].days;
    forall day | day in held ensures key.1 <= day < key.1 + 7 {
      assert MondayOf(day) == key.1;
    }
    WeekOfSeven(held, key.1, 7);
    forall day: nat ensures day in held <==> (key.0, day as int) in days && MondayOf(day) == key.1 {
      var k := (key.0, day as int);
      assert k in days <==> Batches(log, k.0, OneDay(k.1)) > 0;
    }
  }

  /** A day's largest batch is one of the day's batches and none is larger. */
  lemma {:induction false} MaxBatchIsLargest(log: seq<Event>, sub: string, span: Span)
    ensures forall i | 0 <= i < |log| && Mine(log[i], sub, span) :: log[i].click.count <= MaxBatch(log, sub, span)
    ensures MaxBatch(log, sub, span) > 0 ==>
              exists i :: 0 <= i < |log| && Mine(log[i], sub, span) && log[i].click.count == MaxBatch(log, sub, span)
  {
    if log != [] {
      MaxBatchIsLargest(Front(log), sub, span);
      if MaxBatch(Front(log), sub, span) > 0 {
        var i :| && 0 <= i < |Front(log)| && Mine(Front(log)[i], sub, span)
                 && Front(log)[i].click.count == MaxBatch(Front(log), sub, span);
        assert log[i] == Front(log)[i];
      }
      assert log[|log| - 1] == Last(log);
    }
  }

  // ----- what the unlocks and streaks of a user say -----

  lemma {:induction false} UserMissed(log: seq<Event>, sub: string)
    requires forall i | 0 <= i < |log| && log[i].click.sub == sub :: log[i].missed == {}
    ensures forall i | 0 <= i < |UserBatches(log, sub)| :: UserBatches(log, sub)[i].missed == {}
  {
    if log != [] { UserMissed(Front(log), sub); }
  }

  /** A user never holds a threshold above the all-time score; and holds every one up to it if no
      claim of the user was missed. */
  lemma UnlockedIffScored(ths: seq<Achievements.Threshold>, log: seq<Event>, sub: string, j: nat)
    requires Achievements.IsCatalog(ths) && j < |ths| && forall i | 0 <= i < |log| :: Dated(log[i])
    ensures var r := After(Achievements.RulesOf(ths), log);
            var held := ths[j].id in UnlocksOf(r.unlocks, sub);
            && (held ==> ths[j].x <= ScoreOf(r.alltime, sub))
            && ((forall i | 0 <= i < |log| && log[i].click.sub == sub :: log[i].missed == {}) ==>
                  (ths[j].x <= ScoreOf(r.alltime, sub) ==> held))
  {
    RunKeepsTotals(Achievements.RulesOf(ths), log);
    RunKeepsUnlocks(Achievements.RulesOf(ths), log);
    NoEvents(log, sub);
    UserBatchesTotal(log, sub);
    Achievements.UnlockedIffReached(ths, UserBatches(log, sub), j);
    if forall i | 0 <= i < |log| && log[i].click.sub == sub :: log[i].missed == {} { UserMissed(log, sub); }
  }

  /** Which event of the log a user's batch is. */
  lemma {:induction false} BatchAt(log: seq<Event>, sub: string, k: nat) returns (i: nat)
    requires (forall j | 0 <= j < |log| :: Dated(log[j])) && k < |UserBatches(log, sub)|
    ensures i < |log| && Dated(log[i]) && log[i].click.sub == sub && UserBatches(log, sub)[k] == AsBatch(log[i])
    ensures UserBatches(log[..i], sub) == UserBatches(log, sub)[..k]
    ensures UserBatches(log[..i + 1], sub) == UserBatches(log, sub)[..k + 1]
  {
    var before := UserBatches(Front(log), sub);
    if k < |before| {
      i := BatchAt(Front(log), sub, k);
      assert Front(log)[..i] == log[..i] && Front(log)[..i + 1] == log[..i + 1];
    } else {
      i := |log| - 1;
      assert log[..i] == Front(log) && log[..i + 1] == log;
    }
  }

  /** The time of an unlock is the second of the click that brought the user's score to the threshold. */
  lemma UnlockTime(ths: seq<Achievements.Threshold>, log: seq<Event>, sub: string, j: nat) returns (i: nat)
    requires Achievements.IsCatalog(ths) && j < |ths| && forall i | 0 <= i < |log| :: Dated(log[i])
    requires ths[j].id in UnlocksOf(After(Achievements.RulesOf(ths), log).unlocks, sub)
    ensures i < |log| && Dated(log[i]) && log[i].click.sub == sub
    ensures AllTime(log[..i], sub) < ths[j].x <= AllTime(log[..i + 1], sub)
    ensures UnlocksOf(After(Achievements.RulesOf(ths), log).unlocks, sub)[ths[j].id] == log[i].click.tsUnix
  {
    hide After, UserBatches, AllTime, UnlocksOf, Achievements.Unlocks, Achievements.Total, Achievements.Reaching;
    hide Achievements.IsCatalog;
    var batches := UserBatches(log, sub);
    RunKeepsUnlocks(Achievements.RulesOf(ths), log);
    HeldIs(Achievements.RulesOf(ths), After(Achievements.RulesOf(ths), log).unlocks, log, sub);
    Achievements.UnlockedIffReached(ths, batches, j);
    var k := Achievements.Reaching(batches, ths[j].x);
    i := BatchAt(log, sub, k);
    UserBatchesTotal(log[..i], sub);
    UserBatchesTotal(log[..i + 1], sub);
  }

  lemma HeldIs(rules: Achievements.Rules, unlocks: map<string, map<string, nat>>, log: seq<Event>, sub: string)
    requires UnlocksMatch(rules, unlocks, log)
    ensures UnlocksOf(unlocks, sub) == Achievements.Unlocks(rules, UserBatches(log, sub))
  {
  }

  /** When the user's events were applied in the order of their days, the stored count is the run
      of consecutive days ending with the last one, and best the longest run ever. */
  lemma StreakOfUser(rules: Achievements.Rules, log: seq<Event>, sub: string)
    requires StreakFaultless(log, sub) && forall i | 0 <= i < |log| :: Dated(log[i])
    requires UserDays(log, sub) != [] && Streak.Contributions(UserDays(log, sub))
    ensures var days := UserDays(log, sub);
            var st := StreakOf(After(rules, log).streaks, sub);
            && st.count == Streak.RunEndingAt(Streak.DaySet(days), days[|days| - 1])
            && Streak.IsLongest(Streak.DaySet(days), st.best)
  {
    RunKeepsStreaks(rules, log);
    UserDaysBound(log, sub);
    Streak.StreakMeaning(UserDays(log, sub));
  }

  /** Whoever has an unlock or a streak is on the all-time board, however late the events were and
      whatever failed; Snapshot copies unlocks and streaks by that board. */
  lemma {:induction false} EngineOnBoard(rules: Achievements.Rules, log: seq<Event>, sub: string)
    requires forall i | 0 <= i < |log| :: Dated(log[i])
    ensures var r := After(rules, log);
            sub in r.unlocks || sub in r.streaks ==> sub in r.alltime
    decreases |log|
  {
    if log != [] { EngineOnBoard(rules, Front(log), sub); }
  }

  lemma SaveFits(streaks: map<string, Streak.State>, c: Click, fault: StreakFault, sub: string)
    requires 0 <= c.tsUnix && DayOf(c.tsUnix) <= LAST_DAY && Streak.Fits(StreakOf(streaks, sub))
    ensures Streak.Fits(StreakOf(SaveStreak(streaks, c, fault), sub))
  {
    hide Streak.Fits, Streak.Advance, Iso, DateOf;
    NeverFits();
    Streak.AdvanceFits(Streak.NEVER, DayOf(c.tsUnix));
    Streak.AdvanceFits(StreakOf(streaks, sub), DayOf(c.tsUnix));
  }

  lemma NeverFits()
    ensures Streak.Fits(Streak.NEVER)
  {
  }

  /** However late the events and whatever failed, a stored streak never wraps its uint32 around and
      never needs the int32 clamp of the copy in Postgres. */
  lemma {:induction false} StreaksFit(rules: Achievements.Rules, log: seq<Event>, sub: string)
    requires forall i | 0 <= i < |log| :: Dated(log[i])
    ensures var st := StreakOf(After(rules, log).streaks, sub);
            st.count <= LAST_DAY + 1 < 0x8000_0000 && st.best <= LAST_DAY + 1
    ensures Streak.Fits(StreakOf(After(rules, log).streaks, sub))
    decreases |log|
  {
    hide SaveStreak, Piped, Claimed;
    if log != [] {
      StreaksFit(rules, Front(log), sub);
      SaveFits(After(rules, Front(log)).streaks, Last(log).click, Last(log).streak, sub);
    }
  }

  // ----- faults -----

  ghost predicate MissesAll(rules: Achievements.Rules, total: nat, e: Event)
    requires e.click.tsUnix >= 0
  {
    var ids := rules(total, AsBatch(e));
    forall i | 0 <= i < |ids| :: ids[i] in e.missed
  }

  lemma ClaimsNothing(rules: Achievements.Rules, held: map<string, nat>, total: nat, e: Event)
    requires e.click.tsUnix >= 0 && MissesAll(rules, total, e)
    ensures Claimed(rules, held, total, e) == held
  {
    var b := AsBatch(e);
    Achievements.AllMissed(held, rules(total, b), b.now, b.missed);
  }

  /** An event whose process dies after the pipeline is one that missed all its claims and
      whose streak was not saved. */
  lemma CrashIsMissed(rules: Achievements.Rules, r: Redis, e: Event)
    requires Dated(e) && e.streak.WriteFails? && MissesAll(rules, ScoreOf(r.alltime, e.click.sub) + e.click.count, e)
    ensures Applied(rules, r, e) == Piped(r, e.click, e.readAt, e.at)
  {
    hide AddDay, AddWeek, AddWeekday;
    var sub := e.click.sub;
    ClaimsNothing(rules, UnlocksOf(r.unlocks, sub), ScoreOf(r.alltime, sub) + e.click.count, e);
    SavedNothing(r.unlocks, sub);
  }

  lemma SavedNothing(all: map<string, map<string, nat>>, sub: string)
    ensures SaveUnlocks(all, sub, UnlocksOf(all, sub)) == all
  {
    if sub in all { assert all[sub := all[sub]] == all; }
  }

  /** "Best" is the longest streak ever, so it should never fall. An event lowers it if and only
      if reading the streak fails and saving it does not, while the best was above 1: the
      failed read is taken for a user without a streak. */
  lemma BestFallsIff(streaks: map<string, Streak.State>, c: Click, fault: StreakFault)
    requires 0 <= c.tsUnix && DayOf(c.tsUnix) <= LAST_DAY
    ensures StreakOf(SaveStreak(streaks, c, fault), c.sub).best < StreakOf(streaks, c.sub).best
       <==> fault.ReadFails? && StreakOf(streaks, c.sub).best > 1
  {
    FourDigitYears(DayOf(c.tsUnix));
    assert |DateHCM(c.tsUnix)| == 10;
  }
}
