// The daily contribution streak (internal/streak/streak.go), and what folding it over a
// user's contributions means.

module Streak {
  import opened Calendar
  import opened Wrappers

  /** LastDay is a YYYY-MM-DD date, empty before the first contribution. */
  datatype State = State(count: nat, best: nat, lastDay: string)

  const NEVER := State(0, 0, "")

  /** Parse both dates; AddDate(0, 0, 1) carries the day over like time.Date does. */
  predicate IsNextDay(last: string, today: string) {
    var l, t := Parse(last), Parse(today);
    l.Parsed? && t.Parsed? && DayNumber(l.date.y, l.date.m, l.date.d + 1) == NumberOf(t.date)
  }

  /** The counters are uint32 and wrap around. */
  function Advance(cur: State, today: string): (State, bool) {
    if cur.lastDay == today then (cur, false)
    else
      var extend := cur.lastDay != "" && IsNextDay(cur.lastDay, today);
      (Contribute(cur, today, extend), true)
  }

  /** A contribution on a new day, which extends the streak or starts one. */
  function Contribute(cur: State, today: string, extend: bool): State {
    var count := if extend then (cur.count + 1) % UINT32 else 1;
    State(count, if count > cur.best then count else cur.best, today)
  }

  /** On printed dates, IsNextDay is what it says. */
  lemma IsNextDayOnDays(a: nat, b: nat)
    requires a <= LAST_DAY && b <= LAST_DAY
    ensures DateOf(a).y <= 9999 && DateOf(b).y <= 9999
    ensures IsNextDay(Iso(DateOf(a)), Iso(DateOf(b))) <==> b == a + 1
  {
    FourDigitYears(a);
    FourDigitYears(b);
    ParsePrinted(DateOf(a));
    ParsePrinted(DateOf(b));
    NumberOfDate(a);
    NumberOfDate(b);
  }

  /** A user's contributions: the days, in the order the worker applies them. */
  predicate Contributions(days: seq<nat>) {
    && (forall i | 0 <= i < |days| :: days[i] <= LAST_DAY)
    && (forall i, j | 0 <= i < j < |days| :: days[i] <= days[j])
  }

  /** The fold the progress worker computes, one event at a time. */
  function Fold(days: seq<nat>): State
    requires forall i | 0 <= i < |days| :: days[i] <= LAST_DAY
  {
    if days == [] then NEVER
    else
      FourDigitYears(days[|days| - 1]);
      Advance(Fold(days[..|days| - 1]), Iso(DateOf(days[|days| - 1]))).0
  }

  /** How many consecutive days, ending with `day`, have a contribution. */
  function RunEndingAt(days: set<nat>, day: nat): nat
    decreases day
  {
    if day !in days then 0
    else if day == 0 then 1
    else 1 + RunEndingAt(days, day - 1)
  }

  function DaySet(days: seq<nat>): set<nat> {
    set i | 0 <= i < |days| :: days[i]
  }

  lemma {:induction false} RunBound(days: set<nat>, day: nat)
    ensures RunEndingAt(days, day) <= day + 1
    decreases day
  {
    if day in days && day > 0 { RunBound(days, day - 1); }
  }

  /** A day added later does not change the runs that end before it. */
  lemma {:induction false} LaterDayKeepsRun(days: set<nat>, later: nat, day: nat)
    requires day < later
    ensures RunEndingAt(days + {later}, day) == RunEndingAt(days, day)
    decreases day
  {
    if day > 0 { LaterDayKeepsRun(days, later, day - 1); }
  }

  /** best is the longest run: some day ends a run of that length and none ends a longer one. */
  ghost predicate IsLongest(days: set<nat>, best: nat) {
    && (exists day :: day in days && RunEndingAt(days, day) == best)
    && (forall day | day in days :: RunEndingAt(days, day) <= best)
  }

  /** After any contributions, Count is the length of the run of consecutive days that ends
      with the last contribution, and Best the length of the longest run there ever was. */
  lemma {:induction false} StreakMeaning(days: seq<nat>)
    requires Contributions(days) && days != []
    ensures var last := days[|days| - 1];
            var s := Fold(days);
            && DateOf(last).y <= 9999 && s.lastDay == Iso(DateOf(last))
            && s.count == RunEndingAt(DaySet(days), last)
            && IsLongest(DaySet(days), s.best)
    decreases |days|
  {
    var n := |days| - 1;
    var last, before := days[n], days[..n];
    FourDigitYears(last);
    assert DaySet(days) == DaySet(before) + {last};
    if n == 0 {
      assert last in DaySet(days);
      if last > 0 { assert RunEndingAt(DaySet(days), last - 1) == 0; }
    } else {
      StreakMeaning(before);
      var prev := before[n - 1];
      assert prev == days[n - 1];
      IsoIsInjective(prev, last);
      if prev == last {
        assert DaySet(days) == DaySet(before);
      } else {
        NewDay(before, last);
      }
    }
  }

  /** Advance in terms of day numbers, for a new day. */
  lemma AdvanceOnDays(s: State, prev: nat, today: nat)
    requires prev <= LAST_DAY && today <= LAST_DAY && prev != today && s.count + 1 < UINT32
    requires DateOf(prev).y <= 9999 && s.lastDay == Iso(DateOf(prev))
    ensures DateOf(today).y <= 9999
    ensures var count := if today == prev + 1 then s.count + 1 else 1;
            Advance(s, Iso(DateOf(today))).0
              == State(count, if count > s.best then count else s.best, Iso(DateOf(today)))
  {
    IsNextDayOnDays(prev, today);
    IsoIsInjective(prev, today);
    NoWrap(s, Iso(DateOf(today)), today == prev + 1);
  }

  /** Before the counter reaches its last value it does not wrap around. */
  lemma NoWrap(s: State, today: string, extend: bool)
    requires s.count + 1 < UINT32
    ensures var count := if extend then s.count + 1 else 1;
            Contribute(s, today, extend) == State(count, if count > s.best then count else s.best, today)
  {
  }

  // ----- the counters are wide enough -----

  /** The count goes back no further than the epoch, and neither did the best. */
  predicate CountsFrom(s: State, day: nat) {
    && day <= LAST_DAY && DateOf(day).y <= 9999 && s.lastDay == Iso(DateOf(day))
    && s.count <= day + 1 && s.best <= LAST_DAY + 1
  }

  ghost predicate Fits(s: State) {
    s == NEVER || exists day: nat :: CountsFrom(s, day)
  }

  /** In whatever order the days come, a day extends a streak by one only if it is the day after. */
  lemma AdvanceFits(s: State, today: nat)
    requires Fits(s) && today <= LAST_DAY
    ensures DateOf(today).y <= 9999 && Fits(Advance(s, Iso(DateOf(today))).0)
  {
    hide Iso, DateOf, IsNextDay;
    FourDigitYears(today);
    var s' := Advance(s, Iso(DateOf(today))).0;
    if s != NEVER {
      var prev: nat :| CountsFrom(s, prev);
      if prev != today { AdvanceOnDays(s, prev, today); }
    }
    assert CountsFrom(s', today);
  }

  /** One contribution on a later day than all before. */
  lemma NewDay(before: seq<nat>, last: nat)
    requires Contributions(before) && before != [] && before[|before| - 1] < last <= LAST_DAY
    requires var prev, s := before[|before| - 1], Fold(before);
             && DateOf(prev).y <= 9999 && s.lastDay == Iso(DateOf(prev))
             && s.count == RunEndingAt(DaySet(before), prev)
             && IsLongest(DaySet(before), s.best)
    ensures DateOf(last).y <= 9999
    ensures var s := Advance(Fold(before), Iso(DateOf(last))).0;
            && s.lastDay == Iso(DateOf(last))
            && s.count == RunEndingAt(DaySet(before) + {last}, last)
            && IsLongest(DaySet(before) + {last}, s.best)
  {
    var prev := before[|before| - 1];
    RunBound(DaySet(before), prev);
    AdvanceOnDays(Fold(before), prev, last);
    RunOfNewDay(before, last);
    LongestWithNewDay(before, last, Fold(before).best);
  }

  lemma RunOfNewDay(before: seq<nat>, last: nat)
    requires Contributions(before) && before != [] && before[|before| - 1] < last
    ensures var prev := before[|before| - 1];
            RunEndingAt(DaySet(before) + {last}, last)
              == if last == prev + 1 then RunEndingAt(DaySet(before), prev) + 1 else 1
  {
    var prev := before[|before| - 1];
    LaterDayKeepsRun(DaySet(before), last, last - 1);
    LastIsMax(before);
  }

  lemma LastIsMax(days: seq<nat>)
    requires Contributions(days) && days != []
    ensures forall day | day in DaySet(days) :: day <= days[|days| - 1]
    ensures days[|days| - 1] in DaySet(days)
  {
  }

  lemma LongestWithNewDay(before: seq<nat>, last: nat, best: nat)
    requires Contributions(before) && before != [] && before[|before| - 1] < last
    requires IsLongest(DaySet(before), best)
    ensures var run := RunEndingAt(DaySet(before) + {last}, last);
            IsLongest(DaySet(before) + {last}, if run > best then run else best)
  {
    var prior, days := DaySet(before), DaySet(before) + {last};
    forall day | day in prior ensures RunEndingAt(days, day) == RunEndingAt(prior, day) {
      KeepsRunOf(before, last, day);
    }
    assert last in days;
    var day :| day in prior && RunEndingAt(prior, day) == best;
    assert day in days;
  }

  lemma KeepsRunOf(before: seq<nat>, last: nat, day: nat)
    requires Contributions(before) && before != [] && before[|before| - 1] < last && day in DaySet(before)
    ensures RunEndingAt(DaySet(before) + {last}, day) == RunEndingAt(DaySet(before), day)
  {
    LastIsMax(before);
    LaterDayKeepsRun(DaySet(before), last, day);
  }

  /** The order of the events matters. A late event, of an earlier day than the last one,
      restarts the streak at 1 and moves it back to that day; so Count is still the run that
      ends with LastDay if and only if there was no contribution on the day before. */
  lemma LateEventResets(days: seq<nat>, late: nat)
    requires Contributions(days) && days != [] && late < days[|days| - 1]
    ensures DateOf(late).y <= 9999
    ensures Fold(days + [late]) == State(1, Fold(days).best, Iso(DateOf(late)))
    ensures Fold(days + [late]).count == RunEndingAt(DaySet(days) + {late}, late)
       <==> (late == 0 || late - 1 !in DaySet(days))
  {
    var last := days[|days| - 1];
    StreakMeaning(days);
    RunBound(DaySet(days), last);
    AdvanceOnDays(Fold(days), last, late);
    assert (days + [late])[..|days|] == days;
    assert Fold(days).best >= 1 by {
      var day :| day in DaySet(days) && RunEndingAt(DaySet(days), day) == Fold(days).best;
    }
    if late > 0 && late - 1 in DaySet(days) {
      assert late - 1 in DaySet(days) + {late};
      assert RunEndingAt(DaySet(days) + {late}, late - 1) >= 1;
    }
  }
}
