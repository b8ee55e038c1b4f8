// When the two consumer groups agree. With one consumer per partition, whose process restarts
// after a Redis error before it reads on, both groups count the first record of every challenge
// and nothing else, whatever is submitted twice or delivered again; the one thing that loses
// clicks is a crash or an error between a SETNX and its effect, and then they are lost for good.

module Agreement {
  import opened ClickEvent
  import opened Token
  import opened Idem
  import opened Pipeline
  import opened Conservation
  import opened Dedup

  /** Record j is the first one of its challenge in its partition. */
  ghost predicate IsFirst(recs: seq<Record>, j: nat)
    requires j < |recs|
  {
    recs[j].Accepted? &&
    forall i | 0 <= i < j && recs[i].Accepted? :: recs[i].click.challengeId != recs[j].click.challengeId
  }

  /** The clicks of the first records among the first n of a partition. */
  ghost function FirstSum(who: Who, recs: seq<Record>, n: nat): nat
    requires n <= |recs|
  {
    if n == 0 then 0
    else FirstSum(who, recs, n - 1) + if IsFirst(recs, n - 1) then Clicks(who, recs[n - 1].click) else 0
  }

  /** The same over the first n partitions, each up to its own offset in `upto`. */
  ghost function FirstTotal(who: Who, parts: seq<seq<Record>>, upto: seq<nat>, n: nat): nat
    requires n <= |parts| && |upto| == |parts| && forall p | 0 <= p < |parts| :: upto[p] <= |parts[p]|
  {
    if n == 0 then 0
    else FirstTotal(who, parts, upto, n - 1) + FirstSum(who, parts[n - 1], upto[n - 1])
  }

  function Lengths(parts: seq<seq<Record>>): seq<nat> {
    seq(|parts|, p requires 0 <= p < |parts| => |parts[p]|)
  }

  /** What the whole log is worth when each challenge counts once, by its first record. */
  ghost function LogTotal(who: Who, parts: seq<seq<Record>>): nat {
    FirstTotal(who, parts, Lengths(parts), |parts|)
  }

  lemma {:induction false} FirstSumPrefix(who: Who, recs: seq<Record>, r: Record, n: nat)
    requires n <= |recs|
    ensures FirstSum(who, recs + [r], n) == FirstSum(who, recs, n)
  {
    if n > 0 {
      FirstSumPrefix(who, recs, r, n - 1);
      assert (recs + [r])[..n] == recs[..n];
      assert forall i | 0 <= i < n :: (recs + [r])[i] == recs[i];
    }
  }

  lemma {:induction false} FirstTotalAppend(who: Who, parts: seq<seq<Record>>, upto: seq<nat>, p: nat, r: Record,
                                            n: nat)
    requires p < |parts| && n <= |parts| && |upto| == |parts| && forall q | 0 <= q < |parts| :: upto[q] <= |parts[q]|
    ensures FirstTotal(who, Append(parts, p, r), upto, n) == FirstTotal(who, parts, upto, n)
  {
    if n > 0 {
      FirstTotalAppend(who, parts, upto, p, r, n - 1);
      if p == n - 1 { FirstSumPrefix(who, parts[p], r, upto[p]); }
    }
  }

  lemma {:induction false} FirstTotalBump(who: Who, parts: seq<seq<Record>>, upto: seq<nat>, p: nat, n: nat)
    requires p < |parts| && n <= |parts| && |upto| == |parts| && forall q | 0 <= q < |parts| :: upto[q] <= |parts[q]|
    requires upto[p] < |parts[p]|
    ensures FirstTotal(who, parts, upto[p := upto[p] + 1], n)
         == FirstTotal(who, parts, upto, n)
          + if p < n && IsFirst(parts[p], upto[p]) then Clicks(who, parts[p][upto[p]].click) else 0
  {
    if n > 0 { FirstTotalBump(who, parts, upto, p, n - 1); }
  }

  // ----- orderly runs -----

  /** A consumer moves only by reading on or by restarting from the committed offset, and after a
      Redis error it restarts before it does anything else. */
  predicate MayDo(g: GroupState, k: nat, a: Action) {
    !a.Seek? && (k < |g.consumers| && !g.consumers[k].ok ==> a.Restart?)
  }

  predicate Orderly(s: System, step: Step) {
    step.Act? ==> MayDo(GroupOf(s, step.group), step.k, step.action)
  }

  /** A crash or an error between a won SETNX and its effect: the process restarts or takes up
      another partition, the effect fails, or the SETNX stores its key and its reply is lost. */
  predicate Drops(g: GroupState, parts: seq<seq<Record>>, now: int, k: nat, a: Action)
    requires WellFormed(g, parts) && Enabled(g, parts, k, a)
  {
    var c := g.consumers[k];
    || ((a.Restart? || a.Seek?) && c.stage.Won?)
    || (a.ApplyFault? && !a.stored)
    || (a.SeeFault? && a.stored && !Live(g.seen, parts[c.part][c.next].click.challengeId, now))
  }

  predicate DropsClaim(s: System, step: Step, group: Group) {
    && step.Act? && step.group == group && Shaped(s) && CanStep(s, step)
    && Drops(GroupOf(s, group), s.parts, s.now, step.k, step.action)
  }

  ghost predicate OrderlyRun(s: System, steps: seq<Step>, delay: int)
    requires Shaped(s)
  {
    && delay < 270 * SECOND
    && PromptRun(s, steps, delay)
    && Every(s, steps, (t, step) => Orderly(t, step))
  }

  ghost predicate NoneDropped(s: System, steps: seq<Step>, group: Group)
    requires Shaped(s) && IsRun(s, steps)
  {
    Every(s, steps, (t, step) => !DropsClaim(t, step, group))
  }

  /** Consumer k owns partition k, in both groups. */
  function OneEach(partitions: nat): (owners: seq<nat>)
    ensures |owners| == partitions && forall k | 0 <= k < partitions :: owners[k] == k
  {
    seq(partitions, i => i)
  }

  /** The consumers of a group have read and finished everything in the log. */
  predicate Drained(g: GroupState, parts: seq<seq<Record>>) {
    forall k | 0 <= k < |g.consumers| ::
      && g.consumers[k].stage.Ready? && g.consumers[k].ok
      && g.consumers[k].part < |parts| && g.consumers[k].next == |parts[g.consumers[k].part]|
  }

  // ----- what every orderly step keeps -----

  /** Where consumer p of partition p stands. */
  predicate InPlace(g: GroupState, p: nat)
    requires p < |g.consumers| && p < |g.committed| && p < |g.high|
  {
    var c := g.consumers[p];
    && c.part == p && g.committed[p] <= g.high[p] && (c.ok ==> c.next <= g.high[p])
    && (!c.stage.Ready? ==> c.ok && c.next < g.high[p])
  }

  ghost predicate InOrder(g: GroupState, parts: seq<seq<Record>>) {
    && WellFormed(g, parts)
    && |g.consumers| == |parts|
    && forall p {:trigger InPlace(g, p)} {:trigger g.consumers[p]} | 0 <= p < |parts| :: InPlace(g, p)
  }

  /** The wins are exactly the first records of what has been processed. */
  ghost predicate WinsAreFirsts(s: System, g: GroupState)
    requires WellFormed(g, s.parts)
  {
    && AllSeen(s, g)
    && (forall i | 0 <= i < |g.wins| :: WinIsFirst(s, g, g.wins[i].click))
    && SumsAgree(s, g)
  }

  ghost predicate AllSeen(s: System, g: GroupState)
    requires WellFormed(g, s.parts)
  {
    forall p, j | 0 <= p < |s.parts| && 0 <= j < g.high[p] && s.parts[p][j].Accepted? ::
      s.parts[p][j].click.challengeId in g.seen
  }

  ghost predicate SumsAgree(s: System, g: GroupState)
    requires WellFormed(g, s.parts)
  {
    forall who :: Sum(All(who), g.wins) == FirstTotal(who, s.parts, g.high, |s.parts|)
  }

  ghost predicate WinIsFirst(s: System, g: GroupState, c: Click)
    requires WellFormed(g, s.parts)
  {
    && s.route(c.sub) < |s.parts|
    && c.challengeId in s.issued && s.issued[c.challengeId].sub == c.sub
    && exists j :: 0 <= j < g.high[s.route(c.sub)] && FirstRecordOf(s.parts[s.route(c.sub)], j, c)
  }

  ghost predicate FirstRecordOf(recs: seq<Record>, j: nat, c: Click) {
    j < |recs| && IsFirst(recs, j) && recs[j].click == c
  }

  ghost predicate GroupOrderly(s: System, g: GroupState) {
    && InOrder(g, s.parts) && WinsAreFirsts(s, g) && Remembers(s, g)
  }

  lemma FirstOccursOnce(s: System, g: GroupState, p: nat)
    requires BoundLog(s) && GroupOrderly(s, g) && p < |s.parts| && g.high[p] < |s.parts[p]|
    requires s.parts[p][g.high[p]].Accepted?
    ensures IsFirst(s.parts[p], g.high[p]) <==> s.parts[p][g.high[p]].click.challengeId !in g.seen
  {
    var j := g.high[p];
    var id := s.parts[p][j].click.challengeId;
    assert Bound(s, p, s.parts[p][j]);
    if id in g.seen {
      var i :| 0 <= i < |g.wins| && g.wins[i].click.challengeId == id;
      assert WinIsFirst(s, g, g.wins[i].click);
    }
  }

  /** A SETNX that reaches Redis. */
  predicate Claims(a: Action) {
    a.See? || (a.SeeFault? && a.stored)
  }

  /** Processing the record at the edge of what a group has processed. */
  ghost predicate AtEdge(s: System, g: GroupState, k: nat, a: Action, delay: int) {
    && BoundLog(s) && GroupOrderly(s, g) && Enabled(g, s.parts, k, a) && Claims(a) && delay < 270 * SECOND
    && g.consumers[k].next == g.high[k]
    && (s.parts[k][g.high[k]].Accepted? ==> s.now <= s.parts[k][g.high[k]].at + delay)
  }

  lemma SeeAtEdge(s: System, g: GroupState, k: nat, a: Action, delay: int)
    requires AtEdge(s, g, k, a, delay)
    ensures var g' := Do(g, s.parts, s.now, k, a);
            var r := s.parts[k][g.high[k]];
            && g'.high == g.high[k := g.high[k] + 1]
            && (if IsFirst(s.parts[k], g.high[k])
                then
                  && g'.wins == g.wins + [Win(r.click, false, false)]
                  && g'.seen.Keys == g.seen.Keys + {r.click.challengeId}
                else g'.wins == g.wins && g'.seen == g.seen && (r.Accepted? ==> r.click.challengeId in g.seen))
  {
    if s.parts[k][g.high[k]].Accepted? {
      FirstOccursOnce(s, g, k);
      SeenIsLive(s, g, k, g.high[k], delay);
    }
  }

  lemma EdgeKeepsSums(s: System, g: GroupState, k: nat, a: Action, delay: int)
    requires AtEdge(s, g, k, a, delay)
    ensures WellFormed(Do(g, s.parts, s.now, k, a), s.parts) && SumsAgree(s, Do(g, s.parts, s.now, k, a))
  {
    hide Do;
    SeeAtEdge(s, g, k, a, delay);
    DoKeepsShape(g, s.parts, s.now, k, a);
    var g' := Do(g, s.parts, s.now, k, a);
    forall who ensures Sum(All(who), g'.wins) == FirstTotal(who, s.parts, g'.high, |s.parts|) {
      FirstTotalBump(who, s.parts, g.high, k, |s.parts|);
      if IsFirst(s.parts[k], g.high[k]) {
        SumPush(All(who), g.wins, Win(s.parts[k][g.high[k]].click, false, false));
      }
    }
  }

  lemma EdgeKeepsFirsts(s: System, g: GroupState, k: nat, a: Action, delay: int)
    requires AtEdge(s, g, k, a, delay)
    ensures WellFormed(Do(g, s.parts, s.now, k, a), s.parts)
    ensures var g' := Do(g, s.parts, s.now, k, a);
            AllSeen(s, g') && forall i | 0 <= i < |g'.wins| :: WinIsFirst(s, g', g'.wins[i].click)
  {
    hide Do;
    SeeAtEdge(s, g, k, a, delay);
    DoKeepsShape(g, s.parts, s.now, k, a);
    var g' := Do(g, s.parts, s.now, k, a);
    forall i | 0 <= i < |g'.wins| ensures WinIsFirst(s, g', g'.wins[i].click) {
      if i < |g.wins| {
        WinStaysFirst(s, g, g', g.wins[i].click);
      } else {
        assert Bound(s, k, s.parts[k][g.high[k]]);
        assert FirstRecordOf(s.parts[k], g.high[k], g'.wins[i].click);
      }
    }
  }

  lemma WinStaysFirst(s: System, g: GroupState, g': GroupState, c: Click)
    requires WellFormed(g, s.parts) && WellFormed(g', s.parts) && WinIsFirst(s, g, c)
    requires forall p | 0 <= p < |s.parts| :: g.high[p] <= g'.high[p]
    ensures WinIsFirst(s, g', c)
  {
  }

  lemma ActorKeepsPlace(g: GroupState, parts: seq<seq<Record>>, now: int, k: nat, a: Action)
    requires InOrder(g, parts) && Enabled(g, parts, k, a) && MayDo(g, k, a)
    ensures var g' := Do(g, parts, now, k, a);
            && |g'.consumers| == |g'.committed| == |g'.high| == |parts| && InPlace(g', k)
            && forall p | 0 <= p < |parts| && p != k ::
                 g'.consumers[p] == g.consumers[p] && g'.committed[p] == g.committed[p] && g'.high[p] == g.high[p]
  {
    assert InPlace(g, k);
    assert g.consumers[k].part == k;
  }

  lemma DoKeepsPlaces(g: GroupState, parts: seq<seq<Record>>, now: int, k: nat, a: Action)
    requires InOrder(g, parts) && Enabled(g, parts, k, a)
    requires MayDo(g, k, a)
    ensures InOrder(Do(g, parts, now, k, a), parts)
  {
    DoKeepsShape(g, parts, now, k, a);
    ActorKeepsPlace(g, parts, now, k, a);
    forall p | 0 <= p < |parts| ensures InPlace(Do(g, parts, now, k, a), p) {
      assert InPlace(g, p);
    }
  }

  lemma DoKeepsOrder(s: System, g: GroupState, k: nat, a: Action, delay: int)
    requires BoundLog(s) && GroupOrderly(s, g) && Enabled(g, s.parts, k, a) && delay < 270 * SECOND
    requires MayDo(g, k, a)
    requires (a.See? || a.SeeFault?) && s.parts[k][g.consumers[k].next].Accepted? ==>
               s.now <= s.parts[k][g.consumers[k].next].at + delay
    ensures GroupOrderly(s, Do(g, s.parts, s.now, k, a))
  {
    DoKeepsPlaces(g, s.parts, s.now, k, a);
    DoRemembers(s, g, k, a, delay);
    if Claims(a) && g.consumers[k].next == g.high[k] {
      EdgeKeepsSums(s, g, k, a, delay);
      EdgeKeepsFirsts(s, g, k, a, delay);
    } else {
      InsideKeepsFirsts(s, g, k, a, delay);
    }
  }

  lemma InsideKeepsFirsts(s: System, g: GroupState, k: nat, a: Action, delay: int)
    requires BoundLog(s) && GroupOrderly(s, g) && Enabled(g, s.parts, k, a) && delay < 270 * SECOND
    requires MayDo(g, k, a)
    requires Claims(a) ==> g.consumers[k].next < g.high[k]
    requires (a.See? || a.SeeFault?) && s.parts[k][g.consumers[k].next].Accepted? ==>
               s.now <= s.parts[k][g.consumers[k].next].at + delay
    ensures WellFormed(Do(g, s.parts, s.now, k, a), s.parts) && WinsAreFirsts(s, Do(g, s.parts, s.now, k, a))
  {
    hide Do;
    DoKeepsShape(g, s.parts, s.now, k, a);
    assert g.consumers[k].part == k;
    if Claims(a) && s.parts[k][g.consumers[k].next].Accepted? {
      SeenIsLive(s, g, k, g.consumers[k].next, delay);
    }
    InsideClaimsNothing(s, g, k, a);
    SameClicksSameFirsts(s, g, Do(g, s.parts, s.now, k, a));
  }

  /** Short of the edge every SETNX finds its key, so nothing is claimed. */
  lemma InsideClaimsNothing(s: System, g: GroupState, k: nat, a: Action)
    requires GroupOrderly(s, g) && Enabled(g, s.parts, k, a) && MayDo(g, k, a)
    requires g.consumers[k].part == k && (Claims(a) ==> g.consumers[k].next < g.high[k])
    requires Claims(a) && s.parts[k][g.consumers[k].next].Accepted? ==>
               Live(g.seen, s.parts[k][g.consumers[k].next].click.challengeId, s.now)
    ensures var g' := Do(g, s.parts, s.now, k, a);
            && g'.high == g.high && g'.seen == g.seen && |g'.wins| == |g.wins|
            && forall i | 0 <= i < |g.wins| :: g'.wins[i].click == g.wins[i].click
  {
    hide WinsAreFirsts, Dedup.Remembers;
  }

  lemma SameClicksSameFirsts(s: System, g: GroupState, g': GroupState)
    requires WellFormed(g, s.parts) && WellFormed(g', s.parts) && WinsAreFirsts(s, g)
    requires g'.high == g.high && g'.seen == g.seen && |g'.wins| == |g.wins|
    requires forall i | 0 <= i < |g.wins| :: g'.wins[i].click == g.wins[i].click
    ensures WinsAreFirsts(s, g')
  {
    forall who { SameClicksSameSum(who, g.wins, g'.wins); }
    forall i | 0 <= i < |g'.wins| ensures WinIsFirst(s, g', g'.wins[i].click) {
      assert WinIsFirst(s, g, g.wins[i].click);
    }
  }

  lemma {:induction false} SameClicksSameSum(who: Who, a: seq<Win>, b: seq<Win>)
    requires |a| == |b| && forall i | 0 <= i < |a| :: a[i].click == b[i].click
    ensures Sum(All(who), a) == Sum(All(who), b)
  {
    if a != [] { SameClicksSameSum(who, a[..|a| - 1], b[..|b| - 1]); }
  }

  /** The log and the issued challenges only grow. */
  ghost predicate Grows(s: System, s': System) {
    && s'.route == s.route && |s'.parts| == |s.parts|
    && (forall p | 0 <= p < |s.parts| :: s.parts[p] <= s'.parts[p])
    && (forall id | id in s.issued :: id in s'.issued && s'.issued[id] == s.issued[id])
  }

  lemma GrowthKeepsOrder(s: System, s': System, g: GroupState)
    requires Grows(s, s') && GroupOrderly(s, g) && WellFormed(g, s'.parts) && SumsAgree(s', g)
    ensures GroupOrderly(s', g)
  {
    forall i | 0 <= i < |g.wins| ensures WinIsFirst(s', g, g.wins[i].click) {
      var c := g.wins[i].click;
      assert WinIsFirst(s, g, c);
      var j :| 0 <= j < g.high[s.route(c.sub)] && FirstRecordOf(s.parts[s.route(c.sub)], j, c);
      assert FirstRecordOf(s'.parts[s.route(c.sub)], j, c);
    }
  }

  lemma EnvironmentKeepsOrder(s: System, step: Step, g: GroupState)
    requires Shaped(s) && CanStep(s, step) && !step.Act? && GroupOrderly(s, g)
    ensures GroupOrderly(Next(s, step), g)
  {
    var s' := Next(s, step);
    if step.Accept? || step.Garble? {
      var p := if step.Accept? then s.route(step.sub) else step.part;
      var r := s'.parts[p][|s.parts[p]|];
      forall who { FirstTotalAppend(who, s.parts, g.high, p, r, |s.parts|); }
    }
    GrowthKeepsOrder(s, s', g);
  }

  ghost predicate SystemOrderly(s: System) {
    && Shaped(s) && BoundLog(s) && GroupOrderly(s, s.counter) && GroupOrderly(s, s.progress)
    && Balanced(s.counter) && Balanced(s.progress)
  }

  /** What a group that acts or stands still keeps, seen from the next state. */
  lemma ActingGroup(s: System, s': System, g: GroupState, k: nat, a: Action, delay: int)
    requires BoundLog(s) && GroupOrderly(s, g) && Balanced(g) && Enabled(g, s.parts, k, a) && delay < 270 * SECOND
    requires MayDo(g, k, a)
    requires (a.See? || a.SeeFault?) && s.parts[k][g.consumers[k].next].Accepted? ==>
               s.now <= s.parts[k][g.consumers[k].next].at + delay
    requires s'.route == s.route && s'.issued == s.issued && s'.parts == s.parts
    ensures var g' := Do(g, s.parts, s.now, k, a);
            WellFormed(g', s'.parts) && GroupOrderly(s', g') && Balanced(g')
  {
    DoKeepsOrder(s, g, k, a, delay);
    DoKeepsBalance(g, s.parts, s.now, k, a);
    IdleGroup(s, s', Do(g, s.parts, s.now, k, a));
  }

  lemma IdleGroup(s: System, s': System, g: GroupState)
    requires GroupOrderly(s, g) && s'.route == s.route && s'.issued == s.issued && s'.parts == s.parts
    ensures WellFormed(g, s'.parts) && GroupOrderly(s', g)
  {
    assert SumsAgree(s', g);
    GrowthKeepsOrder(s, s', g);
  }

  lemma ActKeepsOrder(s: System, group: Group, k: nat, a: Action, delay: int)
    requires SystemOrderly(s) && CanStep(s, Act(group, k, a)) && Orderly(s, Act(group, k, a))
    requires Prompt(s, Act(group, k, a), delay) && delay < 270 * SECOND
    ensures SystemOrderly(Next(s, Act(group, k, a)))
  {
    var s' := Next(s, Act(group, k, a));
    NextKeepsBoundLog(s, Act(group, k, a));
    if group == Counter {
      assert s.counter.consumers[k].part == k;
      ActingGroup(s, s', s.counter, k, a, delay);
      IdleGroup(s, s', s.progress);
    } else {
      assert s.progress.consumers[k].part == k;
      ActingGroup(s, s', s.progress, k, a, delay);
      IdleGroup(s, s', s.counter);
    }
  }

  lemma NextKeepsOrder(s: System, step: Step, delay: int)
    requires SystemOrderly(s) && CanStep(s, step) && Orderly(s, step) && Prompt(s, step, delay) && delay < 270 * SECOND
    ensures SystemOrderly(Next(s, step))
  {
    if step.Act? {
      ActKeepsOrder(s, step.group, step.k, step.action, delay);
    } else {
      StepKeepsShape(s, step);
      NextKeepsBoundLog(s, step);
      EnvironmentKeepsOrder(s, step, s.counter);
      EnvironmentKeepsOrder(s, step, s.progress);
    }
  }

  lemma {:induction false} RunKeepsOrder(s: System, steps: seq<Step>, delay: int)
    requires SystemOrderly(s) && OrderlyRun(s, steps, delay)
    ensures SystemOrderly(Final(s, steps))
    decreases |steps|
  {
    if steps != [] {
      StepKeepsShape(s, steps[0]);
      NextKeepsOrder(s, steps[0], delay);
      RunKeepsOrder(Next(s, steps[0]), steps[1..], delay);
    }
  }

  // ----- what a crash or an error between SETNX and effect does -----

  /** Some claimed challenge has no consumer left that would apply it. */
  ghost predicate Orphaned(g: GroupState) {
    exists w :: 0 <= w < |g.wins| && IsOrphan(g, w)
  }

  ghost predicate IsOrphan(g: GroupState, w: nat) {
    w < |g.wins| && !g.wins[w].applied && forall k | 0 <= k < |g.consumers| :: g.consumers[k].stage != Won(w)
  }

  predicate LetsGo(a: Action) {
    a.Restart? || a.Seek? || (a.ApplyFault? && !a.stored)
  }

  /** A claim that was there before is orphaned exactly by the loss of its consumer. */
  lemma OldOrphans(g: GroupState, parts: seq<seq<Record>>, now: int, k: nat, a: Action, w: nat)
    requires WellFormed(g, parts) && Enabled(g, parts, k, a) && Tidy(g.wins, g.consumers)
    requires w < |g.wins|
    ensures IsOrphan(Do(g, parts, now, k, a), w) <==> IsOrphan(g, w) || (LetsGo(a) && g.consumers[k].stage == Won(w))
  {
    var g', c := Do(g, parts, now, k, a), g.consumers[k];
    assert HoldsWin(g.wins, c.stage);
    assert forall i | 0 <= i < |g.consumers| && i != k :: g'.consumers[i] == g.consumers[i];
    if IsOrphan(g', w) && !IsOrphan(g, w) {
      var i :| 0 <= i < |g.consumers| && g.consumers[i].stage == Won(w);
      assert i == k;
    }
  }

  /** A step orphans a claim exactly when it is a crash or an error at that point, and an orphan
      stays one. */
  lemma DoOrphans(g: GroupState, parts: seq<seq<Record>>, now: int, k: nat, a: Action)
    requires WellFormed(g, parts) && Enabled(g, parts, k, a) && Tidy(g.wins, g.consumers)
    ensures Orphaned(Do(g, parts, now, k, a)) <==> Orphaned(g) || Drops(g, parts, now, k, a)
  {
    var g', c := Do(g, parts, now, k, a), g.consumers[k];
    forall w: nat | w < |g.wins|
      ensures IsOrphan(g', w) <==> IsOrphan(g, w) || (LetsGo(a) && c.stage == Won(w))
    {
      OldOrphans(g, parts, now, k, a, w);
    }
    if a.See? && |g.wins| < |g'.wins| {
      assert g'.consumers[k].stage == Won(|g.wins|);
    }
    if a.SeeFault? && |g.wins| < |g'.wins| {
      assert IsOrphan(g', |g.wins|);
    }
    if c.stage.Won? { assert HoldsWin(g.wins, c.stage); }
  }

  lemma NextOrphans(s: System, step: Step, group: Group)
    requires Shaped(s) && CanStep(s, step) && Balanced(GroupOf(s, group))
    ensures Orphaned(GroupOf(Next(s, step), group)) <==> Orphaned(GroupOf(s, group)) || DropsClaim(s, step, group)
  {
    if step.Act? && step.group == group {
      DoOrphans(GroupOf(s, group), s.parts, s.now, step.k, step.action);
    } else {
      assert GroupOf(Next(s, step), group) == GroupOf(s, group);
    }
  }

  lemma {:induction false} RunOrphans(s: System, steps: seq<Step>, group: Group)
    requires Shaped(s) && IsRun(s, steps) && Balanced(GroupOf(s, group))
    ensures Orphaned(GroupOf(Final(s, steps), group)) <==> Orphaned(GroupOf(s, group)) || !NoneDropped(s, steps, group)
    decreases |steps|
  {
    if steps != [] {
      StepKeepsShape(s, steps[0]);
      NextOrphans(s, steps[0], group);
      if steps[0].Act? && steps[0].group == group {
        DoKeepsBalance(GroupOf(s, group), s.parts, s.now, steps[0].k, steps[0].action);
      }
      RunOrphans(Next(s, steps[0]), steps[1..], group);
    }
  }

  lemma {:induction false} LostIsPositive(wins: seq<Win>, w: nat)
    requires w < |wins| && !wins[w].applied && 1 <= wins[w].click.count
    ensures Sum(Lost(Everyone), wins) >= 1
  {
    if w < |wins| - 1 { LostIsPositive(wins[..|wins| - 1], w); }
  }

  lemma {:induction false} NoneLost(who: Who, wins: seq<Win>)
    requires forall w | 0 <= w < |wins| :: wins[w].applied
    ensures Sum(Lost(who), wins) == 0
  {
    if wins != [] { NoneLost(who, wins[..|wins| - 1]); }
  }

  /** In a drained group the wins are worth the whole log. */
  lemma DrainedIsWhole(s: System, g: GroupState, who: Who)
    requires Shaped(s) && GroupOrderly(s, g) && Drained(g, s.parts)
    ensures Sum(All(who), g.wins) == LogTotal(who, s.parts)
  {
    assert g.high == Lengths(s.parts) by {
      forall p | 0 <= p < |s.parts| ensures g.high[p] == |s.parts[p]| {
        assert g.consumers[p].part == p;
      }
    }
  }

  lemma DrainedGroup(s: System, g: GroupState)
    requires Shaped(s) && GroupOrderly(s, g) && Balanced(g) && Drained(g, s.parts)
    ensures Orphaned(g) <==> Sum(Done(Everyone), g.wins) != LogTotal(Everyone, s.parts)
    ensures !Orphaned(g) ==> forall who :: Sum(Done(who), g.wins) == LogTotal(who, s.parts)
  {
    DrainedIsWhole(s, g, Everyone);
    Split(Everyone, g.wins);
    if Orphaned(g) {
      var w :| 0 <= w < |g.wins| && IsOrphan(g, w);
      LostIsPositive(g.wins, w);
    } else {
      forall w | 0 <= w < |g.wins| ensures g.wins[w].applied {
        assert !IsOrphan(g, w);
      }
      forall who ensures Sum(Done(who), g.wins) == LogTotal(who, s.parts) {
        DrainedIsWhole(s, g, who);
        Split(who, g.wins);
        NoneLost(who, g.wins);
      }
    }
  }

  lemma StartIsOrderly(route: string -> nat, partitions: nat)
    ensures SystemOrderly(Start(route, partitions, OneEach(partitions)))
  {
    var s := Start(route, partitions, OneEach(partitions));
    forall who { ZeroTotal(who, s.parts, s.counter.high, |s.parts|); }
    assert s.progress.high == s.counter.high;
  }

  lemma {:induction false} ZeroTotal(who: Who, parts: seq<seq<Record>>, upto: seq<nat>, n: nat)
    requires n <= |parts| && |upto| == |parts| && forall p | 0 <= p < |parts| :: upto[p] == 0
    ensures FirstTotal(who, parts, upto, n) == 0
  {
    if n > 0 { ZeroTotal(who, parts, upto, n - 1); }
  }

  /** counter:total is what the log is worth, each challenge counted once by its first
      record, if and only if in that group no crash, Redis error or lost reply came between a
      SETNX that stored its key and the increment it calls for: every other fault and every
      re-delivery is harmless. The same holds for the sum of the board. */
  lemma ExactIffNoneDropped(route: string -> nat, partitions: nat, steps: seq<Step>, delay: int)
    requires OrderlyRun(Start(route, partitions, OneEach(partitions)), steps, delay)
    ensures var s0 := Start(route, partitions, OneEach(partitions));
            var f := Final(s0, steps);
            && (Drained(f.counter, f.parts) ==>
                  ((f.counter.effects.Totals? && f.counter.effects.total == LogTotal(Everyone, f.parts))
                   <==> NoneDropped(s0, steps, Counter)))
            && (Drained(f.progress, f.parts) ==>
                  ((f.progress.effects.Board? && BoardTotal(f.progress.effects.scores) == LogTotal(Everyone, f.parts))
                   <==> NoneDropped(s0, steps, Progress)))
  {
    var s0 := Start(route, partitions, OneEach(partitions));
    var f := Final(s0, steps);
    StartIsOrderly(route, partitions);
    RunKeepsOrder(s0, steps, delay);
    RunOrphans(s0, steps, Counter);
    RunOrphans(s0, steps, Progress);
    KindsStay(s0, steps);
    if Drained(f.counter, f.parts) { DrainedGroup(f, f.counter); }
    if Drained(f.progress, f.parts) { DrainedGroup(f, f.progress); }
  }

  /** The two groups, which share nothing but the log, end up with the same clicks: the
      global counter equals the sum of the all-time board, and each user's score is what the
      user's own first records are worth. */
  lemma TwoGroupsAgree(route: string -> nat, partitions: nat, steps: seq<Step>, delay: int)
    requires var s0 := Start(route, partitions, OneEach(partitions));
             && OrderlyRun(s0, steps, delay)
             && NoneDropped(s0, steps, Counter) && NoneDropped(s0, steps, Progress)
             && Drained(Final(s0, steps).counter, Final(s0, steps).parts)
             && Drained(Final(s0, steps).progress, Final(s0, steps).parts)
    ensures var f := Final(Start(route, partitions, OneEach(partitions)), steps);
            && f.counter.effects.Totals? && f.progress.effects.Board?
            && f.counter.effects.total == BoardTotal(f.progress.effects.scores)
            && f.counter.effects.total == LogTotal(Everyone, f.parts)
            && (forall sub :: ScoreOf(f.progress.effects.scores, sub) == LogTotal(Only(sub), f.parts))
            && (forall c :: Claimed(f.counter.wins, c) <==> Claimed(f.progress.wins, c))
  {
    var s0 := Start(route, partitions, OneEach(partitions));
    var f := Final(s0, steps);
    StartIsOrderly(route, partitions);
    RunKeepsOrder(s0, steps, delay);
    RunOrphans(s0, steps, Counter);
    RunOrphans(s0, steps, Progress);
    KindsStay(s0, steps);
    DrainedGroup(f, f.counter);
    DrainedGroup(f, f.progress);
    forall c ensures Claimed(f.counter.wins, c) <==> Claimed(f.progress.wins, c) {
      ClaimedIffFirst(f, f.counter, c);
      ClaimedIffFirst(f, f.progress, c);
    }
  }

  ghost predicate Claimed(wins: seq<Win>, c: Click) {
    exists w :: 0 <= w < |wins| && wins[w].click == c
  }

  lemma FirstIsClaimed(s: System, g: GroupState, j: nat, c: Click)
    requires Shaped(s) && BoundLog(s) && GroupOrderly(s, g) && Drained(g, s.parts)
    requires s.route(c.sub) < |s.parts| && FirstRecordOf(s.parts[s.route(c.sub)], j, c)
    ensures Claimed(g.wins, c)
  {
    var p := s.route(c.sub);
    assert g.consumers[p].part == p && j < g.high[p];
    assert c.challengeId in g.seen;
    var w :| 0 <= w < |g.wins| && g.wins[w].click.challengeId == c.challengeId;
    var c' := g.wins[w].click;
    assert WinIsFirst(s, g, c');
    var j' :| 0 <= j' < g.high[s.route(c'.sub)] && FirstRecordOf(s.parts[s.route(c'.sub)], j', c');
    assert Bound(s, p, s.parts[p][j]);
    assert j == j';
  }

  lemma ClaimedIffFirst(s: System, g: GroupState, c: Click)
    requires Shaped(s) && BoundLog(s) && GroupOrderly(s, g) && Drained(g, s.parts)
    ensures Claimed(g.wins, c) <==>
      s.route(c.sub) < |s.parts| && exists j :: FirstRecordOf(s.parts[s.route(c.sub)], j, c)
  {
    if Claimed(g.wins, c) {
      var w :| 0 <= w < |g.wins| && g.wins[w].click == c;
      assert WinIsFirst(s, g, c);
    }
    if s.route(c.sub) < |s.parts| && exists j :: FirstRecordOf(s.parts[s.route(c.sub)], j, c) {
      var j :| FirstRecordOf(s.parts[s.route(c.sub)], j, c);
      FirstIsClaimed(s, g, j, c);
    }
  }
}
