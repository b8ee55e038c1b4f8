// What the totals are worth, over every run: any consumers, rebalances, processes that run on
// after an error and skip the rest of their batch. One answer to each challenge counts, and which
// one it is depends on what was skipped; when all answers to a challenge have one count, the
// totals are exact.

module EveryRun {
  import opened ClickEvent
  import opened Token
  import opened Pipeline
  import opened Conservation
  import opened Dedup
  import opened Agreement
  import opened Replay

  // ----- which challenges a group has got to -----

  /** A SETNX on an answer to the challenge that may store its key: a command of the group that
      was answered, or stored although its reply was lost. */
  predicate Reaches(s: System, step: Step, group: Group, id: string) {
    && step.Act? && step.group == group && Shaped(s) && CanStep(s, step) && Claims(step.action)
    && var c := GroupOf(s, group).consumers[step.k];
    && s.parts[c.part][c.next].Accepted? && s.parts[c.part][c.next].click.challengeId == id
  }

  ghost predicate Reached(s: System, steps: seq<Step>, group: Group, id: string)
    requires Shaped(s) && IsRun(s, steps)
    decreases |steps|
  {
    steps != [] &&
    (Reaches(s, steps[0], group, id)
     || (StepKeepsShape(s, steps[0]); Reached(Next(s, steps[0]), steps[1..], group, id)))
  }

  /** Wins are there for the challenges whose SETNX was reached. */
  lemma DoReaches(s: System, g: GroupState, k: nat, a: Action, id: string)
    requires WellFormed(g, s.parts) && Enabled(g, s.parts, k, a) && Remembers(s, g)
    ensures var c := g.consumers[k];
            HasWon(Do(g, s.parts, s.now, k, a).wins, id) <==>
              || HasWon(g.wins, id)
              || (Claims(a) && s.parts[c.part][c.next].Accepted? && s.parts[c.part][c.next].click.challengeId == id)
  {
    var g', c := Do(g, s.parts, s.now, k, a), g.consumers[k];
    OnlySeeClaims(g, s.parts, s.now, k, a);
    hide Pipeline.Do;
    if HasWon(g.wins, id) {
      WinsKeepWinning(g.wins, g'.wins, id);
    } else if Claims(a) && s.parts[c.part][c.next].Accepted? && s.parts[c.part][c.next].click.challengeId == id {
      assert id !in g.seen;
      assert g'.wins[|g.wins|].click.challengeId == id;
    }
  }

  lemma NextReaches(s: System, step: Step, group: Group, id: string)
    requires Shaped(s) && CanStep(s, step) && Remembers(s, GroupOf(s, group))
    ensures HasWon(GroupOf(Next(s, step), group).wins, id)
       <==> HasWon(GroupOf(s, group).wins, id) || Reaches(s, step, group, id)
  {
    hide Pipeline.Do, Pipeline.Enabled;
    if step.Act? && step.group == group {
      DoReaches(s, GroupOf(s, group), step.k, step.action, id);
    } else {
      assert GroupOf(Next(s, step), group).wins == GroupOf(s, group).wins;
    }
  }

  lemma {:induction false} RunReaches(s: System, steps: seq<Step>, delay: int, group: Group, id: string)
    requires Shaped(s) && PromptRun(s, steps, delay) && Guarded(s) && delay < 270 * SECOND
    ensures HasWon(GroupOf(Final(s, steps), group).wins, id)
       <==> HasWon(GroupOf(s, group).wins, id) || Reached(s, steps, group, id)
    decreases |steps|
  {
    hide Pipeline.Next, Pipeline.CanStep, Reaches, HasWon;
    if steps != [] {
      StepKeepsShape(s, steps[0]);
      NextKeepsGuarded(s, steps[0], delay);
      NextReaches(s, steps[0], group, id);
      RunReaches(Next(s, steps[0]), steps[1..], delay, group, id);
    }
  }

  // ----- what the applied wins are worth -----

  predicate Answered(parts: seq<seq<Record>>, id: string) {
    exists p, j :: && 0 <= p < |parts| && 0 <= j < |parts[p]|
                   && parts[p][j].Accepted? && parts[p][j].click.challengeId == id
  }

  /** The answered challenges, each with bounds for the counts of its answers. */
  ghost predicate AnswersBetween(least: map<string, nat>, most: map<string, nat>, parts: seq<seq<Record>>) {
    && least.Keys == most.Keys && (forall id :: id in most <==> Answered(parts, id))
    && forall p, j | 0 <= p < |parts| && 0 <= j < |parts[p]| && parts[p][j].Accepted? ::
         Between(least, most, parts[p][j].click)
  }

  predicate Between(least: map<string, nat>, most: map<string, nat>, c: Click) {
    c.challengeId in least && c.challengeId in most && least[c.challengeId] <= c.count <= most[c.challengeId]
  }

  /** Wins of answered challenges, each of at least one click. */
  ghost predicate AllBetween(least: map<string, nat>, most: map<string, nat>, wins: seq<Win>) {
    forall i | 0 <= i < |wins| :: Between(least, most, wins[i].click) && wins[i].click.count >= 1
  }

  /** The challenges whose clicks have been applied, of one user or of everybody. */
  function AppliedIds(who: Who, wins: seq<Win>): set<string> {
    if wins == [] then {}
    else
      var w := wins[|wins| - 1];
      AppliedIds(who, wins[..|wins| - 1])
      + if w.applied && (who.Everyone? || who.sub == w.click.sub) then {w.click.challengeId} else {}
  }

  lemma {:induction false} AppliedIdsHas(who: Who, wins: seq<Win>, id: string)
    ensures id in AppliedIds(who, wins) <==>
              exists i :: && 0 <= i < |wins| && wins[i].applied && wins[i].click.challengeId == id
                          && (who.Everyone? || who.sub == wins[i].click.sub)
  {
    if wins != [] {
      var front := wins[..|wins| - 1];
      AppliedIdsHas(who, front, id);
      if id in AppliedIds(who, front) {
        var i :| && 0 <= i < |front| && front[i].applied && front[i].click.challengeId == id
                 && (who.Everyone? || who.sub == front[i].click.sub);
        assert wins[i] == front[i];
      }
      if id in AppliedIds(who, wins) && id !in AppliedIds(who, front) {
        assert wins[|wins| - 1].applied && wins[|wins| - 1].click.challengeId == id;
      }
    }
  }

  lemma {:induction false} DoneBetween(who: Who, least: map<string, nat>, most: map<string, nat>, wins: seq<Win>)
    requires OncePerChallenge(wins) && AllBetween(least, most, wins)
    ensures AppliedIds(who, wins) <= least.Keys && AppliedIds(who, wins) <= most.Keys
    ensures ScoreSum(least, AppliedIds(who, wins)) <= Sum(Done(who), wins) <= ScoreSum(most, AppliedIds(who, wins))
  {
    if wins != [] {
      var front, w := wins[..|wins| - 1], wins[|wins| - 1];
      var id := w.click.challengeId;
      DoneBetween(who, least, most, front);
      assert Between(least, most, w.click);
      AppliedIdsHas(who, front, id);
      assert id !in AppliedIds(who, front);
      if w.applied && (who.Everyone? || who.sub == w.click.sub) {
        ScoreSumTake(least, AppliedIds(who, wins), id);
        ScoreSumTake(most, AppliedIds(who, wins), id);
        assert AppliedIds(who, wins) - {id} == AppliedIds(who, front);
      } else {
        assert AppliedIds(who, wins) == AppliedIds(who, front);
      }
    }
  }

  /** Some of the scores add up to less than all of them, unless they are all. */
  lemma {:induction false} PartIsLess(worth: map<string, nat>, some: set<string>, all: set<string>)
    requires some <= all <= worth.Keys && forall id | id in all :: worth[id] >= 1
    ensures ScoreSum(worth, some) <= ScoreSum(worth, all)
    ensures ScoreSum(worth, some) == ScoreSum(worth, all) <==> some == all
    decreases all
  {
    if some != all {
      var id :| id in all && id !in some;
      ScoreSumTake(worth, all, id);
      PartIsLess(worth, some, all - {id});
    }
  }

  // ----- exactly when everything is counted -----

  /** No consumer is between a won SETNX and its effect. */
  predicate NoneHeld(g: GroupState) {
    forall k | 0 <= k < |g.consumers| :: !g.consumers[k].stage.Won?
  }

  predicate AllApplied(wins: seq<Win>) {
    forall i | 0 <= i < |wins| :: wins[i].applied
  }

  lemma AppliedIff(g: GroupState)
    requires Tidy(g.wins, g.consumers)
    ensures AllApplied(g.wins) <==> !Orphaned(g) && NoneHeld(g)
  {
    if AllApplied(g.wins) {
      forall k | 0 <= k < |g.consumers| ensures !g.consumers[k].stage.Won? {
        assert HoldsWin(g.wins, g.consumers[k].stage);
      }
    } else {
      var w :| 0 <= w < |g.wins| && !g.wins[w].applied;
      if !Orphaned(g) { assert !IsOrphan(g, w); }
    }
  }

  lemma AllIdsIff(least: map<string, nat>, most: map<string, nat>, wins: seq<Win>)
    requires OncePerChallenge(wins) && AllBetween(least, most, wins)
    ensures AppliedIds(Everyone, wins) == most.Keys
       <==> AllApplied(wins) && forall id | id in most :: HasWon(wins, id)
  {
    var ids := AppliedIds(Everyone, wins);
    forall id ensures id in ids <==> exists i :: 0 <= i < |wins| && wins[i].applied && wins[i].click.challengeId == id {
      AppliedIdsHas(Everyone, wins, id);
    }
    DoneBetween(Everyone, least, most, wins);
    if ids == most.Keys {
      forall i | 0 <= i < |wins| ensures wins[i].applied {
        assert Between(least, most, wins[i].click);
        assert wins[i].click.challengeId in ids;
        var j :| 0 <= j < |wins| && wins[j].applied && wins[j].click.challengeId == wins[i].click.challengeId;
        assert i == j;
      }
    }
    if AllApplied(wins) && forall id | id in most :: HasWon(wins, id) {
      forall id | id in most ensures id in ids {
        assert HasWon(wins, id);
      }
      assert ids == most.Keys;
    }
  }

  /** Whether a sum lies between what the answered challenges are worth at least and at most, or, if
      not all are counted, below the most. */
  ghost predicate WorthAll(sum: nat, least: map<string, nat>, most: map<string, nat>, all: bool) {
    if all then BoardTotal(least) <= sum <= BoardTotal(most) else sum < BoardTotal(most)
  }

  /** What a group has applied is worth one answer to each answered challenge when each of them has
      won a SETNX and none of the wins was dropped or is still under way; else it falls short. */
  lemma GroupIsWorth(s: System, g: GroupState, least: map<string, nat>, most: map<string, nat>)
    requires BoundLog(s) && OncePerChallenge(g.wins) && WinsLogged(g.wins, s.parts)
    requires Tidy(g.wins, g.consumers) && AnswersBetween(least, most, s.parts)
    ensures WorthAll(Sum(Done(Everyone), g.wins), least, most,
                     !Orphaned(g) && NoneHeld(g) && forall id | id in most :: HasWon(g.wins, id))
    ensures AllBetween(least, most, g.wins)
  {
    hide Orphaned, NoneHeld, Tidy, AllApplied, BoundLog, WinsLogged, AnswersBetween, AllBetween;
    WinsAreBetween(s, g.wins, least, most);
    AnswersArePositive(s, least, most);
    AppliedIff(g);
    AllIdsIff(least, most, g.wins);
    DoneBetween(Everyone, least, most, g.wins);
    PartIsLess(most, AppliedIds(Everyone, g.wins), most.Keys);
    if AppliedIds(Everyone, g.wins) == most.Keys { SameKeys(s, least, most); }
  }

  lemma SameKeys(s: System, least: map<string, nat>, most: map<string, nat>)
    requires AnswersBetween(least, most, s.parts)
    ensures least.Keys == most.Keys
  {
  }

  lemma WinsAreBetween(s: System, wins: seq<Win>, least: map<string, nat>, most: map<string, nat>)
    requires BoundLog(s) && WinsLogged(wins, s.parts) && AnswersBetween(least, most, s.parts)
    ensures AllBetween(least, most, wins)
  {
    forall i | 0 <= i < |wins| ensures Between(least, most, wins[i].click) && wins[i].click.count >= 1 {
      WinIsBetween(s, least, most, wins[i].click);
    }
  }

  lemma AnswersArePositive(s: System, least: map<string, nat>, most: map<string, nat>)
    requires BoundLog(s) && AnswersBetween(least, most, s.parts)
    ensures forall id | id in most :: most[id] >= 1
  {
    forall id | id in most ensures most[id] >= 1 {
      var p, j :| && 0 <= p < |s.parts| && 0 <= j < |s.parts[p]|
                  && s.parts[p][j].Accepted? && s.parts[p][j].click.challengeId == id;
      assert Bound(s, p, s.parts[p][j]) && Between(least, most, s.parts[p][j].click);
    }
  }

  lemma WinIsBetween(s: System, least: map<string, nat>, most: map<string, nat>, c: Click)
    requires BoundLog(s) && Logged(s.parts, c) && AnswersBetween(least, most, s.parts)
    ensures Between(least, most, c) && c.count >= 1
  {
    var p, j :| 0 <= p < |s.parts| && 0 <= j < |s.parts[p]| && s.parts[p][j].Accepted? && s.parts[p][j].click == c;
    assert Bound(s, p, s.parts[p][j]);
  }

  /** Every answered challenge was reached, no claim was dropped and none is under way. */
  ghost predicate CountedAll(s0: System, steps: seq<Step>, group: Group, answered: set<string>)
    requires Shaped(s0) && IsRun(s0, steps)
  {
    && (forall id | id in answered :: Reached(s0, steps, group, id))
    && NoneDropped(s0, steps, group) && NoneHeld(GroupOf(Final(s0, steps), group))
  }

  lemma GroupCounts(route: string -> nat, partitions: nat, owners: seq<nat>, steps: seq<Step>, delay: int,
                    group: Group, least: map<string, nat>, most: map<string, nat>)
    requires Owns(owners, partitions) && delay < 270 * SECOND
    requires PromptRun(Start(route, partitions, owners), steps, delay)
    requires AnswersBetween(least, most, Final(Start(route, partitions, owners), steps).parts)
    ensures var s0 := Start(route, partitions, owners);
            var g := GroupOf(Final(s0, steps), group);
            && IsRun(s0, steps) && Balanced(g) && OncePerChallenge(g.wins) && AllBetween(least, most, g.wins)
            && WorthAll(Sum(Done(Everyone), g.wins), least, most, CountedAll(s0, steps, group, most.Keys))
            && (CountedAll(s0, steps, group, most.Keys) ==>
                  AllApplied(g.wins) && forall id | id in most :: HasWon(g.wins, id))
  {
    hide Pipeline.Start, Pipeline.Final, Conservation.Sum, Conservation.ScoreSum, Reached, NoneDropped, Orphaned;
    hide AnswersBetween, NoneHeld, BoundLog, Tidy, EffectsAre, WorthAll;
    var s0 := Start(route, partitions, owners);
    StartsEmpty(route, partitions, owners);
    StartsIdle(route, partitions, owners);
    PromptRunKeepsGuarded(s0, steps, delay);
    PromptIsRun(s0, steps, delay);
    RunKeepsLogged(s0, steps);
    RunKeepsBalance(s0, steps);
    RunOrphans(s0, steps, group);
    var f := Final(s0, steps);
    GroupIsWorth(f, GroupOf(f, group), least, most);
    AppliedIff(GroupOf(f, group));
    forall id ensures HasWon(GroupOf(f, group).wins, id) <==> Reached(s0, steps, group, id) {
      RunReaches(s0, steps, delay, group, id);
    }
  }

  lemma StartsIdle(route: string -> nat, partitions: nat, owners: seq<nat>)
    requires Owns(owners, partitions)
    ensures var s0 := Start(route, partitions, owners);
            && Balanced(s0.counter) && Balanced(s0.progress) && s0.counter.wins == s0.progress.wins == []
            && !Orphaned(s0.counter) && !Orphaned(s0.progress)
  {
  }

  /** In every run with deliveries delayed by less than 270 s: when each answered challenge was
      reached by a SETNX of the group, no crash, error or lost reply came between such a SETNX and
      its effect, and none is under way, counter:total lies between the sums of the least and of
      the largest answers; else it is less than the latter. The same holds for the sum of the
      board, and in the first case for each user's score. */
  lemma CountedIsWorth(route: string -> nat, partitions: nat, owners: seq<nat>, steps: seq<Step>, delay: int,
                       least: map<string, nat>, most: map<string, nat>)
    requires Owns(owners, partitions) && delay < 270 * SECOND
    requires PromptRun(Start(route, partitions, owners), steps, delay)
    requires AnswersBetween(least, most, Final(Start(route, partitions, owners), steps).parts)
    ensures var s0 := Start(route, partitions, owners);
            var f := Final(s0, steps);
            && f.counter.effects.Totals? && f.progress.effects.Board?
            && WorthAll(f.counter.effects.total, least, most, CountedAll(s0, steps, Counter, most.Keys))
            && WorthAll(BoardTotal(f.progress.effects.scores), least, most, CountedAll(s0, steps, Progress, most.Keys))
            && (CountedAll(s0, steps, Progress, most.Keys) ==>
                  forall sub ::
                    var ids := IssuedOf(f, most.Keys, sub);
                    ids <= least.Keys && ids <= most.Keys
                    && ScoreSum(least, ids) <= ScoreOf(f.progress.effects.scores, sub) <= ScoreSum(most, ids))
  {
    hide Pipeline.Start, Pipeline.Final, Conservation.Sum, Conservation.ScoreSum, CountedAll, AnswersBetween, WorthAll;
    var s0 := Start(route, partitions, owners);
    var f := Final(s0, steps);
    GroupCounts(route, partitions, owners, steps, delay, Counter, least, most);
    GroupCounts(route, partitions, owners, steps, delay, Progress, least, most);
    StartsEmpty(route, partitions, owners);
    StartKinds(route, partitions, owners);
    KindsStay(s0, steps);
    if CountedAll(s0, steps, Progress, most.Keys) {
      RunKeepsLogged(s0, steps);
      PromptRunKeepsGuarded(s0, steps, delay);
      forall sub ensures var ids := IssuedOf(f, most.Keys, sub);
                         && ids <= least.Keys && ids <= most.Keys
                         && ScoreSum(least, ids) <= Sum(Done(Only(sub)), f.progress.wins) <= ScoreSum(most, ids)
      {
        UserIsWorth(f, f.progress, least, most, sub);
      }
    }
  }

  /** So when the answers to each challenge have one count, counter:total is exact if and only if every
      answered challenge is counted; the same for the sum of the board, and then for each user's score. */
  lemma ExactIffAllCounted(route: string -> nat, partitions: nat, owners: seq<nat>, steps: seq<Step>, delay: int,
                           worth: map<string, nat>)
    requires Owns(owners, partitions) && delay < 270 * SECOND
    requires PromptRun(Start(route, partitions, owners), steps, delay)
    requires AnswersBetween(worth, worth, Final(Start(route, partitions, owners), steps).parts)
    ensures var s0 := Start(route, partitions, owners);
            var f := Final(s0, steps);
            && f.counter.effects.Totals? && f.progress.effects.Board?
            && (f.counter.effects.total == BoardTotal(worth) <==> CountedAll(s0, steps, Counter, worth.Keys))
            && (BoardTotal(f.progress.effects.scores) == BoardTotal(worth)
                <==> CountedAll(s0, steps, Progress, worth.Keys))
            && (CountedAll(s0, steps, Progress, worth.Keys) ==>
                  forall sub ::
                    IssuedOf(f, worth.Keys, sub) <= worth.Keys
                    && ScoreOf(f.progress.effects.scores, sub) == ScoreSum(worth, IssuedOf(f, worth.Keys, sub)))
  {
    hide Pipeline.Start, Pipeline.Final, Conservation.Sum, Conservation.ScoreSum, CountedAll, AnswersBetween;
    CountedIsWorth(route, partitions, owners, steps, delay, worth, worth);
  }

  lemma StartKinds(route: string -> nat, partitions: nat, owners: seq<nat>)
    requires Owns(owners, partitions)
    ensures Start(route, partitions, owners).counter.effects.Totals?
    ensures Start(route, partitions, owners).progress.effects.Board?
  {
  }

  /** The answered challenges that were issued to a user. */
  function IssuedOf(s: System, answered: set<string>, sub: string): set<string> {
    set id | id in answered && id in s.issued && s.issued[id].sub == sub
  }

  lemma UserIsWorth(s: System, g: GroupState, least: map<string, nat>, most: map<string, nat>, sub: string)
    requires BoundLog(s) && OncePerChallenge(g.wins) && WinsLogged(g.wins, s.parts) && AllBetween(least, most, g.wins)
    requires AllApplied(g.wins) && forall id | id in most :: HasWon(g.wins, id)
    ensures var ids := IssuedOf(s, most.Keys, sub);
            && ids <= least.Keys && ids <= most.Keys
            && ScoreSum(least, ids) <= Sum(Done(Only(sub)), g.wins) <= ScoreSum(most, ids)
  {
    DoneBetween(Only(sub), least, most, g.wins);
    forall id ensures id in AppliedIds(Only(sub), g.wins) <==> id in IssuedOf(s, most.Keys, sub) {
      UserHas(s, g, least, most, sub, id);
    }
    assert AppliedIds(Only(sub), g.wins) == IssuedOf(s, most.Keys, sub);
  }

  lemma UserHas(s: System, g: GroupState, least: map<string, nat>, most: map<string, nat>, sub: string, id: string)
    requires BoundLog(s) && WinsLogged(g.wins, s.parts) && AllBetween(least, most, g.wins)
    requires AllApplied(g.wins) && forall other | other in most :: HasWon(g.wins, other)
    ensures id in AppliedIds(Only(sub), g.wins) <==> id in IssuedOf(s, most.Keys, sub)
  {
    AppliedIdsHas(Only(sub), g.wins, id);
    forall i | 0 <= i < |g.wins|
      ensures var c := g.wins[i].click;
              c.challengeId in s.issued && c.sub == s.issued[c.challengeId].sub && c.challengeId in most
    {
      assert Between(least, most, g.wins[i].click) && Logged(s.parts, g.wins[i].click);
      var p, j :| && 0 <= p < |s.parts| && 0 <= j < |s.parts[p]| && s.parts[p][j].Accepted?
                  && s.parts[p][j].click == g.wins[i].click;
      assert Bound(s, p, s.parts[p][j]);
    }
    if id in IssuedOf(s, most.Keys, sub) {
      assert HasWon(g.wins, id);
    }
  }
}
