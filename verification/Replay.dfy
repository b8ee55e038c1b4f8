// What a challenge can be worth, however often it is answered and delivered. An answer is
// accepted as often as it is sent while its token is valid, and only the seen keys of the two
// groups keep the copies from counting.

module Replay {
  import opened ClickEvent
  import opened Token
  import opened Pipeline
  import opened Conservation
  import opened Dedup

  // ----- every win comes from the log -----

  predicate Logged(parts: seq<seq<Record>>, c: Click) {
    exists p, j :: 0 <= p < |parts| && 0 <= j < |parts[p]| && parts[p][j].Accepted? && parts[p][j].click == c
  }

  ghost predicate WinsLogged(wins: seq<Win>, parts: seq<seq<Record>>) {
    forall i | 0 <= i < |wins| :: Logged(parts, wins[i].click)
  }

  lemma DoKeepsLogged(g: GroupState, parts: seq<seq<Record>>, now: int, k: nat, a: Action)
    requires WellFormed(g, parts) && Enabled(g, parts, k, a) && WinsLogged(g.wins, parts)
    ensures WinsLogged(Do(g, parts, now, k, a).wins, parts)
  {
    OnlySeeClaims(g, parts, now, k, a);
  }

  /** Records stay where they are. */
  lemma GrowthKeepsLogged(wins: seq<Win>, parts: seq<seq<Record>>, p: nat, r: Record)
    requires p < |parts| && WinsLogged(wins, parts)
    ensures WinsLogged(wins, Append(parts, p, r))
  {
    var parts' := Append(parts, p, r);
    forall i | 0 <= i < |wins| ensures Logged(parts', wins[i].click) {
      var q, j :| && 0 <= q < |parts| && 0 <= j < |parts[q]|
                  && parts[q][j].Accepted? && parts[q][j].click == wins[i].click;
      assert parts'[q][j] == parts[q][j];
    }
  }

  lemma {:induction false} RunKeepsLogged(s: System, steps: seq<Step>)
    requires Shaped(s) && IsRun(s, steps)
    requires WinsLogged(s.counter.wins, s.parts) && WinsLogged(s.progress.wins, s.parts)
    ensures var f := Final(s, steps); WinsLogged(f.counter.wins, f.parts) && WinsLogged(f.progress.wins, f.parts)
    decreases |steps|
  {
    hide Pipeline.Do, Pipeline.Enabled, WinsLogged;
    if steps != [] {
      StepKeepsShape(s, steps[0]);
      match steps[0] {
        case Act(group, k, a) => DoKeepsLogged(GroupOf(s, group), s.parts, s.now, k, a);
        case Accept(id, sub, count, name, at) =>
          var r := Accepted(Click(sub, count, id, at / SECOND, name), at);
          GrowthKeepsLogged(s.counter.wins, s.parts, s.route(sub), r);
          GrowthKeepsLogged(s.progress.wins, s.parts, s.route(sub), r);
        case Garble(p) =>
          GrowthKeepsLogged(s.counter.wins, s.parts, p, Malformed);
          GrowthKeepsLogged(s.progress.wins, s.parts, p, Malformed);
        case _ =>
      }
      RunKeepsLogged(Next(s, steps[0]), steps[1..]);
    }
  }

  // ----- one batch for each challenge -----

  /** No answer to a challenge that the log accepted is for more clicks than the challenge is
      worth. */
  ghost predicate Bounds(worth: map<string, nat>, s: System) {
    && worth.Keys == s.issued.Keys
    && forall p, j | 0 <= p < |s.parts| && 0 <= j < |s.parts[p]| && s.parts[p][j].Accepted? ::
         var c := s.parts[p][j].click;
         c.challengeId in worth ==> c.count <= worth[c.challengeId]
  }

  /** The challenges issued to one user or to everybody. */
  function IssuedTo(s: System, who: Who): set<string> {
    set id | id in s.issued && (who.Everyone? || s.issued[id].sub == who.sub)
  }

  /** A win answers a challenge of the set, for no more than its worth, or is nothing to `who`. */
  ghost predicate Answers(who: Who, worth: map<string, nat>, ids: set<string>, w: Win) {
    var c := w.click;
    Clicks(who, c) > 0 ==> c.challengeId in ids && c.challengeId in worth && c.count <= worth[c.challengeId]
  }

  /** Wins of different challenges are worth at most those challenges. */
  lemma {:induction false} WinsBounded(who: Who, worth: map<string, nat>, ids: set<string>, wins: seq<Win>)
    requires ids <= worth.Keys && OncePerChallenge(wins)
    requires forall i | 0 <= i < |wins| :: Answers(who, worth, ids, wins[i])
    ensures Sum(All(who), wins) <= ScoreSum(worth, ids)
    decreases |wins|
  {
    if wins != [] {
      var front, id := wins[..|wins| - 1], wins[|wins| - 1].click.challengeId;
      assert Answers(who, worth, ids, wins[|wins| - 1]);
      if Clicks(who, wins[|wins| - 1].click) > 0 {
        ScoreSumTake(worth, ids, id);
        forall i | 0 <= i < |front| ensures Answers(who, worth, ids - {id}, front[i]) {
          assert Answers(who, worth, ids, wins[i]);
          assert wins[i].click.challengeId != id;
        }
        WinsBounded(who, worth, ids - {id}, front);
      } else {
        forall i | 0 <= i < |front| ensures Answers(who, worth, ids, front[i]) {
          assert Answers(who, worth, ids, wins[i]);
        }
        WinsBounded(who, worth, ids, front);
      }
    }
  }

  lemma GuardedWinsAnswer(s: System, wins: seq<Win>, who: Who, worth: map<string, nat>)
    requires BoundLog(s) && WinsLogged(wins, s.parts) && Bounds(worth, s)
    ensures forall i | 0 <= i < |wins| :: Answers(who, worth, IssuedTo(s, who), wins[i])
  {
    forall i | 0 <= i < |wins| ensures Answers(who, worth, IssuedTo(s, who), wins[i]) {
      assert Logged(s.parts, wins[i].click);
      var p, j :| && 0 <= p < |s.parts| && 0 <= j < |s.parts[p]| && s.parts[p][j].Accepted?
                  && s.parts[p][j].click == wins[i].click;
      assert Bound(s, p, s.parts[p][j]);
    }
  }

  /** counter:total, the sum of the board and each user's score are at most one answer for each
      challenge issued, and for the user's score, for each one issued to the user. */
  ghost predicate PaidOnce(f: System) {
    forall worth | Bounds(worth, f) ::
      && f.counter.effects.Totals? && f.counter.effects.total <= ScoreSum(worth, worth.Keys)
      && f.progress.effects.Board? && BoardTotal(f.progress.effects.scores) <= ScoreSum(worth, worth.Keys)
      && forall sub :: ScoreOf(f.progress.effects.scores, sub) <= ScoreSum(worth, IssuedTo(f, Only(sub)))
  }

  lemma PromptRunPaysOnce(route: string -> nat, partitions: nat, owners: seq<nat>, steps: seq<Step>, delay: int)
    requires Owns(owners, partitions) && delay < 270 * SECOND
    requires PromptRun(Start(route, partitions, owners), steps, delay)
    ensures PaidOnce(Final(Start(route, partitions, owners), steps))
  {
    hide Pipeline.Start, Pipeline.Final, Conservation.Sum, Conservation.ScoreSum;
    var s0 := Start(route, partitions, owners);
    StartsEmpty(route, partitions, owners);
    PromptRunKeepsGuarded(s0, steps, delay);
    PromptIsRun(s0, steps, delay);
    RunKeepsLogged(s0, steps);
    Conservation.Conservation(s0, steps, route, partitions, owners);
    var f := Final(s0, steps);
    forall worth | Bounds(worth, f)
      ensures && f.counter.effects.total <= ScoreSum(worth, worth.Keys)
              && BoardTotal(f.progress.effects.scores) <= ScoreSum(worth, worth.Keys)
              && forall sub :: ScoreOf(f.progress.effects.scores, sub) <= ScoreSum(worth, IssuedTo(f, Only(sub)))
    {
      assert IssuedTo(f, Everyone) == worth.Keys;
      GroupPaysOnce(f, f.counter.wins, Everyone, worth);
      GroupPaysOnce(f, f.progress.wins, Everyone, worth);
      forall sub ensures Sum(All(Only(sub)), f.progress.wins) <= ScoreSum(worth, IssuedTo(f, Only(sub))) {
        GroupPaysOnce(f, f.progress.wins, Only(sub), worth);
      }
    }
  }

  lemma GroupPaysOnce(f: System, wins: seq<Win>, who: Who, worth: map<string, nat>)
    requires BoundLog(f) && OncePerChallenge(wins) && WinsLogged(wins, f.parts) && Bounds(worth, f)
    ensures IssuedTo(f, who) <= worth.Keys && Sum(All(who), wins) <= ScoreSum(worth, IssuedTo(f, who))
  {
    GuardedWinsAnswer(f, wins, who, worth);
    WinsBounded(who, worth, IssuedTo(f, who), wins);
  }

  lemma StartsEmpty(route: string -> nat, partitions: nat, owners: seq<nat>)
    requires Owns(owners, partitions)
    ensures var s0 := Start(route, partitions, owners);
            && Guarded(s0) && WinsLogged(s0.counter.wins, s0.parts) && WinsLogged(s0.progress.wins, s0.parts)
  {
  }

  lemma PromptIsRun(s: System, steps: seq<Step>, delay: int)
    requires Shaped(s) && PromptRun(s, steps, delay)
    ensures IsRun(s, steps)
  {
  }

  /** The late run pays its one challenge of one click twice. */
  lemma LatePaysTwice(delay: nat)
    requires 270 * SECOND <= delay
    ensures var s0 := Start(ROUTE0, 1, [0]);
            PromptRun(s0, LateRun(delay), delay) && !PaidOnce(Final(s0, LateRun(delay)))
  {
    hide Pipeline.Start, Pipeline.Final, Dedup.LateRun;
    LateDelivery(delay);
    var f := Final(Start(ROUTE0, 1, [0]), LateRun(delay));
    var worth: map<string, nat> := map["c" := 1];
    assert Bounds(worth, f);
    ScoreSumTake(worth, {"c"}, "c");
    assert worth.Keys == {"c"} && worth.Keys - {"c"} == {};
    assert ScoreSum(worth, worth.Keys) == 1;
  }

  /** No challenge pays for more than one of its answers, in any run of any number of consumers,
      crashes, errors and re-deliveries, exactly when deliveries are delayed by less than 270 s. */
  lemma PaidOnceIffPrompt(delay: nat)
    ensures delay < 270 * SECOND <==>
      forall partitions: nat, owners: seq<nat>, route: string -> nat, steps: seq<Step> ::
        Owns(owners, partitions) && PromptRun(Start(route, partitions, owners), steps, delay) ==>
          PaidOnce(Final(Start(route, partitions, owners), steps))
  {
    hide PaidOnce, Dedup.LateRun;
    if delay < 270 * SECOND {
      forall partitions: nat, owners: seq<nat>, route: string -> nat, steps: seq<Step> |
        Owns(owners, partitions) && PromptRun(Start(route, partitions, owners), steps, delay)
        ensures PaidOnce(Final(Start(route, partitions, owners), steps))
      {
        PromptRunPaysOnce(route, partitions, owners, steps, delay);
      }
    } else {
      LatePaysTwice(delay);
    }
  }
}
