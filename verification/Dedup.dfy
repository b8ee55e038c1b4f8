// How long may a delivery be delayed before the seen keys stop guarding it? Answer: exactly
// less than 270 s. Acceptances of one challenge span at most 300 s + 30 s from its issue, and
// the key written by the first SETNX lives for 600 s.

module Dedup {
  import opened ClickEvent
  import opened Token
  import opened Idem
  import opened Pipeline
  import opened Conservation

  /** Every SETNX on a record, re-deliveries included, happens within `delay` of the
      acceptance of that record. */
  ghost predicate Prompt(s: System, step: Step, delay: int)
    requires Shaped(s)
  {
    match step
    case Act(group, k, a) =>
      Enabled(GroupOf(s, group), s.parts, k, a) && (a.See? || a.SeeFault?) ==>
        var c := GroupOf(s, group).consumers[k];
        var r := s.parts[c.part][c.next];
        r.Accepted? ==> s.now <= r.at + delay
    case _ => true
  }

  ghost predicate PromptRun(s: System, steps: seq<Step>, delay: int)
    requires Shaped(s)
    decreases |steps|
  {
    IsRun(s, steps) &&
    (steps != [] ==>
      Prompt(s, steps[0], delay) &&
      (StepKeepsShape(s, steps[0]); PromptRun(Next(s, steps[0]), steps[1..], delay)))
  }

  /** No challenge has won a group's SETNX twice, so none is applied twice. */
  ghost predicate OncePerChallenge(wins: seq<Win>) {
    forall i, j | 0 <= i < j < |wins| :: wins[i].click.challengeId != wins[j].click.challengeId
  }

  // ----- what every step of a prompt run keeps -----

  /** A record is on the partition of its user, answers an issued challenge of that user, and
      was accepted while the challenge could be verified. */
  ghost predicate Bound(s: System, p: nat, r: Record) {
    r.Accepted? ==>
      && r.click.challengeId in s.issued
      && var ch := s.issued[r.click.challengeId];
      && r.click.sub == ch.sub != ""
      && p == s.route(r.click.sub)
      && ch.iat <= r.at <= ch.iat + TOKEN_TTL + EXP_LEEWAY
      && r.at <= s.now
      && 1 <= r.click.count <= MAX_BATCH
  }

  ghost predicate BoundLog(s: System) {
    && (forall id | id in s.issued ::
          s.issued[id].iat <= s.now && s.issued[id].exp == (s.issued[id].iat + TOKEN_TTL) / SECOND)
    && (forall p, i | 0 <= p < |s.parts| && 0 <= i < |s.parts[p]| :: Bound(s, p, s.parts[p][i]))
  }

  /** A group remembers each won challenge, once, until 600 s after its issue at least. */
  ghost predicate Remembers(s: System, g: GroupState) {
    && OncePerChallenge(g.wins)
    && (forall i | 0 <= i < |g.wins| :: g.wins[i].click.challengeId in g.seen && 1 <= g.wins[i].click.count)
    && (forall id | id in g.seen :: id in s.issued && s.issued[id].iat + SEEN_TTL <= g.seen[id])
    && (forall id | id in g.seen :: HasWon(g.wins, id))
  }

  ghost predicate HasWon(wins: seq<Win>, id: string) {
    exists i :: 0 <= i < |wins| && wins[i].click.challengeId == id
  }

  ghost predicate Guarded(s: System) {
    BoundLog(s) && Remembers(s, s.counter) && Remembers(s, s.progress)
  }

  /** A prompt SETNX finds the key of a challenge that has already won. */
  lemma SeenIsLive(s: System, g: GroupState, p: nat, i: nat, delay: int)
    requires BoundLog(s) && Remembers(s, g) && p < |s.parts| && i < |s.parts[p]| && delay < 270 * SECOND
    requires s.parts[p][i].Accepted? && s.now <= s.parts[p][i].at + delay
    ensures s.parts[p][i].click.challengeId in g.seen ==> Live(g.seen, s.parts[p][i].click.challengeId, s.now)
  {
    assert Bound(s, p, s.parts[p][i]);
  }

  lemma StoreRemembers(s: System, g: GroupState, p: nat, i: nat, delay: int)
    requires BoundLog(s) && Remembers(s, g) && p < |s.parts| && i < |s.parts[p]| && delay < 270 * SECOND
    requires s.parts[p][i].Accepted? && s.now <= s.parts[p][i].at + delay
    ensures Remembers(s, Store(g, s.parts[p][i].click, s.now))
  {
    assert Bound(s, p, s.parts[p][i]);
    SeenIsLive(s, g, p, i, delay);
    var click := s.parts[p][i].click;
    var g' := Store(g, click, s.now);
    if !Live(g.seen, click.challengeId, s.now) {
      assert click.challengeId !in g.seen;
      assert g'.wins[|g.wins|].click == click;
      forall id | id in g'.seen ensures HasWon(g'.wins, id) {
        if id != click.challengeId { WinsKeepWinning(g.wins, g'.wins, id); }
      }
    }
  }

  lemma WinsKeepWinning(a: seq<Win>, b: seq<Win>, id: string)
    requires HasWon(a, id) && |a| <= |b| && forall i | 0 <= i < |a| :: b[i].click == a[i].click
    ensures HasWon(b, id)
  {
    var i :| 0 <= i < |a| && a[i].click.challengeId == id;
    assert b[i].click.challengeId == id;
  }

  /** Remembers looks at nothing of a win but its click. */
  lemma MarkRemembers(s: System, g: GroupState, g': GroupState)
    requires Remembers(s, g) && g'.seen == g.seen && |g'.wins| == |g.wins|
    requires forall i | 0 <= i < |g.wins| :: g'.wins[i].click == g.wins[i].click
    ensures Remembers(s, g')
  {
    forall id | id in g'.seen ensures HasWon(g'.wins, id) {
      WinsKeepWinning(g.wins, g'.wins, id);
    }
  }

  /** Only a SETNX touches the seen keys or makes a win. */
  lemma OnlySeeClaims(g: GroupState, parts: seq<seq<Record>>, now: int, k: nat, a: Action)
    requires WellFormed(g, parts) && Enabled(g, parts, k, a)
    ensures var g' := Do(g, parts, now, k, a);
            var c := g.consumers[k];
            var base := if (a.See? || (a.SeeFault? && a.stored)) && parts[c.part][c.next].Accepted?
                        then Store(g, parts[c.part][c.next].click, now) else g;
            && g'.seen == base.seen && |g'.wins| == |base.wins|
            && forall i | 0 <= i < |base.wins| :: g'.wins[i].click == base.wins[i].click
  {
  }

  lemma DoRemembers(s: System, g: GroupState, k: nat, a: Action, delay: int)
    requires WellFormed(g, s.parts) && Enabled(g, s.parts, k, a) && delay < 270 * SECOND
    requires BoundLog(s) && Remembers(s, g)
    requires a.See? || a.SeeFault? ==>
      var c := g.consumers[k];
      s.parts[c.part][c.next].Accepted? ==> s.now <= s.parts[c.part][c.next].at + delay
    ensures Remembers(s, Do(g, s.parts, s.now, k, a))
  {
    var c, g' := g.consumers[k], Do(g, s.parts, s.now, k, a);
    OnlySeeClaims(g, s.parts, s.now, k, a);
    if (a.See? || (a.SeeFault? && a.stored)) && s.parts[c.part][c.next].Accepted? {
      StoreRemembers(s, g, c.part, c.next, delay);
      MarkRemembers(s, Store(g, s.parts[c.part][c.next].click, s.now), g');
    } else {
      MarkRemembers(s, g, g');
    }
  }

  lemma NextKeepsBoundLog(s: System, step: Step)
    requires Shaped(s) && CanStep(s, step) && BoundLog(s)
    ensures BoundLog(Next(s, step))
  {
    var s' := Next(s, step);
    forall p, i | 0 <= p < |s'.parts| && 0 <= i < |s'.parts[p]|
      ensures Bound(s', p, s'.parts[p][i])
    {
      if i < |s.parts[p]| {
        assert Bound(s, p, s.parts[p][i]);
      }
    }
  }

  /** Issuing more challenges takes nothing away. */
  lemma StillRemembers(s: System, s': System, g: GroupState)
    requires Remembers(s, g) && forall id | id in s.issued :: id in s'.issued && s'.issued[id] == s.issued[id]
    ensures Remembers(s', g)
  {
  }

  lemma NextKeepsGuarded(s: System, step: Step, delay: int)
    requires Shaped(s) && CanStep(s, step) && Guarded(s) && Prompt(s, step, delay) && delay < 270 * SECOND
    ensures Guarded(Next(s, step))
  {
    var s' := Next(s, step);
    NextKeepsBoundLog(s, step);
    StillRemembers(s, s', s.counter);
    StillRemembers(s, s', s.progress);
    if step.Act? {
      var g := GroupOf(s, step.group);
      DoRemembers(s, g, step.k, step.action, delay);
      StillRemembers(s, s', Do(g, s.parts, s.now, step.k, step.action));
    }
  }

  lemma {:induction false} PromptRunKeepsGuarded(s: System, steps: seq<Step>, delay: int)
    requires Shaped(s) && PromptRun(s, steps, delay) && Guarded(s) && delay < 270 * SECOND
    ensures Guarded(Final(s, steps))
    decreases |steps|
  {
    if steps != [] {
      StepKeepsShape(s, steps[0]);
      NextKeepsGuarded(s, steps[0], delay);
      PromptRunKeepsGuarded(Next(s, steps[0]), steps[1..], delay);
    }
  }

  // ----- the bound is tight -----

  const ROUTE0: string -> nat := (_: string) => 0

  /** One challenge, accepted when issued and again 330 s later; the second record is
      delivered `delay` after its acceptance. */
  function LateRun(delay: nat): seq<Step> {
    var act := (a: Action) => Act(Counter, 0, a);
    [Step.Issue("c", "u"), Accept("c", "u", 1, "n", 0),
     act(Poll(1)), act(See), act(Apply), act(Tally), act(Commit),
     Tick(330 * SECOND), Accept("c", "u", 1, "n", 330 * SECOND),
     Tick(delay), act(Poll(1)), act(See), act(Apply)]
  }

  ghost predicate IsHop(s: System, step: Step, s': System, delay: int) {
    Shaped(s) && CanStep(s, step) && Prompt(s, step, delay) && Next(s, step) == s'
  }

  /** A chain of states that follow from each other is a run. */
  lemma {:induction false} HopsAreRun(states: seq<System>, steps: seq<Step>, delay: int)
    requires |states| == |steps| + 1 && Shaped(states[0])
    requires forall n | 0 <= n < |steps| :: IsHop(states[n], steps[n], states[n + 1], delay)
    ensures PromptRun(states[0], steps, delay) && Final(states[0], steps) == states[|steps|]
    decreases |steps|
  {
    if steps != [] {
      assert IsHop(states[0], steps[0], states[1], delay);
      StepKeepsShape(states[0], steps[0]);
      forall n | 0 <= n < |steps[1..]| ensures IsHop(states[1..][n], steps[1..][n], states[1..][n + 1], delay) {
        assert IsHop(states[n + 1], steps[n + 1], states[n + 2], delay);
      }
      HopsAreRun(states[1..], steps[1..], delay);
    }
  }

  const EARLY := Accepted(Click("u", 1, "c", 0, "n"), 0)
  const LATE := Accepted(Click("u", 1, "c", 330, "n"), 330 * SECOND)

  /** A system with one partition and one consumer of the counter group. */
  function Sys(now: int, issued: map<string, Challenge>, recs: seq<Record>, seen: Seen, effects: Effects,
               committed: nat, c: Consumer, wins: seq<Win>, high: nat): System
  {
    System(now, ROUTE0, issued, [recs], GroupState(seen, effects, [committed], [c], wins, [high]),
           StartGroup(Board(map[]), 1, [0]))
  }

  /** The state of LateRun before its step n; the last one is after the whole run. */
  function Snap(n: nat, delay: nat): System
    requires n <= 13
  {
    var issued := if n == 0 then map[] else map["c" := Challenge("u", 0, 300)];
    var recs := if n < 2 then [] else if n < 9 then [EARLY] else [EARLY, LATE];
    var now := if n < 8 then 0 else if n < 10 then 330 * SECOND else 330 * SECOND + delay;
    var seen := if n < 4 then map[] else if n < 12 then map["c" := 600 * SECOND] else map["c" := 930 * SECOND + delay];
    var effects := Totals(if n < 5 then 0 else if n < 13 then 1 else 2, if n < 6 then 0 else 1);
    var win := Win(EARLY.click, n >= 5, n >= 6);
    var wins := if n < 4 then [] else if n < 12 then [win] else [win, Win(LATE.click, n >= 13, false)];
    var c := if n < 3 then Consumer(0, 0, 0, true, Ready)
             else if n < 6 then Consumer(0, 0, 1, true, if n == 3 then Ready else if n == 4 then Won(0) else Counted(0))
             else if n < 11 then Consumer(0, 1, 1, true, Ready)
             else Consumer(0, 1, 2, true, if n == 11 then Ready else if n == 12 then Won(1) else Counted(1));
    Sys(now, issued, recs, seen, effects, if n < 7 then 0 else 1, c, wins,
        if n < 4 then 0 else if n < 12 then 1 else 2)
  }

  /** Step n of LateRun is possible and prompt in Snap(n), and leads to Snap(n + 1). */
  ghost predicate Hops(n: nat, delay: nat)
    requires n < 13
  {
    IsHop(Snap(n, delay), LateRun(delay)[n], Snap(n + 1, delay), delay)
  }

  lemma StartIsSnap(delay: nat)
    ensures Start(ROUTE0, 1, [0]) == Snap(0, delay)
  {
    assert Start(ROUTE0, 1, [0]).counter == Snap(0, delay).counter;
  }

  lemma HopToIssue(n: nat, delay: nat)
    requires n == 0 && 270 * SECOND <= delay
    ensures Hops(n, delay)
  {
  }

  lemma HopToLog(n: nat, delay: nat)
    requires n == 1 && 270 * SECOND <= delay
    ensures Hops(n, delay)
  {
    assert Snap(n, delay).parts[0] + [EARLY] == Snap(n + 1, delay).parts[0];
  }

  lemma HopToPoll(n: nat, delay: nat)
    requires n == 2 && 270 * SECOND <= delay
    ensures Hops(n, delay)
  {
  }

  lemma HopToWin(n: nat, delay: nat)
    requires n == 3 && 270 * SECOND <= delay
    ensures Hops(n, delay)
  {
  }

  lemma HopToTally(n: nat, delay: nat)
    requires 4 <= n < 6 && 270 * SECOND <= delay
    ensures Hops(n, delay)
  {
  }

  lemma HopToCommit(n: nat, delay: nat)
    requires 6 <= n < 8 && 270 * SECOND <= delay
    ensures Hops(n, delay)
  {
  }

  lemma HopToSecond(n: nat, delay: nat)
    requires 8 <= n < 10 && 270 * SECOND <= delay
    ensures Hops(n, delay)
  {
    if n == 8 {
      assert Snap(n, delay).parts[0] + [LATE] == Snap(n + 1, delay).parts[0];
    }
  }

  lemma HopToSecondWin(n: nat, delay: nat)
    requires 10 <= n < 12 && 270 * SECOND <= delay
    ensures Hops(n, delay)
  {
  }

  lemma HopToSecondCount(n: nat, delay: nat)
    requires n == 12 && 270 * SECOND <= delay
    ensures Hops(n, delay)
  {
  }

  /** One challenge for one click: its second record wins the SETNX again, and counter:total
      comes to 2. */
  lemma LateDelivery(delay: nat)
    requires 270 * SECOND <= delay
    ensures var s0 := Start(ROUTE0, 1, [0]);
            && PromptRun(s0, LateRun(delay), delay)
            && var f := Final(s0, LateRun(delay));
            && !OncePerChallenge(f.counter.wins) && f.counter.effects == Totals(2, 1)
            && f.issued.Keys == {"c"} && f.parts == [[EARLY, LATE]]
  {
    var steps := LateRun(delay);
    var states := seq(14, n requires 0 <= n < 14 => Snap(n, delay));
    forall n | 0 <= n < 13 ensures IsHop(states[n], steps[n], states[n + 1], delay) {
      AnyHop(n, delay);
    }
    HopsAreRun(states, steps, delay);
    StartIsSnap(delay);
    TwoWins(delay);
  }

  lemma AnyHop(n: nat, delay: nat)
    requires n < 13 && 270 * SECOND <= delay
    ensures Hops(n, delay)
  {
    if n == 0 { HopToIssue(n, delay); }
    else if n == 1 { HopToLog(n, delay); }
    else if n == 2 { HopToPoll(n, delay); }
    else if n == 3 { HopToWin(n, delay); }
    else if n < 6 { HopToTally(n, delay); }
    else if n < 8 { HopToCommit(n, delay); }
    else if n < 10 { HopToSecond(n, delay); }
    else if n < 12 { HopToSecondWin(n, delay); }
    else { HopToSecondCount(n, delay); }
  }

  lemma TwoWins(delay: nat)
    ensures !OncePerChallenge(Snap(13, delay).counter.wins)
  {
    var wins := Snap(13, delay).counter.wins;
    assert wins[0].click.challengeId == wins[1].click.challengeId;
  }

  predicate Owns(owners: seq<nat>, partitions: nat) {
    forall k | 0 <= k < |owners| :: owners[k] < partitions
  }

  /** The seen keys let no challenge be applied twice, in any run of any number of
      consumers, crashes and re-deliveries, exactly when deliveries are delayed by less than
      270 s. */
  lemma OnceIffPrompt(delay: nat)
    ensures delay < 270 * SECOND <==>
      forall partitions: nat, owners: seq<nat>, route: string -> nat, steps: seq<Step> ::
        Owns(owners, partitions) && PromptRun(Start(route, partitions, owners), steps, delay) ==>
          var f := Final(Start(route, partitions, owners), steps);
          OncePerChallenge(f.counter.wins) && OncePerChallenge(f.progress.wins)
  {
    if delay < 270 * SECOND {
      forall partitions: nat, owners: seq<nat>, route: string -> nat, steps: seq<Step> |
        Owns(owners, partitions) && PromptRun(Start(route, partitions, owners), steps, delay)
        ensures var f := Final(Start(route, partitions, owners), steps);
                OncePerChallenge(f.counter.wins) && OncePerChallenge(f.progress.wins)
      {
        PromptRunKeepsGuarded(Start(route, partitions, owners), steps, delay);
      }
    } else {
      LateDelivery(delay);
    }
  }
}
