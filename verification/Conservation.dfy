// No run of the click pipeline creates clicks: what Redis holds plus what was claimed by a
// SETNX and then lost or is still in flight is exactly what the SETNX wins are worth.

module Conservation {
  import opened ClickEvent
  import opened Pipeline

  /** What a win is worth to one of the sums below; `who` picks one user or everybody. */
  datatype Who = Everyone | Only(sub: string)
  datatype Measure = All(who: Who) | Done(who: Who) | Lost(who: Who) | DoneWins | TalliedWins

  function Clicks(who: Who, c: Click): nat {
    if who == Everyone || who.sub == c.sub then c.count else 0
  }

  function Worth(m: Measure, w: Win): nat {
    match m
    case All(who) => Clicks(who, w.click)
    case Done(who) => if w.applied then Clicks(who, w.click) else 0
    case Lost(who) => if w.applied then 0 else Clicks(who, w.click)
    case DoneWins => if w.applied then 1 else 0
    case TalliedWins => if w.tallied then 1 else 0
  }

  function Sum(m: Measure, wins: seq<Win>): nat {
    if wins == [] then 0 else Sum(m, wins[..|wins| - 1]) + Worth(m, wins[|wins| - 1])
  }

  lemma SumPush(m: Measure, wins: seq<Win>, w: Win)
    ensures Sum(m, wins + [w]) == Sum(m, wins) + Worth(m, w)
  {
    assert (wins + [w])[..|wins|] == wins;
  }

  lemma {:induction false} SumUpdate(m: Measure, wins: seq<Win>, i: nat, w: Win)
    requires i < |wins|
    ensures Sum(m, wins[i := w]) + Worth(m, wins[i]) == Sum(m, wins) + Worth(m, w)
  {
    var n := |wins| - 1;
    if i == n {
      assert wins[i := w][..n] == wins[..n];
    } else {
      assert wins[i := w][..n] == wins[..n][i := w];
      SumUpdate(m, wins[..n], i, w);
    }
  }

  /** Clicks claimed are clicks applied or clicks lost. */
  lemma {:induction false} Split(who: Who, wins: seq<Win>)
    ensures Sum(All(who), wins) == Sum(Done(who), wins) + Sum(Lost(who), wins)
  {
    if wins != [] { Split(who, wins[..|wins| - 1]); }
  }

  /** The sum of the scores on a board. */
  ghost function BoardTotal(scores: map<string, nat>): nat {
    ScoreSum(scores, scores.Keys)
  }

  ghost function ScoreSum(scores: map<string, nat>, subs: set<string>): nat
    requires subs <= scores.Keys
  {
    if subs == {} then 0
    else
      var sub :| sub in subs;
      scores[sub] + ScoreSum(scores, subs - {sub})
  }

  lemma {:induction false} ScoreSumTake(scores: map<string, nat>, subs: set<string>, sub: string)
    requires sub in subs && subs <= scores.Keys
    ensures ScoreSum(scores, subs) == scores[sub] + ScoreSum(scores, subs - {sub})
  {
    var t :| t in subs && ScoreSum(scores, subs) == scores[t] + ScoreSum(scores, subs - {t});
    if t != sub {
      ScoreSumTake(scores, subs - {t}, sub);
      ScoreSumTake(scores, subs - {sub}, t);
      assert subs - {t} - {sub} == subs - {sub} - {t};
    }
  }

  lemma {:induction false} ScoreSumSame(a: map<string, nat>, b: map<string, nat>, subs: set<string>)
    requires subs <= a.Keys && subs <= b.Keys && forall sub | sub in subs :: a[sub] == b[sub]
    ensures ScoreSum(a, subs) == ScoreSum(b, subs)
  {
    if subs != {} {
      var sub :| sub in subs;
      ScoreSumTake(a, subs, sub);
      ScoreSumTake(b, subs, sub);
      ScoreSumSame(a, b, subs - {sub});
    }
  }

  lemma BoardTotalAdd(scores: map<string, nat>, sub: string, n: nat)
    ensures BoardTotal(scores[sub := ScoreOf(scores, sub) + n]) == BoardTotal(scores) + n
  {
    var scores' := scores[sub := ScoreOf(scores, sub) + n];
    ScoreSumTake(scores', scores'.Keys, sub);
    ScoreSumSame(scores', scores, scores.Keys - {sub});
    assert scores'.Keys - {sub} == scores.Keys - {sub};
    if sub in scores {
      ScoreSumTake(scores, scores.Keys, sub);
    } else {
      assert scores.Keys - {sub} == scores.Keys;
    }
  }

  // ----- what every step keeps -----

  /** Redis holds the applied wins, and no two consumers work for the same win. */
  ghost predicate Balanced(g: GroupState) {
    EffectsAre(g.effects, g.wins) && Tidy(g.wins, g.consumers)
  }

  ghost predicate HoldsWin(wins: seq<Win>, stage: Stage) {
    match stage
    case Ready => true
    case Won(w) => w < |wins| && !wins[w].applied
    case Counted(w) => w < |wins| && wins[w].applied && !wins[w].tallied
  }

  ghost predicate EffectsAre(e: Effects, wins: seq<Win>) {
    match e
    case Totals(total, stats) => total == Sum(Done(Everyone), wins) && stats == Sum(TalliedWins, wins)
    case Board(scores) =>
      && BoardTotal(scores) == Sum(Done(Everyone), wins)
      && forall sub :: ScoreOf(scores, sub) == Sum(Done(Only(sub)), wins)
  }

  lemma StoreKeepsEffects(e: Effects, wins: seq<Win>, c: Click)
    requires EffectsAre(e, wins)
    ensures EffectsAre(e, wins + [Win(c, false, false)])
  {
    forall m: Measure { SumPush(m, wins, Win(c, false, false)); }
  }

  lemma AddClickKeepsEffects(e: Effects, wins: seq<Win>, w: nat)
    requires EffectsAre(e, wins) && w < |wins| && !wins[w].applied && !wins[w].tallied
    ensures EffectsAre(AddClick(e, wins[w].click), wins[w := wins[w].(applied := true)])
  {
    var wins' := wins[w := wins[w].(applied := true)];
    forall m: Measure
      ensures Sum(m, wins') + Worth(m, wins[w]) == Sum(m, wins) + Worth(m, wins'[w])
    {
      SumUpdate(m, wins, w, wins'[w]);
    }
    if e.Board? {
      BoardTotalAdd(e.scores, wins[w].click.sub, wins[w].click.count);
    }
  }

  lemma AddTallyKeepsEffects(e: Effects, wins: seq<Win>, w: nat)
    requires EffectsAre(e, wins) && w < |wins| && wins[w].applied && !wins[w].tallied
    ensures EffectsAre(AddTally(e), wins[w := wins[w].(tallied := true)])
  {
    var wins' := wins[w := wins[w].(tallied := true)];
    forall m: Measure
      ensures Sum(m, wins') + Worth(m, wins[w]) == Sum(m, wins) + Worth(m, wins'[w])
    {
      SumUpdate(m, wins, w, wins'[w]);
    }
  }

  /** The part of Balanced that does not speak of Redis. */
  ghost predicate Tidy(wins: seq<Win>, cs: seq<Consumer>) {
    && (forall i | 0 <= i < |wins| && wins[i].tallied :: wins[i].applied)
    && (forall k | 0 <= k < |cs| :: HoldsWin(wins, cs[k].stage))
    && (forall j, k | 0 <= j < k < |cs| && !cs[j].stage.Ready? && !cs[k].stage.Ready? ::
          cs[j].stage.win != cs[k].stage.win)
  }

  /** A consumer moves on without holding a win. */
  lemma IdleKeepsTidy(wins: seq<Win>, more: seq<Win>, cs: seq<Consumer>, k: nat, c: Consumer)
    requires Tidy(wins, cs) && k < |cs| && c.stage.Ready?
    requires forall w | w in more :: !w.applied && !w.tallied
    ensures Tidy(wins + more, cs[k := c])
  {
    var cs' := cs[k := c];
    forall j | 0 <= j < |cs'| ensures HoldsWin(wins + more, cs'[j].stage) {
      assert HoldsWin(wins, cs[j].stage);
    }
  }

  /** A consumer takes up a win that nobody holds. */
  lemma ClaimKeepsTidy(wins: seq<Win>, click: Click, cs: seq<Consumer>, k: nat, c: Consumer)
    requires Tidy(wins, cs) && k < |cs| && c.stage == Won(|wins|)
    ensures Tidy(wins + [Win(click, false, false)], cs[k := c])
  {
    var cs' := cs[k := c];
    forall j | 0 <= j < |cs'| ensures HoldsWin(wins + [Win(click, false, false)], cs'[j].stage) {
      assert HoldsWin(wins, cs[j].stage);
    }
  }

  /** A consumer works on the win it holds and goes on to a later stage of it, or lets it go. */
  lemma WorkKeepsTidy(wins: seq<Win>, w: Win, cs: seq<Consumer>, k: nat, c: Consumer)
    requires Tidy(wins, cs) && k < |cs| && !cs[k].stage.Ready?
    requires w.tallied ==> w.applied
    requires c.stage.Ready? || (c.stage.win == cs[k].stage.win && HoldsWin(wins[c.stage.win := w], c.stage))
    ensures Tidy(wins[cs[k].stage.win := w], cs[k := c])
  {
    var wins', cs' := wins[cs[k].stage.win := w], cs[k := c];
    forall j | 0 <= j < |cs'| ensures HoldsWin(wins', cs'[j].stage) {
      assert HoldsWin(wins, cs[j].stage);
    }
  }

  lemma DoKeepsBalance(g: GroupState, parts: seq<seq<Record>>, now: int, k: nat, a: Action)
    requires WellFormed(g, parts) && Enabled(g, parts, k, a) && Balanced(g)
    ensures Balanced(Do(g, parts, now, k, a))
  {
    DoKeepsTidy(g, parts, now, k, a);
    DoKeepsEffects(g, parts, now, k, a);
  }

  lemma DoKeepsEffects(g: GroupState, parts: seq<seq<Record>>, now: int, k: nat, a: Action)
    requires WellFormed(g, parts) && Enabled(g, parts, k, a) && Balanced(g)
    ensures EffectsAre(Do(g, parts, now, k, a).effects, Do(g, parts, now, k, a).wins)
  {
    var c := g.consumers[k];
    assert HoldsWin(g.wins, c.stage);
    match a
    case See =>
      if parts[c.part][c.next].Accepted? { StoreKeepsEffects(g.effects, g.wins, parts[c.part][c.next].click); }
    case SeeFault(_) => StoreKeepsEffects(g.effects, g.wins, parts[c.part][c.next].click);
    case Apply => AddClickKeepsEffects(g.effects, g.wins, c.stage.win);
    case ApplyFault(_) => AddClickKeepsEffects(g.effects, g.wins, c.stage.win);
    case Tally => AddTallyKeepsEffects(g.effects, g.wins, c.stage.win);
    case TallyFault(_) => AddTallyKeepsEffects(g.effects, g.wins, c.stage.win);
    case _ =>
  }

  lemma DoKeepsTidy(g: GroupState, parts: seq<seq<Record>>, now: int, k: nat, a: Action)
    requires WellFormed(g, parts) && Enabled(g, parts, k, a) && Tidy(g.wins, g.consumers)
    ensures Tidy(Do(g, parts, now, k, a).wins, Do(g, parts, now, k, a).consumers)
  {
    var c, g' := g.consumers[k], Do(g, parts, now, k, a);
    var c' := g'.consumers[k];
    assert g'.consumers == g.consumers[k := c'];
    assert HoldsWin(g.wins, c.stage);
    if c.stage.Ready? || a.Restart? || a.Seek? || a.Poll? || a.Commit? {
      if !c'.stage.Ready? && a.See? {
        ClaimKeepsTidy(g.wins, parts[c.part][c.next].click, g.consumers, k, c');
      } else if !a.Commit? {
        assert g'.wins == g.wins + g'.wins[|g.wins|..];
        IdleKeepsTidy(g.wins, g'.wins[|g.wins|..], g.consumers, k, c');
      }
    } else {
      var w := c.stage.win;
      assert g'.wins == g.wins[w := g'.wins[w]];
      WorkKeepsTidy(g.wins, g'.wins[w], g.consumers, k, c');
    }
  }

  lemma {:induction false} RunKeepsBalance(s: System, steps: seq<Step>)
    requires Shaped(s) && IsRun(s, steps) && Balanced(s.counter) && Balanced(s.progress)
    ensures Balanced(Final(s, steps).counter) && Balanced(Final(s, steps).progress)
    decreases |steps|
  {
    if steps != [] {
      StepKeepsShape(s, steps[0]);
      match steps[0] {
        case Act(group, k, a) => DoKeepsBalance(GroupOf(s, group), s.parts, s.now, k, a);
        case _ =>
      }
      RunKeepsBalance(Next(s, steps[0]), steps[1..]);
    }
  }

  lemma {:induction false} TallyBound(g: GroupState, n: nat)
    requires Balanced(g) && n <= |g.wins|
    ensures Sum(TalliedWins, g.wins[..n]) <= Sum(DoneWins, g.wins[..n])
  {
    if n > 0 {
      assert g.wins[..n][..n - 1] == g.wins[..n - 1];
      TallyBound(g, n - 1);
    }
  }

  /** Conservation, for every run of any number of consumers, with every crash, Redis error
      and re-delivery, and with or without expired keys: Redis plus what was lost between a
      SETNX and its effect is what the SETNX wins are worth, for the total, for the sum of
      the board and for each user on it. */
  lemma Conservation(s0: System, steps: seq<Step>, route: string -> nat, partitions: nat, owners: seq<nat>)
    requires forall k | 0 <= k < |owners| :: owners[k] < partitions
    requires s0 == Start(route, partitions, owners) && IsRun(s0, steps)
    ensures var c := Final(s0, steps).counter;
            && c.effects.Totals?
            && c.effects.total + Sum(Lost(Everyone), c.wins) == Sum(All(Everyone), c.wins)
            && c.effects.stats <= Sum(DoneWins, c.wins)
    ensures var p := Final(s0, steps).progress;
            && p.effects.Board?
            && BoardTotal(p.effects.scores) + Sum(Lost(Everyone), p.wins) == Sum(All(Everyone), p.wins)
            && forall sub ::
                 ScoreOf(p.effects.scores, sub) + Sum(Lost(Only(sub)), p.wins) == Sum(All(Only(sub)), p.wins)
  {
    RunKeepsBalance(s0, steps);
    KindsStay(s0, steps);
    var c, p := Final(s0, steps).counter, Final(s0, steps).progress;
    Split(Everyone, c.wins);
    TallyBound(c, |c.wins|);
    assert c.wins[..|c.wins|] == c.wins;
    Split(Everyone, p.wins);
    forall sub { Split(Only(sub), p.wins); }
  }

  lemma DoKeepsKind(g: GroupState, parts: seq<seq<Record>>, now: int, k: nat, a: Action)
    requires WellFormed(g, parts) && Enabled(g, parts, k, a)
    ensures Do(g, parts, now, k, a).effects.Totals? == g.effects.Totals?
  {
  }

  lemma {:induction false} KindsStay(s: System, steps: seq<Step>)
    requires Shaped(s) && IsRun(s, steps)
    ensures Final(s, steps).counter.effects.Totals? == s.counter.effects.Totals?
    ensures Final(s, steps).progress.effects.Board? == s.progress.effects.Board?
    decreases |steps|
  {
    hide Pipeline.Do, Pipeline.Enabled;
    if steps != [] {
      StepKeepsShape(s, steps[0]);
      if steps[0].Act? {
        DoKeepsKind(GroupOf(s, steps[0].group), s.parts, s.now, steps[0].k, steps[0].action);
      }
      KindsStay(Next(s, steps[0]), steps[1..]);
    }
  }
}
