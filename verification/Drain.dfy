// What a consumer does while nothing fails: it goes on through its partition without skipping a
// record, past those that do not decode, and can always commit up to the end. The protocol is the
// same for both groups, so this is about both.

module Drain {
  import opened ClickEvent
  import opened ConsumerRuns
  import opened Idem
  import opened Pipeline

  /** Neither an error nor a crash nor a rebalance. */
  predicate Calm(a: Action) {
    !a.SeeFault? && !a.ApplyFault? && !a.TallyFault? && !a.Restart? && !a.Seek?
  }

  predicate AllCalm(acts: seq<Timed>) {
    forall i | 0 <= i < |acts| :: Calm(acts[i].action)
  }

  /** A record that does not decode, or whose challenge has its key. */
  predicate Done(seen: Seen, r: Record) {
    r.Malformed? || r.click.challengeId in seen
  }

  /** A consumer between a won SETNX and its last increment works on the record it stands at. */
  predicate InHand(g: GroupState, parts: seq<seq<Record>>, k: nat)
    requires WellFormed(g, parts) && k < |g.consumers|
  {
    var c := g.consumers[k];
    !c.stage.Ready? ==> Done(g.seen, parts[c.part][c.next])
  }

  /** Without a fault a consumer that is fine stays fine, and moves on by one record at most, which is
      then done. */
  lemma DoSkipsNothing(g: GroupState, parts: seq<seq<Record>>, now: int, k: nat, a: Action)
    requires WellFormed(g, parts) && Enabled(g, parts, k, a) && Calm(a) && InHand(g, parts, k)
    ensures var g' := Do(g, parts, now, k, a);
            var c, c' := g.consumers[k], g'.consumers[k];
            && WellFormed(g', parts) && InHand(g', parts, k)
            && c'.part == c.part && (c.ok ==> c'.ok) && c.next <= c'.next <= c.next + 1
            && (c'.next == c.next + 1 ==> Done(g'.seen, parts[c.part][c.next]))
            && g.seen.Keys <= g'.seen.Keys
  {
    DoKeepsShape(g, parts, now, k, a);
  }

  /** A record that does not decode costs nothing: the consumer goes on behind it as it was. */
  lemma SeeSkipsPoison(g: GroupState, parts: seq<seq<Record>>, now: int, k: nat)
    requires WellFormed(g, parts) && Enabled(g, parts, k, See)
    requires parts[g.consumers[k].part][g.consumers[k].next].Malformed?
    ensures var c, g' := g.consumers[k], Do(g, parts, now, k, See);
            && g'.consumers == g.consumers[k := c.(next := c.next + 1)]
            && g'.seen == g.seen && g'.effects == g.effects && g'.wins == g.wins && g'.committed == g.committed
  {
  }

  /** Over any number of actions of the consumer without a fault. */
  lemma {:induction false} CalmRunSkipsNothing(g: GroupState, parts: seq<seq<Record>>, k: nat, acts: seq<Timed>)
    requires WellFormed(g, parts) && CanAll(g, parts, k, acts) && AllCalm(acts)
    requires k < |g.consumers| && InHand(g, parts, k)
    ensures var g' := DoAll(g, parts, k, acts);
            && k < |g'.consumers|
            && var c, c' := g.consumers[k], g'.consumers[k];
            && c'.part == c.part && (c.ok ==> c'.ok) && c.next <= c'.next && g.seen.Keys <= g'.seen.Keys
            && forall j | c.next <= j < c'.next :: Done(g'.seen, parts[c.part][j])
    decreases |acts|
  {
    hide Pipeline.Do;
    if acts != [] {
      DoSkipsNothing(g, parts, acts[0].now, k, acts[0].action);
      SameConsumers(g, parts, acts[0].now, k, acts[0].action);
      CalmRunSkipsNothing(Do(g, parts, acts[0].now, k, acts[0].action), parts, k, acts[1..]);
    }
  }

  lemma SameConsumers(g: GroupState, parts: seq<seq<Record>>, now: int, k: nat, a: Action)
    requires WellFormed(g, parts) && Enabled(g, parts, k, a)
    ensures |Do(g, parts, now, k, a).consumers| == |g.consumers|
  {
  }

  /** The next action on the way to the end of the partition. */
  function NextAction(g: GroupState, parts: seq<seq<Record>>, k: nat): Action
    requires WellFormed(g, parts) && k < |g.consumers|
  {
    var c := g.consumers[k];
    match c.stage
    case Won(_) => Apply
    case Counted(_) => Tally
    case Ready =>
      if c.next < c.end then See
      else if c.end < |parts[c.part]| then Poll(|parts[c.part]| - c.end)
      else Commit
  }

  function Rank(stage: Stage): nat {
    match stage
    case Ready => 2
    case Won(_) => 1
    case Counted(_) => 0
  }

  /** From wherever a consumer that is fine stands, with whatever records ahead, it can reach the end
      of its partition and commit there, at any time and without a fault. */
  lemma {:induction false} CanDrain(g: GroupState, parts: seq<seq<Record>>, k: nat, now: int)
    returns (acts: seq<Timed>)
    requires WellFormed(g, parts) && k < |g.consumers| && g.consumers[k].ok && InHand(g, parts, k)
    ensures CanAll(g, parts, k, acts) && AllCalm(acts)
    ensures var p, g' := g.consumers[k].part, DoAll(g, parts, k, acts);
            && k < |g'.consumers| && g'.consumers[k] == Consumer(p, |parts[p]|, |parts[p]|, true, Ready)
            && g'.committed[p] == |parts[p]|
            && forall j | g.consumers[k].next <= j < |parts[p]| :: Done(g'.seen, parts[p][j])
    decreases |parts[g.consumers[k].part]| - g.consumers[k].next,
              |parts[g.consumers[k].part]| - g.consumers[k].end, Rank(g.consumers[k].stage)
  {
    var c, a := g.consumers[k], NextAction(g, parts, k);
    var first := Timed(a, now);
    One(g, parts, k, first);
    DoSkipsNothing(g, parts, now, k, a);
    if a.Commit? {
      acts := [first];
    } else {
      var rest := CanDrain(Do(g, parts, now, k, a), parts, k, now);
      acts := [first] + rest;
      assert acts[1..] == rest;
    }
    CalmRunSkipsNothing(g, parts, k, acts);
  }

  /** In particular after a restart, whatever happened before it, from the committed offset on. */
  lemma RestartCanDrain(g: GroupState, parts: seq<seq<Record>>, k: nat, now: int) returns (acts: seq<Timed>)
    requires WellFormed(g, parts) && k < |g.consumers|
    ensures acts != [] && acts[0].action == Action.Restart && AllCalm(acts[1..]) && CanAll(g, parts, k, acts)
    ensures var restarted := Do(g, parts, acts[0].now, k, Action.Restart);
            restarted.consumers[k].next == g.committed[g.consumers[k].part]
    ensures var p, g' := g.consumers[k].part, DoAll(g, parts, k, acts);
            && g'.committed[p] == |parts[p]|
            && forall j | g.committed[p] <= j < |parts[p]| :: Done(g'.seen, parts[p][j])
  {
    var restart := Timed(Action.Restart, now);
    One(g, parts, k, restart);
    DoKeepsShape(g, parts, now, k, Action.Restart);
    var rest := CanDrain(Do(g, parts, now, k, Action.Restart), parts, k, now);
    DoAllAppend(g, parts, k, [restart], rest);
    acts := [restart] + rest;
  }
}
