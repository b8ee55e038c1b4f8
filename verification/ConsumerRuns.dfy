// Runs of one consumer of the protocol, as lists of its actions: what the loops of the two
// workers are tied to.

module ConsumerRuns {
  import opened ClickEvent
  import opened Pipeline

  /** Actions of one consumer, each with the time it is taken at. */
  datatype Timed = Timed(action: Action, now: int)

  ghost predicate CanAll(g: GroupState, parts: seq<seq<Record>>, k: nat, acts: seq<Timed>)
    requires WellFormed(g, parts)
    decreases |acts|
  {
    if acts == [] then true
    else
      Enabled(g, parts, k, acts[0].action) &&
      (DoKeepsShape(g, parts, acts[0].now, k, acts[0].action);
       CanAll(Do(g, parts, acts[0].now, k, acts[0].action), parts, k, acts[1..]))
  }

  ghost function DoAll(g: GroupState, parts: seq<seq<Record>>, k: nat, acts: seq<Timed>): (g': GroupState)
    requires WellFormed(g, parts) && CanAll(g, parts, k, acts)
    ensures WellFormed(g', parts)
    decreases |acts|
  {
    if acts == [] then g
    else
      DoKeepsShape(g, parts, acts[0].now, k, acts[0].action);
      DoAll(Do(g, parts, acts[0].now, k, acts[0].action), parts, k, acts[1..])
  }

  // ----- lists kept in step -----

  /** Those of xs whose record is well-formed. */
  function Decoded<T>(recs: seq<Record>, xs: seq<T>): (kept: seq<T>)
    requires |xs| == |recs|
    ensures |kept| <= |xs|
    decreases |recs|
  {
    if recs == [] then []
    else (if recs[0].Accepted? then [xs[0]] else []) + Decoded(recs[1..], xs[1..])
  }

  lemma {:induction false} DecodedInStep<A, B>(recs: seq<Record>, xs: seq<A>, ys: seq<B>)
    requires |xs| == |ys| == |recs|
    ensures |Decoded(recs, xs)| == |Decoded(recs, ys)|
    decreases |recs|
  {
    if recs != [] { DecodedInStep(recs[1..], xs[1..], ys[1..]); }
  }

  lemma DecodedFront<T>(recs: seq<Record>, xs: seq<T>)
    requires |xs| == |recs| > 0
    ensures var kept, rest := Decoded(recs, xs), Decoded(recs[1..], xs[1..]);
            if recs[0].Accepted? then |kept| > 0 && kept[0] == xs[0] && kept[1..] == rest else kept == rest
  {
  }

  // ----- runs -----

  lemma One(g: GroupState, parts: seq<seq<Record>>, k: nat, t: Timed)
    requires WellFormed(g, parts) && Enabled(g, parts, k, t.action)
    ensures CanAll(g, parts, k, [t]) && DoAll(g, parts, k, [t]) == Do(g, parts, t.now, k, t.action)
  {
    DoKeepsShape(g, parts, t.now, k, t.action);
    assert [t][1..] == [];
  }

  lemma {:induction false} DoAllAppend(g: GroupState, parts: seq<seq<Record>>, k: nat, a: seq<Timed>, b: seq<Timed>)
    requires WellFormed(g, parts) && CanAll(g, parts, k, a) && CanAll(DoAll(g, parts, k, a), parts, k, b)
    ensures CanAll(g, parts, k, a + b) && DoAll(g, parts, k, a + b) == DoAll(DoAll(g, parts, k, a), parts, k, b)
    decreases |a|
  {
    if a == [] {
      assert a + b == b;
    } else {
      DoKeepsShape(g, parts, a[0].now, k, a[0].action);
      DoAllAppend(Do(g, parts, a[0].now, k, a[0].action), parts, k, a[1..], b);
      assert (a + b)[1..] == a[1..] + b;
    }
  }

  lemma Push(g: GroupState, parts: seq<seq<Record>>, k: nat, acts: seq<Timed>, t: Timed)
    requires WellFormed(g, parts) && CanAll(g, parts, k, acts) && Enabled(DoAll(g, parts, k, acts), parts, k, t.action)
    ensures CanAll(g, parts, k, acts + [t])
    ensures DoAll(g, parts, k, acts + [t]) == Do(DoAll(g, parts, k, acts), parts, t.now, k, t.action)
  {
    One(DoAll(g, parts, k, acts), parts, k, t);
    DoAllAppend(g, parts, k, acts, [t]);
  }
}
