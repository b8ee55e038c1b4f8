// Schema migrations and their guarded reversal (internal/migrate/migrate.go: Up, Down). The
// migration tool takes an advisory lock for each of its calls, so each call is one step; Down
// makes two of them, and anything can happen in between.

module Migrate {

  /** The lowest version that Down reverses from without force. */
  const MIN_SAFE_DOWN := 1

  /** The highest applied version, 0 if there is none; versions run from 1 to n. */
  function Latest(applied: set<nat>, n: nat): nat {
    if n == 0 then 0 else if n in applied then n else Latest(applied, n - 1)
  }

  predicate InRange(applied: set<nat>, n: nat) {
    forall v | v in applied :: 1 <= v <= n
  }

  /** Every version below the latest one is applied too. */
  predicate NoGap(applied: set<nat>, n: nat) {
    forall v | 1 <= v <= Latest(applied, n) :: v in applied
  }

  function Versions(lo: nat, hi: nat): (vs: set<nat>)
    ensures forall v: nat :: v in vs <==> lo < v <= hi
  {
    if hi <= lo then {} else Versions(lo, hi - 1) + {hi}
  }

  lemma {:induction false} LatestIsMax(applied: set<nat>, n: nat)
    requires InRange(applied, n)
    ensures Latest(applied, n) <= n
    ensures forall v | v in applied :: v <= Latest(applied, n)
    ensures Latest(applied, n) > 0 ==> Latest(applied, n) in applied
  {
    if n > 0 && n !in applied { LatestIsMax(applied, n - 1); }
  }

  lemma LatestIs(applied: set<nat>, n: nat, v: nat)
    requires InRange(applied, n) && (v in applied || (v == 0 && applied == {})) && forall u | u in applied :: u <= v
    ensures Latest(applied, n) == v
  {
    LatestIsMax(applied, n);
  }

  // ----- the two commands, undisturbed -----

  datatype Result = Reversed(version: nat) | Refused(version: nat) | NotApplied

  class Database {
    const n: nat
    var applied: set<nat>

    predicate Valid()
      reads this
    {
      InRange(applied, n)
    }

    constructor (n: nat)
      ensures Valid() && this.n == n && applied == {}
    {
      this.n := n;
      applied := {};
    }

    method GetDBVersion() returns (version: nat)
      requires Valid()
      ensures version == Latest(applied, n)
    {
      version := n;
      while version > 0 && version !in applied
        invariant version <= n && Latest(applied, version) == Latest(applied, n)
      {
        version := version - 1;
      }
    }

    /** ApplyVersion(version, false): re-checks that this version is applied, then reverses it. */
    method ApplyDown(version: nat) returns (ok: bool)
      requires Valid()
      modifies this`applied
      ensures Valid() && ok == (version in old(applied)) && applied == old(applied) - {version}
    {
      ok := version in applied;
      if ok { applied := applied - {version}; }
    }

    /** With force, whatever is latest is reversed; without, only what is above 001. */
    method Down(force: bool) returns (r: Result)
      requires Valid()
      modifies this`applied
      ensures Valid()
      ensures var version := Latest(old(applied), n);
              && r == (if force && version == 0 then NotApplied
                       else if !force && version <= MIN_SAFE_DOWN then Refused(version)
                       else Reversed(version))
              && applied == if r.Reversed? then old(applied) - {version} else old(applied)
      ensures !force && 1 in old(applied) ==> 1 in applied
    {
      LatestIsMax(applied, n);
      var version := GetDBVersion();
      if force {
        if version == 0 { return NotApplied; }
        applied := applied - {version};
        return Reversed(version);
      }
      if version <= MIN_SAFE_DOWN { return Refused(version); }
      var ok := ApplyDown(version);
      return if ok then Reversed(version) else NotApplied;
    }

    /** Applies what is pending, in order, and lists it. Versions missing below the latest one
        are an error before anything is applied; the migration that fails, if one does, ends
        the run and the list is not returned. */
    method Up(fails: nat) returns (lines: seq<nat>, err: bool)
      requires Valid()
      modifies this`applied
      ensures Valid()
      ensures err <==> !NoGap(old(applied), n) || Latest(old(applied), n) < fails <= n
      ensures applied == if !NoGap(old(applied), n) then old(applied)
                         else old(applied) + Versions(Latest(old(applied), n), if err then fails - 1 else n)
      ensures lines == if err then [] else seq(n - Latest(old(applied), n), i => Latest(old(applied), n) + 1 + i)
    {
      LatestIsMax(applied, n);
      var latest := GetDBVersion();
      lines := [];
      if exists v :: 1 <= v <= latest && v !in applied { return [], true; }
      var next := latest + 1;
      while next <= n
        invariant latest < next <= n + 1
        invariant applied == old(applied) + Versions(latest, next - 1)
        invariant lines == seq(next - 1 - latest, i => latest + 1 + i)
        invariant !(latest < fails < next)
      {
        if next == fails { return [], true; }
        applied := applied + {next};
        lines := lines + [next];
        next := next + 1;
      }
      err := false;
    }
  }

  // ----- any number of them at once -----

  /** A process running Down: not yet started or done, or between its check and its reversal. */
  datatype Process = Idle | Checked(version: nat)

  datatype State = State(n: nat, applied: set<nat>, processes: seq<Process>)

  /** UpTo is an Up that gets as far as m; with a gap it is an error and applies nothing. */
  datatype Step = Check(k: nat) | Reverse(k: nat) | UpTo(m: nat)

  predicate CanStep(s: State, step: Step) {
    match step
    case Check(k) => k < |s.processes| && s.processes[k].Idle?
    case Reverse(k) => k < |s.processes| && s.processes[k].Checked?
    case UpTo(m) => Latest(s.applied, s.n) <= m <= s.n
  }

  function Next(s: State, step: Step): State
    requires CanStep(s, step)
  {
    match step
    case Check(k) =>
      var version := Latest(s.applied, s.n);
      if version <= MIN_SAFE_DOWN then s else s.(processes := s.processes[k := Checked(version)])
    case Reverse(k) =>
      s.(applied := s.applied - {s.processes[k].version}, processes := s.processes[k := Idle])
    case UpTo(m) =>
      if NoGap(s.applied, s.n) then s.(applied := s.applied + Versions(Latest(s.applied, s.n), m)) else s
  }

  ghost predicate IsRun(s: State, steps: seq<Step>)
    decreases |steps|
  {
    steps == [] || (CanStep(s, steps[0]) && IsRun(Next(s, steps[0]), steps[1..]))
  }

  ghost function Final(s: State, steps: seq<Step>): State
    requires IsRun(s, steps)
    decreases |steps|
  {
    if steps == [] then s else Final(Next(s, steps[0]), steps[1..])
  }

  /** An unforced Down that nothing disturbs is a check and, if that passes, the reversal of what it found;
      an Up is one step. What they leave applied is what the methods promise. */
  lemma CommandsAreSteps(s: State, k: nat, fails: nat)
    requires Sound(s) && k < |s.processes| && s.processes[k].Idle?
    ensures var version := Latest(s.applied, s.n);
            var steps := if version <= 1 then [Check(k)] else [Check(k), Reverse(k)];
            && IsRun(s, steps)
            && Final(s, steps) == s.(applied := if version <= 1 then s.applied else s.applied - {version})
    ensures var err := !NoGap(s.applied, s.n) || Latest(s.applied, s.n) < fails <= s.n;
            var up := UpTo(if Latest(s.applied, s.n) < fails <= s.n then fails - 1 else s.n);
            && CanStep(s, up)
            && Next(s, up).applied
               == if !NoGap(s.applied, s.n) then s.applied
                  else s.applied + Versions(Latest(s.applied, s.n), if err then fails - 1 else s.n)
  {
    hide IsRun, Final, Latest, NoGap;
    LatestIsMax(s.applied, s.n);
    var version := Latest(s.applied, s.n);
    var s1 := Next(s, Check(k));
    if version <= 1 {
      OneStep(s, Check(k));
    } else {
      OneStep(s1, Reverse(k));
      assert Next(s1, Reverse(k)).processes == s.processes;
      assert [Check(k)] + [Reverse(k)] == [Check(k), Reverse(k)];
      StepFirst(s, Check(k), [Reverse(k)]);
    }
  }

  lemma OneStep(s: State, step: Step)
    requires CanStep(s, step)
    ensures IsRun(s, [step]) && Final(s, [step]) == Next(s, step)
  {
    assert [step][1..] == [];
  }

  lemma StepFirst(s: State, step: Step, rest: seq<Step>)
    requires CanStep(s, step) && IsRun(Next(s, step), rest)
    ensures IsRun(s, [step] + rest) && Final(s, [step] + rest) == Final(Next(s, step), rest)
  {
    assert ([step] + rest)[1..] == rest;
  }

  ghost predicate Sound(s: State) {
    && InRange(s.applied, s.n)
    && forall k | 0 <= k < |s.processes| && s.processes[k].Checked? :: s.processes[k].version > MIN_SAFE_DOWN
  }

  lemma StepIsSound(s: State, step: Step)
    requires Sound(s) && CanStep(s, step)
    ensures Sound(Next(s, step)) && Next(s, step).n == s.n
    ensures 1 in s.applied ==> 1 in Next(s, step).applied
  {
    LatestIsMax(s.applied, s.n);
  }

  /** Migration 001 is never reversed: in every interleaving of any number of unforced Downs and
      Ups, complete or not, once applied it stays applied. */
  lemma {:induction false} FirstStays(s: State, steps: seq<Step>)
    requires Sound(s) && IsRun(s, steps)
    ensures Sound(Final(s, steps))
    ensures 1 in s.applied ==> 1 in Final(s, steps).applied
    decreases |steps|
  {
    if steps != [] {
      StepIsSound(s, steps[0]);
      FirstStays(Next(s, steps[0]), steps[1..]);
    }
  }

  // ----- exactly the most recently applied one -----

  /** No Up adds anything while some Down is between its check and its reversal. */
  ghost predicate UpsWait(s: State, steps: seq<Step>)
    requires IsRun(s, steps)
    decreases |steps|
  {
    if steps == [] then true
    else
      && (steps[0].UpTo? && steps[0].m > Latest(s.applied, s.n) ==>
            forall k | 0 <= k < |s.processes| :: s.processes[k].Idle?)
      && UpsWait(Next(s, steps[0]), steps[1..])
  }

  /** A prefix is applied, and no pending reversal is below the top. */
  ghost predicate Orderly(s: State) {
    && Sound(s) && NoGap(s.applied, s.n)
    && forall k | 0 <= k < |s.processes| && s.processes[k].Checked? :: s.processes[k].version >= Latest(s.applied, s.n)
  }

  /** Every reversal of the run that finds its version applied removes exactly the top one. */
  ghost predicate ReversesTops(s: State, steps: seq<Step>)
    requires IsRun(s, steps)
    decreases |steps|
  {
    if steps == [] then true
    else
      && (steps[0].Reverse? && s.processes[steps[0].k].version in s.applied ==>
            s.processes[steps[0].k].version == Latest(s.applied, s.n))
      && ReversesTops(Next(s, steps[0]), steps[1..])
  }

  lemma PrefixIs(applied: set<nat>, n: nat)
    requires InRange(applied, n) && NoGap(applied, n)
    ensures applied == Versions(0, Latest(applied, n))
  {
    LatestIsMax(applied, n);
  }

  lemma VersionsLatest(v: nat, n: nat)
    requires v <= n
    ensures InRange(Versions(0, v), n) && Latest(Versions(0, v), n) == v && NoGap(Versions(0, v), n)
  {
    LatestIs(Versions(0, v), n, v);
  }

  lemma StepIsOrderly(s: State, step: Step)
    requires Orderly(s) && CanStep(s, step)
    requires step.UpTo? && step.m > Latest(s.applied, s.n) ==> forall k | 0 <= k < |s.processes| :: s.processes[k].Idle?
    ensures Orderly(Next(s, step))
    ensures step.Reverse? && s.processes[step.k].version in s.applied ==>
              s.processes[step.k].version == Latest(s.applied, s.n)
  {
    var top := Latest(s.applied, s.n);
    StepIsSound(s, step);
    LatestIsMax(s.applied, s.n);
    PrefixIs(s.applied, s.n);
    match step
    case Check(k) =>
    case Reverse(k) =>
      if s.processes[k].version == top {
        assert Next(s, step).applied == Versions(0, top - 1);
        VersionsLatest(top - 1, s.n);
      } else {
        assert Next(s, step).applied == s.applied;
      }
    case UpTo(m) =>
      assert Next(s, step).applied == Versions(0, m);
      VersionsLatest(m, s.n);
  }

  /** While Ups keep out of the way of running Downs, in particular when there are none, the
      applied versions stay a prefix, and each success removes exactly the top one. */
  lemma {:induction false} OrderlyRun(s: State, steps: seq<Step>)
    requires Orderly(s) && IsRun(s, steps) && UpsWait(s, steps)
    ensures Orderly(Final(s, steps)) && ReversesTops(s, steps)
    decreases |steps|
  {
    if steps != [] {
      StepIsOrderly(s, steps[0]);
      OrderlyRun(Next(s, steps[0]), steps[1..]);
    }
  }

  /** With two versions only 002 is ever reversed, and it is the top one. */
  lemma {:induction false} TwoVersionsRun(s: State, steps: seq<Step>)
    requires Sound(s) && s.n <= 2 && IsRun(s, steps)
    ensures ReversesTops(s, steps)
    decreases |steps|
  {
    if steps != [] {
      StepIsSound(s, steps[0]);
      LatestIsMax(s.applied, s.n);
      TwoVersionsRun(Next(s, steps[0]), steps[1..]);
    }
  }

  /** A Down checks 002, an Up applies 003, and the Down reverses 002. */
  lemma UpOvertakes(n: nat) returns (s: State, steps: seq<Step>)
    requires n >= 3
    ensures s.n == n && Orderly(s) && IsRun(s, steps) && !ReversesTops(s, steps)
    ensures !NoGap(Final(s, steps).applied, n)
  {
    s, steps := State(n, {1, 2}, [Idle]), [Check(0), UpTo(3), Reverse(0)];
    LatestIs({1, 2}, n, 2);
    LatestIs({1, 2, 3}, n, 3);
    LatestIs({1, 3}, n, 3);
    assert steps[1..] == [UpTo(3), Reverse(0)] && steps[1..][1..] == [Reverse(0)] && [Reverse(0)][1..] == [];
    var s1 := Next(s, Check(0));
    var s2 := Next(s1, UpTo(3));
    assert s2.applied == {1, 2, 3};
    assert Next(s2, Reverse(0)).applied == {1, 3};
  }

  /** The runs over n versions, from any orderly state, in which an Up may apply something while a
      Down is between its check and its reversal, or may not. */
  ghost predicate Allowed(mayUp: bool, n: nat, s: State, steps: seq<Step>) {
    s.n == n && Orderly(s) && IsRun(s, steps) && (mayUp || UpsWait(s, steps))
  }

  /** "Reverses exactly the one most-recently-applied migration": every Down of every such run
      does if and only if Ups wait, or there are at most two versions. */
  lemma TopsIffUpsWait(mayUp: bool, n: nat)
    ensures (forall s, steps | Allowed(mayUp, n, s, steps) :: ReversesTops(s, steps)) <==> !mayUp || n <= 2
  {
    hide Orderly, UpsWait, ReversesTops;
    if !mayUp || n <= 2 {
      forall s, steps | Allowed(mayUp, n, s, steps) ensures ReversesTops(s, steps) {
        if n <= 2 {
          OrderlyIsSound(s);
          TwoVersionsRun(s, steps);
        } else {
          OrderlyRun(s, steps);
        }
      }
    } else {
      var s, steps := UpOvertakes(n);
      assert Allowed(mayUp, n, s, steps);
    }
  }

  lemma OrderlyIsSound(s: State)
    requires Orderly(s)
    ensures Sound(s)
  {
  }

  /** Not every such Up does harm: when another Down reversed the version and the Up applied it
      again, the late Down still reverses the top one. */
  lemma UpMayRestore(n: nat)
    requires n >= 2
    ensures var s := State(n, {1, 2}, [Idle, Idle]);
            var steps := [Check(0), Check(1), Reverse(1), UpTo(2), Reverse(0)];
            Orderly(s) && IsRun(s, steps) && !UpsWait(s, steps) && ReversesTops(s, steps)
  {
    var s := State(n, {1, 2}, [Idle, Idle]);
    var steps := [Check(0), Check(1), Reverse(1), UpTo(2), Reverse(0)];
    LatestIs({1, 2}, n, 2);
    RestoredIsTop(n);
    assert steps[1..][1..] == [Reverse(1), UpTo(2), Reverse(0)];
    assert Next(Next(s, Check(0)), Check(1)) == State(n, {1, 2}, [Checked(2), Checked(2)]);
  }

  lemma RestoredIsTop(n: nat)
    requires n >= 2
    ensures var s := State(n, {1, 2}, [Checked(2), Checked(2)]);
            var steps := [Reverse(1), UpTo(2), Reverse(0)];
            IsRun(s, steps) && !UpsWait(s, steps) && ReversesTops(s, steps)
  {
    var s := State(n, {1, 2}, [Checked(2), Checked(2)]);
    var steps := [Reverse(1), UpTo(2), Reverse(0)];
    LatestIs({1, 2}, n, 2);
    LatestIs({1}, n, 1);
    assert steps[1..] == [UpTo(2), Reverse(0)] && steps[1..][1..] == [Reverse(0)] && [Reverse(0)][1..] == [];
    var s1 := Next(s, Reverse(1));
    assert s1.applied == {1};
    var s2 := Next(s1, UpTo(2));
    assert s2.applied == {1, 2};
  }

  /** Only Ups between the check and the reversal of one Down. */
  predicate OnlyUps(steps: seq<Step>) {
    forall i | 0 <= i < |steps| :: steps[i].UpTo?
  }

  lemma {:induction false} UpsGrowPrefix(s: State, steps: seq<Step>)
    requires Sound(s) && NoGap(s.applied, s.n) && IsRun(s, steps) && OnlyUps(steps)
    ensures var f := Final(s, steps);
            && Sound(f) && NoGap(f.applied, f.n) && f.n == s.n && f.processes == s.processes
            && Latest(f.applied, s.n) >= Latest(s.applied, s.n)
    decreases |steps|
  {
    if steps != [] {
      var s' := Next(s, steps[0]);
      StepIsSound(s, steps[0]);
      LatestIsMax(s.applied, s.n);
      PrefixIs(s.applied, s.n);
      assert s'.applied == Versions(0, steps[0].m);
      VersionsLatest(steps[0].m, s.n);
      UpsGrowPrefix(s', steps[1..]);
    }
  }

  /** When only Ups come between the check and the reversal of a Down, it reverses the top version
      if and only if none of them applied anything; otherwise it reverses an older migration and
      leaves a gap. */
  lemma LatestIffNoUpBetween(s: State, k: nat, ups: seq<Step>)
    requires Sound(s) && NoGap(s.applied, s.n) && CanStep(s, Check(k)) && Latest(s.applied, s.n) > MIN_SAFE_DOWN
    requires IsRun(Next(s, Check(k)), ups) && OnlyUps(ups)
    ensures var v := Latest(s.applied, s.n);
            var f := Final(Next(s, Check(k)), ups);
            && CanStep(f, Reverse(k)) && v in f.applied && v !in Next(f, Reverse(k)).applied
            && (v == Latest(f.applied, s.n) <==> f.applied == s.applied)
            && (NoGap(Next(f, Reverse(k)).applied, s.n) <==> f.applied == s.applied)
  {
    var v, c := Latest(s.applied, s.n), Next(s, Check(k));
    StepIsSound(s, Check(k));
    UpsGrowPrefix(c, ups);
    var f := Final(c, ups);
    var top := Latest(f.applied, s.n);
    PrefixIs(s.applied, s.n);
    PrefixIs(f.applied, s.n);
    var after := Next(f, Reverse(k)).applied;
    if top == v {
      assert after == Versions(0, v - 1);
      VersionsLatest(v - 1, s.n);
    } else {
      LatestIs(after, s.n, top);
      assert v !in after && v < top;
    }
  }

  /** After such a gap, no Ups change anything. */
  lemma {:induction false} GapBlocksUps(s: State, ups: seq<Step>)
    requires Sound(s) && !NoGap(s.applied, s.n) && IsRun(s, ups) && OnlyUps(ups)
    ensures Final(s, ups) == s
    decreases |ups|
  {
    if ups != [] { GapBlocksUps(Next(s, ups[0]), ups[1..]); }
  }

  /** Version v stays below the latest one through the whole run. */
  ghost predicate StaysCovered(s: State, steps: seq<Step>, v: nat)
    requires IsRun(s, steps)
    decreases |steps|
  {
    v < Latest(s.applied, s.n) && (steps == [] || StaysCovered(Next(s, steps[0]), steps[1..], v))
  }

  /** And whatever Downs and Ups do, a version that is missing stays missing until every version
      above it is reversed. */
  lemma {:induction false} GapStaysWhileCovered(s: State, steps: seq<Step>, v: nat)
    requires Sound(s) && IsRun(s, steps) && StaysCovered(s, steps, v) && 1 <= v && v !in s.applied
    ensures v !in Final(s, steps).applied && !NoGap(Final(s, steps).applied, s.n)
    decreases |steps|
  {
    if steps != [] {
      StepIsSound(s, steps[0]);
      GapStaysWhileCovered(Next(s, steps[0]), steps[1..], v);
    }
  }

  // ----- why the reversal is pinned -----

  /** What Down would do with an unpinned reversal: whatever is latest by then. */
  function NextUnpinned(s: State, k: nat): State
    requires k < |s.processes| && s.processes[k].Checked?
  {
    s.(applied := s.applied - {Latest(s.applied, s.n)}, processes := s.processes[k := Idle])
  }

  /** Two unforced Downs that both pass the check at version 2: pinned, the second one fails;
      unpinned, it would reverse 001. */
  lemma PinMatters(n: nat)
    requires n >= 2
    ensures var s := State(n, {1, 2}, [Idle, Idle]);
            && IsRun(s, [Check(0), Check(1)])
            && var c := Final(s, [Check(0), Check(1)]);
            && c.processes == [Checked(2), Checked(2)]
            && IsRun(c, [Reverse(0), Reverse(1)]) && Final(c, [Reverse(0), Reverse(1)]).applied == {1}
            && NextUnpinned(NextUnpinned(c, 0), 1).applied == {}
  {
    var s := State(n, {1, 2}, [Idle, Idle]);
    LatestIs({1, 2}, n, 2);
    var s1 := Next(s, Check(0));
    assert [Check(0), Check(1)][1..] == [Check(1)] && [Check(1)][1..] == [];
    var c := Next(s1, Check(1));
    assert c == Final(s, [Check(0), Check(1)]);
    assert c.processes == [Checked(2), Checked(2)];
    assert [Reverse(0), Reverse(1)][1..] == [Reverse(1)] && [Reverse(1)][1..] == [];
    var c1 := Next(c, Reverse(0));
    assert c1.applied == {1};
    assert Next(c1, Reverse(1)).applied == {1};
    var u := NextUnpinned(c, 0);
    assert u.applied == {1};
    LatestIs({1}, n, 1);
  }
}
