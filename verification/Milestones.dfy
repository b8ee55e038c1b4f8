// Global milestones (internal/achievements/achievements.go: Milestones) and their claims
// (internal/counterworker/counterworker.go: claimMilestones): the loop itself, and any number
// of workers running it side by side, one Redis command at a time.

module Milestones {

  const MILESTONES: seq<nat> := [1_000, 100_000, 1_000_000, 10_000_000, 1_000_000_000]

  lemma Ascending()
    ensures forall i, j | 0 <= i < j < |MILESTONES| :: MILESTONES[i] < MILESTONES[j]
  {
  }

  /** The reached milestones. */
  function Reached(total: nat): set<nat> {
    set m | m in MILESTONES && m <= total
  }

  /** How many milestones from index i on come before the first one not reached. */
  function Count(total: nat, i: nat): (n: nat)
    requires i <= |MILESTONES|
    ensures i <= n <= |MILESTONES|
    decreases |MILESTONES| - i
  {
    if i == |MILESTONES| || total < MILESTONES[i] then i else Count(total, i + 1)
  }

  ghost function First(n: nat): set<nat>
    requires n <= |MILESTONES|
  {
    set i | 0 <= i < n :: MILESTONES[i]
  }

  /** Those of the first n milestones that nobody had claimed, in ascending order. */
  function Unclaimed(claimed: set<nat>, n: nat): seq<nat>
    requires n <= |MILESTONES|
  {
    if n == 0 then []
    else Unclaimed(claimed, n - 1) + if MILESTONES[n - 1] in claimed then [] else [MILESTONES[n - 1]]
  }

  lemma {:induction false} CountIsReached(total: nat, i: nat)
    requires i <= |MILESTONES|
    ensures forall j | i <= j < |MILESTONES| :: j < Count(total, i) <==> MILESTONES[j] <= total
    decreases |MILESTONES| - i
  {
    Ascending();
    if i < |MILESTONES| && MILESTONES[i] <= total { CountIsReached(total, i + 1); }
  }

  /** What a pass without errors claims is what was reached. */
  lemma FirstIsReached(total: nat)
    ensures First(Count(total, 0)) == Reached(total)
  {
    CountIsReached(total, 0);
    forall m | m in MILESTONES && m <= total ensures m in First(Count(total, 0)) {
      var j :| 0 <= j < |MILESTONES| && MILESTONES[j] == m;
      assert j < Count(total, 0);
    }
  }

  /** The frames are the milestones that are newly claimed, each once. */
  ghost predicate Announces(frames: seq<nat>, claimed: set<nat>, n: nat)
    requires n <= |MILESTONES|
  {
    && (forall m :: m in frames <==> m in First(n) && m !in claimed)
    && forall i, j | 0 <= i < j < |frames| :: frames[i] < frames[j]
  }

  lemma {:induction false} UnclaimedAnnounces(claimed: set<nat>, n: nat)
    requires n <= |MILESTONES|
    ensures Announces(Unclaimed(claimed, n), claimed, n)
  {
    if n > 0 {
      var before := Unclaimed(claimed, n - 1);
      UnclaimedAnnounces(claimed, n - 1);
      FirstPush(n - 1);
      forall i | 0 <= i < |before| ensures before[i] < MILESTONES[n - 1] {
        assert before[i] in before;
      }
    }
  }

  lemma NoneFirst(claimed: set<nat>)
    ensures First(0) == {} && Unclaimed(claimed, 0) == []
  {
  }

  lemma CountPush(total: nat, claimed: set<nat>, n: nat)
    requires n <= |MILESTONES|
    ensures n == |MILESTONES| || total < MILESTONES[n] ==> Count(total, n) == n
    ensures n < |MILESTONES| && MILESTONES[n] <= total ==> Count(total, n) == Count(total, n + 1)
    ensures n < |MILESTONES| ==>
              Unclaimed(claimed, n + 1)
                == Unclaimed(claimed, n) + if MILESTONES[n] in claimed then [] else [MILESTONES[n]]
  {
  }

  lemma FirstPush(n: nat)
    requires n < |MILESTONES|
    ensures First(n + 1) == First(n) + {MILESTONES[n]}
    ensures forall m | m in First(n) :: m < MILESTONES[n]
  {
    Ascending();
  }

  /** One worker's pass; `errAt` is the index of a SETNX that fails, if there is one, and
      `stored` says whether that command took effect. */
  class Claims {
    var claimed: set<nat>        // the milestone:<threshold> keys
    var announced: seq<nat>      // milestone frames produced to sse.counter

    constructor ()
      ensures claimed == {} && announced == []
    {
      claimed, announced := {}, [];
    }

    /** Claims the reached milestones and announces exactly those this pass won; after an
        error, only what comes before it, and not the one whose SETNX failed. */
    method ClaimMilestones(total: nat, errAt: nat, stored: bool)
      modifies this
      ensures var hit := errAt < Count(total, 0);
              var n := if hit then errAt else Count(total, 0);
              && claimed == old(claimed) + First(n) + (if hit && stored then {MILESTONES[errAt]} else {})
              && announced == old(announced) + Unclaimed(old(claimed), n)
              && Announces(Unclaimed(old(claimed), n), old(claimed), n)
    {
      hide Announces, First, Count, Unclaimed;
      UnclaimedAnnounces(claimed, if errAt < Count(total, 0) then errAt else Count(total, 0));
      NoneFirst(claimed);
      var i := 0;
      while i < |MILESTONES|
        invariant 0 <= i <= |MILESTONES| && i <= errAt + 1
        invariant i <= Count(total, 0) == Count(total, i)
        invariant errAt < i ==> errAt >= Count(total, 0)
        invariant claimed == old(claimed) + First(i)
        invariant announced == old(announced) + Unclaimed(old(claimed), i)
      {
        var m := MILESTONES[i];
        CountPush(total, old(claimed), i);
        if total < m { return; }
        if i == errAt {
          if stored { claimed := claimed + {m}; }
          return;
        }
        FirstPush(i);
        if m !in claimed {
          claimed := claimed + {m};
          announced := announced + [m];
        }
        i := i + 1;
      }
      CountPush(total, old(claimed), |MILESTONES|);
    }
  }

  // ----- any number of workers -----

  /** Where a worker stands: it read `total` and comes to MILESTONES[next]. */
  datatype Pass = Idle | Claiming(total: nat, next: nat) | Announcing(total: nat, next: nat)

  datatype State = State(total: nat, claimed: set<nat>, announced: seq<nat>, passes: seq<Pass>)

  datatype Step =
    | Clicks(n: nat)                      // counter:total grows
    | Read(k: nat)                        // tick reads counter:total and starts a pass
    | Try(k: nat)                         // the pass ends, or SETNX
    | TryFault(k: nat, stored: bool)      // SETNX fails: the pass is given up
    | Announce(k: nat, delivered: bool)   // the frame of a won claim is produced, or lost
    | Crash(k: nat)

  predicate CanStep(s: State, step: Step) {
    match step
    case Clicks(_) => true
    case Read(k) => k < |s.passes| && s.passes[k].Idle?
    case Try(k) => k < |s.passes| && s.passes[k].Claiming?
    case TryFault(k, _) => k < |s.passes| && s.passes[k].Claiming? && !Over(s.passes[k])
    case Announce(k, _) => k < |s.passes| && s.passes[k].Announcing? && s.passes[k].next < |MILESTONES|
    case Crash(k) => k < |s.passes|
  }

  /** The pass has come to the end of the list or to a milestone not reached. */
  predicate Over(p: Pass)
    requires p.Claiming?
  {
    p.next >= |MILESTONES| || p.total < MILESTONES[p.next]
  }

  function Next(s: State, step: Step): State
    requires CanStep(s, step)
  {
    match step
    case Clicks(n) => s.(total := s.total + n)
    case Read(k) => s.(passes := s.passes[k := Claiming(s.total, 0)])
    case Try(k) =>
      var p := s.passes[k];
      if Over(p) then s.(passes := s.passes[k := Idle])
      else if MILESTONES[p.next] in s.claimed then s.(passes := s.passes[k := Claiming(p.total, p.next + 1)])
      else s.(claimed := s.claimed + {MILESTONES[p.next]}, passes := s.passes[k := Announcing(p.total, p.next)])
    case TryFault(k, stored) =>
      s.(claimed := if stored then s.claimed + {MILESTONES[s.passes[k].next]} else s.claimed,
         passes := s.passes[k := Idle])
    case Announce(k, delivered) =>
      var p := s.passes[k];
      s.(announced := if delivered then s.announced + [MILESTONES[p.next]] else s.announced,
         passes := s.passes[k := Claiming(p.total, p.next + 1)])
    case Crash(k) => s.(passes := s.passes[k := Idle])
  }

  ghost predicate IsRun(s: State, steps: seq<Step>)
    decreases |steps|
  {
    steps == [] || (CanStep(s, steps[0]) && IsRun(Next(s, steps[0]), steps[1..]))
  }

  ghost function Final(s: State, steps: seq<Step>): State
    requires IsRun(s, steps)
    decreases |steps|
  {
    if steps == [] then s else Final(Next(s, steps[0]), steps[1..])
  }

  // ----- one pass that nothing disturbs -----

  lemma RunStep(s: State, step: Step, rest: seq<Step>)
    requires CanStep(s, step) && IsRun(Next(s, step), rest)
    ensures IsRun(s, [step] + rest) && Final(s, [step] + rest) == Final(Next(s, step), rest)
  {
    assert ([step] + rest)[1..] == rest;
  }

  lemma NoSteps(s: State)
    ensures IsRun(s, []) && Final(s, []) == s
  {
  }

  /** From milestone i on; `held` is what was claimed and `before` what was announced when the pass
      began. */
  lemma {:induction false} RestIsSteps(s: State, k: nat, i: nat, held: set<nat>, before: seq<nat>, errAt: nat,
                                       stored: bool)
    returns (steps: seq<Step>)
    requires k < |s.passes| && i <= |MILESTONES| && i <= errAt
    requires s.passes[k].Claiming? && s.passes[k].next == i
    requires i <= Count(s.passes[k].total, 0) == Count(s.passes[k].total, i)
    requires s.claimed == held + First(i) && s.announced == before + Unclaimed(held, i)
    ensures IsRun(s, steps)
    ensures var f := Final(s, steps);
            var count := Count(s.passes[k].total, 0);
            var hit := errAt < count;
            var n := if hit then errAt else count;
            && f.claimed == held + First(n) + (if hit && stored then {MILESTONES[errAt]} else {})
            && f.announced == before + Unclaimed(held, n) && f.passes == s.passes[k := Idle] && f.total == s.total
    decreases |MILESTONES| - i
  {
    hide First, IsRun, Final, Count, Unclaimed;
    CountPush(s.passes[k].total, held, i);
    if Over(s.passes[k]) {
      NoSteps(Next(s, Try(k)));
      RunStep(s, Try(k), []);
      steps := [Try(k)] + [];
    } else if i == errAt {
      NoSteps(Next(s, TryFault(k, stored)));
      RunStep(s, TryFault(k, stored), []);
      steps := [TryFault(k, stored)] + [];
    } else {
      var m := MILESTONES[i];
      var s1 := Next(s, Try(k));
      FirstPush(i);
      var passed := s.passes[k := Claiming(s.passes[k].total, i + 1)];
      if m in s.claimed {
        assert s1.passes == passed && s1.claimed == held + First(i + 1);
        var rest := RestIsSteps(s1, k, i + 1, held, before, errAt, stored);
        RunStep(s, Try(k), rest);
        steps := [Try(k)] + rest;
      } else {
        var s2 := Next(s1, Announce(k, true));
        assert s2.passes == passed && s2.claimed == held + First(i + 1);
        assert s2.announced == before + Unclaimed(held, i + 1);
        var rest := RestIsSteps(s2, k, i + 1, held, before, errAt, stored);
        RunStep(s1, Announce(k, true), rest);
        RunStep(s, Try(k), [Announce(k, true)] + rest);
        steps := [Try(k)] + ([Announce(k, true)] + rest);
      }
      assert passed[k := Idle] == s.passes[k := Idle];
    }
  }

  /** claimMilestones, undisturbed, is a pass of the protocol: what it claims and announces is what
      the steps do. */
  lemma PassIsSteps(s: State, k: nat, errAt: nat, stored: bool) returns (steps: seq<Step>)
    requires k < |s.passes| && s.passes[k].Idle?
    ensures IsRun(s, steps)
    ensures var f := Final(s, steps);
            var count := Count(s.total, 0);
            var hit := errAt < count;
            var n := if hit then errAt else count;
            && f.claimed == s.claimed + First(n) + (if hit && stored then {MILESTONES[errAt]} else {})
            && f.announced == s.announced + Unclaimed(s.claimed, n) && f.passes == s.passes && f.total == s.total
  {
    var s1 := Next(s, Read(k));
    var rest := RestIsSteps(s1, k, 0, s.claimed, s.announced, errAt, stored);
    RunStep(s, Read(k), rest);
    steps := [Read(k)] + rest;
    assert s1.passes[k := Idle] == s.passes;
  }

  /** No workers have passed yet. */
  function Start(workers: nat, total: nat): State {
    State(total, {}, [], seq(workers, _ => Idle))
  }

  ghost predicate ClaimedIsPrefix(s: State) {
    && (forall m | m in s.claimed :: m in MILESTONES && m <= s.total)
    && (forall i, j | 0 <= i < j < |MILESTONES| && MILESTONES[j] in s.claimed :: MILESTONES[i] in s.claimed)
  }

  ghost predicate AnnouncedOnce(s: State) {
    && (forall i | 0 <= i < |s.announced| :: s.announced[i] in s.claimed)
    && (forall i, j | 0 <= i < j < |s.announced| :: s.announced[i] != s.announced[j])
  }

  ghost predicate PassFits(s: State, p: Pass) {
    !p.Idle? ==>
      && p.total <= s.total && p.next <= |MILESTONES|
      && (forall i | 0 <= i < p.next :: MILESTONES[i] in s.claimed)
      && (p.Announcing? ==>
            p.next < |MILESTONES| && MILESTONES[p.next] in s.claimed && MILESTONES[p.next] !in s.announced)
  }

  ghost predicate Inv(s: State) {
    && ClaimedIsPrefix(s) && AnnouncedOnce(s)
    && (forall k | 0 <= k < |s.passes| :: PassFits(s, s.passes[k]))
    && (forall j, k | 0 <= j < k < |s.passes| && s.passes[j].Announcing? && s.passes[k].Announcing? ::
          s.passes[j].next != s.passes[k].next)
  }

  /** More clicks or claims take nothing from a pass that is not announcing. */
  lemma PassStillFits(s: State, s': State, p: Pass)
    requires PassFits(s, p) && s.total <= s'.total && s.claimed <= s'.claimed
    requires p.Announcing? && p.next < |MILESTONES| ==> MILESTONES[p.next] !in s'.announced
    ensures PassFits(s', p)
  {
  }

  lemma ClaimKeepsPrefix(s: State, s': State, n: nat)
    requires ClaimedIsPrefix(s) && n < |MILESTONES| && s'.total == s.total && MILESTONES[n] <= s.total
    requires forall i | 0 <= i < n :: MILESTONES[i] in s.claimed
    requires s'.claimed == s.claimed + {MILESTONES[n]}
    ensures ClaimedIsPrefix(s')
  {
    Ascending();
  }

  lemma NextKeepsClaims(s: State, step: Step)
    requires Inv(s) && CanStep(s, step)
    ensures ClaimedIsPrefix(Next(s, step)) && AnnouncedOnce(Next(s, step))
  {
    var s' := Next(s, step);
    if !step.Clicks? {
      assert PassFits(s, s.passes[step.k]);
      if s'.claimed != s.claimed {
        ClaimKeepsPrefix(s, s', s.passes[step.k].next);
      }
    }
  }

  lemma NextKeepsPasses(s: State, step: Step, k: nat)
    requires Inv(s) && CanStep(s, step) && k < |s.passes|
    ensures PassFits(Next(s, step), Next(s, step).passes[k])
  {
    Ascending();
    var s' := Next(s, step);
    assert PassFits(s, s.passes[k]);
    if !step.Clicks? {
      assert PassFits(s, s.passes[step.k]);
    }
    if step.Clicks? || step.k != k {
      PassStillFits(s, s', s.passes[k]);
    }
  }

  lemma NextKeepsInv(s: State, step: Step)
    requires Inv(s) && CanStep(s, step)
    ensures Inv(Next(s, step))
  {
    NextKeepsClaims(s, step);
    var s' := Next(s, step);
    forall k | 0 <= k < |s'.passes| ensures PassFits(s', s'.passes[k]) {
      NextKeepsPasses(s, step, k);
    }
    if !step.Clicks? {
      assert PassFits(s, s.passes[step.k]);
    }
    forall j, k | 0 <= j < k < |s'.passes| && s'.passes[j].Announcing? && s'.passes[k].Announcing?
      ensures s'.passes[j].next != s'.passes[k].next
    {
      assert PassFits(s, s.passes[j]) && PassFits(s, s.passes[k]);
    }
  }

  lemma {:induction false} RunKeepsInv(s: State, steps: seq<Step>)
    requires Inv(s) && IsRun(s, steps)
    ensures Inv(Final(s, steps))
    decreases |steps|
  {
    if steps != [] {
      NextKeepsInv(s, steps[0]);
      RunKeepsInv(Next(s, steps[0]), steps[1..]);
    }
  }

  /** With any number of workers, crashes and failed commands, at every moment: the claimed
      milestones are the first so many of the list, all of them reached; each is announced at
      most once, and only if claimed; and a worker whose pass ends without an error leaves
      every milestone claimed that the total it read had reached. */
  lemma ClaimsAreSafe(workers: nat, total: nat, steps: seq<Step>, k: nat)
    requires IsRun(Start(workers, total), steps)
    ensures var s := Final(Start(workers, total), steps);
            && ClaimedIsPrefix(s) && AnnouncedOnce(s)
            && (k < |s.passes| && s.passes[k].Claiming? && Over(s.passes[k]) ==>
                  Reached(s.passes[k].total) <= s.claimed)
  {
    RunKeepsInv(Start(workers, total), steps);
    var s := Final(Start(workers, total), steps);
    Ascending();
    if k < |s.passes| {
      assert PassFits(s, s.passes[k]);
    }
  }
}
