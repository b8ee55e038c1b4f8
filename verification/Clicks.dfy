// The submit path (internal/server/server.go: SubmitClicks; internal/clicks/clicks.go: Submit):
// its gates and effects for one call, and its throttle as a protocol: the requests of one user,
// each a SETNX, a produce, and a DEL when the produce fails. The throttle key is the user's, so
// requests of other users do not matter.

module Clicks {
  import opened ClickEvent
  import opened Idem
  import opened Token
  import opened Wrappers
  import Controller
  import Work

  // ----- one call -----

  datatype Answer = Accepted | Unauthenticated | InvalidArgument | ChallengeExpired | Exhausted | Unavailable

  /** How the produce ends: acknowledged, or reported as failed although it may be stored. */
  datatype Produce = Acked | Failed(stored: bool)

  /** The replies of Redis and of the broker; the error of the DEL is ignored. */
  datatype Replies = Replies(setnx: Reply, produce: Produce, del: Reply)

  /** The signed payload of a challenge; the interval is in seconds. */
  datatype Payload = Payload(
    id: string, challenge: Challenge, w0: Work.Uint64, l: Work.Uint32, minInterval: nat, maxBatch: nat)

  /** Throttle keys by user, with their expiry if they have one, and the clicks topic. */
  datatype Storage = Storage(throttle: map<string, Option<int>>, topic: seq<Click>)

  datatype Outcome = Outcome(storage: Storage, answer: Answer)

  /** SET with an expiry of zero sets none. */
  function Expiry(now: int, interval: nat): Option<int> {
    if interval == 0 then None else Some(now + interval)
  }

  predicate Throttled(throttle: map<string, Option<int>>, sub: string, now: int) {
    sub in throttle && (throttle[sub].None? || now < throttle[sub].value)
  }

  function SubmitSpec(s: Storage, click: Click, interval: nat, now: int, r: Replies): Outcome {
    var passed := s.throttle[click.sub := Expiry(now, interval)];
    if Throttled(s.throttle, click.sub, now) then
      Outcome(s, if r.setnx.Answered? then Exhausted else Unavailable)
    else if r.setnx.Unanswered? then
      Outcome(if r.setnx.stored then s.(throttle := passed) else s, Unavailable)
    else if r.produce.Acked? then Outcome(Storage(passed, s.topic + [click]), Answer.Accepted)
    else
      var topic := if r.produce.stored then s.topic + [click] else s.topic;
      Outcome(Storage(if Stores(r.del) then passed - {click.sub} else passed, topic), Unavailable)
  }

  /** What stops a call before anything is touched; the payload is absent if the token does not
      parse. */
  function Gate(user: Option<string>, p: Option<Payload>, token: seq<Work.Byte>, count: Work.Uint32, nonce: Work.Uint64,
                hash: Work.Hash, now: int): Option<Answer> {
    if user.None? then Some(Unauthenticated)
    else if p.None? then Some(InvalidArgument)
    else
      var verdict := Verify(p.value.challenge, user.value, now);
      if verdict.Expired? then Some(ChallengeExpired)
      else if verdict != Ok then Some(InvalidArgument)
      else if count == 0 || count > p.value.maxBatch then Some(InvalidArgument)
      else if !Work.Works(hash, token, p.value.w0, p.value.l, count, nonce) then Some(InvalidArgument)
      else None
  }

  /** What issuing a challenge depends on: the pair of the difficulty cache, if it has one, the new
      id, if there is one, the time, and whether signing works. */
  datatype Issuing = Issuing(difficulty: Option<(Work.Uint32, nat)>, id: Option<string>, now: int, signs: bool)

  /** Without a difficulty no challenge is issued. */
  function IssueSpec(sub: string, w0: Work.Uint64, i: Issuing): Option<Payload> {
    if i.difficulty.None? || i.id.None? || !i.signs then None
    else
      var (l, minInterval) := i.difficulty.value;
      Some(Payload(i.id.value, Token.Issue(sub, i.now), w0, l, minInterval, MAX_BATCH))
  }

  /** What the payload must be for the call of a user now: live, the user's own, large enough for the
      count, and worked for. */
  ghost predicate Entitles(p: Payload, user: string, token: seq<Work.Byte>, count: nat, nonce: Work.Uint64,
                           hash: Work.Hash, now: int)
    requires count < Work.POW32
  {
    && now <= p.challenge.exp * SECOND + 30 * SECOND
    && p.challenge.sub == user != ""
    && 1 <= count <= p.maxBatch
    && Work.Meets(Work.HashValue(hash, token, count, nonce), p.w0, p.l, count)
  }

  /** The gates let exactly the entitled calls through; the first that does not gives the answer. */
  lemma EntitledIff(user: string, p: Payload, token: seq<Work.Byte>, count: Work.Uint32, nonce: Work.Uint64,
                    hash: Work.Hash, now: int)
    ensures var gate := Gate(Some(user), Some(p), token, count, nonce, hash, now);
            && (gate.None? <==> Entitles(p, user, token, count, nonce, hash, now))
            && (gate.Some? ==>
                  gate.value == if now > p.challenge.exp * SECOND + 30 * SECOND then ChallengeExpired
                                else InvalidArgument)
  {
    Work.WorksIffMeets(hash, token, p.w0, p.l, count, nonce);
  }

  class Api {
    const w0: Work.Uint64
    var storage: Storage

    constructor (w0: Work.Uint64)
      ensures this.w0 == w0 && storage == Storage(map[], [])
    {
      this.w0 := w0;
      storage := Storage(map[], []);
    }

    method Submit(click: Click, interval: nat, now: int, r: Replies) returns (a: Answer)
      modifies this
      ensures Outcome(storage, a) == SubmitSpec(old(storage), click, interval, now, r)
    {
      var live := Throttled(storage.throttle, click.sub, now);
      if !live && (r.setnx.Answered? || r.setnx.stored) {
        storage := storage.(throttle := storage.throttle[click.sub := Expiry(now, interval)]);
      }
      if r.setnx.Unanswered? { return Unavailable; }
      if live { return Exhausted; }
      if r.produce.Failed? {
        if r.produce.stored { storage := storage.(topic := storage.topic + [click]); }
        if r.del.Answered? || r.del.stored { storage := storage.(throttle := storage.throttle - {click.sub}); }
        return Unavailable;
      }
      storage := storage.(topic := storage.topic + [click]);
      return Answer.Accepted;
    }

    method Issue(sub: string, i: Issuing) returns (p: Option<Payload>)
      ensures p == IssueSpec(sub, w0, i)
    {
      if i.difficulty.None? { return None; }
      var (l, minInterval) := i.difficulty.value;
      if i.id.None? { return None; }
      var challenge := Challenge(sub, i.now, (i.now + TOKEN_TTL) / SECOND);
      if !i.signs { return None; }
      return Some(Payload(i.id.value, challenge, w0, l, minInterval, MAX_BATCH));
    }

    /** The gates in their order, then Submit; an accepted batch is answered with the next challenge,
        if one can be issued. */
    method SubmitClicks(user: Option<string>, name: string, p: Option<Payload>, token: seq<Work.Byte>,
                        count: Work.Uint32,
                        nonce: Work.Uint64, hash: Work.Hash, now: int, r: Replies, i: Issuing)
      returns (a: Answer, next: Option<Payload>)
      modifies this
      ensures a.Accepted? <==>
                && user.Some? && p.Some? && Entitles(p.value, user.value, token, count, nonce, hash, now)
                && !Throttled(old(storage).throttle, user.value, now) && r.setnx.Answered? && r.produce.Acked?
      ensures !(user.Some? && p.Some? && Entitles(p.value, user.value, token, count, nonce, hash, now)) ==>
                storage == old(storage)
      ensures user.None? ==> a == Unauthenticated
      ensures user.Some? && p.None? ==> a == InvalidArgument
      ensures user.Some? && p.Some? && !Entitles(p.value, user.value, token, count, nonce, hash, now) ==>
                a == if now > p.value.challenge.exp * SECOND + 30 * SECOND then ChallengeExpired else InvalidArgument
      ensures next == if a.Accepted? then IssueSpec(user.value, w0, i) else None
      ensures var gate := Gate(user, p, token, count, nonce, hash, now);
              Outcome(storage, a) ==
                if gate.Some? then Outcome(old(storage), gate.value)
                else SubmitSpec(old(storage), Click(user.value, count, p.value.id, now / SECOND, name),
                                p.value.minInterval * SECOND, now, r)
    {
      next := None;
      if user.Some? && p.Some? { EntitledIff(user.value, p.value, token, count, nonce, hash, now); }
      if user.None? { return Unauthenticated, None; }
      if p.None? { return InvalidArgument, None; }
      var verdict := Verify(p.value.challenge, user.value, now);
      if verdict.Expired? { return ChallengeExpired, None; }
      if verdict != Ok { return InvalidArgument, None; }
      if count == 0 || count > p.value.maxBatch { return InvalidArgument, None; }
      var works := Work.CheckWork(hash, token, p.value.w0, p.value.l, count, nonce);
      if !works { return InvalidArgument, None; }
      a := Submit(Click(user.value, count, p.value.id, now / SECOND, name), p.value.minInterval * SECOND, now, r);
      if a.Accepted? { next := Issue(user.value, i); }
    }
  }

  /** An issued challenge carries the cached pair, and is good for its user and nobody else, for at
      least 329 and at most 330 seconds. */
  lemma IssuedIsGood(sub: string, w0: Work.Uint64, i: Issuing, user: string, later: int)
    requires IssueSpec(sub, w0, i).Some?
    ensures var p := IssueSpec(sub, w0, i).value;
            && i.difficulty.Some? && i.difficulty.value.0 == p.l && i.difficulty.value.1 == p.minInterval
            && i.id == Some(p.id) && p.w0 == w0 && p.maxBatch == 10_000
    ensures var verdict := Verify(IssueSpec(sub, w0, i).value.challenge, user, later);
            && (verdict.Ok? ==> user == sub != "" && later <= i.now + 330 * SECOND)
            && (user == sub != "" && later <= i.now + 329 * SECOND ==> verdict.Ok?)
  {
    var whole := (i.now + TOKEN_TTL) / SECOND;
    assert whole * SECOND <= i.now + TOKEN_TTL < (whole + 1) * SECOND;
  }

  /** An accepted batch was not throttled before, is throttled now for its interval, or for good if
      that is zero, and is in the log once more; a call that is not accepted adds at most one
      event, and none if it is throttled. */
  lemma SubmitMeans(s: Storage, click: Click, interval: nat, now: int, later: int, r: Replies)
    requires now <= later
    ensures var out := SubmitSpec(s, click, interval, now, r);
            && (out.answer.Accepted? ==>
                  && !Throttled(s.throttle, click.sub, now) && out.storage.topic == s.topic + [click]
                  && (Throttled(out.storage.throttle, click.sub, later) <==> interval == 0 || later < now + interval))
            && (out.storage.topic == s.topic || out.storage.topic == s.topic + [click])
            && (Throttled(s.throttle, click.sub, now) ==> out.storage == s && !out.answer.Accepted?)
            && (forall sub | sub != click.sub ::
                  Throttled(out.storage.throttle, sub, later) <==> Throttled(s.throttle, sub, later))
  {
  }

  /** When each answer is given: accepted if the key was free and SETNX and produce were
      acknowledged, exhausted if it was held, and otherwise unavailable, with a batch logged if the
      broker stored it all the same. */
  lemma AnswerMeans(s: Storage, click: Click, interval: nat, now: int, r: Replies)
    ensures var out, held := SubmitSpec(s, click, interval, now, r), Throttled(s.throttle, click.sub, now);
            && (out.answer == Answer.Accepted <==> !held && r.setnx.Answered? && r.produce.Acked?)
            && (out.answer == Exhausted <==> held && r.setnx.Answered?)
            && (out.answer == Unavailable <==> r.setnx.Unanswered? || (!held && r.produce.Failed?))
            && out.storage.topic
               == (if !held && r.setnx.Answered? && (r.produce.Acked? || r.produce.stored) then s.topic + [click]
                   else s.topic)
  {
  }

  /** The un-throttle: after a failed produce the user is free at once if the DEL took effect, and else
      throttled for the interval, or for good if that is zero. So is a user whose SETNX was stored
      although its reply was lost. */
  lemma FailureMeans(s: Storage, click: Click, interval: nat, now: int, later: int, r: Replies)
    requires now <= later && !Throttled(s.throttle, click.sub, now)
    ensures var out := SubmitSpec(s, click, interval, now, r);
            var still := Throttled(out.storage.throttle, click.sub, later);
            && (r.setnx.Answered? && r.produce.Failed? && Stores(r.del) ==> !still)
            && (r.setnx.Answered? && r.produce.Failed? && !Stores(r.del) ==>
                  (still <==> interval == 0 || later < now + interval))
            && (r.setnx == Unanswered(true) ==> (still <==> interval == 0 || later < now + interval))
            && (r.setnx == Unanswered(false) ==> out.storage == s)
  {
  }

  // ----- any number of requests of one user -----

  /** The throttle key. */
  datatype Key = Free | Until(expiry: int) | Forever

  /** Passed: the SETNX of the win was made; the produce, and then perhaps the DEL, are to come. */
  datatype Request = Idle | Passed(win: nat)

  /** A SETNX that stored the key, in the order of the run. `undone` is how many wins there were
      when its request deleted the key again, if it has done so. */
  datatype Win = Win(at: int, interval: nat, undone: Undone)
  datatype Undone = Stands | Undone(after: nat)

  datatype State = State(now: int, key: Key, requests: seq<Request>, wins: seq<Win>)

  datatype Step =
    | Tick(d: nat)
    | SetNX(k: nat, interval: nat, answered: bool)   // interval in nanoseconds, from the challenge
    | Finish(k: nat)                                 // produced; or failed, and the DEL failed too
    | Unthrottle(k: nat)                             // the produce failed: DEL

  predicate Live(s: State) {
    s.key.Forever? || (s.key.Until? && s.now < s.key.expiry)
  }

  /** Intervals are at least `least`, or zero; a failed produce is followed by its DEL at most
      `delay` after the SETNX. */
  predicate CanStep(s: State, step: Step, least: nat, delay: nat) {
    match step
    case Tick(_) => true
    case SetNX(k, interval, _) => k < |s.requests| && s.requests[k].Idle? && (interval == 0 || least <= interval)
    case Finish(k) => k < |s.requests| && s.requests[k].Passed?
    case Unthrottle(k) =>
      && k < |s.requests| && s.requests[k].Passed? && s.requests[k].win < |s.wins|
      && s.now <= s.wins[s.requests[k].win].at + delay
  }

  function KeyOf(w: Win): Key {
    if w.interval == 0 then Forever else Until(w.at + w.interval)
  }

  function Next(s: State, step: Step, least: nat, delay: nat): State
    requires CanStep(s, step, least, delay)
  {
    match step
    case Tick(d) => s.(now := s.now + d)
    case SetNX(k, interval, answered) =>
      if Live(s) then s  // ResourceExhausted, or Unavailable
      else
        var w := Win(s.now, interval, Stands);
        s.(key := KeyOf(w), wins := s.wins + [w],
           requests := if answered then s.requests[k := Passed(|s.wins|)] else s.requests)
    case Finish(k) => s.(requests := s.requests[k := Idle])
    case Unthrottle(k) =>
      var w := s.requests[k].win;
      s.(key := Free, requests := s.requests[k := Idle], wins := s.wins[w := s.wins[w].(undone := Undone(|s.wins|))])
  }

  ghost predicate IsRun(s: State, steps: seq<Step>, least: nat, delay: nat)
    decreases |steps|
  {
    steps == [] ||
    (CanStep(s, steps[0], least, delay) && IsRun(Next(s, steps[0], least, delay), steps[1..], least, delay))
  }

  ghost function Final(s: State, steps: seq<Step>, least: nat, delay: nat): State
    requires IsRun(s, steps, least, delay)
    decreases |steps|
  {
    if steps == [] then s else Final(Next(s, steps[0], least, delay), steps[1..], least, delay)
  }

  // ----- one call is a run of this protocol -----

  /** The user's throttle key, as the protocol sees it. */
  function KeyIn(throttle: map<string, Option<int>>, sub: string): Key {
    if sub !in throttle then Free else if throttle[sub].None? then Forever else Until(throttle[sub].value)
  }

  /** The steps a call amounts to. */
  function CallSteps(k: nat, interval: nat, held: bool, r: Replies): seq<Step> {
    [SetNX(k, interval, r.setnx.Answered?)]
    + if held || r.setnx.Unanswered? then []
      else if r.produce.Failed? && Stores(r.del) then [Unthrottle(k)]
      else [Finish(k)]
  }

  /** Submit is SetNX and then Finish, or, after a failed produce, SetNX and Unthrottle: the key that
      the steps leave is the one in the storage, and the request is done. A SETNX that was not
      stored and whose reply was lost is no step at all. */
  lemma SubmitIsSteps(st: Storage, click: Click, interval: nat, r: Replies, s: State, k: nat, least: nat, delay: nat)
    requires k < |s.requests| && s.requests[k].Idle? && (interval == 0 || least <= interval)
    requires s.key == KeyIn(st.throttle, click.sub)
    ensures var held := Throttled(st.throttle, click.sub, s.now);
            var steps := if r.setnx == Unanswered(false) then [] else CallSteps(k, interval, held, r);
            && IsRun(s, steps, least, delay)
            && var f := Final(s, steps, least, delay);
            && f.key == KeyIn(SubmitSpec(st, click, interval, s.now, r).storage.throttle, click.sub)
            && f.requests == s.requests && f.now == s.now
            && (held || r.setnx == Unanswered(false) ==> f == s)
            && (!held && r.setnx != Unanswered(false) ==>
                  && |f.wins| == |s.wins| + 1
                  && (f.wins[|s.wins|].undone.Undone? <==> r.setnx.Answered? && r.produce.Failed? && Stores(r.del)))
  {
    var held := Throttled(st.throttle, click.sub, s.now);
    var steps := CallSteps(k, interval, held, r);
    assert held <==> Live(s);
    assert steps[1..] == [] || (steps[1..] == [steps[1]] && [steps[1]][1..] == []);
    var s1 := Next(s, steps[0], least, delay);
    if !held && r.setnx.Answered? {
      var s2 := Next(s1, steps[1], least, delay);
      assert s1.requests[k := Idle] == s.requests;
      assert steps[1..] == [steps[1]] && IsRun(s1, [steps[1]], least, delay);
      assert Final(s1, [steps[1]], least, delay) == s2;
      assert Final(s, steps, least, delay) == s2;
    } else {
      assert steps[1..] == [];
    }
  }

  function Start(requests: nat): State {
    State(0, Free, seq(requests, _ => Idle), [])
  }

  /** Win i had been undone by the time of win j. */
  predicate UndoneBefore(w: Win, j: nat) {
    w.undone.Undone? && w.undone.after <= j
  }

  predicate Over(w: Win, now: int) {
    w.interval > 0 && w.at + w.interval <= now
  }

  /** What the throttle is for: between a request that passed, and was not undone, and any later
      one lies at least its interval. */
  ghost predicate Spaced(wins: seq<Win>) {
    forall i, j | 0 <= i < j < |wins| :: UndoneBefore(wins[i], j) || Over(wins[i], wins[j].at)
  }

  // ----- prompt failures keep the spacing -----

  /** A win that stands and is not over yet. */
  predicate Holds(s: State, w: Win) {
    w.undone.Stands? && !Over(w, s.now)
  }

  ghost predicate Sound(s: State, least: nat) {
    && Spaced(s.wins)
    && (forall i | 0 <= i < |s.wins| ::
          s.wins[i].at <= s.now && (s.wins[i].interval == 0 || least <= s.wins[i].interval))
    && (forall i | 0 <= i < |s.wins| && s.wins[i].undone.Undone? :: s.wins[i].undone.after <= |s.wins|)
    && (forall i | 0 <= i < |s.wins| && Holds(s, s.wins[i]) :: s.key == KeyOf(s.wins[i]))
    && RequestsFit(s)
  }

  ghost predicate RequestsFit(s: State) {
    && (forall k | 0 <= k < |s.requests| && s.requests[k].Passed? ::
          s.requests[k].win < |s.wins| && s.wins[s.requests[k].win].undone.Stands?)
    && (forall i, j | 0 <= i < j < |s.requests| && s.requests[i].Passed? && s.requests[j].Passed? ::
          s.requests[i] != s.requests[j])
  }

  lemma NewWinSpaced(s: State, least: nat, w: Win)
    requires Sound(s, least) && !Live(s) && w.at == s.now
    ensures Spaced(s.wins + [w])
  {
    var wins := s.wins + [w];
    forall i, j | 0 <= i < j < |wins| ensures UndoneBefore(wins[i], j) || Over(wins[i], wins[j].at) {
      if j == |s.wins| {
        assert !Holds(s, s.wins[i]);
      }
    }
  }

  /** Only the last win can hold, so the key deleted in time is the request's own. */
  lemma OnlyLastHolds(s: State, least: nat)
    requires Sound(s, least)
    ensures forall i | 0 <= i < |s.wins| - 1 :: !Holds(s, s.wins[i])
  {
    forall i | 0 <= i < |s.wins| - 1 ensures !Holds(s, s.wins[i]) {
      var j := |s.wins| - 1;
      assert UndoneBefore(s.wins[i], j) || Over(s.wins[i], s.wins[j].at);
    }
  }

  lemma UnthrottleIsSound(s: State, k: nat, least: nat, delay: nat)
    requires Sound(s, least) && delay < least && CanStep(s, Unthrottle(k), least, delay)
    ensures Sound(Next(s, Unthrottle(k), least, delay), least)
  {
    var w := s.requests[k].win;
    var s' := Next(s, Unthrottle(k), least, delay);
    assert Holds(s, s.wins[w]);
    OnlyLastHolds(s, least);
    forall i | 0 <= i < |s'.wins| ensures !Holds(s', s'.wins[i]) {
      assert i == w || !Holds(s, s.wins[i]);
    }
    forall i, j | 0 <= i < j < |s'.wins| ensures UndoneBefore(s'.wins[i], j) || Over(s'.wins[i], s'.wins[j].at) {
      assert UndoneBefore(s.wins[i], j) || Over(s.wins[i], s.wins[j].at);
    }
  }

  lemma SetNXIsSound(s: State, k: nat, interval: nat, answered: bool, least: nat, delay: nat)
    requires Sound(s, least) && CanStep(s, SetNX(k, interval, answered), least, delay)
    ensures Sound(Next(s, SetNX(k, interval, answered), least, delay), least)
  {
    if !Live(s) {
      var s' := Next(s, SetNX(k, interval, answered), least, delay);
      NewWinSpaced(s, least, Win(s.now, interval, Stands));
      forall i | 0 <= i < |s.wins| ensures !Holds(s', s'.wins[i]) {
        assert !Holds(s, s.wins[i]);
      }
    }
  }

  lemma StepIsSound(s: State, step: Step, least: nat, delay: nat)
    requires Sound(s, least) && delay < least && CanStep(s, step, least, delay)
    ensures Sound(Next(s, step, least, delay), least)
  {
    match step
    case SetNX(k, interval, answered) => SetNXIsSound(s, k, interval, answered, least, delay);
    case Unthrottle(k) => UnthrottleIsSound(s, k, least, delay);
    case _ =>
  }

  lemma {:induction false} RunIsSound(s: State, steps: seq<Step>, least: nat, delay: nat)
    requires Sound(s, least) && delay < least && IsRun(s, steps, least, delay)
    ensures Sound(Final(s, steps, least, delay), least)
    decreases |steps|
  {
    if steps != [] {
      StepIsSound(s, steps[0], least, delay);
      RunIsSound(Next(s, steps[0], least, delay), steps[1..], least, delay);
    }
  }

  /** An interval of zero, which a challenge issued during the first refresh of a replica can carry,
      leaves a key without expiry: once its batch is through, the user is locked out for good. */
  lemma {:induction false} ZeroIntervalLocksOut(s: State, steps: seq<Step>, least: nat, delay: nat, i: nat)
    requires Sound(s, least) && delay < least && IsRun(s, steps, least, delay) && i < |s.wins|
    requires s.wins[i].interval == 0 && s.wins[i].undone.Stands?
    requires forall k | 0 <= k < |s.requests| :: s.requests[k] != Passed(i)
    ensures Final(s, steps, least, delay).wins == s.wins && Final(s, steps, least, delay).key == Forever
    decreases |steps|
  {
    assert Holds(s, s.wins[i]);
    if steps != [] {
      OnlyLastHolds(s, least);
      StepIsSound(s, steps[0], least, delay);
      ZeroIntervalLocksOut(Next(s, steps[0], least, delay), steps[1..], least, delay, i);
    }
  }

  // ----- late failures do not -----

  /** The first request's DEL comes when its own key has expired and the second request holds
      one: it deletes that one, and the third request passes at once. */
  lemma LateDeleteLetsPass(least: nat, delay: nat)
    requires 0 < least <= delay
    ensures var steps := [SetNX(0, least, true), Tick(least), SetNX(1, least, true), Unthrottle(0),
                          SetNX(2, least, true)];
            IsRun(Start(3), steps, least, delay) && !Spaced(Final(Start(3), steps, least, delay).wins)
  {
    var s0 := Start(3);
    var s1 := Next(s0, SetNX(0, least, true), least, delay);
    var s2 := Next(s1, Tick(least), least, delay);
    var s3 := Next(s2, SetNX(1, least, true), least, delay);
    var s4 := Next(s3, Unthrottle(0), least, delay);
    var s5 := Next(s4, SetNX(2, least, true), least, delay);
    assert s5.wins == [Win(0, least, Undone(2)), Win(least, least, Stands), Win(least, least, Stands)];
    assert !UndoneBefore(s5.wins[1], 2) && !Over(s5.wins[1], s5.wins[2].at);
    HopsAreRun([s0, s1, s2, s3, s4, s5],
               [SetNX(0, least, true), Tick(least), SetNX(1, least, true), Unthrottle(0), SetNX(2, least, true)],
               least, delay);
  }

  lemma {:induction false} HopsAreRun(states: seq<State>, steps: seq<Step>, least: nat, delay: nat)
    requires |states| == |steps| + 1
    requires forall n | 0 <= n < |steps| ::
               CanStep(states[n], steps[n], least, delay) && Next(states[n], steps[n], least, delay) == states[n + 1]
    ensures IsRun(states[0], steps, least, delay) && Final(states[0], steps, least, delay) == states[|steps|]
    decreases |steps|
  {
    if steps != [] { HopsAreRun(states[1..], steps[1..], least, delay); }
  }

  ghost predicate AlwaysSpaced(least: nat, delay: nat) {
    forall requests: nat, steps | IsRun(Start(requests), steps, least, delay) ::
      Spaced(Final(Start(requests), steps, least, delay).wins)
  }

  /** The throttle keeps the minimum interval between a user's batches in every run if and only
      if failed produces are undone before the least interval is over. */
  lemma SpacedIffPromptFailures(least: nat, delay: nat)
    requires least > 0
    ensures AlwaysSpaced(least, delay) <==> delay < least
  {
    if delay < least {
      forall requests: nat, steps | IsRun(Start(requests), steps, least, delay)
        ensures Spaced(Final(Start(requests), steps, least, delay).wins)
      {
        RunIsSound(Start(requests), steps, least, delay);
      }
    } else {
      LateDeleteLetsPass(least, delay);
    }
  }

  /** How long the producer tries before it reports a failure. */
  const PRODUCE_TIMEOUT := 10 * SECOND

  /** As configured, failures may come too late: the producer tries for longer than the interval
      at the lowest difficulty, so some run lets a batch pass too early. Were the producer given
      less time than any interval, none would. */
  lemma ConfiguredTimeoutIsTooLong(timeout: nat)
    ensures !AlwaysSpaced(Controller.MinInterval(Controller.MIN_L) * SECOND, PRODUCE_TIMEOUT)
    ensures AlwaysSpaced(Controller.MinInterval(Controller.MIN_L) * SECOND, timeout) <==> timeout < 2 * SECOND
  {
    Controller.LadderClimbs(Controller.MIN_L, Controller.MAX_L);
    SpacedIffPromptFailures(2 * SECOND, PRODUCE_TIMEOUT);
    SpacedIffPromptFailures(2 * SECOND, timeout);
  }
}
