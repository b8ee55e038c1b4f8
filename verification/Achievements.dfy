// Personal achievements (internal/achievements/achievements.go: crosses, Evaluate) and their
// claims by the progress worker (internal/progressworker/progressworker.go: applyEvent).

module Achievements {
  import opened Calendar
  import Troll

  datatype Threshold = Threshold(x: nat, id: string)

  const THRESHOLDS: seq<Threshold> := [
    Threshold(1, "mvh"), Threshold(10, "ten"), Threshold(42, "deep_thought"), Threshold(69, "nice"),
    Threshold(100, "century"), Threshold(314, "irrational"), Threshold(420, "blaze"), Threshold(666, "cursed"),
    Threshold(1_000, "comma"), Threshold(1_337, "elite"), Threshold(9_001, "over9000"),
    Threshold(10_000, "carpal"), Threshold(100_000, "stretch")]

  /** old total < x <= new total, where the old total is total - batch but not below zero. */
  predicate Crosses(total: nat, batch: nat, x: nat) {
    var before := if total > batch then total - batch else 0;
    before < x <= total
  }

  /** The ids of the crossed thresholds, in their order. */
  function Crossed(ths: seq<Threshold>, total: nat, batch: nat): seq<string> {
    if ths == [] then []
    else
      var last := ths[|ths| - 1];
      Crossed(ths[..|ths| - 1], total, batch) + if Crosses(total, batch, last.x) then [last.id] else []
  }

  function BatchRules(batch: nat): seq<string> {
    (if batch >= 500 then ["bigbatch"] else []) + (if batch >= 2_000 then ["chonk"] else [])
    + (if batch == 10_000 then ["maxbatch"] else [])
  }

  function HourRule(hour: nat): seq<string> {
    if hour == 0 then ["witching"] else if hour == 3 then ["night"]
    else if hour == 5 then ["dawn"] else if hour == 12 then ["lunch"] else []
  }

  /** What Evaluate returns, as ids. */
  function Earned(ths: seq<Threshold>, total: nat, batch: nat, now: nat): seq<string> {
    Crossed(ths, total, batch) + BatchRules(batch) + HourRule(HourHCM(now))
  }

  method Evaluate(ths: seq<Threshold>, total: nat, batch: nat, now: nat) returns (out: seq<string>)
    ensures out == Earned(ths, total, batch, now)
  {
    out := [];
    for i := 0 to |ths|
      invariant out == Crossed(ths[..i], total, batch)
    {
      assert ths[..i + 1][..i] == ths[..i];
      if Crosses(total, batch, ths[i].x) { out := out + [ths[i].id]; }
    }
    assert ths[..|ths|] == ths;
    ghost var crossed := out;
    if batch >= 500 { out := out + ["bigbatch"]; }
    if batch >= 2_000 { out := out + ["chonk"]; }
    if batch == 10_000 { out := out + ["maxbatch"]; }
    assert out == crossed + BatchRules(batch);
    var hour := HourHCM(now);
    if hour == 0 { out := out + ["witching"]; }
    else if hour == 3 { out := out + ["night"]; }
    else if hour == 5 { out := out + ["dawn"]; }
    else if hour == 12 { out := out + ["lunch"]; }
  }

  /** One applied event of a user: its size, its time, and the ids among those it proposes
      whose claim never reached Redis, because a command failed or the process died. */
  datatype Batch = Batch(count: nat, now: nat, missed: set<string>)

  function Total(batches: seq<Batch>): nat {
    if batches == [] then 0 else Total(batches[..|batches| - 1]) + batches[|batches| - 1].count
  }

  /** All ids one event proposes to claim: achievements, then hidden unlocks. */
  ghost function Proposed(ths: seq<Threshold>, total: nat, b: Batch): seq<string> {
    Earned(ths, total, b.count, b.now) + Troll.Hidden(total, b.now, false)
  }

  /** What an event that brings the total here proposes to claim. */
  type Rules = (nat, Batch) -> seq<string>

  ghost function RulesOf(ths: seq<Threshold>): Rules {
    (total: nat, b: Batch) => Proposed(ths, total, b)
  }

  // ----- which events propose a threshold -----

  const OTHERS: seq<string> := [
    "bigbatch", "chonk", "maxbatch", "witching", "night", "dawn", "lunch",
    "palindrome", "power_of_two", "repdigit", "clock_420", "milestone_second"]

  /** Thresholds are positive; their ids differ from each other and from all other ids. */
  ghost predicate IsCatalog(ths: seq<Threshold>) {
    && (forall i | 0 <= i < |ths| :: ths[i].x > 0 && ths[i].id !in OTHERS)
    && forall i, j | 0 <= i < j < |ths| :: ths[i].id != ths[j].id
  }

  lemma ThresholdsAreCatalog()
    ensures IsCatalog(THRESHOLDS)
  {
    forall i | 0 <= i < |THRESHOLDS| ensures THRESHOLDS[i].x > 0 && THRESHOLDS[i].id !in OTHERS {
      forall k | 0 <= k < |OTHERS| ensures OTHERS[k] != THRESHOLDS[i].id {
        NotOther(i, k);
      }
    }
    forall i, j | 0 <= i < j < |THRESHOLDS| ensures THRESHOLDS[i].id != THRESHOLDS[j].id {
      DistinctIds(i, j);
    }
  }

  lemma NotOther(i: nat, k: nat)
    requires i < |THRESHOLDS| && k < |OTHERS|
    ensures OTHERS[k] != THRESHOLDS[i].id
  {
    var a, b := OTHERS[k], THRESHOLDS[i].id;
    assert |a| != |b| || a[0] != b[0] || a[1] != b[1];
  }

  lemma DistinctIds(i: nat, j: nat)
    requires i < j < |THRESHOLDS|
    ensures THRESHOLDS[i].id != THRESHOLDS[j].id
  {
    var a, b := THRESHOLDS[i].id, THRESHOLDS[j].id;
    assert |a| != |b| || a[0] != b[0] || a[1] != b[1];
  }

  lemma RulesAreOthers(b: Batch, id: string)
    requires id in BatchRules(b.count) || id in HourRule(HourHCM(b.now))
    ensures id in OTHERS
  {
    assert OTHERS[0] == "bigbatch" && OTHERS[1] == "chonk" && OTHERS[2] == "maxbatch";
    assert OTHERS[3] == "witching" && OTHERS[4] == "night" && OTHERS[5] == "dawn" && OTHERS[6] == "lunch";
  }

  lemma HiddenAreOthers(total: nat, now: nat, id: string)
    requires id in Troll.Hidden(total, now, false)
    ensures id in OTHERS
  {
    assert OTHERS[7] == "palindrome" && OTHERS[8] == "power_of_two";
    assert OTHERS[9] == "repdigit" && OTHERS[10] == "clock_420";
  }

  /** Seconds since midnight in Ho Chi Minh City. */
  function SinceMidnight(now: nat): int {
    now - Midnight(DayOf(now))
  }

  lemma HourIs(now: nat)
    ensures 0 <= SinceMidnight(now) < 86_400
    ensures HourHCM(now) == SinceMidnight(now) / 3600 && MinuteHCM(now) == SinceMidnight(now) % 3600 / 60
  {
    DayBounds(now);
    var d, t := DayOf(now), SinceMidnight(now);
    ClockIs(now + HCM_OFFSET, d, t / 3600, t % 3600 / 60, t % 3600 % 60);
  }

  lemma ClockIs(x: nat, d: nat, hour: nat, minute: nat, second: nat)
    requires x == 86_400 * d + 3600 * hour + 60 * minute + second && hour < 24 && minute < 60 && second < 60
    ensures x / 3600 % 24 == hour && x / 60 % 60 == minute
  {
    DivUnique(x, 3600, 24 * d + hour, 60 * minute + second);
    DivUnique(24 * d + hour, 24, d, hour);
    DivUnique(x, 60, 1440 * d + 60 * hour + minute, second);
    DivUnique(1440 * d + 60 * hour + minute, 60, 24 * d + hour, minute);
  }

  /** When the rules of a batch's size and hour give their ids, next to any catalog of thresholds: 500
      clicks, 2,000 clicks, 10,000 clicks; the hours from 0, 3, 5 and 12 o'clock. */
  lemma OthersEarned(ths: seq<Threshold>, total: nat, batch: nat, now: nat)
    requires IsCatalog(ths)
    ensures var out, t := Earned(ths, total, batch, now), SinceMidnight(now);
            && ("bigbatch" in out <==> batch >= 500)
            && ("chonk" in out <==> batch >= 2_000)
            && ("maxbatch" in out <==> batch == 10_000)
            && ("witching" in out <==> t < 3_600)
            && ("night" in out <==> 10_800 <= t < 14_400)
            && ("dawn" in out <==> 18_000 <= t < 21_600)
            && ("lunch" in out <==> 43_200 <= t < 46_800)
  {
    HourIs(now);
    SizeRules(batch);
    HourRules(HourHCM(now));
    forall k | 0 <= k < 7 ensures OTHERS[k] !in Crossed(ths, total, batch) {
      CrossedHas(ths, total, batch, OTHERS[k]);
    }
    assert OTHERS[0] == "bigbatch" && OTHERS[1] == "chonk" && OTHERS[2] == "maxbatch";
    assert OTHERS[3] == "witching" && OTHERS[4] == "night" && OTHERS[5] == "dawn" && OTHERS[6] == "lunch";
  }

  /** When a total and its time give hidden unlocks: from 100 on, when it reads the same backwards or
      repeats one digit; from 1024 on, when it is a power of two; and in the minutes of 4:20 and
      16:20. */
  lemma HiddenEarned(total: nat, now: nat, milestone: bool)
    ensures var out, t := Troll.Hidden(total, now, milestone), SinceMidnight(now);
            && ("palindrome" in out <==> total >= 100 && Troll.Flip(total) == total)
            && ("power_of_two" in out <==> total >= 1_024 && Troll.IsPow2(total))
            && ("repdigit" in out <==> total >= 100 && Troll.Repeats(total))
            && ("clock_420" in out <==> 15_600 <= t < 15_660 || 58_800 <= t < 58_860)
            && ("milestone_second" in out <==> milestone)
  {
    HourIs(now);
    TotalEarned(total);
  }

  lemma TotalEarned(total: nat)
    ensures var out := Troll.OfTotal(total);
            && ("palindrome" in out <==> total >= 100 && Troll.Flip(total) == total)
            && ("power_of_two" in out <==> total >= 1_024 && Troll.IsPow2(total))
            && ("repdigit" in out <==> total >= 100 && Troll.Repeats(total))
            && "clock_420" !in out && "milestone_second" !in out
  {
  }

  lemma SizeRules(batch: nat)
    ensures "bigbatch" in BatchRules(batch) <==> batch >= 500
    ensures "chonk" in BatchRules(batch) <==> batch >= 2_000
    ensures "maxbatch" in BatchRules(batch) <==> batch == 10_000
    ensures forall k | 3 <= k < 7 :: OTHERS[k] !in BatchRules(batch)
  {
    assert OTHERS[3] == "witching" && OTHERS[4] == "night" && OTHERS[5] == "dawn" && OTHERS[6] == "lunch";
  }

  lemma HourRules(hour: nat)
    ensures "witching" in HourRule(hour) <==> hour == 0
    ensures "night" in HourRule(hour) <==> hour == 3
    ensures "dawn" in HourRule(hour) <==> hour == 5
    ensures "lunch" in HourRule(hour) <==> hour == 12
    ensures forall k | 0 <= k < 3 :: OTHERS[k] !in HourRule(hour)
  {
    assert OTHERS[0] == "bigbatch" && OTHERS[1] == "chonk" && OTHERS[2] == "maxbatch";
  }

  lemma {:induction false} CrossedHas(ths: seq<Threshold>, total: nat, batch: nat, id: string)
    ensures id in Crossed(ths, total, batch)
       <==> exists i :: 0 <= i < |ths| && ths[i].id == id && Crosses(total, batch, ths[i].x)
  {
    if ths != [] { CrossedHas(ths[..|ths| - 1], total, batch, id); }
  }

  lemma ProposedHas(ths: seq<Threshold>, total: nat, b: Batch, j: nat)
    requires IsCatalog(ths) && j < |ths|
    ensures ths[j].id in Proposed(ths, total, b) <==> Crosses(total, b.count, ths[j].x)
  {
    var id := ths[j].id;
    CrossedHas(ths, total, b.count, id);
    if id in BatchRules(b.count) || id in HourRule(HourHCM(b.now)) { RulesAreOthers(b, id); }
    if id in Troll.Hidden(total, b.now, false) { HiddenAreOthers(total, b.now, id); }
  }

  // ----- each threshold exactly once -----

  /** How many of a user's events propose threshold j. */
  ghost function TimesProposed(ths: seq<Threshold>, batches: seq<Batch>, j: nat): nat
    requires j < |ths|
    decreases |batches|
  {
    if batches == [] then 0
    else
      TimesProposed(ths, batches[..|batches| - 1], j)
      + if ths[j].id in Proposed(ths, Total(batches), batches[|batches| - 1]) then 1 else 0
  }

  /** Over any sequence of batches of any sizes, each threshold is proposed by exactly one of
      them if the total has reached it and by none otherwise. */
  lemma {:induction false} ExactlyOnce(ths: seq<Threshold>, batches: seq<Batch>, j: nat)
    requires IsCatalog(ths) && j < |ths|
    ensures TimesProposed(ths, batches, j) == if ths[j].x <= Total(batches) then 1 else 0
    decreases |batches|
  {
    if batches != [] {
      ExactlyOnce(ths, batches[..|batches| - 1], j);
      ProposedHas(ths, Total(batches), batches[|batches| - 1], j);
    }
  }

  // ----- claims -----

  /** HSETNX of the ids one event proposes, in order, into the user's unlocks hash. */
  function ClaimAll(unlocks: map<string, nat>, ids: seq<string>, now: nat, missed: set<string>): map<string, nat>
    decreases |ids|
  {
    if ids == [] then unlocks
    else
      var id := ids[|ids| - 1];
      var before := ClaimAll(unlocks, ids[..|ids| - 1], now, missed);
      if id in before || id in missed then before else before[id := now]
  }

  lemma ClaimStep(unlocks: map<string, nat>, ids: seq<string>, i: nat, now: nat, missed: set<string>)
    requires i < |ids|
    ensures var before := ClaimAll(unlocks, ids[..i], now, missed);
            ClaimAll(unlocks, ids[..i + 1], now, missed)
              == if ids[i] in before || ids[i] in missed then before else before[ids[i] := now]
  {
    assert ids[..i + 1][..i] == ids[..i];
  }

  /** announced names the keys that after has and before has not, each once. */
  ghost predicate Announces(announced: seq<string>, before: map<string, nat>, after: map<string, nat>) {
    before.Keys <= after.Keys && multiset(announced) == multiset(after.Keys - before.Keys)
  }

  lemma AnnounceOne(announced: seq<string>, before: map<string, nat>, after: map<string, nat>, id: string, now: nat)
    requires Announces(announced, before, after) && id !in after
    ensures Announces(announced + [id], before, after[id := now])
  {
    assert after[id := now].Keys - before.Keys == after.Keys - before.Keys + {id};
  }

  /** The loops of applyEvent over the ids that Evaluate returned; the frame that is sent names
      exactly the new unlocks, each once. */
  method ClaimLoop(unlocks: map<string, nat>, ids: seq<string>, now: nat, missed: set<string>)
    returns (unlocks': map<string, nat>, announced: seq<string>)
    ensures unlocks' == ClaimAll(unlocks, ids, now, missed)
    ensures Announces(announced, unlocks, unlocks')
  {
    unlocks', announced := unlocks, [];
    for i := 0 to |ids|
      invariant unlocks' == ClaimAll(unlocks, ids[..i], now, missed)
      invariant Announces(announced, unlocks, unlocks')
    {
      ClaimStep(unlocks, ids, i, now, missed);
      var id := ids[i];
      if id !in missed && id !in unlocks' {
        AnnounceOne(announced, unlocks, unlocks', id, now);
        unlocks' := unlocks'[id := now];
        announced := announced + [id];
      }
    }
    assert ids[..|ids|] == ids;
  }

  lemma {:induction false} ClaimAllHas(unlocks: map<string, nat>, ids: seq<string>, now: nat, missed: set<string>,
                                       id: string)
    ensures var after := ClaimAll(unlocks, ids, now, missed);
            && (id in after <==> id in unlocks || (id in ids && id !in missed))
            && (id in after ==> after[id] == if id in unlocks then unlocks[id] else now)
    decreases |ids|
  {
    if ids != [] {
      ClaimAllHas(unlocks, ids[..|ids| - 1], now, missed, id);
      ClaimAllHas(unlocks, ids[..|ids| - 1], now, missed, ids[|ids| - 1]);
    }
  }

  lemma {:induction false} AllMissed(unlocks: map<string, nat>, ids: seq<string>, now: nat, missed: set<string>)
    requires forall i | 0 <= i < |ids| :: ids[i] in missed
    ensures ClaimAll(unlocks, ids, now, missed) == unlocks
    decreases |ids|
  {
    if ids != [] { AllMissed(unlocks, ids[..|ids| - 1], now, missed); }
  }

  /** Two loops, one after the other. */
  lemma {:induction false} ClaimAllAppend(unlocks: map<string, nat>, a: seq<string>, b: seq<string>, now: nat,
                                          missed: set<string>)
    ensures ClaimAll(unlocks, a + b, now, missed) == ClaimAll(ClaimAll(unlocks, a, now, missed), b, now, missed)
    decreases |b|
  {
    if b == [] {
      assert a + b == a;
    } else {
      ClaimAllAppend(unlocks, a, b[..|b| - 1], now, missed);
      assert (a + b)[..|a + b| - 1] == a + b[..|b| - 1];
    }
  }

  /** A user's unlocks hash after all of the user's events. */
  ghost function Unlocks(rules: Rules, batches: seq<Batch>): map<string, nat>
    decreases |batches|
  {
    if batches == [] then map[]
    else
      var b := batches[|batches| - 1];
      ClaimAll(Unlocks(rules, batches[..|batches| - 1]), rules(Total(batches), b), b.now, b.missed)
  }

  /** The event that brought the total to x. */
  function Reaching(batches: seq<Batch>, x: nat): (k: nat)
    requires 0 < x <= Total(batches)
    ensures k < |batches| && Total(batches[..k]) < x <= Total(batches[..k + 1])
    decreases |batches|
  {
    var before := batches[..|batches| - 1];
    assert batches[..|batches|] == batches;
    if x <= Total(before) then
      var k := Reaching(before, x);
      assert batches[..k] == before[..k] && batches[..k + 1] == before[..k + 1];
      k
    else |before|
  }

  /** In every run, a threshold is in the unlocks hash if and only if the total has reached it
      and the claim of the one event that reached it was not missed; nothing claims it later.
      The hash holds the time of that event. */
  lemma {:induction false} UnlockedIffReached(ths: seq<Threshold>, batches: seq<Batch>, j: nat)
    requires IsCatalog(ths) && j < |ths|
    ensures var (id, x) := (ths[j].id, ths[j].x);
            var unlocks := Unlocks(RulesOf(ths), batches);
            && (id in unlocks <==> x <= Total(batches) && id !in batches[Reaching(batches, x)].missed)
            && (id in unlocks ==> unlocks[id] == batches[Reaching(batches, x)].now)
    decreases |batches|
  {
    if batches != [] {
      var before, b := batches[..|batches| - 1], batches[|batches| - 1];
      UnlockedIffReached(ths, before, j);
      ProposedHas(ths, Total(batches), b, j);
      ClaimAllHas(Unlocks(RulesOf(ths), before), Proposed(ths, Total(batches), b), b.now, b.missed, ths[j].id);
    }
  }
}
