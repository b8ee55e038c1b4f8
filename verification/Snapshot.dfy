// The copy of Redis in Postgres (internal/snapshot/snapshot.go, internal/db/query.sql.go):
// Snapshot and Restore as the source writes them, with their loops over rows, and what a
// quiet snapshot followed by a restore gives back.

module Snapshot {
  import opened Wrappers
  import Streaks = Streak

  type Streak = Streaks.State

  /** A user and an achievement or hidden unlock. */
  type Unlock = (string, string)

  /** The data a snapshot covers, the same on both sides. In Redis: counter:total, lb:alltime,
      the lb:week:* sets, profile:names, the unlocks:* and streak:* hashes. In Postgres:
      counter_state, user_clicks, user_weekly_clicks, user_profile, user_achievements,
      user_streak. Weeks are named by the day number of their Monday; a set or hash without
      members does not exist. */
  datatype Data = Data(
    counter: Option<nat>, clicks: map<string, nat>, weekly: map<(string, int), nat>,
    names: map<string, string>, unlocks: map<Unlock, int>, streaks: map<string, Streak>)

  const EMPTY := Data(None, map[], map[], map[], map[], map[])

  function OfWeek(weekly: map<(string, int), nat>, week: int): map<(string, int), nat> {
    map k | k in weekly && k.1 == week :: weekly[k]
  }

  /** One week's sorted set. */
  function Board(weekly: map<(string, int), nat>, week: int): (board: map<string, nat>)
    ensures forall sub :: sub in board <==> (sub, week) in weekly
  {
    map sub | sub in (set k | k in weekly && k.1 == week :: k.0) :: weekly[(sub, week)]
  }

  function UnlocksOf(unlocks: map<Unlock, int>, subs: set<string>): map<Unlock, int> {
    map k | k in unlocks && k.0 in subs :: unlocks[k]
  }

  /** The largest value of the int32 columns; parsing a larger number gives this. */
  const INT32_MAX := 0x7fff_ffff

  function Clamp(n: nat): nat {
    if n <= INT32_MAX then n else INT32_MAX
  }

  function InColumn(st: Streak): Streak {
    st.(count := Clamp(st.count), best := Clamp(st.best))
  }

  predicate FitsColumn(st: Streak) {
    st.count <= INT32_MAX && st.best <= INT32_MAX
  }

  /** The nearest streak that fits the columns. */
  lemma InColumnIsNearest(st: Streak)
    ensures var kept := InColumn(st);
            && FitsColumn(kept) && kept.lastDay == st.lastDay
            && (kept.count == st.count || (st.count > 2_147_483_647 && kept.count == 2_147_483_647))
            && (kept.best == st.best || (st.best > 2_147_483_647 && kept.best == 2_147_483_647))
  {
  }

  function StreaksOf(streaks: map<string, Streak>, subs: set<string>): map<string, Streak> {
    map sub | sub in streaks && sub in subs :: InColumn(streaks[sub])
  }

  /** Absolute upserts everywhere except the unlock times, where the first write wins. Unlocks
      and streaks are copied only for users on the all-time board. */
  function SnapshotSpec(r: Data, t: Data, week: int): Data {
    Data(if r.counter.Some? then r.counter else t.counter,
         t.clicks + r.clicks,
         t.weekly + OfWeek(r.weekly, week),
         t.names + r.names,
         UnlocksOf(r.unlocks, r.clicks.Keys) + t.unlocks,
         t.streaks + StreaksOf(r.streaks, r.clicks.Keys))
  }

  function RestoreSpec(r: Data, t: Data, week: int): Data {
    if r.counter.Some? || r.clicks != map[] then r
    else
      Data(if t.counter.Some? then t.counter else r.counter,
           r.clicks + t.clicks,
           r.weekly + OfWeek(t.weekly, week),
           r.names + t.names,
           t.unlocks + r.unlocks,
           r.streaks + t.streaks)
  }

  /** The slices keys and values list the map m, each key once. */
  ghost predicate Lists<K, V>(keys: seq<K>, values: seq<V>, m: map<K, V>) {
    && |keys| == |values|
    && (forall i | 0 <= i < |keys| :: keys[i] in m && m[keys[i]] == values[i])
    && (forall k | k in m :: k in keys)
    && (forall i, j | 0 <= i < j < |keys| :: keys[i] != keys[j])
  }

  lemma ListsJoin<K, V>(keys: seq<K>, values: seq<V>, m: map<K, V>, keys': seq<K>, values': seq<V>, m': map<K, V>)
    requires Lists(keys, values, m) && Lists(keys', values', m') && m.Keys !! m'.Keys
    ensures Lists(keys + keys', values + values', m + m')
  {
  }

  /** The rows that the first n entries of two slices stand for. */
  ghost function FirstRows<K, V>(keys: seq<K>, values: seq<V>, n: nat): map<K, V>
    requires n <= |keys| == |values|
  {
    if n == 0 then map[] else FirstRows(keys, values, n - 1)[keys[n - 1] := values[n - 1]]
  }

  lemma {:induction false} FirstRowsHas<K, V>(keys: seq<K>, values: seq<V>, n: nat, k: K)
    requires n <= |keys| == |values| && forall i, j | 0 <= i < j < |keys| :: keys[i] != keys[j]
    ensures k in FirstRows(keys, values, n) <==> exists i :: 0 <= i < n && keys[i] == k
    ensures forall i | 0 <= i < n && keys[i] == k :: FirstRows(keys, values, n)[k] == values[i]
  {
    if n > 0 { FirstRowsHas(keys, values, n - 1, k); }
  }

  lemma NewRow<K, V>(keys: seq<K>, values: seq<V>, n: nat)
    requires n < |keys| == |values| && forall i, j | 0 <= i < j < |keys| :: keys[i] != keys[j]
    ensures keys[n] !in FirstRows(keys, values, n)
  {
    FirstRowsHas(keys, values, n, keys[n]);
  }

  lemma AllRows<K, V>(keys: seq<K>, values: seq<V>, rows: map<K, V>)
    requires Lists(keys, values, rows)
    ensures FirstRows(keys, values, |keys|) == rows
  {
    var all := FirstRows(keys, values, |keys|);
    forall k | k in all ensures k in rows {
      FirstRowsHas(keys, values, |keys|, k);
    }
    forall k | k in rows ensures k in all && all[k] == rows[k] {
      FirstRowsHas(keys, values, |keys|, k);
      var i :| 0 <= i < |keys| && keys[i] == k;
    }
  }

  ghost function First(subs: seq<string>, n: nat): set<string>
    requires n <= |subs|
  {
    set i | 0 <= i < n :: subs[i]
  }

  lemma OneMoreUser(unlocks: map<Unlock, int>, subs: set<string>, sub: string)
    requires sub !in subs
    ensures UnlocksOf(unlocks, subs + {sub}) == UnlocksOf(unlocks, subs) + UnlocksOf(unlocks, {sub})
    ensures UnlocksOf(unlocks, subs).Keys !! UnlocksOf(unlocks, {sub}).Keys
  {
  }

  lemma WeekSlices(weekly: map<(string, int), nat>, week: int, subs: seq<string>, clicks: seq<nat>,
                   keys: seq<(string, int)>)
    requires Lists(subs, clicks, Board(weekly, week))
    requires |keys| == |subs| && forall i | 0 <= i < |keys| :: keys[i] == (subs[i], week)
    ensures Lists(keys, clicks, OfWeek(weekly, week))
  {
    forall k | k in OfWeek(weekly, week) ensures k in keys {
      assert k == (k.0, week) && k.0 in Board(weekly, week);
      var i :| 0 <= i < |subs| && subs[i] == k.0;
      assert keys[i] == k;
    }
  }

  class Snapshotter {
    var redis: Data
    var tables: Data

    constructor (redis: Data, tables: Data)
      ensures this.redis == redis && this.tables == tables
    {
      this.redis, this.tables := redis, tables;
    }

    /** The reply to a read of a whole set, hash or table, in two slices, in some order. */
    static method ToSlices<K(==), V>(m: map<K, V>) returns (keys: seq<K>, values: seq<V>)
      ensures Lists(keys, values, m)
    {
      keys, values := [], [];
      var left := m.Keys;
      while left != {}
        invariant left <= m.Keys && |keys| == |values|
        invariant forall i | 0 <= i < |keys| :: keys[i] in m && keys[i] !in left && m[keys[i]] == values[i]
        invariant forall k | k in m :: k in left || k in keys
        invariant forall i, j | 0 <= i < j < |keys| :: keys[i] != keys[j]
        decreases left
      {
        var k :| k in left;
        keys, values, left := keys + [k], values + [m[k]], left - {k};
      }
    }

    /** INSERT ... SELECT unnest ... ON CONFLICT DO UPDATE, row by row. */
    static method Upsert<K(==), V>(table: map<K, V>, keys: seq<K>, values: seq<V>, ghost rows: map<K, V>)
      returns (table': map<K, V>)
      requires Lists(keys, values, rows)
      ensures table' == table + rows
    {
      table' := table;
      var i := 0;
      while i < |keys|
        invariant 0 <= i <= |keys|
        invariant table' == table + FirstRows(keys, values, i)
      {
        table' := table'[keys[i] := values[i]];
        i := i + 1;
      }
      AllRows(keys, values, rows);
    }

    /** The same with ON CONFLICT DO NOTHING. */
    static method InsertNew<K(==), V>(table: map<K, V>, keys: seq<K>, values: seq<V>, ghost rows: map<K, V>)
      returns (table': map<K, V>)
      requires Lists(keys, values, rows)
      ensures table' == rows + table
    {
      table' := table;
      var i := 0;
      while i < |keys|
        invariant 0 <= i <= |keys|
        invariant table' == FirstRows(keys, values, i) + table
      {
        NewRow(keys, values, i);
        if keys[i] !in table' { table' := table'[keys[i] := values[i]]; }
        i := i + 1;
      }
      AllRows(keys, values, rows);
    }

    /** The unlock hashes of all users, flattened into rows, then the insert. */
    method SnapshotUnlocks(subs: seq<string>)
      requires forall i, j | 0 <= i < j < |subs| :: subs[i] != subs[j]
      modifies this`tables
      ensures tables == old(tables).(unlocks :=
                UnlocksOf(redis.unlocks, First(subs, |subs|)) + old(tables).unlocks)
    {
      var keys: seq<Unlock>, times: seq<int> := [], [];
      var i := 0;
      while i < |subs|
        invariant 0 <= i <= |subs| && tables == old(tables)
        invariant Lists(keys, times, UnlocksOf(redis.unlocks, First(subs, i)))
      {
        var moreKeys, moreTimes := ToSlices(UnlocksOf(redis.unlocks, {subs[i]}));  // HGETALL
        OneMoreUser(redis.unlocks, First(subs, i), subs[i]);
        ListsJoin(keys, times, UnlocksOf(redis.unlocks, First(subs, i)),
                  moreKeys, moreTimes, UnlocksOf(redis.unlocks, {subs[i]}));
        keys, times := keys + moreKeys, times + moreTimes;
        assert First(subs, i + 1) == First(subs, i) + {subs[i]};
        i := i + 1;
      }
      var table := InsertNew(tables.unlocks, keys, times,
                             UnlocksOf(redis.unlocks, First(subs, |subs|)));
      tables := tables.(unlocks := table);
    }

    /** The streak hashes of the users that have one, with numbers clamped to their columns. */
    method SnapshotStreaks(subs: seq<string>)
      requires forall i, j | 0 <= i < j < |subs| :: subs[i] != subs[j]
      modifies this`tables
      ensures tables == old(tables).(streaks :=
                old(tables).streaks + StreaksOf(redis.streaks, First(subs, |subs|)))
    {
      var keys, values: seq<Streak> := [], [];
      var i := 0;
      while i < |subs|
        invariant 0 <= i <= |subs|
        invariant Lists(keys, values, StreaksOf(redis.streaks, First(subs, i)))
      {
        if subs[i] in redis.streaks {
          keys, values := keys + [subs[i]], values + [InColumn(redis.streaks[subs[i]])];
        }
        i := i + 1;
      }
      var table := Upsert(tables.streaks, keys, values, StreaksOf(redis.streaks, First(subs, |subs|)));
      tables := tables.(streaks := table);
    }

    method Snapshot(week: int)
      modifies this`tables
      ensures tables == SnapshotSpec(redis, old(tables), week)
    {
      if redis.counter.Some? { tables := tables.(counter := redis.counter); }
      var subs, clicks := ToSlices(redis.clicks);
      var clickTable := Upsert(tables.clicks, subs, clicks, redis.clicks);
      tables := tables.(clicks := clickTable);
      var weekSubs, weekClicks := ToSlices(Board(redis.weekly, week));
      var weekKeys := seq(|weekSubs|, i requires 0 <= i < |weekSubs| => (weekSubs[i], week));
      WeekSlices(redis.weekly, week, weekSubs, weekClicks, weekKeys);
      var weekTable := Upsert(tables.weekly, weekKeys, weekClicks, OfWeek(redis.weekly, week));
      tables := tables.(weekly := weekTable);
      var nameSubs, names := ToSlices(redis.names);
      var nameTable := Upsert(tables.names, nameSubs, names, redis.names);
      tables := tables.(names := nameTable);
      assert First(subs, |subs|) == redis.clicks.Keys;
      SnapshotUnlocks(subs);
      SnapshotStreaks(subs);
    }

    /** Only an empty Redis, with neither a counter nor an all-time board, is restored. */
    method Restore(week: int)
      modifies this`redis
      ensures redis == RestoreSpec(old(redis), tables, week)
      ensures old(redis).counter.Some? || old(redis).clicks != map[] ==> redis == old(redis)
    {
      if redis.counter.Some? || redis.clicks != map[] { return; }
      if tables.counter.Some? { redis := redis.(counter := tables.counter); }
      var subs, clicks := ToSlices(tables.clicks);
      var board := Upsert(redis.clicks, subs, clicks, tables.clicks);  // ZADD
      redis := redis.(clicks := board);
      var weekKeys, weekClicks := ToSlices(OfWeek(tables.weekly, week));
      var weekBoard := Upsert(redis.weekly, weekKeys, weekClicks, OfWeek(tables.weekly, week));
      redis := redis.(weekly := weekBoard);
      var nameSubs, names := ToSlices(tables.names);
      var nameHash := Upsert(redis.names, nameSubs, names, tables.names);  // HSET
      redis := redis.(names := nameHash);
      var keys, times := ToSlices(tables.unlocks);
      var unlockHash := InsertNew(redis.unlocks, keys, times, tables.unlocks);  // HSETNX
      redis := redis.(unlocks := unlockHash);
      var streakSubs, streaks := ToSlices(tables.streaks);
      var streakHash := Upsert(redis.streaks, streakSubs, streaks, tables.streaks);
      redis := redis.(streaks := streakHash);
    }
  }

  // ----- the round trip -----

  /** What is known of tables that were only ever written by snapshots of this Redis. */
  ghost predicate Covers(r: Data, t: Data, week: int) {
    && (t.counter.Some? ==> r.counter.Some?)
    && t.clicks.Keys <= r.clicks.Keys
    && (forall sub | (sub, week) in t.weekly :: (sub, week) in r.weekly)
    && t.names.Keys <= r.names.Keys
    && (forall k | k in t.unlocks :: k in r.unlocks && r.unlocks[k] == t.unlocks[k])
    && t.streaks.Keys <= r.streaks.Keys
    && (forall k | k in r.unlocks :: k.0 in r.clicks)
    && (forall sub | sub in r.streaks :: sub in r.clicks && FitsColumn(r.streaks[sub]))
  }

  lemma Overwritten<K, V>(a: map<K, V>, b: map<K, V>)
    requires a.Keys <= b.Keys
    ensures a + b == b
  {
  }

  lemma KeptFirst<K, V>(a: map<K, V>, b: map<K, V>)
    requires forall k | k in a :: k in b && b[k] == a[k]
    ensures b + a == b
  {
  }

  lemma PlusNothing<K, V>(m: map<K, V>)
    ensures map[] + m == m && m + map[] == m
  {
  }

  /** This week's rows after the snapshot are this week's board. */
  lemma WeekComesBack(r: Data, t: Data, week: int)
    requires Covers(r, t, week)
    ensures OfWeek(t.weekly + OfWeek(r.weekly, week), week) == OfWeek(r.weekly, week)
  {
    forall k: (string, int) | k.1 == week && k in t.weekly ensures k in r.weekly {
      assert k == (k.0, week);
    }
  }

  lemma AllCopied(r: Data)
    requires forall k | k in r.unlocks :: k.0 in r.clicks
    requires forall sub | sub in r.streaks :: sub in r.clicks && FitsColumn(r.streaks[sub])
    ensures UnlocksOf(r.unlocks, r.clicks.Keys) == r.unlocks
    ensures StreaksOf(r.streaks, r.clicks.Keys) == r.streaks
  {
  }

  /** A quiet snapshot leaves the tables equal to Redis, past weeks excepted. */
  lemma SnapshotIsRedis(r: Data, t: Data, week: int)
    requires Covers(r, t, week)
    ensures SnapshotSpec(r, t, week) == r.(weekly := t.weekly + OfWeek(r.weekly, week))
  {
    AllCopied(r);
    Overwritten(t.clicks, r.clicks);
    Overwritten(t.names, r.names);
    Overwritten(t.streaks, r.streaks);
    KeptFirst(t.unlocks, r.unlocks);
  }

  /** An empty Redis becomes what the tables say, of the weeks only this one. */
  lemma RestoreIsTables(t: Data, week: int)
    ensures RestoreSpec(EMPTY, t, week) == t.(weekly := OfWeek(t.weekly, week))
  {
    PlusNothing(t.clicks);
    PlusNothing(t.names);
    PlusNothing(t.unlocks);
    PlusNothing(t.streaks);
    PlusNothing(OfWeek(t.weekly, week));
  }

  /** A Redis with neither a counter nor an all-time board may hold other keys: names, this week's scores
      and streaks are then the tables', first unlock times stay, and nothing is removed. */
  lemma RestoreMerges(r: Data, t: Data, week: int)
    requires r.counter.None? && r.clicks == map[]
    ensures var r' := RestoreSpec(r, t, week);
            && r'.counter == t.counter && r'.clicks == t.clicks
            && (forall k :: k in r'.weekly <==> k in r.weekly || (k in t.weekly && k.1 == week))
            && (forall k | k in r'.weekly ::
                  r'.weekly[k] == if k in t.weekly && k.1 == week then t.weekly[k] else r.weekly[k])
            && (forall sub :: sub in r'.names <==> sub in r.names || sub in t.names)
            && (forall sub | sub in r'.names :: r'.names[sub] == if sub in t.names then t.names[sub] else r.names[sub])
            && (forall k :: k in r'.unlocks <==> k in r.unlocks || k in t.unlocks)
            && (forall k | k in r'.unlocks :: r'.unlocks[k] == if k in r.unlocks then r.unlocks[k] else t.unlocks[k])
            && (forall sub :: sub in r'.streaks <==> sub in r.streaks || sub in t.streaks)
            && (forall sub | sub in r'.streaks ::
                  r'.streaks[sub] == if sub in t.streaks then t.streaks[sub] else r.streaks[sub])
  {
    assert r.clicks + t.clicks == t.clicks;
  }

  /** Snapshot, loss of Redis, restore in the same week: everything is back, except the boards
      of other weeks. */
  lemma RoundTrip(r: Data, t: Data, week: int)
    requires Covers(r, t, week)
    ensures RestoreSpec(EMPTY, SnapshotSpec(r, t, week), week) == r.(weekly := OfWeek(r.weekly, week))
  {
    SnapshotIsRedis(r, t, week);
    WeekComesBack(r, t, week);
    RestoreIsTables(SnapshotSpec(r, t, week), week);
  }

  /** Covers, except that a user with unlocks or a streak may be missing from the all-time board if
      the tables hold them already. */
  ghost predicate Returns(r: Data, t: Data, week: int) {
    && (t.counter.Some? ==> r.counter.Some?)
    && t.clicks.Keys <= r.clicks.Keys
    && (forall sub | (sub, week) in t.weekly :: (sub, week) in r.weekly)
    && t.names.Keys <= r.names.Keys
    && (forall k | k in t.unlocks :: k in r.unlocks && r.unlocks[k] == t.unlocks[k])
    && t.streaks.Keys <= r.streaks.Keys
    && (forall k | k in r.unlocks :: k.0 in r.clicks || k in t.unlocks)
    && forall sub | sub in r.streaks ::
         if sub in r.clicks then FitsColumn(r.streaks[sub]) else sub in t.streaks && t.streaks[sub] == r.streaks[sub]
  }

  lemma OverwrittenIff<K, V>(a: map<K, V>, b: map<K, V>)
    ensures a + b == b <==> a.Keys <= b.Keys
  {
    if a + b == b {
      forall k | k in a ensures k in b {
        assert k in a + b;
      }
    }
  }

  lemma WeekReturnsIff(r: Data, t: Data, week: int)
    ensures OfWeek(t.weekly + OfWeek(r.weekly, week), week) == OfWeek(r.weekly, week)
       <==> forall sub | (sub, week) in t.weekly :: (sub, week) in r.weekly
  {
    var back := OfWeek(t.weekly + OfWeek(r.weekly, week), week);
    if back == OfWeek(r.weekly, week) {
      forall sub | (sub, week) in t.weekly ensures (sub, week) in r.weekly {
        assert (sub, week) in back;
      }
    } else if forall sub | (sub, week) in t.weekly :: (sub, week) in r.weekly {
      forall k: (string, int) | k.1 == week && k in t.weekly ensures k in r.weekly {
        assert k == (k.0, week);
      }
    }
  }

  lemma UnlocksReturnIff(r: Data, t: Data)
    ensures UnlocksOf(r.unlocks, r.clicks.Keys) + t.unlocks == r.unlocks
       <==> && (forall k | k in t.unlocks :: k in r.unlocks && r.unlocks[k] == t.unlocks[k])
            && (forall k | k in r.unlocks :: k.0 in r.clicks || k in t.unlocks)
  {
    var back := UnlocksOf(r.unlocks, r.clicks.Keys) + t.unlocks;
    if back == r.unlocks {
      forall k | k in t.unlocks ensures k in r.unlocks && r.unlocks[k] == t.unlocks[k] {
        assert k in back;
      }
      forall k | k in r.unlocks ensures k.0 in r.clicks || k in t.unlocks {
        assert k in back;
      }
    }
  }

  lemma StreaksReturnIff(r: Data, t: Data)
    ensures t.streaks + StreaksOf(r.streaks, r.clicks.Keys) == r.streaks
       <==> && t.streaks.Keys <= r.streaks.Keys
            && forall sub | sub in r.streaks ::
                 if sub in r.clicks then FitsColumn(r.streaks[sub])
                 else sub in t.streaks && t.streaks[sub] == r.streaks[sub]
  {
    var back := t.streaks + StreaksOf(r.streaks, r.clicks.Keys);
    if back == r.streaks {
      forall sub | sub in t.streaks ensures sub in r.streaks {
        assert sub in back;
      }
      forall sub | sub in r.streaks
        ensures if sub in r.clicks then FitsColumn(r.streaks[sub])
                else sub in t.streaks && t.streaks[sub] == r.streaks[sub]
      {
        assert sub in back;
      }
    }
  }

  /** The round trip gives back everything but other weeks exactly when the tables were of this
      Redis, each unlock and streak belongs to a user on the board or is in the tables, and the
      streaks that are copied fit their columns. */
  lemma RoundTripIff(r: Data, t: Data, week: int)
    ensures RestoreSpec(EMPTY, SnapshotSpec(r, t, week), week) == r.(weekly := OfWeek(r.weekly, week))
       <==> Returns(r, t, week)
  {
    hide OfWeek, UnlocksOf, StreaksOf;
    RestoreIsTables(SnapshotSpec(r, t, week), week);
    OverwrittenIff(t.clicks, r.clicks);
    OverwrittenIff(t.names, r.names);
    WeekReturnsIff(r, t, week);
    UnlocksReturnIff(r, t);
    StreaksReturnIff(r, t);
  }
}
