// Ranked boards (internal/leaderboard/board.go: TopN; internal/leaderboard/ranks.go): what the
// two reads of a sorted set say about each other, and what ZINCRBY does to ranks.

module Leaderboard {
  import opened Idem
  import opened Pipeline
  import opened Wrappers
  import Token

  /** Redis orders members of equal score byte by byte. */
  predicate Less(a: string, b: string) {
    b != [] && (a == [] || a[0] < b[0] || (a[0] == b[0] && Less(a[1..], b[1..])))
  }

  lemma {:induction false} LessIsTotal(a: string, b: string)
    ensures Less(a, b) || Less(b, a) || a == b
    ensures !(Less(a, b) && Less(b, a)) && !Less(a, a)
  {
    if a != [] {
      LessIsTotal(a[1..], a[1..]);
      if b != [] && a[0] == b[0] {
        LessIsTotal(a[1..], b[1..]);
        if a[1..] == b[1..] {
          assert a == [a[0]] + a[1..] && b == [b[0]] + b[1..];
        }
      }
    }
  }

  /** Byte by byte: a is a proper beginning of b, or smaller where they first differ. */
  lemma {:induction false} LessMeans(a: string, b: string)
    ensures Less(a, b) <==>
              exists i :: 0 <= i <= |a| && i < |b| && a[..i] == b[..i] && (i == |a| || a[i] < b[i])
  {
    if a != [] && b != [] && a[0] == b[0] {
      LessMeans(a[1..], b[1..]);
      if Less(a, b) {
        var i :| && 0 <= i <= |a[1..]| && i < |b[1..]| && a[1..][..i] == b[1..][..i]
                 && (i == |a[1..]| || a[1..][i] < b[1..][i]);
        assert a[..i + 1] == [a[0]] + a[1..][..i] && b[..i + 1] == [b[0]] + b[1..][..i];
      }
      if i :| 0 <= i <= |a| && i < |b| && a[..i] == b[..i] && (i == |a| || a[i] < b[i]) {
        assert i > 0;
        assert a[1..][..i - 1] == a[..i][1..] && b[1..][..i - 1] == b[..i][1..];
      }
    } else {
      assert a[..0] == b[..0];
    }
  }

  lemma {:induction false} LessIsTransitive(a: string, b: string, c: string)
    requires Less(a, b) && Less(b, c)
    ensures Less(a, c)
  {
    if a != [] && a[0] == b[0] == c[0] { LessIsTransitive(a[1..], b[1..], c[1..]); }
  }

  /** x stands above y on the board, highest score first. */
  predicate Better(board: map<string, nat>, x: string, y: string) {
    ScoreOf(board, x) > ScoreOf(board, y) || (ScoreOf(board, x) == ScoreOf(board, y) && Less(y, x))
  }

  lemma BetterIsTotal(board: map<string, nat>, x: string, y: string)
    ensures Better(board, x, y) || Better(board, y, x) || x == y
    ensures !(Better(board, x, y) && Better(board, y, x)) && !Better(board, x, x)
  {
    LessIsTotal(x, y);
    LessIsTotal(x, x);
  }

  lemma BetterIsTransitive(board: map<string, nat>, x: string, y: string, z: string)
    requires Better(board, x, y) && Better(board, y, z)
    ensures Better(board, x, z)
  {
    if ScoreOf(board, x) == ScoreOf(board, y) == ScoreOf(board, z) { LessIsTransitive(z, y, x); }
  }

  // ----- the order of a sorted set -----

  ghost predicate IsBest(board: map<string, nat>, s: set<string>, x: string) {
    x in s && forall y | y in s && y != x :: Better(board, x, y)
  }

  lemma {:induction false} HasBest(board: map<string, nat>, s: set<string>)
    requires s != {}
    ensures exists x :: IsBest(board, s, x)
    decreases s
  {
    var a :| a in s;
    if s == {a} {
      assert IsBest(board, s, a);
    } else {
      HasBest(board, s - {a});
      var b :| IsBest(board, s - {a}, b);
      BetterIsTotal(board, a, b);
      if Better(board, a, b) {
        forall y | y in s && y != a ensures Better(board, a, y) {
          if y != b { BetterIsTransitive(board, a, b, y); }
        }
        assert IsBest(board, s, a);
      } else {
        assert IsBest(board, s, b);
      }
    }
  }

  /** The members of s, best first. */
  ghost function Order(board: map<string, nat>, s: set<string>): seq<string>
    decreases s
  {
    if s == {} then []
    else
      HasBest(board, s);
      var x :| IsBest(board, s, x);
      [x] + Order(board, s - {x})
  }

  /** order lists the members of s, each once, better ones first. */
  ghost predicate Ranks(board: map<string, nat>, s: set<string>, order: seq<string>) {
    && (forall x :: x in order <==> x in s)
    && forall i, j | 0 <= i < j < |order| :: Better(board, order[i], order[j])
  }

  lemma {:induction false} OrderRanks(board: map<string, nat>, s: set<string>)
    ensures Ranks(board, s, Order(board, s))
    decreases s
  {
    if s != {} {
      var order := Order(board, s);
      OrderRanks(board, s - {order[0]});
      assert order == [order[0]] + order[1..];
    }
  }

  lemma RanksDistinct(board: map<string, nat>, s: set<string>, order: seq<string>)
    requires Ranks(board, s, order)
    ensures forall i, j | 0 <= i < j < |order| :: order[i] != order[j]
  {
    forall i, j | 0 <= i < j < |order| ensures order[i] != order[j] {
      BetterIsTotal(board, order[i], order[j]);
    }
  }

  ghost function Above(board: map<string, nat>, s: set<string>, y: string): set<string> {
    set x | x in s && Better(board, x, y)
  }

  lemma {:induction false} DistinctCount(xs: seq<string>)
    requires forall i, j | 0 <= i < j < |xs| :: xs[i] != xs[j]
    ensures |set x | x in xs| == |xs|
  {
    if xs != [] {
      var rest := xs[..|xs| - 1];
      DistinctCount(rest);
      assert (set x | x in xs) == (set x | x in rest) + {xs[|xs| - 1]};
    }
  }

  /** In such a list, a member's position is the number of better members. */
  lemma PositionCounts(board: map<string, nat>, s: set<string>, order: seq<string>, i: nat)
    requires Ranks(board, s, order) && i < |order|
    ensures |Above(board, s, order[i])| == i
  {
    RanksDistinct(board, s, order);
    var prefix := order[..i];
    DistinctCount(prefix);
    forall x ensures x in Above(board, s, order[i]) <==> x in prefix {
      if x in s {
        var j :| 0 <= j < |order| && order[j] == x;
        BetterIsTotal(board, order[j], order[i]);
        if j < i { assert prefix[j] == x; }
      }
    }
    assert Above(board, s, order[i]) == set x | x in prefix;
  }

  /** Any list with these properties is the same, so both reads see one order. */
  lemma OnlyOneOrder(board: map<string, nat>, s: set<string>, a: seq<string>, b: seq<string>)
    requires Ranks(board, s, a) && Ranks(board, s, b)
    ensures a == b
  {
    RanksDistinct(board, s, a);
    RanksDistinct(board, s, b);
    DistinctCount(a);
    DistinctCount(b);
    assert (set x | x in a) == s == (set x | x in b);
    forall i | 0 <= i < |a| ensures a[i] == b[i] {
      assert a[i] in s;
      var j :| 0 <= j < |b| && b[j] == a[i];
      PositionCounts(board, s, a, i);
      PositionCounts(board, s, b, j);
    }
  }

  // ----- the reads -----

  datatype ScoreRow = ScoreRow(sub: string, clicks: nat)

  /** ZREVRANGE key 0 n-1 WITHSCORES. */
  ghost function RevRange(board: map<string, nat>, n: nat): seq<(string, nat)> {
    var order := Order(board, board.Keys);
    seq(if n < |order| then n else |order|, i requires 0 <= i < |order| => (order[i], ScoreOf(board, order[i])))
  }

  /** ZREVRANK: how many members stand above sub; with uint32(r) + 1 for it, and 0 if absent. */
  ghost function Rank(board: map<string, nat>, sub: string): nat {
    if sub in board then (|Above(board, board.Keys, sub)| % UINT32 + 1) % UINT32 else 0
  }

  /** TopN on the reply of ZREVRANGE. */
  method TopN(zs: seq<(string, nat)>, ghost board: map<string, nat>, ghost n: nat) returns (out: array<ScoreRow>)
    requires zs == RevRange(board, n)
    ensures fresh(out) && out.Length == if n < |board| then n else |board|
    ensures forall i | 0 <= i < out.Length ::
              && out[i].sub in board && out[i].clicks == board[out[i].sub]
              && |Above(board, board.Keys, out[i].sub)| == i
  {
    var order := Order(board, board.Keys);
    OrderRanks(board, board.Keys);
    RanksDistinct(board, board.Keys, order);
    DistinctCount(order);
    assert (set x | x in order) == board.Keys;
    out := new ScoreRow[|zs|](_ => ScoreRow([], 0));
    for i := 0 to |zs|
      invariant forall j | 0 <= j < i :: out[j] == ScoreRow(zs[j].0, zs[j].1)
    {
      out[i] := ScoreRow(zs[i].0, zs[i].1);
    }
    forall i | 0 <= i < out.Length
      ensures out[i].sub in board && out[i].clicks == board[out[i].sub] && |Above(board, board.Keys, out[i].sub)| == i
    {
      PositionCounts(board, board.Keys, order, i);
      assert order[i] in order;
    }
  }

  lemma AboveIsFew(board: map<string, nat>, sub: string)
    requires sub in board
    ensures |Above(board, board.Keys, sub)| < |board|
  {
    BetterIsTotal(board, sub, sub);
    Fewer(Above(board, board.Keys, sub), board.Keys, sub);
  }

  lemma Fewer(a: set<string>, b: set<string>, x: string)
    requires a <= b && x in b && x !in a
    ensures |a| < |b|
  {
    AtMost(a, b - {x});
  }

  lemma {:induction false} AtMost(a: set<string>, b: set<string>)
    requires a <= b
    ensures |a| <= |b|
    decreases a
  {
    if a != {} {
      var x :| x in a;
      AtMost(a - {x}, b - {x});
    }
  }

  /** Rank is one plus the number of better members, and 0 exactly for those not on the board,
      as long as the board has fewer than 2^32 members. */
  lemma RankCounts(board: map<string, nat>, sub: string)
    requires |board| < UINT32
    ensures Rank(board, sub) == if sub in board then 1 + |Above(board, board.Keys, sub)| else 0
    ensures Rank(board, sub) == 0 <==> sub !in board
  {
    if sub in board { AboveIsFew(board, sub); }
  }

  /** The i-th entry of the top n, counting from 0, has rank i + 1. */
  lemma TopNHasRank(board: map<string, nat>, n: nat, i: nat)
    requires |board| < UINT32 && i < |RevRange(board, n)|
    ensures Rank(board, RevRange(board, n)[i].0) == i + 1
  {
    var order := Order(board, board.Keys);
    OrderRanks(board, board.Keys);
    PositionCounts(board, board.Keys, order, i);
    assert order[i] in order;
    RankCounts(board, order[i]);
  }

  /** Higher scores first; of two members with one score, the one that is greater byte by byte. */
  lemma RankOrders(board: map<string, nat>, x: string, y: string)
    requires x in board && y in board && x != y && |board| < UINT32
    ensures Rank(board, x) < Rank(board, y) <==>
              || board[x] > board[y]
              || (board[x] == board[y]
                  && exists i :: 0 <= i <= |y| && i < |x| && y[..i] == x[..i] && (i == |y| || y[i] < x[i]))
  {
    var order := Order(board, board.Keys);
    OrderRanks(board, board.Keys);
    var i :| 0 <= i < |order| && order[i] == x;
    var j :| 0 <= j < |order| && order[j] == y;
    PositionCounts(board, board.Keys, order, i);
    PositionCounts(board, board.Keys, order, j);
    RankCounts(board, x);
    RankCounts(board, y);
    BetterIsTotal(board, x, y);
    LessMeans(y, x);
  }

  /** And whoever has rank i + 1 <= n is the i-th entry. */
  lemma RankedIsInTopN(board: map<string, nat>, n: nat, sub: string)
    requires |board| < UINT32 && 0 < Rank(board, sub) <= n
    ensures Rank(board, sub) <= |RevRange(board, n)| && RevRange(board, n)[Rank(board, sub) - 1].0 == sub
  {
    var order := Order(board, board.Keys);
    OrderRanks(board, board.Keys);
    RankCounts(board, sub);
    assert sub in order;
    var i :| 0 <= i < |order| && order[i] == sub;
    PositionCounts(board, board.Keys, order, i);
  }

  // ----- ZINCRBY -----

  function Incremented(board: map<string, nat>, sub: string, d: nat): map<string, nat> {
    board[sub := ScoreOf(board, sub) + d]
  }

  lemma OwnAboveShrinks(board: map<string, nat>, sub: string, d: nat)
    requires sub in board && d > 0
    ensures var board' := Incremented(board, sub, d);
            Above(board', board'.Keys, sub) <= Above(board, board.Keys, sub)
  {
    BetterIsTotal(Incremented(board, sub, d), sub, sub);
  }

  lemma OthersAbove(board: map<string, nat>, sub: string, d: nat, y: string)
    requires y in board && y != sub && d > 0
    ensures var board' := Incremented(board, sub, d);
            Above(board', board'.Keys, y) == Above(board, board.Keys, y) + if Better(board', sub, y) then {sub} else {}
  {
    var board' := Incremented(board, sub, d);
    forall x | x != sub ensures Better(board', x, y) == Better(board, x, y) {
    }
    if sub in board && Better(board, sub, y) { assert Better(board', sub, y); }
  }

  /** A positive increment never worsens the user's own rank. Another member's rank worsens by
      one if the user overtakes it, that is, stands above it now and did not before, and
      otherwise stays. */
  lemma IncrementMovesRanks(board: map<string, nat>, sub: string, d: nat, y: string)
    requires d > 0 && y in board && |board| + 1 < UINT32
    ensures var board' := Incremented(board, sub, d);
            var overtaken := Better(board', sub, y) && !(sub in board && Better(board, sub, y));
            if y == sub then 0 < Rank(board', sub) <= Rank(board, sub)
            else Rank(board', y) == Rank(board, y) + if overtaken then 1 else 0
  {
    var board' := Incremented(board, sub, d);
    assert |board'| <= |board| + 1 by {
      assert board'.Keys == board.Keys + {sub};
    }
    RankCounts(board, y);
    RankCounts(board', y);
    if y == sub {
      OwnAboveShrinks(board, sub, d);
      AtMost(Above(board', board'.Keys, sub), Above(board, board.Keys, sub));
    } else {
      OthersAbove(board, sub, d, y);
      var above := Above(board, board.Keys, y);
      if Better(board', sub, y) && sub in above { assert above + {sub} == above; }
    }
  }

  // ----- Sync -----

  /** ZADD of rows into a board, one after the other. */
  function Added(board: map<string, nat>, rows: seq<ScoreRow>): map<string, nat> {
    if rows == [] then board
    else Added(board, rows[..|rows| - 1])[rows[|rows| - 1].sub := rows[|rows| - 1].clicks]
  }

  /** The two sets, and when the week's expires. */
  datatype Boards = Boards(allTime: map<string, nat>, week: map<string, nat>, weekExpiry: int)

  const WEEK_TTL := 14 * 24 * 3600 * Token.SECOND

  /** Rows through an array into one ZADD; without rows, or if the command is lost, the set stays
      as it is. */
  method SyncSet(board: map<string, nat>, rows: seq<ScoreRow>, reply: Reply) returns (board': map<string, nat>)
    ensures board' == if Stores(reply) then Added(board, rows) else board
  {
    board' := board;
    var zs := new (string, nat)[|rows|](_ => ([], 0));
    for i := 0 to |rows|
      invariant forall j | 0 <= j < i :: zs[j] == (rows[j].sub, rows[j].clicks)
    {
      zs[i] := (rows[i].sub, rows[i].clicks);
    }
    if reply.Unanswered? && !reply.stored { return; }
    for i := 0 to |rows|
      invariant board' == Added(board, rows[..i])
      invariant forall j | 0 <= j < |rows| :: zs[j] == (rows[j].sub, rows[j].clicks)
    {
      assert rows[..i + 1][..i] == rows[..i];
      board' := board'[zs[i].0 := zs[i].1];
    }
    assert rows[..|rows|] == rows;
  }

  /** Both sets and the expiry of the week's; no error is reported, and an empty set cannot be
      given an expiry. */
  method Sync(b: Boards, allTime: seq<ScoreRow>, week: seq<ScoreRow>, now: int, replies: (Reply, Reply, Reply))
    returns (b': Boards)
    ensures b'.allTime == if Stores(replies.0) then Added(b.allTime, allTime) else b.allTime
    ensures b'.week == if Stores(replies.1) then Added(b.week, week) else b.week
    ensures b'.weekExpiry ==
              if week != [] && Stores(replies.2) && b'.week != map[] then now + WEEK_TTL else b.weekExpiry
  {
    b' := b;
    if |allTime| > 0 {
      var board := SyncSet(b.allTime, allTime, replies.0);
      b' := b'.(allTime := board);
    }
    if |week| > 0 {
      var board := SyncSet(b.week, week, replies.1);
      b' := b'.(week := board);
      if (replies.2.Answered? || replies.2.stored) && board != map[] { b' := b'.(weekExpiry := now + WEEK_TTL); }
    }
  }

  lemma {:induction false} AddedHas(board: map<string, nat>, rows: seq<ScoreRow>, sub: string)
    ensures sub in Added(board, rows) <==> sub in board || exists i :: 0 <= i < |rows| && rows[i].sub == sub
    ensures sub in board && (forall i | 0 <= i < |rows| :: rows[i].sub != sub) ==> Added(board, rows)[sub] == board[sub]
    ensures (exists i :: 0 <= i < |rows| && rows[i].sub == sub) ==>
              sub in Added(map[], rows) && Added(board, rows)[sub] == Added(map[], rows)[sub]
  {
    if rows != [] {
      AddedHas(board, rows[..|rows| - 1], sub);
      AddedHas(map[], rows[..|rows| - 1], sub);
    }
  }

  /** "Idempotent full refresh": a second refresh with the same rows changes nothing; and the
      refreshed board is the table's if and only if no member of the board lacks a row, since
      nothing is ever removed from it. */
  lemma RefreshIffCovered(board: map<string, nat>, rows: seq<ScoreRow>)
    ensures Added(Added(board, rows), rows) == Added(board, rows)
    ensures Added(board, rows) == Added(map[], rows)
       <==> forall sub | sub in board :: exists i :: 0 <= i < |rows| && rows[i].sub == sub
  {
    forall sub
      ensures sub in Added(board, rows) <==> sub in board || exists i :: 0 <= i < |rows| && rows[i].sub == sub
      ensures sub in Added(map[], rows) <==> exists i :: 0 <= i < |rows| && rows[i].sub == sub
    {
      AddedHas(board, rows, sub);
      AddedHas(map[], rows, sub);
    }
    forall sub | sub in Added(Added(board, rows), rows)
      ensures sub in Added(board, rows) && Added(Added(board, rows), rows)[sub] == Added(board, rows)[sub]
    {
      AddedHas(board, rows, sub);
      AddedHas(Added(board, rows), rows, sub);
    }
    forall sub | sub in Added(board, rows) ensures sub in Added(Added(board, rows), rows) {
      AddedHas(Added(board, rows), rows, sub);
    }
    if forall sub | sub in board :: exists i :: 0 <= i < |rows| && rows[i].sub == sub {
      forall sub | sub in Added(board, rows)
        ensures sub in Added(map[], rows) && Added(board, rows)[sub] == Added(map[], rows)[sub]
      {
        AddedHas(board, rows, sub);
      }
    }
  }
}
