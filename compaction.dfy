/** Snapshot compaction in `player_stats` (utils/sql.py, add_player_stats):
    the table-level effect of one append, the per-player history it induces,
    and the invariant that no player ever has three consecutive identical
    stored snapshots. */
module Compaction {
  import opened Values
  import opened Schema

  /** A player's rows, oldest first (ascending stat_id when the table is). */
  function History(rows: seq<StatRow>, p: int): (h: seq<StatRow>)
    ensures |h| <= |rows|
    ensures forall k :: 0 <= k < |h| ==> h[k] in rows && h[k].playerId == p
  {
    if rows == [] then []
    else History(rows[..|rows| - 1], p) + (if rows[|rows| - 1].playerId == p then [rows[|rows| - 1]] else [])
  }

  lemma HistorySnoc(rows: seq<StatRow>, row: StatRow, p: int)
    ensures History(rows + [row], p) == History(rows, p) + (if row.playerId == p then [row] else [])
  {
    assert (rows + [row])[..|rows|] == rows;
  }

  /** `DELETE FROM player_stats WHERE stat_id = id`. */
  function DeleteStat(rows: seq<StatRow>, id: int): (r: seq<StatRow>)
    ensures |r| <= |rows|
    ensures forall k :: 0 <= k < |r| ==> r[k] in rows && r[k].statId != id
  {
    if rows == [] then []
    else DeleteStat(rows[..|rows| - 1], id) + (if rows[|rows| - 1].statId != id then [rows[|rows| - 1]] else [])
  }

  /** The SELECT of add_player_stats: the player's rows ordered by stat_id
      descending, at most two. */
  function NewestTwo(rows: seq<StatRow>, p: int): (r: seq<StatRow>)
    ensures var h := History(rows, p); |r| == if |h| >= 2 then 2 else |h|
    ensures forall k :: 0 <= k < |r| ==> r[k] in History(rows, p) && r[k].playerId == p
    ensures var h := History(rows, p); |r| > 0 ==> r[0] == h[|h| - 1]
  {
    var h := History(rows, p);
    if |h| >= 2 then [h[|h| - 1], h[|h| - 2]] else if |h| == 1 then [h[0]] else []
  }

  /** The duplicate-streak test: two rows came back and both carry exactly
      the incoming counters (stat_id and date are not compared). */
  predicate IsStreak(rows: seq<StatRow>, p: int, values: seq<Json>) {
    var lastTwo := NewestTwo(rows, p);
    |lastTwo| == 2 && values == lastTwo[0].counters && values == lastTwo[1].counters
  }

  /** The table once the DELETE of add_player_stats has run: on a streak the
      newest row of the player is gone, otherwise nothing changed. */
  function Kept(rows: seq<StatRow>, p: int, values: seq<Json>): (r: seq<StatRow>)
    requires StatIdsAscending(rows)
    ensures StatIdsAscending(r)
  {
    if IsStreak(rows, p, values) then
      DeleteStatAscending(rows, NewestTwo(rows, p)[0].statId);
      DeleteStat(rows, NewestTwo(rows, p)[0].statId)
    else rows
  }

  /** The table after a successful add_player_stats(p, ...) that binds
      `values` at time `now`: the DELETE of a streak, then the INSERT of the
      new row under the next rowid. */
  function AppendStat(rows: seq<StatRow>, p: int, values: seq<Json>, now: string): (r: seq<StatRow>)
    requires StatIdsAscending(rows)
  {
    var kept := Kept(rows, p, values);
    kept + [StatRow(NextStatId(kept), p, now, values)]
  }

  lemma {:induction false} DeleteStatAscending(rows: seq<StatRow>, id: int)
    requires StatIdsAscending(rows)
    ensures StatIdsAscending(DeleteStat(rows, id))
  {
    if rows != [] {
      var init := rows[..|rows| - 1];
      DeleteStatAscending(init, id);
      var d := DeleteStat(init, id);
      forall k | 0 <= k < |d| ensures d[k].statId < rows[|rows| - 1].statId {
        var i :| 0 <= i < |init| && init[i] == d[k];
      }
    }
  }

  /** The per-player view of one append: the incoming snapshot replaces the
      newest one when the two newest equal it, and is appended otherwise. */
  function Step(h: seq<StatRow>, row: StatRow): seq<StatRow>
  {
    if |h| >= 2 && h[|h| - 1].counters == row.counters && h[|h| - 2].counters == row.counters
    then h[..|h| - 1] + [row]
    else h + [row]
  }

  predicate TripleAt(h: seq<StatRow>, i: nat)
    requires i + 2 < |h|
  {
    h[i].counters == h[i + 1].counters && h[i + 1].counters == h[i + 2].counters
  }

  /** No three consecutive snapshots of a history are identical. */
  predicate NoTriple(h: seq<StatRow>) {
    forall i: nat :: i + 2 < |h| ==> !TripleAt(h, i)
  }

  /** The store's invariant: no player has three consecutive identical snapshots. */
  ghost predicate NoTripleAnyPlayer(rows: seq<StatRow>) {
    forall p :: NoTriple(History(rows, p))
  }

  // ---------------------------------------------------------------------
  // Filtering by player and deleting by id commute.

  lemma DeleteStatSnoc(rows: seq<StatRow>, row: StatRow, id: int)
    ensures DeleteStat(rows + [row], id) == DeleteStat(rows, id) + (if row.statId != id then [row] else [])
  {
    assert (rows + [row])[..|rows|] == rows;
  }

  lemma {:induction false} HistoryOfDelete(rows: seq<StatRow>, id: int, p: int)
    ensures History(DeleteStat(rows, id), p) == DeleteStat(History(rows, p), id)
  {
    if rows != [] {
      var init, last := rows[..|rows| - 1], rows[|rows| - 1];
      HistoryOfDelete(init, id, p);
      var d, h := DeleteStat(init, id), History(init, p);
      if last.statId != id {
        assert DeleteStat(rows, id) == d + [last];
        HistorySnoc(d, last, p);
      } else {
        assert DeleteStat(rows, id) == d;
      }
      if last.playerId == p {
        assert History(rows, p) == h + [last];
        DeleteStatSnoc(h, last, id);
      } else {
        assert History(rows, p) == h;
      }
    }
  }

  lemma {:induction false} DeleteStatAbsent(rows: seq<StatRow>, id: int)
    requires forall k :: 0 <= k < |rows| ==> rows[k].statId != id
    ensures DeleteStat(rows, id) == rows
  {
    if rows != [] {
      DeleteStatAbsent(rows[..|rows| - 1], id);
    }
  }

  /** Deleting the last row by its id removes exactly that row. */
  lemma DeleteStatLast(rows: seq<StatRow>)
    requires |rows| > 0 && StatIdsAscending(rows)
    ensures DeleteStat(rows, rows[|rows| - 1].statId) == rows[..|rows| - 1]
  {
    DeleteStatAbsent(rows[..|rows| - 1], rows[|rows| - 1].statId);
  }

  /** Deleting by the id of the row at index k removes exactly that row. */
  lemma {:induction false} DeleteStatAt(rows: seq<StatRow>, k: nat)
    requires k < |rows| && StatIdsAscending(rows)
    ensures DeleteStat(rows, rows[k].statId) == rows[..k] + rows[k + 1..]
  {
    var id := rows[k].statId;
    if k == |rows| - 1 {
      DeleteStatLast(rows);
    } else {
      var init := rows[..|rows| - 1];
      DeleteStatAt(init, k);
      assert init[k] == rows[k];
      assert rows[..k] + rows[k + 1..] == init[..k] + init[k + 1..] + [rows[|rows| - 1]];
    }
  }

  lemma {:induction false} HistoryAscending(rows: seq<StatRow>, p: int)
    requires StatIdsAscending(rows)
    ensures StatIdsAscending(History(rows, p))
  {
    if rows != [] {
      var init := rows[..|rows| - 1];
      HistoryAscending(init, p);
      var h := History(init, p);
      forall k | 0 <= k < |h| ensures h[k].statId < rows[|rows| - 1].statId {
        var i :| 0 <= i < |init| && init[i] == h[k];
      }
    }
  }

  lemma HistoryOfDeleteOther(rows: seq<StatRow>, id: int, q: int)
    requires forall k :: 0 <= k < |rows| && rows[k].statId == id ==> rows[k].playerId != q
    ensures History(DeleteStat(rows, id), q) == History(rows, q)
  {
    HistoryOfDelete(rows, id, q);
    var h := History(rows, q);
    forall k | 0 <= k < |h| ensures h[k].statId != id {
      var i :| 0 <= i < |rows| && rows[i] == h[k];
    }
    DeleteStatAbsent(h, id);
  }

  // ---------------------------------------------------------------------
  // What one append does.

  /** Two rows with the same stat_id are the same row. */
  lemma SameIdSameRow(rows: seq<StatRow>, i: nat, k: nat)
    requires StatIdsAscending(rows) && i < |rows| && k < |rows|
    requires rows[i].statId == rows[k].statId
    ensures i == k
  {
  }

  lemma KeptOwnHistory(rows: seq<StatRow>, p: int, values: seq<Json>)
    requires StatIdsAscending(rows)
    ensures var h := History(rows, p);
      History(Kept(rows, p, values), p) == if IsStreak(rows, p, values) then h[..|h| - 1] else h
  {
    if IsStreak(rows, p, values) {
      var h := History(rows, p);
      HistoryOfDelete(rows, h[|h| - 1].statId, p);
      HistoryAscending(rows, p);
      DeleteStatLast(h);
    }
  }

  lemma KeptOtherHistory(rows: seq<StatRow>, p: int, q: int, values: seq<Json>)
    requires StatIdsAscending(rows) && q != p
    ensures History(Kept(rows, p, values), q) == History(rows, q)
  {
    if IsStreak(rows, p, values) {
      var h := History(rows, p);
      var id := h[|h| - 1].statId;
      var i :| 0 <= i < |rows| && rows[i] == h[|h| - 1];
      forall k | 0 <= k < |rows| && rows[k].statId == id ensures rows[k].playerId != q {
        SameIdSameRow(rows, i, k);
      }
      HistoryOfDeleteOther(rows, id, q);
    }
  }

  /** The SELECT-and-compare of add_player_stats is the condition of Step. */
  lemma StreakIsStepCondition(rows: seq<StatRow>, p: int, values: seq<Json>)
    ensures var h := History(rows, p);
      IsStreak(rows, p, values) <==> |h| >= 2 && h[|h| - 1].counters == values && h[|h| - 2].counters == values
  {
  }

  /** The player's history after an append is Step of the history before,
      with the inserted row, which carries the incoming counters. */
  lemma {:induction false} AppendStatOwnHistory(rows: seq<StatRow>, p: int, values: seq<Json>, now: string)
    requires StatIdsAscending(rows)
    ensures var r := AppendStat(rows, p, values, now);
      |r| > 0 && r[|r| - 1].playerId == p && r[|r| - 1].counters == values && r[|r| - 1].date == now &&
      History(r, p) == Step(History(rows, p), r[|r| - 1])
  {
    var kept := Kept(rows, p, values);
    var row := StatRow(NextStatId(kept), p, now, values);
    var h := History(rows, p);
    HistorySnoc(kept, row, p);
    KeptOwnHistory(rows, p, values);
    StreakIsStepCondition(rows, p, values);
    if IsStreak(rows, p, values) {
      assert Step(h, row) == h[..|h| - 1] + [row];
    } else {
      assert Step(h, row) == h + [row];
    }
    var r := AppendStat(rows, p, values, now);
    assert r[|r| - 1] == row;
    assert History(r, p) == Step(h, row);
  }

  /** An append for p leaves every other player's history as it was. */
  lemma AppendStatOtherHistory(rows: seq<StatRow>, p: int, q: int, values: seq<Json>, now: string)
    requires StatIdsAscending(rows) && q != p
    ensures History(AppendStat(rows, p, values, now), q) == History(rows, q)
  {
    var kept := Kept(rows, p, values);
    HistorySnoc(kept, StatRow(NextStatId(kept), p, now, values), q);
    KeptOtherHistory(rows, p, q, values);
  }

  /** The new row's id exceeds every id kept, so the table stays ascending. */
  lemma AppendStatAscending(rows: seq<StatRow>, p: int, values: seq<Json>, now: string)
    requires StatIdsAscending(rows)
    ensures StatIdsAscending(AppendStat(rows, p, values, now))
  {
    var kept := Kept(rows, p, values);
    var r := AppendStat(rows, p, values, now);
    forall i, j | 0 <= i < j < |r| ensures r[i].statId < r[j].statId {
      if j < |kept| {
        assert r[i] == kept[i] && r[j] == kept[j];
      }
    }
  }

  /** The DELETE removes the player's newest row, wherever it sits in the table. */
  lemma KeptShape(rows: seq<StatRow>, p: int, values: seq<Json>)
    requires StatIdsAscending(rows)
    ensures var h := History(rows, p);
      IsStreak(rows, p, values) ==>
        exists k :: 0 <= k < |rows| && rows[k] == h[|h| - 1] && Kept(rows, p, values) == rows[..k] + rows[k + 1..]
  {
    if IsStreak(rows, p, values) {
      var h := History(rows, p);
      assert h[|h| - 1] in rows;
      var k :| 0 <= k < |rows| && rows[k] == h[|h| - 1];
      assert NewestTwo(rows, p)[0] == rows[k];
      assert Kept(rows, p, values) == DeleteStat(rows, rows[k].statId);
      DeleteStatAt(rows, k);
    }
  }

  /** Only the newest row of p can disappear: the table is the old one, with
      that row removed when the two newest rows of p equal the incoming
      counters, followed by the new row, whose id exceeds every other id. */
  lemma AppendStatShape(rows: seq<StatRow>, p: int, values: seq<Json>, now: string)
    requires StatIdsAscending(rows)
    ensures var r := AppendStat(rows, p, values, now);
      StatIdsAscending(r) &&
      r[|r| - 1].playerId == p && r[|r| - 1].counters == values && r[|r| - 1].date == now &&
      (!IsStreak(rows, p, values) ==> r == rows + [r[|r| - 1]]) &&
      (IsStreak(rows, p, values) ==>
        var h := History(rows, p);
        exists k :: 0 <= k < |rows| && rows[k] == h[|h| - 1] && r == rows[..k] + rows[k + 1..] + [r[|r| - 1]])
  {
    AppendStatAscending(rows, p, values, now);
    KeptShape(rows, p, values);
  }

  // ---------------------------------------------------------------------
  // Per-player history laws.

  /** Step keeps the history free of triples. */
  lemma StepKeepsNoTriple(h: seq<StatRow>, row: StatRow)
    requires NoTriple(h)
    ensures NoTriple(Step(h, row))
  {
    var s := Step(h, row);
    forall i: nat | i + 2 < |s| ensures !TripleAt(s, i) {
      if i + 2 < |h| {
        assert s[i] == h[i] && s[i + 1] == h[i + 1];
        if i + 2 == |h| - 1 {
          assert s[i + 2].counters == h[i + 2].counters;
        } else {
          assert s[i + 2] == h[i + 2];
        }
        assert !TripleAt(h, i);
      } else {
        assert s[i] == h[i] && s[i + 1] == h[i + 1];
      }
    }
  }

  /** One append keeps the store free of triples for every player. */
  lemma AppendStatKeepsNoTriple(rows: seq<StatRow>, p: int, values: seq<Json>, now: string)
    requires StatIdsAscending(rows) && NoTripleAnyPlayer(rows)
    ensures NoTripleAnyPlayer(AppendStat(rows, p, values, now))
  {
    var r := AppendStat(rows, p, values, now);
    forall q ensures NoTriple(History(r, q)) {
      if q == p {
        AppendStatOwnHistory(rows, p, values, now);
        StepKeepsNoTriple(History(rows, p), r[|r| - 1]);
      } else {
        AppendStatOtherHistory(rows, p, q, values, now);
      }
    }
  }

  /** Row counts: a streak keeps the player's count, otherwise it grows by
      one; with fewer than two rows there is never a streak. */
  lemma StepCount(h: seq<StatRow>, row: StatRow)
    ensures |h| < 2 ==> Step(h, row) == h + [row]
    ensures |Step(h, row)| == if |h| >= 2 && h[|h| - 1].counters == row.counters && h[|h| - 2].counters == row.counters then |h| else |h| + 1
    ensures Step(h, row)[|Step(h, row)| - 1] == row
  {
  }

  /** Replays a series of appends on a history. */
  function StepAll(h: seq<StatRow>, rows: seq<StatRow>): seq<StatRow>
    decreases |rows|
  {
    if rows == [] then h else StepAll(Step(h, rows[0]), rows[1..])
  }

  predicate SameCounters(rows: seq<StatRow>, c: seq<Json>) {
    forall k :: 0 <= k < |rows| ==> rows[k].counters == c
  }

  lemma {:induction false} RunTail(h: seq<StatRow>, a: StatRow, b: StatRow, rows: seq<StatRow>)
    requires a.counters == b.counters && SameCounters(rows, a.counters)
    ensures StepAll(h + [a, b], rows) == h + [a, if rows == [] then b else rows[|rows| - 1]]
    decreases |rows|
  {
    if rows != [] {
      var s := h + [a, b];
      assert s[..|s| - 1] + [rows[0]] == h + [a, rows[0]];
      RunTail(h, a, rows[0], rows[1..]);
    }
  }

  /** A run of N >= 2 identical snapshots that follows a different one (or
      starts the history) is stored as exactly two rows: its first and its
      last. */
  lemma RunKeepsFirstAndLast(h: seq<StatRow>, rows: seq<StatRow>)
    requires |rows| >= 2 && SameCounters(rows, rows[0].counters)
    requires h == [] || h[|h| - 1].counters != rows[0].counters
    ensures StepAll(h, rows) == h + [rows[0], rows[|rows| - 1]]
  {
    assert Step(h, rows[0]) == h + [rows[0]];
    var h1 := h + [rows[0]];
    assert Step(h1, rows[1]) == h + [rows[0], rows[1]];
    assert StepAll(h, rows) == StepAll(h + [rows[0], rows[1]], rows[2..]);
    RunTail(h, rows[0], rows[1], rows[2..]);
  }

  /** Three identical appends keep the first and the third; two identical
      ones followed by a different one keep all three. */
  lemma ThreeAppends(a: StatRow, b: StatRow, c: StatRow)
    ensures a.counters == b.counters == c.counters ==> StepAll([], [a, b, c]) == [a, c]
    ensures a.counters == b.counters && c.counters != a.counters ==> StepAll([], [a, b, c]) == [a, b, c]
  {
    assert [a, b, c][1..] == [b, c];
    assert [b, c][1..] == [c];
    assert Step([], a) == [a];
    assert Step([a], b) == [a, b];
    assert [a, b][..1] + [c] == [a, c];
    calc {
      StepAll([], [a, b, c]);
      StepAll([a], [b, c]);
      StepAll([a, b], [c]);
      StepAll(Step([a, b], c), []);
    }
  }

  // ---------------------------------------------------------------------
  // A series of add_player_stats calls for one player, on the table.

  /** The calls add_player_stats lets through: a truthy player id and
      values sqlite3 can bind. Any other call raises and leaves the table
      as it was. */
  predicate Accepted(p: int, vs: seq<seq<Json>>) {
    p != 0 && forall k :: 0 <= k < |vs| ==> AllBindable(vs[k])
  }

  /** The table after add_player_stats(p, ...) has succeeded once for each
      of `vs`, in order, the k-th call binding `vs[k]` at time `nows[k]`. */
  function AppendStats(rows: seq<StatRow>, p: int, vs: seq<seq<Json>>, nows: seq<string>): (r: seq<StatRow>)
    requires StatIdsAscending(rows) && |nows| == |vs| && Accepted(p, vs)
    ensures StatIdsAscending(r)
    decreases |vs|
  {
    if vs == [] then rows
    else
      var before := AppendStats(rows, p, vs[..|vs| - 1], nows[..|nows| - 1]);
      AppendStatAscending(before, p, vs[|vs| - 1], nows[|nows| - 1]);
      AppendStat(before, p, vs[|vs| - 1], nows[|nows| - 1])
  }

  /** The rows those successful calls inserted, in call order. */
  function Inserted(rows: seq<StatRow>, p: int, vs: seq<seq<Json>>, nows: seq<string>): (ins: seq<StatRow>)
    requires StatIdsAscending(rows) && |nows| == |vs| && Accepted(p, vs)
    ensures |ins| == |vs|
    decreases |vs|
  {
    if vs == [] then []
    else
      var r := AppendStats(rows, p, vs, nows);
      Inserted(rows, p, vs[..|vs| - 1], nows[..|nows| - 1]) + [r[|r| - 1]]
  }

  /** The row an append inserts is the table's last, for p, with the
      bound counters and the time of the call. */
  lemma AppendStatNewRow(rows: seq<StatRow>, p: int, values: seq<Json>, now: string)
    requires StatIdsAscending(rows)
    ensures var r := AppendStat(rows, p, values, now);
      |r| > 0 && r[|r| - 1].playerId == p && r[|r| - 1].counters == values && r[|r| - 1].date == now
  {
  }

  /** The k-th inserted row belongs to p and carries the k-th call's
      counters and time. */
  lemma {:induction false} InsertedRows(rows: seq<StatRow>, p: int, vs: seq<seq<Json>>, nows: seq<string>)
    requires StatIdsAscending(rows) && |nows| == |vs| && Accepted(p, vs)
    ensures var ins := Inserted(rows, p, vs, nows);
      forall k :: 0 <= k < |ins| ==> ins[k].playerId == p && ins[k].counters == vs[k] && ins[k].date == nows[k]
    decreases |vs|
  {
    if vs != [] {
      var vs', nows' := vs[..|vs| - 1], nows[..|nows| - 1];
      var before := AppendStats(rows, p, vs', nows');
      var r := AppendStats(rows, p, vs, nows);
      var prev := Inserted(rows, p, vs', nows');
      var ins := Inserted(rows, p, vs, nows);
      var row := r[|r| - 1];
      assert ins == prev + [row];
      assert row.playerId == p && row.counters == vs[|vs| - 1] && row.date == nows[|nows| - 1] by {
        AppendStatNewRow(before, p, vs[|vs| - 1], nows[|nows| - 1]);
        assert r == AppendStat(before, p, vs[|vs| - 1], nows[|nows| - 1]);
      }
      InsertedRows(rows, p, vs', nows');
      forall k | 0 <= k < |ins|
        ensures ins[k].playerId == p && ins[k].counters == vs[k] && ins[k].date == nows[k]
      {
        if k < |prev| {
          assert ins[k] == prev[k] && vs[k] == vs'[k] && nows[k] == nows'[k];
        } else {
          assert k == |vs| - 1 && ins[k] == row;
        }
      }
    }
  }

  lemma {:induction false} StepAllSnoc(h: seq<StatRow>, rows: seq<StatRow>, row: StatRow)
    ensures StepAll(h, rows + [row]) == Step(StepAll(h, rows), row)
    decreases |rows|
  {
    if rows == [] {
      assert ([] + [row])[1..] == [];
    } else {
      assert (rows + [row])[1..] == rows[1..] + [row];
      StepAllSnoc(Step(h, rows[0]), rows[1..], row);
    }
  }

  /** On the table, a series of successful calls for p replays Step on p's history
      with the inserted rows, and leaves every other history unchanged. */
  lemma {:induction false} AppendStatsHistory(rows: seq<StatRow>, p: int, vs: seq<seq<Json>>, nows: seq<string>)
    requires StatIdsAscending(rows) && |nows| == |vs| && Accepted(p, vs)
    ensures History(AppendStats(rows, p, vs, nows), p) == StepAll(History(rows, p), Inserted(rows, p, vs, nows))
    ensures forall q :: q != p ==> History(AppendStats(rows, p, vs, nows), q) == History(rows, q)
    decreases |vs|
  {
    if vs != [] {
      var vs', nows' := vs[..|vs| - 1], nows[..|nows| - 1];
      var before := AppendStats(rows, p, vs', nows');
      AppendStatsHistory(rows, p, vs', nows');
      AppendStatOwnHistory(before, p, vs[|vs| - 1], nows[|nows| - 1]);
      var r := AppendStats(rows, p, vs, nows);
      StepAllSnoc(History(rows, p), Inserted(rows, p, vs', nows'), r[|r| - 1]);
      forall q | q != p ensures History(r, q) == History(rows, q) {
        AppendStatOtherHistory(before, p, q, vs[|vs| - 1], nows[|nows| - 1]);
      }
    }
  }

  /** Snapshots with counters `c` start a new run after history h: it is
      empty or its newest snapshot differs. */
  predicate NewRun(h: seq<StatRow>, c: seq<Json>) {
    h == [] || h[|h| - 1].counters != c
  }

  /** Rows inserted with the same counters form a run. */
  lemma {:induction false} RunOfInserted(h: seq<StatRow>, ins: seq<StatRow>, vs: seq<seq<Json>>)
    requires |ins| == |vs| >= 2
    requires forall k :: 0 <= k < |ins| ==> ins[k].counters == vs[k]
    requires forall k :: 0 <= k < |vs| ==> vs[k] == vs[0]
    requires NewRun(h, vs[0])
    ensures StepAll(h, ins) == h + [ins[0], ins[|ins| - 1]]
  {
    assert SameCounters(ins, ins[0].counters) by {
      forall k | 0 <= k < |ins| ensures ins[k].counters == ins[0].counters {
        assert ins[k].counters == vs[k];
      }
    }
    RunKeepsFirstAndLast(h, ins);
  }

  /** N >= 2 identical successful add_player_stats calls for p, after a different
      snapshot of p (or none), leave p's stored history as it was plus the
      rows of the first call and of the last call (InsertedRows gives their
      counters and times). */
  lemma {:induction false} AppendStatsRun(rows: seq<StatRow>, p: int, vs: seq<seq<Json>>, nows: seq<string>)
    requires StatIdsAscending(rows) && |nows| == |vs| && Accepted(p, vs) && |vs| >= 2
    requires forall k :: 0 <= k < |vs| ==> vs[k] == vs[0]
    requires NewRun(History(rows, p), vs[0])
    ensures var ins := Inserted(rows, p, vs, nows);
      History(AppendStats(rows, p, vs, nows), p) == History(rows, p) + [ins[0], ins[|ins| - 1]]
  {
    InsertedRun(rows, p, vs, nows);
    AppendStatsHistory(rows, p, vs, nows);
  }

  /** Replaying the rows of identical calls keeps the first and the last. */
  lemma {:induction false} InsertedRun(rows: seq<StatRow>, p: int, vs: seq<seq<Json>>, nows: seq<string>)
    requires StatIdsAscending(rows) && |nows| == |vs| && Accepted(p, vs) && |vs| >= 2
    requires forall k :: 0 <= k < |vs| ==> vs[k] == vs[0]
    requires NewRun(History(rows, p), vs[0])
    ensures var ins := Inserted(rows, p, vs, nows);
      StepAll(History(rows, p), ins) == History(rows, p) + [ins[0], ins[|ins| - 1]]
  {
    InsertedRows(rows, p, vs, nows);
    RunOfInserted(History(rows, p), Inserted(rows, p, vs, nows), vs);
  }
}
