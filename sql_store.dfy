/** The SQLite store of utils/sql.py: the `players`, `player_stats` and
    `cloud_stats` tables as sequences of rows inside one object, each SQL
    statement an atomic update of them. */
module Sql {
  import opened Values
  import opened Text
  import opened Schema
  import opened Compaction

  // ---------------------------------------------------------------------
  // Table invariants.

  /** `players`: ascending rowids from 1, `uuid` and `name` UNIQUE. The
      UNIQUE on `name` uses the default binary collation, so names that
      differ only in letter case may both be present. */
  predicate PlayersValid(rows: seq<PlayerRow>) {
    (forall i, j :: 0 <= i < j < |rows| ==> rows[i].id < rows[j].id) &&
    (forall k :: 0 <= k < |rows| ==> rows[k].id >= 1) &&
    (forall i, j :: 0 <= i < j < |rows| ==> rows[i].uuid != rows[j].uuid && rows[i].name != rows[j].name)
  }

  predicate StatRowsWellFormed(rows: seq<StatRow>) {
    forall k :: 0 <= k < |rows| ==> |rows[k].counters| == |StatColumns| && AllBindable(rows[k].counters)
  }

  /** `player_stats`: ascending stat_ids, one bindable value per counter
      column, and no player with three consecutive identical snapshots. */
  ghost predicate StatsValid(rows: seq<StatRow>) {
    StatIdsAscending(rows) && StatRowsWellFormed(rows) && NoTripleAnyPlayer(rows)
  }

  predicate CloudValid(rows: seq<CloudRow>) {
    (forall i, j :: 0 <= i < j < |rows| ==> rows[i].id < rows[j].id) &&
    (forall k :: 0 <= k < |rows| ==> |rows[k].counts| == CloudWidth && AllBindable(rows[k].counts))
  }

  function NextPlayerId(rows: seq<PlayerRow>): (id: int)
    requires PlayersValid(rows)
    ensures id >= 1 && forall k :: 0 <= k < |rows| ==> rows[k].id < id
  {
    if rows == [] then 1 else rows[|rows| - 1].id + 1
  }

  function NextCloudId(rows: seq<CloudRow>): (id: int)
    requires CloudValid(rows)
    ensures forall k :: 0 <= k < |rows| ==> rows[k].id < id
  {
    if rows == [] then 1 else rows[|rows| - 1].id + 1
  }

  // ---------------------------------------------------------------------
  // Queries on `players`.

  /** `SELECT id FROM players WHERE name COLLATE NOCASE = ?` and `fetchone()`:
      the id of a row whose name equals `name` under NOCASE; None when no row
      does. The query has no ORDER BY, so when several case-variants match,
      which one comes back is not fixed; the model takes the first in rowid
      order. */
  function FindByName(rows: seq<PlayerRow>, name: string): (r: Option<int>)
    ensures r.None? <==> forall k :: 0 <= k < |rows| ==> !NoCaseEq(rows[k].name, name)
    ensures r.Some? ==> exists k :: FirstMatch(rows, name, k) && rows[k].id == r.value
  {
    if rows == [] then None
    else if NoCaseEq(rows[0].name, name) then
      assert FirstMatch(rows, name, 0);
      Some(rows[0].id)
    else
      var r := FindByName(rows[1..], name);
      FindByNameSkip(rows, name, r);
      r
  }

  /** Row k is the first, in rowid order, whose name matches under NOCASE. */
  predicate FirstMatch(rows: seq<PlayerRow>, name: string, k: int) {
    0 <= k < |rows| && NoCaseEq(rows[k].name, name) &&
    forall j :: 0 <= j < k ==> !NoCaseEq(rows[j].name, name)
  }

  /** A first row that does not match leaves the search result of the rest
      unchanged. */
  lemma FindByNameSkip(rows: seq<PlayerRow>, name: string, r: Option<int>)
    requires rows != [] && !NoCaseEq(rows[0].name, name)
    requires r.None? <==> forall k :: 0 <= k < |rows[1..]| ==> !NoCaseEq(rows[1..][k].name, name)
    requires r.Some? ==> exists k :: FirstMatch(rows[1..], name, k) && rows[1..][k].id == r.value
    ensures r.None? <==> forall k :: 0 <= k < |rows| ==> !NoCaseEq(rows[k].name, name)
    ensures r.Some? ==> exists k :: FirstMatch(rows, name, k) && rows[k].id == r.value
  {
    assert forall k :: 1 <= k < |rows| ==> rows[k] == rows[1..][k - 1];
    if r.Some? {
      var k :| FirstMatch(rows[1..], name, k) && rows[1..][k].id == r.value;
      assert FirstMatch(rows, name, k + 1);
    }
  }

  /** `SELECT * FROM players WHERE name COLLATE NOCASE = ?` and `fetchall()`:
      every row whose name equals `name` under NOCASE, and no other row. */
  function NameMatches(rows: seq<PlayerRow>, name: string): (m: seq<PlayerRow>)
    ensures forall k :: 0 <= k < |m| ==> m[k] in rows && NoCaseEq(m[k].name, name)
    ensures forall k :: 0 <= k < |rows| && NoCaseEq(rows[k].name, name) ==> rows[k] in m
  {
    if rows == [] then []
    else
      var init := rows[..|rows| - 1];
      var m := NameMatches(init, name) + (if NoCaseEq(rows[|rows| - 1].name, name) then [rows[|rows| - 1]] else []);
      assert forall k :: 0 <= k < |rows| - 1 ==> rows[k] == init[k];
      m
  }

  /** The query returns some row exactly when some name matches. */
  lemma NameMatchesNonEmpty(rows: seq<PlayerRow>, name: string)
    ensures |NameMatches(rows, name)| > 0 <==> exists k :: 0 <= k < |rows| && NoCaseEq(rows[k].name, name)
  {
    var m := NameMatches(rows, name);
    if |m| > 0 {
      assert m[0] in rows;
      var k :| 0 <= k < |rows| && rows[k] == m[0];
    }
    if k :| 0 <= k < |rows| && NoCaseEq(rows[k].name, name) {
      assert rows[k] in m;
    }
  }

  /** `SELECT id FROM players WHERE uuid = ?`: the id of the row whose uuid
      is exactly `uuid`, None when there is none. */
  function FindByUuid(rows: seq<PlayerRow>, uuid: string): (r: Option<int>)
    ensures r.None? <==> forall k :: 0 <= k < |rows| ==> rows[k].uuid != uuid
    ensures r.Some? ==> exists k :: 0 <= k < |rows| && rows[k].id == r.value && rows[k].uuid == uuid
  {
    if rows == [] then None
    else if rows[0].uuid == uuid then Some(rows[0].id)
    else
      var r := FindByUuid(rows[1..], uuid);
      assert forall k :: 1 <= k < |rows| ==> rows[k] == rows[1..][k - 1];
      r
  }

  // ---------------------------------------------------------------------
  // The serialisers over `cloud_stats`.

  /** Python's `str()` of a value read back from an INTEGER column (sqlite3
      stores a boolean as 0 or 1). */
  function Show(j: Json): (s: string)
    requires Bindable(j)
  {
    match j
    case Null => "None"
    case Bool(b) => if b then "1" else "0"
    case Int(i) => IntToString(i)
    case Str(t) => t
  }

  /** One entry of two_cols_of_stats. */
  function TwoColsEntry(row: CloudRow): string
    requires |row.counts| == CloudWidth && AllBindable(row.counts)
  {
    "  {Date: new Date(\"" + row.date + "\"), Players: " + Show(row.counts[0]) + "}"
  }

  /** One entry of graph_data. */
  function GraphEntry(row: CloudRow): string
    requires |row.counts| == CloudWidth && AllBindable(row.counts)
  {
    var c := row.counts;
    "  {Date: new Date(\"" + row.date + "\"), Players: " + Show(c[0]) +
    ", Dom: " + Show(c[1]) + ", TDM: " + Show(c[2]) + ", Inf: " + Show(c[3]) +
    ", GG: " + Show(c[4]) + ", TTT: " + Show(c[5]) + ", Boot: " + Show(c[6]) + "}"
  }

  /** The JavaScript array literal both serialisers print. */
  function Render(entries: seq<string>): (r: string)
    ensures |r| >= 4 && r[..2] == "[\n" && r[|r| - 2..] == "\n]"
  {
    "[\n" + Join(entries, ",\n") + "\n]"
  }

  /** Zero rows print as an empty array literal with a blank line inside. */
  lemma RenderEmpty()
    ensures Render([]) == "[\n\n]"
  {
  }

  /** The entries of two_cols_of_stats, one per row in row order. */
  function TwoColsEntries(rows: seq<CloudRow>): (r: seq<string>)
    requires CloudValid(rows)
    ensures |r| == |rows|
  {
    seq(|rows|, k requires 0 <= k < |rows| => TwoColsEntry(rows[k]))
  }

  /** The entries of graph_data, one per row in row order. */
  function GraphEntries(rows: seq<CloudRow>): (r: seq<string>)
    requires CloudValid(rows)
    ensures |r| == |rows|
  {
    seq(|rows|, k requires 0 <= k < |rows| => GraphEntry(rows[k]))
  }

  /** Appending one entry puts it, after a ",\n", just before the closing
      "\n]" of what was printed before; the first entry goes alone between
      the brackets. */
  lemma RenderAppend(entries: seq<string>, e: string)
    ensures entries == [] ==> Render(entries + [e]) == "[\n" + e + "\n]"
    ensures entries != [] ==> Render(entries + [e]) == Render(entries)[..|Render(entries)| - 2] + ",\n" + e + "\n]"
  {
    if entries != [] {
      JoinSnoc(entries, e, ",\n");
      var head := "[\n" + Join(entries, ",\n");
      assert Render(entries) == head + "\n]";
      assert Render(entries)[..|Render(entries)| - 2] == head;
    }
  }

  /** A row appended by add_cloud_stats adds its entry at the end of
      two_cols_of_stats and leaves the earlier entries as they were. */
  lemma TwoColsEntriesSnoc(rows: seq<CloudRow>, row: CloudRow)
    requires CloudValid(rows) && |row.counts| == CloudWidth && AllBindable(row.counts)
    requires forall k :: 0 <= k < |rows| ==> rows[k].id < row.id
    ensures CloudValid(rows + [row])
    ensures TwoColsEntries(rows + [row]) == TwoColsEntries(rows) + [TwoColsEntry(row)]
  {
    var all := rows + [row];
    assert forall k :: 0 <= k < |rows| ==> all[k] == rows[k];
  }

  /** The same for graph_data. */
  lemma GraphEntriesSnoc(rows: seq<CloudRow>, row: CloudRow)
    requires CloudValid(rows) && |row.counts| == CloudWidth && AllBindable(row.counts)
    requires forall k :: 0 <= k < |rows| ==> rows[k].id < row.id
    ensures CloudValid(rows + [row])
    ensures GraphEntries(rows + [row]) == GraphEntries(rows) + [GraphEntry(row)]
  {
    var all := rows + [row];
    assert forall k :: 0 <= k < |rows| ==> all[k] == rows[k];
  }

  // ---------------------------------------------------------------------
  // The store.

  class Store {
    var players: seq<PlayerRow>
    var playerStats: seq<StatRow>
    var cloudStats: seq<CloudRow>

    ghost predicate Valid()
      reads this
    {
      PlayersValid(players) && StatsValid(playerStats) && CloudValid(cloudStats)
    }

    /** A freshly created database: the three tables exist and are empty. */
    constructor ()
      ensures Valid()
      ensures players == [] && playerStats == [] && cloudStats == []
    {
      players, playerStats, cloudStats := [], [], [];
    }

    /** add_cloud_stats: one unconditional INSERT, no comparison. */
    method AddCloudStats(stats: seq<Json>, now: string) returns (r: Result<int>)
      requires Valid()
      modifies this
      ensures Valid()
      ensures players == old(players) && playerStats == old(playerStats)
      ensures |stats| != CloudWidth ==> r == Err(BindingCount) && cloudStats == old(cloudStats)
      ensures |stats| == CloudWidth && !AllBindable(stats) ==> r == Err(UnsupportedType) && cloudStats == old(cloudStats)
      ensures |stats| == CloudWidth && AllBindable(stats) ==>
        r == Ok(NextCloudId(old(cloudStats))) && cloudStats == old(cloudStats) + [CloudRow(r.value, now, stats)]
    {
      if |stats| != CloudWidth {
        return Err(BindingCount);
      }
      if !AllBindable(stats) {
        return Err(UnsupportedType);
      }
      var id := NextCloudId(cloudStats);
      cloudStats := cloudStats + [CloudRow(id, now, stats)];
      r := Ok(id);
    }

    /** The INSERT of add_player, given the uuid the identity service
        returned: refused by the UNIQUE constraints when the uuid, or the
        exact (case-sensitive) name, is already present. */
    method InsertPlayer(uuid: string, name: string) returns (r: Result<int>)
      requires Valid()
      modifies this
      ensures Valid()
      ensures playerStats == old(playerStats) && cloudStats == old(cloudStats)
      ensures (exists k :: 0 <= k < |old(players)| && (old(players)[k].uuid == uuid || old(players)[k].name == name)) ==>
        r == Err(ConstraintViolation) && players == old(players)
      ensures (forall k :: 0 <= k < |old(players)| ==> old(players)[k].uuid != uuid && old(players)[k].name != name) ==>
        r == Ok(NextPlayerId(old(players))) && players == old(players) + [PlayerRow(r.value, uuid, name)]
    {
      if exists k :: 0 <= k < |players| && (players[k].uuid == uuid || players[k].name == name) {
        return Err(ConstraintViolation);
      }
      var id := NextPlayerId(players);
      players := players + [PlayerRow(id, uuid, name)];
      r := Ok(id);
    }

    /** get_players_uuids, in table order. */
    function GetPlayersUuids(): (r: seq<string>)
      reads this
      ensures |r| == |players|
      ensures forall k :: 0 <= k < |players| ==> r[k] == players[k].uuid
    {
      seq(|players|, k requires 0 <= k < |players| reads this => players[k].uuid)
    }

    /** get_player_id_by_uuid. */
    function GetPlayerIdByUuid(uuid: string): (r: Option<int>)
      reads this
      requires Valid()
      ensures r.None? <==> forall k :: 0 <= k < |players| ==> players[k].uuid != uuid
      ensures r.Some? ==> exists k :: 0 <= k < |players| && players[k] == PlayerRow(r.value, uuid, players[k].name)
    {
      FindByUuid(players, uuid)
    }

    /** get_player_id_by_name. */
    function GetPlayerIdByName(name: string): (r: Option<int>)
      reads this
      requires Valid()
      ensures r.None? <==> forall k :: 0 <= k < |players| ==> !NoCaseEq(players[k].name, name)
      ensures r.Some? ==> r.value >= 1 && exists k :: 0 <= k < |players| && players[k].id == r.value && NoCaseEq(players[k].name, name)
    {
      FindByName(players, name)
    }

    /** check_player: whether the NOCASE query returned any row. */
    function CheckPlayer(name: string): (r: bool)
      reads this
      ensures r <==> exists k :: 0 <= k < |players| && NoCaseEq(players[k].name, name)
    {
      NameMatchesNonEmpty(players, name);
      |NameMatches(players, name)| > 0
    }

    /** check_player holds exactly when get_player_id_by_name finds an id. */
    lemma CheckPlayerIffFound(name: string)
      requires Valid()
      ensures CheckPlayer(name) <==> GetPlayerIdByName(name).Some?
    {
    }

    /** add_player_stats. A falsy player id (None or 0) raises before any
        statement runs. Otherwise the SELECT reads the player's two newest
        rows; when both carry exactly the incoming counters the newest one is
        deleted; then the new row is inserted. A value sqlite3 cannot bind
        makes the INSERT raise, and the transaction is rolled back. */
    method AddPlayerStats(playerId: Option<int>, stats: map<string, Json>, now: string) returns (r: Result<int>)
      requires Valid()
      modifies this
      ensures Valid()
      ensures players == old(players) && cloudStats == old(cloudStats)
      ensures (playerId.None? || playerId.value == 0) ==> r == Err(InvalidPlayerId) && playerStats == old(playerStats)
      ensures playerId.Some? && playerId.value != 0 && !AllBindable(StatValues(stats)) ==>
        r == Err(UnsupportedType) && playerStats == old(playerStats)
      ensures playerId.Some? && playerId.value != 0 && AllBindable(StatValues(stats)) ==>
        playerStats == AppendStat(old(playerStats), playerId.value, StatValues(stats), now) &&
        r == Ok(playerStats[|playerStats| - 1].statId)
    {
      if playerId.None? || playerId.value == 0 {
        return Err(InvalidPlayerId);
      }
      var p := playerId.value;
      var values := StatValues(stats);
      var before := playerStats;
      var lastTwo := NewestTwo(playerStats, p);
      if |lastTwo| == 2 && values == lastTwo[0].counters && values == lastTwo[1].counters {
        DeleteStatAscending(playerStats, lastTwo[0].statId);
        playerStats := DeleteStat(playerStats, lastTwo[0].statId);
      }
      if !AllBindable(values) {
        playerStats := before;
        return Err(UnsupportedType);
      }
      var id := NextStatId(playerStats);
      playerStats := playerStats + [StatRow(id, p, now, values)];
      r := Ok(id);
      AppendStatShape(before, p, values, now);
      AppendStatKeepsNoTriple(before, p, values, now);
      AppendStatWellFormed(before, p, values, now);
    }

    /** two_cols_of_stats: one entry per row, in row order. */
    method TwoColsOfStats() returns (output: string)
      requires Valid()
      ensures output == Render(TwoColsEntries(cloudStats))
    {
      var formatted: seq<string> := [];
      for k := 0 to |cloudStats|
        invariant |formatted| == k
        invariant forall j :: 0 <= j < k ==> formatted[j] == TwoColsEntry(cloudStats[j])
      {
        formatted := formatted + [TwoColsEntry(cloudStats[k])];
      }
      assert formatted == TwoColsEntries(cloudStats);
      output := "[\n" + Join(formatted, ",\n") + "\n]";
    }

    /** graph_data: one entry per row, in row order. */
    method GraphData() returns (output: string)
      requires Valid()
      ensures output == Render(GraphEntries(cloudStats))
    {
      var formatted: seq<string> := [];
      for k := 0 to |cloudStats|
        invariant |formatted| == k
        invariant forall j :: 0 <= j < k ==> formatted[j] == GraphEntry(cloudStats[j])
      {
        formatted := formatted + [GraphEntry(cloudStats[k])];
      }
      assert formatted == GraphEntries(cloudStats);
      output := "[\n" + Join(formatted, ",\n") + "\n]";
    }
  }

  /** Every row of the table after an append holds 30 bindable counters. */
  lemma AppendStatWellFormed(rows: seq<StatRow>, p: int, values: seq<Json>, now: string)
    requires StatIdsAscending(rows) && StatRowsWellFormed(rows)
    requires |values| == |StatColumns| && AllBindable(values)
    ensures StatRowsWellFormed(AppendStat(rows, p, values, now))
  {
    var kept := Kept(rows, p, values);
    var r := AppendStat(rows, p, values, now);
    forall k | 0 <= k < |r| ensures |r[k].counters| == |StatColumns| && AllBindable(r[k].counters) {
      if k < |kept| {
        assert r[k] == kept[k];
        if IsStreak(rows, p, values) {
          var i :| 0 <= i < |rows| && rows[i] == kept[k];
        }
      }
    }
  }
}
