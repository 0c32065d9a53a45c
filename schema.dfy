/** The rows of the three SQLite tables and the fixed column lists of the
    statistics table (utils/sql.py). */
module Schema {
  import opened Values

  /** The 30 counter columns of `player_stats`, in the order in which
      add_player_stats reads them from its argument and binds them. */
  const StatColumns: seq<string> := [
    "kills", "assists", "deaths", "headshots", "backstabs", "no_scopes",
    "first_bloods", "fire_kills", "bot_kills", "infected_kills",
    "infected_rounds_won", "infected_matches_won", "vehicle_kills",
    "highest_kill_streak", "highest_death_streak", "exp", "prestige",
    "rifle_xp", "lt_rifle_xp", "assault_xp", "support_xp", "medic_xp",
    "sniper_xp", "gunner_xp", "anti_tank_xp", "commander_xp",
    "match_karma", "total_games", "match_wins", "time_played"]

  /** The number of values bound by the INSERT into `cloud_stats`. */
  const CloudWidth: nat := 7

  /** A row of `players`. */
  datatype PlayerRow = PlayerRow(id: int, uuid: string, name: string)

  /** A row of `player_stats`: the counters in StatColumns order. The
      generated REAL columns kdr and hskr are not modelled. */
  datatype StatRow = StatRow(statId: int, playerId: int, date: string, counters: seq<Json>)

  /** A row of `cloud_stats`: players_online and the six per-mode counts. */
  datatype CloudRow = CloudRow(id: int, date: string, counts: seq<Json>)

  predicate AllBindable(vs: seq<Json>) {
    forall k :: 0 <= k < |vs| ==> Bindable(vs[k])
  }

  /** The 30-tuple add_player_stats binds: each column's value taken from
      `stats`, and 0 for every column that `stats` lacks; other keys of
      `stats` are ignored. */
  function StatValues(stats: map<string, Json>): (r: seq<Json>)
    ensures |r| == |StatColumns|
    ensures forall k :: 0 <= k < |StatColumns| && StatColumns[k] in stats ==> r[k] == stats[StatColumns[k]]
    ensures forall k :: 0 <= k < |StatColumns| && StatColumns[k] !in stats ==> r[k] == Int(0)
  {
    seq(|StatColumns|, k requires 0 <= k < |StatColumns| => GetOr(stats, StatColumns[k], Int(0)))
  }

  /** The stored snapshot depends only on the 30 column keys of `stats`. */
  lemma StatValuesOnlyColumns(a: map<string, Json>, b: map<string, Json>)
    requires forall c :: c in StatColumns ==> (c in a <==> c in b) && (c in a ==> a[c] == b[c])
    ensures StatValues(a) == StatValues(b)
  {
    var ra, rb := StatValues(a), StatValues(b);
    forall k | 0 <= k < |StatColumns| ensures ra[k] == rb[k] {
      assert StatColumns[k] in StatColumns;
    }
  }

  /** Every row id is strictly larger than the ids of the rows before it. */
  predicate StatIdsAscending(rows: seq<StatRow>) {
    forall i, j :: 0 <= i < j < |rows| ==> rows[i].statId < rows[j].statId
  }

  /** SQLite's rowid for the next INSERT into a table without AUTOINCREMENT:
      one more than the largest rowid present, 1 for an empty table. With the
      rows kept in ascending id order, the largest is the last. */
  function NextStatId(rows: seq<StatRow>): (id: int)
    requires StatIdsAscending(rows)
    ensures forall k :: 0 <= k < |rows| ==> rows[k].statId < id
  {
    if rows == [] then 1 else rows[|rows| - 1].statId + 1
  }
}
