# Stats ingestion: a verified Dafny model

This project models the ingestion path of a game-statistics tracker. The
tracker periodically asks a stats API for

- the server-wide player counts (the "cloud" stats), and
- one bulk record per tracked player,

and it writes both into SQLite. The model covers two pieces.

- **The dedup-aware store** (`utils/sql.py`). It holds three tables:
  `players`, `player_stats` and `cloud_stats`. They are sequences of rows
  inside the class `Sql.Store`, and each SQL statement is one atomic update
  of them.
  - `add_player_stats` reads the player's two newest snapshots. When both
    equal the incoming 30 counters, it deletes the newer one before
    inserting. As a result, a run of identical snapshots is stored as its
    first and its latest row.
  - The store also provides the unconditional cloud append, the lookups by
    NOCASE name and by exact uuid, `check_player`, and the two "[...]"
    serialisers over the cloud rows.
- **The fetch layer** (`fetchStats.py`).
  - The field normalizer turns a raw bulk record into the flat dict the
    store reads. It uses three tables: the direct fields, `MAPPING` (the
    renames) and `CLASS_ID_MAP` (class id to xp field).
  - The record loop normalizes each record, resolves the player by
    username, skips unknown players, and calls the store.
  - The module also models the cloud 7-tuple, `addMuted`, and `fetchStats`,
    which runs the cloud fetch before the player fetch.

JSON values are the datatype `Values.Json`. Python exceptions are the
`Values.Fault` values that end an operation. HTTP responses, and the
timestamp SQLite would take from its clock, are parameters.

Files:

| file | module | contents |
|---|---|---|
| values.dfy | Values | Json, Option, Result, Fault, `dict.get`, Python iteration |
| text.dfy | Text | `str.join`, `str()` of an int, SQLite NOCASE |
| schema.dfy | Schema | row types, the 30 counter columns, the defaults of add_player_stats, rowids |
| compaction.dfy | Compaction | the effect of one append on the table and on each player's history |
| sql_store.dfy | Sql | the `Store` class and its operations, lookups, serialisers |
| normalizer.dfy | Normalizer | the three tables, `NormalizeRecord` (the loops) against `Normalized` |
| fetch_stats.dfy | FetchStats | cloud tuple, addMuted, the record loop against `Ingest`, fetchStats |

What the code does, and the model with it:

- The code sends all uuids in one bulk POST. It does not batch them, and it
  does not canonicalise 32-hex uuids.
- A dict response is iterated key by key, not treated as one record, and
  the first key makes the loop raise.
- A record that is not a dict makes the loop raise, and the rest of the
  response is dropped. The snapshots already stored stay stored, because
  every store call commits on its own.
- A changed display name is never written back. No name update exists.
- `players.name` is UNIQUE under the default binary collation. Only the
  queries use NOCASE, so two names that differ only in case can both be
  stored. The query then matches both, and SQL does not fix which one
  `fetchone()` returns.

## Model

| member | source | states |
|---|---|---|
| Values.Iterate | fetchStats.py:93 | a `for` loop whose body starts with `.get` completes its iteration exactly for a list, `{}` or `""`; a list yields its items; any other value raises (AttributeError for a non-empty dict or string, TypeError otherwise) |
| Text.JoinIsEmpty | fetchStats.py:73-76 | with a non-empty separator the joined text is empty exactly when there are no items or the only item is empty |
| Text.NatToString | utils/sql.py:286 | `str(n)` is a non-empty digit string with no leading zero |
| Text.ParseIntToString | utils/sql.py:286 | `str(i)` reads back as `i`: printing an integer loses nothing |
| Text.NoCaseEqPointwise | utils/sql.py:243 | two names are NOCASE-equal exactly when they have the same length and agree once upper-case ASCII letters are folded |
| Schema.StatValues | utils/sql.py:132-171 | the bound tuple has 30 values in column order; a column present in `stats` holds its value, a missing one holds 0 |
| Schema.StatValuesOnlyColumns | utils/sql.py:132-161 | keys of `stats` other than the 30 columns have no effect on what is stored |
| Schema.NextStatId | utils/sql.py:42-43 | the rowid of the next INSERT exceeds every rowid in the table |
| Compaction.History | utils/sql.py:174-189 | a player's history holds only that player's rows, all taken from the table |
| Compaction.DeleteStat | utils/sql.py:201 | the DELETE keeps only rows of the table, none of them with the deleted id |
| Compaction.NewestTwo | utils/sql.py:176-189 | the SELECT returns min(2, n) of the player's n rows, all from the player's history, the newest first |
| Compaction.IsStreak | utils/sql.py:192-198 | two rows came back and the incoming counters equal the counters of both (stat_id and date are not compared) |
| Compaction.Kept | utils/sql.py:191-201 | the table after the conditional DELETE stays in ascending id order |
| Compaction.AppendStat | utils/sql.py:173-214 | the table after a successful call: the conditional DELETE, then the INSERT of a row for the player with the bound counters and the time, under the next rowid |
| Compaction.DeleteStatAscending | utils/sql.py:201 | deleting one row keeps the ids ascending |
| Compaction.HistoryOfDelete | utils/sql.py:201 | deleting a row and then taking a player's history is the same as taking the history and then deleting |
| Compaction.DeleteStatAbsent | utils/sql.py:201 | deleting an id no row has changes nothing |
| Compaction.DeleteStatLast | utils/sql.py:201 | deleting the id of the last row of an ascending table removes exactly that row |
| Compaction.DeleteStatAt | utils/sql.py:201 | deleting the id of row k of an ascending table removes exactly row k |
| Compaction.HistoryAscending | utils/sql.py:185-186 | a player's history is ascending in stat_id, so its last row is the newest |
| Compaction.HistoryOfDeleteOther | utils/sql.py:201 | deleting a row of another player leaves a player's history unchanged |
| Compaction.KeptOwnHistory | utils/sql.py:191-201 | on a streak the DELETE removes exactly the player's newest row from the history; otherwise it removes nothing |
| Compaction.KeptOtherHistory | utils/sql.py:191-201 | the DELETE never touches another player's rows |
| Compaction.StreakIsStepCondition | utils/sql.py:174-198 | the SELECT of the two newest rows plus the comparison of both holds exactly when the last two snapshots of the history equal the incoming counters |
| Compaction.AppendStatOwnHistory | utils/sql.py:174-214 | after an append, the player's history is Step of the old history with the new row, which holds the incoming counters and the insert time |
| Compaction.AppendStatOtherHistory | utils/sql.py:174-214 | an append for one player leaves every other player's history unchanged |
| Compaction.AppendStatAscending | utils/sql.py:203-214 | the new row's id exceeds all others, so the table stays ascending |
| Compaction.KeptShape | utils/sql.py:195-201 | on a streak the DELETE removes the player's newest row, wherever it sits in the table, and nothing else |
| Compaction.AppendStatShape | utils/sql.py:174-214 | without a streak the table is the old table plus the new row; with one it is the old table with the player's newest row removed, plus the new row |
| Compaction.StepKeepsNoTriple | utils/sql.py:191-214 | one append never creates three consecutive identical snapshots in a history that had none |
| Compaction.AppendStatKeepsNoTriple | utils/sql.py:191-214 | after any append, no player has three consecutive identical stored snapshots, given that none had before |
| Compaction.StepCount | utils/sql.py:189-214 | with fewer than two rows nothing is deleted and the count grows by one; on a streak the count is unchanged; the new row is always the newest |
| Compaction.RunTail | utils/sql.py:191-214 | appending more identical snapshots after two identical ones keeps the first and the latest |
| Compaction.RunKeepsFirstAndLast | utils/sql.py:191-214 | N >= 2 identical appends after a different snapshot (or into an empty history) leave exactly the first and the last of the run |
| Compaction.ThreeAppends | utils/sql.py:191-214 | three identical appends leave the first and the third; two identical appends and then a different one leave all three |
| Compaction.AppendStats | utils/sql.py:126-214 | a series of successful add_player_stats calls for one player (truthy id, bindable values, Compaction.Accepted) keeps the table's stat_ids ascending |
| Compaction.AppendStatNewRow | utils/sql.py:204-214 | the row one call inserts is the table's last, for the player, with the bound counters and the call's time |
| Compaction.InsertedRows | utils/sql.py:204-214 | the k-th row inserted by a series of successful calls belongs to the player and carries the k-th call's counters and time |
| Compaction.AppendStatsHistory | utils/sql.py:174-214 | on the table, a series of successful calls for p replays the per-player step on p's history with the inserted rows and leaves every other player's history unchanged |
| Compaction.AppendStatsRun | utils/sql.py:174-214 | N >= 2 identical successful add_player_stats calls for p, after a different snapshot of p or none, leave p's stored history as before plus the rows of the first and of the last call |
| Sql.NextPlayerId | utils/sql.py:122 | a new player's rowid is at least 1 and exceeds every existing id |
| Sql.NextCloudId | utils/sql.py:109-110 | a new cloud row's rowid exceeds every existing id |
| Sql.FindByName | utils/sql.py:240-245 | None exactly when no name is NOCASE-equal; otherwise the id of a NOCASE-equal row, the first in rowid order when several match |
| Sql.FindByUuid | utils/sql.py:233-238 | None exactly when no row has the uuid; otherwise the id of a row with that exact uuid |
| Sql.RenderEmpty | utils/sql.py:288 | zero rows print as "[\n\n]" |
| Sql.Render | utils/sql.py:288 | the printed literal is `"[\n"`, the entries joined by `",\n"`, then `"\n]"`; it always starts with `[` plus a newline and ends with a newline plus `]` |
| Sql.Show | utils/sql.py:286 | how the f-string prints a value read back from an INTEGER column: None as `None`, an int as its decimal digits, a bool as 1 or 0, a string as itself |
| Sql.TwoColsEntry | utils/sql.py:286 | one two_cols_of_stats entry: the date and players_online |
| Sql.GraphEntry | utils/sql.py:299 | one graph_data entry: the date and the seven counts in column order |
| Sql.RenderAppend | utils/sql.py:284-289 | one more entry goes after ",\n" just before the closing "\n]"; the first entry goes alone between the brackets |
| Sql.TwoColsEntries | utils/sql.py:284-286 | one entry per row |
| Sql.TwoColsEntriesSnoc | utils/sql.py:284-286 | a row appended by add_cloud_stats adds its entry at the end and leaves earlier entries unchanged |
| Sql.GraphEntries | utils/sql.py:296-299 | one entry per row |
| Sql.GraphEntriesSnoc | utils/sql.py:296-299 | a row appended by add_cloud_stats adds its entry at the end and leaves earlier entries unchanged |
| Sql.Store.constructor | utils/sql.py:30-82 | a fresh database has three empty tables that satisfy the invariant |
| Sql.Store.AddCloudStats | utils/sql.py:104-111 | appends exactly one row with the next id and no comparison, and leaves existing rows untouched; a wrong value count or an unbindable value raises and changes nothing |
| Sql.Store.InsertPlayer | utils/sql.py:118-124 | refused when the uuid or the exact name exists; otherwise appends one player under the next id |
| Sql.Store.GetPlayersUuids | utils/sql.py:219-224 | one uuid per player, in table order |
| Sql.Store.GetPlayerIdByUuid | utils/sql.py:233-238 | None exactly when no player has the uuid; otherwise the id of the player with it |
| Sql.Store.GetPlayerIdByName | utils/sql.py:240-245 | None exactly when no player's name is NOCASE-equal; otherwise a positive id of a player whose name is |
| Sql.NameMatches | utils/sql.py:258-259 | `fetchall()` holds every row whose name is NOCASE-equal and no other row |
| Sql.NameMatchesNonEmpty | utils/sql.py:258-260 | the fetched rows are non-empty exactly when some player's name is NOCASE-equal |
| Sql.Store.CheckPlayer | utils/sql.py:255-263 | `len(rows) > 0` over the fetched rows: true exactly when some player's name is NOCASE-equal |
| Sql.Store.CheckPlayerIffFound | utils/sql.py:240-263 | check_player is true exactly when get_player_id_by_name finds an id |
| Sql.Store.AddPlayerStats | utils/sql.py:126-216 | a falsy id (None or 0) raises and changes nothing; an unbindable value raises and is rolled back; otherwise the table becomes AppendStat of the old table with the 30 values and the id of the new row is returned; the table invariant (ascending ids, no triple) is kept |
| Sql.Store.TwoColsOfStats | utils/sql.py:279-289 | the output is "[\n", the per-row entries joined by ",\n" in row order, then "\n]" |
| Sql.Store.GraphData | utils/sql.py:291-302 | the output is "[\n", the per-row entries joined by ",\n" in row order, then "\n]" |
| Sql.AppendStatWellFormed | utils/sql.py:163-214 | after an append every row still holds 30 bindable counters |
| Normalizer.ClassSlot | fetchStats.py:94-96 | an int id finds its xp field exactly when it is a key of CLASS_ID_MAP; True and False find the fields of ids 1 and 0; a string or None id finds nothing; a list or dict id raises TypeError; any field found is one of the nine xp fields |
| Normalizer.EntrySlot | fetchStats.py:93-96 | an entry writes a field only if it is a dict, and only one of the nine xp fields |
| Normalizer.NormalizeRecord | fetchStats.py:85-96 | the three loops compute Normalized(rec) |
| Normalizer.CopyDirect | fetchStats.py:86-88 | the direct-field loop builds DirectPart over all 18 fields |
| Normalizer.CopyRenamed | fetchStats.py:90-92 | the MAPPING loop adds RenamedPart over all three pairs |
| Normalizer.CopyClassExp | fetchStats.py:93-96 | the class loop computes ApplyClassExp and stops at the first entry that raises |
| Normalizer.ApplyClassExpStopsAt | fetchStats.py:93-96 | once an entry raises, later entries have no effect |
| Normalizer.RenameTargetsAre | fetchStats.py:82 | MAPPING produces exactly backstabs, headshots and match_wins |
| Normalizer.ClassValuesWithin | fetchStats.py:83 | CLASS_ID_MAP maps only to the nine xp fields |
| Normalizer.ClassValuesCover | fetchStats.py:83 | each of the nine xp fields is the image of some class id |
| Normalizer.ClassIdCount | fetchStats.py:83 | CLASS_ID_MAP has nine ids |
| Normalizer.ClassFieldsAre | fetchStats.py:83 | the values of CLASS_ID_MAP are exactly the nine xp fields |
| Normalizer.ColumnsPartition | fetchStats.py:80-83 | the 18 direct, 3 renamed and 9 class fields are disjoint, and their union is exactly the 30 columns add_player_stats reads (utils/sql.py:132-161) |
| Normalizer.RenamedPartFields | fetchStats.py:90-92 | each MAPPING target is written exactly when its raw key is present, with that key's value; nothing else is written |
| Normalizer.LongerNotSubstring | fetchStats.py:87 | `key in s` is false for a key longer than the string |
| Normalizer.RecordFaultCases | fetchStats.py:84-93 | a string record shorter than three characters raises AttributeError; a list record containing "kills" raises TypeError; a None record raises TypeError |
| Normalizer.RecordFault | fetchStats.py:86-93 | the exception for a record that is not a dict: AttributeError for a list or string containing none of the tested keys, TypeError otherwise |
| Normalizer.Normalized | fetchStats.py:85-96 | the `output` dict of one record: the direct fields, then the renamed fields, then the class_exp loop; or the exception one of those loops raises |
| Normalizer.ApplyClassExpOk | fetchStats.py:93-96 | the class loop completes exactly when every entry is a dict whose id is hashable |
| Normalizer.LastWith | fetchStats.py:96 | a field is found by some entry only if it is one of the nine xp fields |
| Normalizer.ApplyClassExpLastWins | fetchStats.py:93-96 | each xp field holds the exp of the last entry naming its class; a field no entry names keeps its earlier value |
| Normalizer.BaseFields | fetchStats.py:86-92 | after the first two loops, a direct field is present exactly when it is in the record, with its value; a MAPPING target is present exactly when its raw key is in the record, with that key's value; no other key is present |
| Normalizer.NormalizedFields | fetchStats.py:80-96 | a normalized record has only stored columns; direct fields appear exactly when present, with the same value; renamed fields appear exactly when their raw key is present; each xp field comes from the last class_exp entry naming its class |
| Normalizer.NormalizedFails | fetchStats.py:84-96 | normalizing raises exactly when the record is not a dict, its class_exp cannot be looped over, or one of its entries raises |
| Normalizer.ClassExpExample | fetchStats.py:83-96 | id 3 writes support_xp; ids 8 and 99 are dropped; a later entry with the same id overwrites; a missing exp is stored as 0 |
| Normalizer.NormalizedSnapshot | fetchStats.py:80-96 | in the stored 30 values (utils/sql.py:132-171), each direct column holds the raw value or 0, each renamed column holds the raw key's value or 0, and each xp column holds the last matching exp or 0 |
| FetchStats.CloudTuple | fetchStats.py:15-24 | a payload that is not a dict raises AttributeError; otherwise the tuple has the 7 values the INSERT binds |
| FetchStats.CloudTupleOrder | fetchStats.py:15-24 | the tuple is players_online, then the counts for dom, tdm, inf, gg, ttt and boot, in that order; a count is None when its mode is missing or game_player_count is not a dict |
| FetchStats.CloudTupleNoModes | fetchStats.py:15 | a game_player_count that is not a dict gives six None counts |
| FetchStats.CloudTupleBinds | fetchStats.py:15-25 | the tuple can be inserted exactly when players_online and the six counts are bindable |
| FetchStats.AddMuted | fetchStats.py:28-33 | the marker " 🔇" exactly for a non-empty dict; "" for anything else, including {} |
| FetchStats.NameParam | fetchStats.py:98 | a missing username raises KeyError; a string is compared as itself; only None gives no name to compare |
| FetchStats.RecordStep | fetchStats.py:84-102 | a record step keeps the table's ids ascending |
| FetchStats.Ingest | fetchStats.py:84-102 | the record loop keeps the table's ids ascending |
| FetchStats.RecordStepValid | fetchStats.py:98-102 | one record keeps the store invariant |
| FetchStats.IngestValid | fetchStats.py:84-102 | any sequence of records keeps the store invariant: no player ever has three identical consecutive snapshots |
| FetchStats.RecordStepHistories | fetchStats.py:98-102 | a record whose player resolves adds exactly one snapshot to that player's history, as add_player_stats compacts it; a skipped record and every other player's history are unchanged |
| FetchStats.IngestUntouched | fetchStats.py:84-102 | a player that no record resolves to keeps its history through the whole loop |
| FetchStats.IngestNext | fetchStats.py:84-102 | one more record extends the loop by exactly that record's step |
| FetchStats.IngestStops | fetchStats.py:84-102 | once a record raises, later records are never looked at |
| FetchStats.IngestStopsAt | fetchStats.py:84-102 | a loop that raises at record i ends there |
| FetchStats.IngestRowCount | fetchStats.py:84-102 | the loop never shrinks the table and adds at most one row per record |
| FetchStats.NoRequestExactly | fetchStats.py:73-76 | no bulk request is made exactly when no player is tracked, or the only tracked player has an empty uuid |
| FetchStats.StoreRecord | fetchStats.py:85-102 | one turn of the loop does RecordStep: on an error it changes nothing; otherwise the table becomes the step's table |
| FetchStats.Advance | fetchStats.py:84-102 | one turn of the loop advances Ingest by one record |
| FetchStats.StoreRecords | fetchStats.py:84-102 | the loop computes Ingest: the final table and the exception, if any |
| FetchStats.FetchPlayersStats | fetchStats.py:72-102 | no tracked uuid: no request and no change; otherwise the body is the uuids joined by ", " in table order; a failed request, an unloopable response or a dict response raises with the table unchanged; otherwise the table is Ingest of the records |
| FetchStats.FetchCloudStats | fetchStats.py:11-25 | the exception is CloudFault(resp); without one, exactly one row holding the tuple is appended |
| FetchStats.CloudFault | fetchStats.py:11-25 | the exception fetchCloudStats raises: NetworkError for a failed request, the fault of building the tuple, or UnsupportedType for an unbindable value; None otherwise |
| FetchStats.FetchAll | fetchStats.py:104-106 | when the cloud step raises, no bulk request is made and player_stats is unchanged; otherwise the cloud row is appended and the bulk request is the one fetchPlayersStats makes |

## Left out

- `utils/network.py`: the aiohttp/asyncio HTTP client. A response is a
  parameter: a decoded JSON body, or a failure.
- `utils/matrixbot.py`, `utils/html.py`, `main.py` and
  `static/js/lastUpdated.js`. These are the chat bot, the HTML rendering,
  the Flask routes and the browser timers. They are I/O or presentation,
  with float formatting.
- `create_connection` and `get_cursor` (utils/sql.py:16-102): connecting,
  creating the schema, and transaction plumbing. Each store method is one
  atomic update, and an exception rolls it back.
  - The foreign key on `player_stats.player_id` is not modelled. The
    `PRAGMA foreign_keys` check at utils/sql.py:28 compares a cursor with
    0, so the pragma is never switched on and the key is not enforced.
- The generated REAL columns `kdr` and `hskr` (utils/sql.py:49, 51) are
  floats. The comparison never reads them. JSON floats are not in the
  datatype.
- SQLite type affinity is left out. Values are stored as given. A numeric
  string such as `"5"` in an INTEGER counter column is not turned into the
  integer 5, and a bool is not turned into 0 or 1. Affinity decides two
  branches of the code:
  - A numeric or boolean username is compared with `name` as text. This
    one is modelled by hand (FetchStats.NameParam).
  - The streak test at utils/sql.py:198 compares the incoming tuple with
    the values read back. In the code a counter sent as `"5"` reads back as
    5, so `("5", ...) == (5, ...)` is False and that player is never
    compacted. The model compares the given values, finds a streak and
    deletes. In the same way, True and 1 are stored as the same integer and
    compare equal in the code, but differ in the model.
- Compaction.IsStreak: matches the code's test only when no counter
  arrives as a numeric string, and no counter is a bool where the stored
  value is an int or the other way round.
- FetchStats.IngestValid: its no-triple part (Compaction.NoTripleAnyPlayer,
  also in Compaction.AppendStatKeepsNoTriple and Sql.Store.AddPlayerStats)
  describes the code only under the same condition. A player whose
  counters arrive as numeric strings keeps three or more identical rows in
  the code.
- Sql.Show: a count stored in an INTEGER column is printed as the integer
  SQLite converted it to (`"007"` prints as 7). The model prints the value
  as given.
- Integer width is left out. Values are unbounded, so no 64-bit overflow
  and no rowid saturation at 2^63-1, where SQLite picks a random free
  rowid.
- The rowid of an INSERT is one more than the largest present. A deleted
  largest id is therefore reused, as SQLite does without AUTOINCREMENT.
- The clock is a parameter. `now` stands for `CURRENT_TIMESTAMP`, and every
  insert of one fetch takes the same timestamp.
- `add_player` (utils/sql.py:113-124): the identity-service lookup is left
  out. Only its INSERT is modelled (Sql.Store.InsertPlayer).
- `get_players_names`, `get_player_stats`, `get_all_stats` and
  `get_latest_stats` are plain SELECTs that the ingestion path does not
  use.
- `clear_cloud_stats` (utils/sql.py:304-308) refers to an undefined `conn`
  and always raises.
- `fetchMatchStats` (fetchStats.py:27-70) is network plus HTML. Only its
  `addMuted` is modelled.
- The `__main__` blocks and the logging calls are left out.
- Sql.Store.GetPlayersUuids: `SELECT uuid FROM players` has no ORDER BY,
  so SQL leaves the order open. The model returns table (rowid) order.
- Sql.FindByName: `SELECT id FROM players WHERE name COLLATE NOCASE = ?`
  has no ORDER BY. When several stored names differ only in case, SQL
  leaves open which one `fetchone()` returns. The model returns the first
  in rowid order. The same holds for Sql.Store.GetPlayerIdByName.
- FetchStats.FetchPlayersStats: for a non-empty dict response, the
  exception is stated as that of some key of the dict. The model's map does
  not keep the key order that decides which key the loop sees first.
