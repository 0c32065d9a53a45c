/** The ingestion entry points of fetchStats.py: the cloud payload to its
    7-tuple, the bulk player records to one snapshot each, the muted marker
    of the match view, and the order in which fetchStats runs them. The
    responses of the stats API are parameters. */
module FetchStats {
  import opened Values
  import opened Text
  import opened Schema
  import opened Compaction
  import opened Normalizer
  import opened Sql

  /** What a request to the stats API gives back: the decoded JSON body, or
      the exception the request raises (a transport error or a non-2xx
      status). */
  datatype Response = Received(body: Json) | Failed

  // ---------------------------------------------------------------------
  // fetchCloudStats and addMuted: expressions only.

  /** The six per-mode keys of `game_player_count`, in tuple order. */
  const GameModes: seq<string> := ["dom", "tdm", "inf", "gg", "ttt", "boot"]

  /** `game_player_count` when it is a dict, else an empty dict. */
  function ModeCounts(data: map<string, Json>): map<string, Json> {
    match Get(data, "game_player_count")
    case Object(g) => g
    case _ => map[]
  }

  /** The tuple fetchCloudStats stores: players_online, then the six mode
      counts; `.get` on a payload that is not a dict raises. */
  function CloudTuple(data: Json): (r: Result<seq<Json>>)
    ensures r.Ok? <==> data.Object?
    ensures !data.Object? ==> r == Err(AttributeError)
    ensures r.Ok? ==> |r.value| == CloudWidth
  {
    if !data.Object? then Err(AttributeError)
    else
      var g := ModeCounts(data.fields);
      Ok([Get(data.fields, "players_online")] + seq(|GameModes|, k requires 0 <= k < |GameModes| => Get(g, GameModes[k])))
  }

  /** The stored tuple holds players_online first and then, in the order
      dom, tdm, inf, gg, ttt, boot, each mode's count, or None when the mode
      is missing or `game_player_count` is not a dict. */
  lemma CloudTupleOrder(data: map<string, Json>)
    ensures var t := CloudTuple(Object(data)).value;
      t[0] == Get(data, "players_online") &&
      forall k :: 0 <= k < |GameModes| ==>
        t[k + 1] == (if "game_player_count" in data && data["game_player_count"].Object? && GameModes[k] in data["game_player_count"].fields
                     then data["game_player_count"].fields[GameModes[k]] else Null)
  {
  }

  /** A `game_player_count` that is not a dict gives six missing counts. */
  lemma CloudTupleNoModes(data: map<string, Json>)
    requires !Get(data, "game_player_count").Object?
    ensures CloudTuple(Object(data)).value[1..] == [Null, Null, Null, Null, Null, Null]
  {
    var t := CloudTuple(Object(data)).value;
    assert forall k :: 1 <= k < |t| ==> t[k] == Null;
  }

  /** The tuple never has the wrong width for the INSERT. */
  lemma CloudTupleBinds(data: Json)
    requires data.Object?
    ensures |CloudTuple(data).value| == CloudWidth
    ensures AllBindable(CloudTuple(data).value) <==>
      Bindable(Get(data.fields, "players_online")) &&
      forall k :: 0 <= k < |GameModes| ==> Bindable(Get(ModeCounts(data.fields), GameModes[k]))
  {
    var t := CloudTuple(data).value;
    assert t[0] == Get(data.fields, "players_online");
    assert forall k :: 0 <= k < |GameModes| ==> t[k + 1] == Get(ModeCounts(data.fields), GameModes[k]);
    if AllBindable(t) {
      forall k | 0 <= k < |GameModes| ensures Bindable(Get(ModeCounts(data.fields), GameModes[k])) {
        assert Bindable(t[k + 1]);
      }
    }
  }

  /** The speaker-off marker the match view appends to a player with active
      punishments. */
  const MutedMark: string := " \U{1F507}"

  /** addMuted: the marker for a non-empty dict, nothing otherwise. */
  function AddMuted(j: Json): (r: string)
    ensures r == MutedMark <==> j.Object? && j.fields != map[]
    ensures r == "" <==> !j.Object? || j.fields == map[]
  {
    if !j.Object? || j.fields == map[] then "" else MutedMark
  }

  // ---------------------------------------------------------------------
  // fetchPlayersStats: one bulk request, one store call per known player.

  /** The text SQLite compares with `players.name` for `record['username']`.
      A missing key raises KeyError; a number or boolean is compared as its
      decimal text (the column has TEXT affinity); None matches no row; a
      list or dict cannot be bound. */
  function NameParam(rec: map<string, Json>): (r: Result<Option<string>>)
    ensures "username" !in rec ==> r == Err(KeyError("username"))
    ensures "username" in rec && rec["username"].Str? ==> r == Ok(Some(rec["username"].s))
    ensures r.Ok? && r.value.None? <==> "username" in rec && rec["username"].Null?
  {
    if "username" !in rec then Err(KeyError("username"))
    else match rec["username"]
      case Str(s) => Ok(Some(s))
      case Int(i) => Ok(Some(IntToString(i)))
      case Bool(b) => Ok(Some(if b then "1" else "0"))
      case Null => Ok(None)
      case List(_) => Err(UnsupportedType)
      case Object(_) => Err(UnsupportedType)
  }

  /** The player id a name resolves to, None when no player matches. */
  function Resolve(players: seq<PlayerRow>, name: Option<string>): Option<int> {
    if name.None? then None else FindByName(players, name.value)
  }

  /** What one record does to `player_stats`: the exception it raises, or
      the table after it. A record whose username resolves to no player (or
      to the falsy id 0) is skipped. */
  function RecordStep(players: seq<PlayerRow>, rows: seq<StatRow>, rec: Json, now: string): (r: Result<seq<StatRow>>)
    requires StatIdsAscending(rows)
    ensures r.Ok? ==> StatIdsAscending(r.value)
  {
    match Normalized(rec)
    case Err(f) => Err(f)
    case Ok(out) =>
      match NameParam(rec.fields)
      case Err(f) => Err(f)
      case Ok(name) =>
        var id := Resolve(players, name);
        if id.None? || id.value == 0 then Ok(rows)
        else if !AllBindable(StatValues(out)) then Err(UnsupportedType)
        else Ok(AppendStat(rows, id.value, StatValues(out), now))
  }

  /** Where the record loop got to: the table, and the exception that ended
      the loop, if any. Every store call commits on its own, so the rows
      written before the exception stay. */
  datatype Progress = Progress(rows: seq<StatRow>, fault: Option<Fault>)

  /** The record loop over `records`, starting from the table `rows`. */
  function Ingest(players: seq<PlayerRow>, rows: seq<StatRow>, records: seq<Json>, now: string): (r: Progress)
    requires StatIdsAscending(rows)
    ensures StatIdsAscending(r.rows)
    decreases |records|
  {
    if records == [] then Progress(rows, None)
    else
      var prev := Ingest(players, rows, records[..|records| - 1], now);
      if prev.fault.Some? then prev
      else match RecordStep(players, prev.rows, records[|records| - 1], now)
        case Err(f) => Progress(prev.rows, Some(f))
        case Ok(next) => Progress(next, None)
  }

  /** A record step keeps the table's invariant. */
  lemma RecordStepValid(players: seq<PlayerRow>, rows: seq<StatRow>, rec: Json, now: string)
    requires StatsValid(rows)
    ensures RecordStep(players, rows, rec, now).Ok? ==> StatsValid(RecordStep(players, rows, rec, now).value)
  {
    var r := RecordStep(players, rows, rec, now);
    if r.Ok? && r.value != rows {
      var out := Normalized(rec).value;
      var id := Resolve(players, NameParam(rec.fields).value).value;
      AppendStatShape(rows, id, StatValues(out), now);
      AppendStatKeepsNoTriple(rows, id, StatValues(out), now);
      AppendStatWellFormed(rows, id, StatValues(out), now);
    }
  }

  /** The record loop keeps the table's invariant, whatever the records. */
  lemma {:induction false} IngestValid(players: seq<PlayerRow>, rows: seq<StatRow>, records: seq<Json>, now: string)
    requires StatsValid(rows)
    ensures StatsValid(Ingest(players, rows, records, now).rows)
    decreases |records|
  {
    if records != [] {
      var init := records[..|records| - 1];
      IngestValid(players, rows, init, now);
      var prev := Ingest(players, rows, init, now);
      if prev.fault.None? {
        RecordStepValid(players, prev.rows, records[|records| - 1], now);
      }
    }
  }

  /** A record whose username resolves to a player adds one snapshot to that
      player's history, compacted as add_player_stats does; it leaves every
      other player's history as it was. */
  lemma {:induction false} RecordStepHistories(players: seq<PlayerRow>, rows: seq<StatRow>, rec: Json, now: string, q: int)
    requires StatIdsAscending(rows)
    requires RecordStep(players, rows, rec, now).Ok?
    ensures var next := RecordStep(players, rows, rec, now).value;
      var id := Resolve(players, NameParam(rec.fields).value);
      if id.None? || id.value == 0 || id.value != q then History(next, q) == History(rows, q)
      else exists row: StatRow :: row.playerId == q && row.counters == StatValues(Normalized(rec).value) &&
                         History(next, q) == Step(History(rows, q), row)
  {
    var next := RecordStep(players, rows, rec, now).value;
    var id := Resolve(players, NameParam(rec.fields).value);
    if id.Some? && id.value != 0 {
      var values := StatValues(Normalized(rec).value);
      if id.value == q {
        AppendStatOwnHistory(rows, q, values, now);
        var row := next[|next| - 1];
        assert History(next, q) == Step(History(rows, q), row);
      } else {
        AppendStatOtherHistory(rows, id.value, q, values, now);
      }
    }
  }

  /** A player that no record resolves to keeps its history through the
      whole loop. */
  lemma {:induction false} IngestUntouched(players: seq<PlayerRow>, rows: seq<StatRow>, records: seq<Json>, now: string, q: int)
    requires StatIdsAscending(rows)
    requires forall k :: 0 <= k < |records| && records[k].Object? && NameParam(records[k].fields).Ok? ==>
      Resolve(players, NameParam(records[k].fields).value) != Some(q)
    ensures History(Ingest(players, rows, records, now).rows, q) == History(rows, q)
    decreases |records|
  {
    if records != [] {
      var init := records[..|records| - 1];
      var rec := records[|records| - 1];
      IngestUntouched(players, rows, init, now, q);
      var prev := Ingest(players, rows, init, now);
      if prev.fault.None? && RecordStep(players, prev.rows, rec, now).Ok? {
        RecordStepHistories(players, prev.rows, rec, now, q);
      }
    }
  }

  /** One more record, after a loop that has not raised. */
  lemma IngestNext(players: seq<PlayerRow>, rows: seq<StatRow>, records: seq<Json>, i: nat, now: string, cur: seq<StatRow>)
    requires StatIdsAscending(rows) && i < |records|
    requires Ingest(players, rows, records[..i], now) == Progress(cur, None)
    ensures RecordStep(players, cur, records[i], now).Err? ==>
      Ingest(players, rows, records[..i + 1], now) == Progress(cur, Some(RecordStep(players, cur, records[i], now).fault))
    ensures RecordStep(players, cur, records[i], now).Ok? ==>
      Ingest(players, rows, records[..i + 1], now) == Progress(RecordStep(players, cur, records[i], now).value, None)
  {
    assert records[..i + 1][..i] == records[..i];
  }

  /** Once a record raises, no later record is looked at. */
  lemma {:induction false} IngestStops(players: seq<PlayerRow>, rows: seq<StatRow>, records: seq<Json>, more: seq<Json>, now: string)
    requires StatIdsAscending(rows)
    requires Ingest(players, rows, records, now).fault.Some?
    ensures Ingest(players, rows, records + more, now) == Ingest(players, rows, records, now)
    decreases |more|
  {
    if more != [] {
      var init := more[..|more| - 1];
      assert (records + more)[..|records + more| - 1] == records + init;
      IngestStops(players, rows, records, init, now);
    } else {
      assert records + more == records;
    }
  }

  /** The loop body for one record: normalize it, resolve its username,
      and hand the snapshot to add_player_stats unless the player is unknown. */
  method StoreRecord(store: Store, rec: Json, now: string) returns (fault: Option<Fault>)
    requires store.Valid()
    modifies store
    ensures store.Valid()
    ensures store.players == old(store.players) && store.cloudStats == old(store.cloudStats)
    ensures RecordStep(old(store.players), old(store.playerStats), rec, now).Err? ==>
      fault == Some(RecordStep(old(store.players), old(store.playerStats), rec, now).fault) &&
      store.playerStats == old(store.playerStats)
    ensures RecordStep(old(store.players), old(store.playerStats), rec, now).Ok? ==>
      fault == None && store.playerStats == RecordStep(old(store.players), old(store.playerStats), rec, now).value
  {
    var output := NormalizeRecord(rec);
    if output.Err? {
      return Some(output.fault);
    }
    var name := NameParam(rec.fields);
    if name.Err? {
      return Some(name.fault);
    }
    var id := if name.value.None? then None else store.GetPlayerIdByName(name.value.value);
    if id.None? || id.value == 0 {
      return None;
    }
    var r := store.AddPlayerStats(id, output.value, now);
    fault := if r.Err? then Some(r.fault) else None;
  }

  /** Each record adds at most one row to the table and a streak removes
      one, so the table never shrinks and grows by at most one row per
      record. */
  lemma {:induction false} IngestRowCount(players: seq<PlayerRow>, rows: seq<StatRow>, records: seq<Json>, now: string)
    requires StatIdsAscending(rows)
    ensures |rows| <= |Ingest(players, rows, records, now).rows| <= |rows| + |records|
    decreases |records|
  {
    if records != [] {
      var init := records[..|records| - 1];
      var rec := records[|records| - 1];
      IngestRowCount(players, rows, init, now);
      var prev := Ingest(players, rows, init, now);
      if prev.fault.None? && RecordStep(players, prev.rows, rec, now).Ok? && RecordStep(players, prev.rows, rec, now).value != prev.rows {
        var out := Normalized(rec).value;
        var id := Resolve(players, NameParam(rec.fields).value).value;
        AppendStatShape(prev.rows, id, StatValues(out), now);
        var r := AppendStat(prev.rows, id, StatValues(out), now);
        if IsStreak(prev.rows, id, StatValues(out)) {
          var k :| 0 <= k < |prev.rows| && r == prev.rows[..k] + prev.rows[k + 1..] + [r[|r| - 1]];
        }
      }
    }
  }

  /** No bulk request is sent exactly when there is no tracked player, or
      the only tracked player has an empty uuid: the joined body is then empty. */
  lemma NoRequestExactly(store: Store)
    ensures Join(store.GetPlayersUuids(), ", ") == "" <==>
      store.players == [] || (|store.players| == 1 && store.players[0].uuid == "")
  {
    var u := store.GetPlayersUuids();
    JoinIsEmpty(u, ", ");
    if |store.players| == 1 && store.players[0].uuid == "" {
      assert u == [""];
    }
  }

  /** One turn of the record loop, as a step of Ingest. */
  method Advance(store: Store, ghost rows0: seq<StatRow>, records: seq<Json>, i: nat, now: string) returns (fault: Option<Fault>)
    requires store.Valid() && StatIdsAscending(rows0) && i < |records|
    requires Ingest(store.players, rows0, records[..i], now) == Progress(store.playerStats, None)
    modifies store
    ensures store.Valid()
    ensures store.players == old(store.players) && store.cloudStats == old(store.cloudStats)
    ensures Ingest(store.players, rows0, records[..i + 1], now) == Progress(store.playerStats, fault)
  {
    IngestNext(store.players, rows0, records, i, now, store.playerStats);
    fault := StoreRecord(store, records[i], now);
  }

  /** `for player_data in resp`: the records in order until one raises. */
  method StoreRecords(store: Store, records: seq<Json>, now: string) returns (fault: Option<Fault>)
    requires store.Valid()
    modifies store
    ensures store.Valid()
    ensures store.players == old(store.players) && store.cloudStats == old(store.cloudStats)
    ensures Ingest(old(store.players), old(store.playerStats), records, now) == Progress(store.playerStats, fault)
  {
    ghost var rows0 := store.playerStats;
    var i := 0;
    while i < |records|
      invariant 0 <= i <= |records|
      invariant store.Valid()
      invariant store.players == old(store.players) && store.cloudStats == old(store.cloudStats)
      invariant Ingest(store.players, rows0, records[..i], now) == Progress(store.playerStats, None)
    {
      fault := Advance(store, rows0, records, i, now);
      if fault.Some? {
        IngestStopsAt(store.players, rows0, records, i, now);
        return;
      }
      i := i + 1;
    }
    assert records[..i] == records;
    fault := None;
  }

  /** A loop that raises at record i ends there. */
  lemma IngestStopsAt(players: seq<PlayerRow>, rows: seq<StatRow>, records: seq<Json>, i: nat, now: string)
    requires StatIdsAscending(rows) && i < |records|
    requires Ingest(players, rows, records[..i + 1], now).fault.Some?
    ensures Ingest(players, rows, records, now) == Ingest(players, rows, records[..i + 1], now)
  {
    IngestStops(players, rows, records[..i + 1], records[i + 1..], now);
    assert records[..i + 1] + records[i + 1..] == records;
  }

  /** fetchPlayersStats. No tracked player: no request, nothing stored.
      Otherwise one bulk request whose body is the stored uuids joined by
      ", ", and then the record loop. The request that was sent is returned
      in `request`; the exception that ended the call, if any, in `outcome`. */
  method FetchPlayersStats(store: Store, resp: Response, now: string) returns (request: Option<string>, outcome: Option<Fault>)
    requires store.Valid()
    modifies store
    ensures store.Valid()
    ensures store.players == old(store.players) && store.cloudStats == old(store.cloudStats)
    ensures Join(old(store.GetPlayersUuids()), ", ") == "" ==>
      request == None && outcome == None && store.playerStats == old(store.playerStats)
    ensures Join(old(store.GetPlayersUuids()), ", ") != "" ==> request == Some(Join(old(store.GetPlayersUuids()), ", "))
    ensures request.Some? && resp.Failed? ==> outcome == Some(NetworkError) && store.playerStats == old(store.playerStats)
    ensures request.Some? && resp.Received? && resp.body.Object? && resp.body.fields != map[] ==>
      store.playerStats == old(store.playerStats) &&
      exists key :: key in resp.body.fields && outcome == Some(RecordFault(Str(key)))
    ensures request.Some? && resp.Received? && !(resp.body.Object? && resp.body.fields != map[]) && Iterate(resp.body).Err? ==>
      outcome == Some(Iterate(resp.body).fault) && store.playerStats == old(store.playerStats)
    ensures request.Some? && resp.Received? && Iterate(resp.body).Ok? ==>
      Ingest(old(store.players), old(store.playerStats), Iterate(resp.body).value, now) == Progress(store.playerStats, outcome)
  {
    var uuids := store.GetPlayersUuids();
    var body := Join(uuids, ", ");
    if body == "" {
      return None, None;
    }
    request := Some(body);
    if resp.Failed? {
      return request, Some(NetworkError);
    }
    if resp.body.Object? && resp.body.fields != map[] {
      // A dict response is iterated by key; the first key, in an order the
      // model does not keep, is tested with `in` as a record would be.
      var key :| key in resp.body.fields;
      return request, Some(RecordFault(Str(key)));
    }
    var items := Iterate(resp.body);
    if items.Err? {
      return request, Some(items.fault);
    }
    outcome := StoreRecords(store, items.value, now);
  }

  // ---------------------------------------------------------------------
  // fetchCloudStats and fetchStats.

  /** The exception fetchCloudStats raises on a response, if any. */
  function CloudFault(resp: Response): Option<Fault> {
    if resp.Failed? then Some(NetworkError)
    else match CloudTuple(resp.body)
      case Err(f) => Some(f)
      case Ok(t) => if AllBindable(t) then None else Some(UnsupportedType)
  }

  /** fetchCloudStats: one request, then one INSERT of the tuple. */
  method FetchCloudStats(store: Store, resp: Response, now: string) returns (outcome: Option<Fault>)
    requires store.Valid()
    modifies store
    ensures store.Valid()
    ensures store.players == old(store.players) && store.playerStats == old(store.playerStats)
    ensures outcome == CloudFault(resp)
    ensures outcome.Some? ==> store.cloudStats == old(store.cloudStats)
    ensures outcome.None? ==>
      store.cloudStats == old(store.cloudStats) + [CloudRow(NextCloudId(old(store.cloudStats)), now, CloudTuple(resp.body).value)]
  {
    if resp.Failed? {
      return Some(NetworkError);
    }
    var t := CloudTuple(resp.body);
    if t.Err? {
      return Some(t.fault);
    }
    CloudTupleBinds(resp.body);
    var r := store.AddCloudStats(t.value, now);
    outcome := if r.Err? then Some(r.fault) else None;
  }

  /** fetchStats: the cloud stats first; an exception there propagates, so
      the player stats are then not fetched at all. */
  method FetchAll(store: Store, cloud: Response, bulk: Response, now: string) returns (request: Option<string>, outcome: Option<Fault>)
    requires store.Valid()
    modifies store
    ensures store.Valid()
    ensures store.players == old(store.players)
    ensures CloudFault(cloud).Some? ==>
      outcome == CloudFault(cloud) && request == None &&
      store.cloudStats == old(store.cloudStats) && store.playerStats == old(store.playerStats)
    ensures CloudFault(cloud).None? ==>
      store.cloudStats == old(store.cloudStats) + [CloudRow(NextCloudId(old(store.cloudStats)), now, CloudTuple(cloud.body).value)] &&
      request == (var body := Join(old(store.GetPlayersUuids()), ", "); if body == "" then None else Some(body))
    ensures CloudFault(cloud).None? && request.None? ==>
      outcome == None && store.playerStats == old(store.playerStats)
    ensures CloudFault(cloud).None? && request.Some? && bulk.Failed? ==>
      outcome == Some(NetworkError) && store.playerStats == old(store.playerStats)
    ensures CloudFault(cloud).None? && request.Some? && bulk.Received? && bulk.body.Object? && bulk.body.fields != map[] ==>
      store.playerStats == old(store.playerStats) &&
      exists key :: key in bulk.body.fields && outcome == Some(RecordFault(Str(key)))
    ensures (CloudFault(cloud).None? && request.Some? && bulk.Received? &&
             !(bulk.body.Object? && bulk.body.fields != map[]) && Iterate(bulk.body).Err?) ==>
      outcome == Some(Iterate(bulk.body).fault) && store.playerStats == old(store.playerStats)
    ensures CloudFault(cloud).None? && request.Some? && bulk.Received? && Iterate(bulk.body).Ok? ==>
      Ingest(old(store.players), old(store.playerStats), Iterate(bulk.body).value, now) == Progress(store.playerStats, outcome)
  {
    ghost var uuids := store.GetPlayersUuids();
    outcome := FetchCloudStats(store, cloud, now);
    if outcome.Some? {
      return None, outcome;
    }
    assert store.GetPlayersUuids() == uuids;
    request, outcome := FetchPlayersStats(store, bulk, now);
  }
}
