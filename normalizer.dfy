/** The field normalizer of fetchPlayersStats (fetchStats.py): a raw bulk
    record becomes the flat dict that add_player_stats stores, through three
    declarative tables. */
module Normalizer {
  import opened Values
  import opened Schema

  /** DIRECT_FEILD: keys copied under their own name when present. */
  const DirectFields: seq<string> := [
    "kills", "deaths", "assists", "infected_kills", "vehicle_kills", "bot_kills",
    "infected_rounds_won", "infected_matches_won", "highest_kill_streak",
    "highest_death_streak", "exp", "prestige", "total_games", "time_played",
    "no_scopes", "first_bloods", "fire_kills", "match_karma"]

  /** MAPPING, in its iteration order: (raw key, stored key). */
  const Renames: seq<(string, string)> := [
    ("back_stabs", "backstabs"), ("head_shots", "headshots"), ("trophies", "match_wins")]

  /** CLASS_ID_MAP: class id of a `class_exp` entry to the stored xp field. */
  const ClassIdMap: map<int, string> := map[
    0 := "rifle_xp", 1 := "lt_rifle_xp", 2 := "assault_xp", 3 := "support_xp",
    4 := "medic_xp", 5 := "sniper_xp", 6 := "gunner_xp", 7 := "anti_tank_xp",
    9 := "commander_xp"]

  /** `c_id in CLASS_ID_MAP` and `CLASS_ID_MAP[c_id]`. A Python dict finds a
      boolean under the int it equals (True == 1), finds no string or None
      among int keys, and raises TypeError for an unhashable list or dict. */
  function ClassSlot(id: Json): (r: Result<Option<string>>)
    ensures (id.List? || id.Object?) <==> r == Err(TypeError)
    ensures id.Int? ==> r == Ok(if id.i in ClassIdMap then Some(ClassIdMap[id.i]) else None)
    ensures id.Bool? ==> r == Ok(Some(if id.b then "lt_rifle_xp" else "rifle_xp"))
    ensures id.Str? || id.Null? ==> r == Ok(None)
    ensures r.Ok? && r.value.Some? ==> r.value.value in ClassIdMap.Values
  {
    match id
    case Int(i) => Ok(if i in ClassIdMap then Some(ClassIdMap[i]) else None)
    case Bool(b) => Ok(Some(ClassIdMap[if b then 1 else 0]))
    case List(_) => Err(TypeError)
    case Object(_) => Err(TypeError)
    case _ => Ok(None)
  }

  /** The `exp` of an entry, 0 when absent. */
  function ExpOf(entry: Json): Json
    requires entry.Object?
  {
    GetOr(entry.fields, "exp", Int(0))
  }

  /** The field a well-formed entry writes, if any. */
  function EntrySlot(entry: Json): (r: Option<string>)
    ensures r.Some? ==> entry.Object? && r.value in ClassIdMap.Values
  {
    if !entry.Object? then None
    else match ClassSlot(Get(entry.fields, "id"))
      case Ok(s) => s
      case Err(_) => None
  }

  /** The loop body for one `class_exp` entry: `.get` raises on a non-dict. */
  function ApplyEntry(acc: map<string, Json>, entry: Json): (r: Result<map<string, Json>>)
  {
    if !entry.Object? then Err(AttributeError)
    else match ClassSlot(Get(entry.fields, "id"))
      case Err(f) => Err(f)
      case Ok(None) => Ok(acc)
      case Ok(Some(field)) => Ok(acc[field := ExpOf(entry)])
  }

  /** The `class_exp` loop over `entries`, starting from `acc`; the first
      raising entry ends it. */
  function ApplyClassExp(acc: map<string, Json>, entries: seq<Json>): Result<map<string, Json>>
    decreases |entries|
  {
    if entries == [] then Ok(acc)
    else match ApplyClassExp(acc, entries[..|entries| - 1])
      case Err(f) => Err(f)
      case Ok(m) => ApplyEntry(m, entries[|entries| - 1])
  }

  /** The direct fields among the first n of DIRECT_FEILD. */
  function DirectPart(rec: map<string, Json>, n: nat): map<string, Json>
    requires n <= |DirectFields|
  {
    map f | f in DirectFields[..n] && f in rec :: rec[f]
  }

  /** The renamed fields written by the first n pairs of MAPPING. */
  function RenamedPart(rec: map<string, Json>, n: nat): map<string, Json>
    requires n <= |Renames|
  {
    if n == 0 then map[]
    else
      var (key, mappedKey) := Renames[n - 1];
      if key in rec then RenamedPart(rec, n - 1)[mappedKey := rec[key]] else RenamedPart(rec, n - 1)
  }

  /** The stored names MAPPING produces. */
  const RenameTargets: set<string> := {"backstabs", "headshots", "match_wins"}

  /** The stored xp fields CLASS_ID_MAP produces. */
  const ClassFields: set<string> := {
    "rifle_xp", "lt_rifle_xp", "assault_xp", "support_xp", "medic_xp",
    "sniper_xp", "gunner_xp", "anti_tank_xp", "commander_xp"}

  /** `key in s` for a Python string: a substring test. */
  predicate HasSubstring(s: string, key: string)
    decreases |s|
  {
    key <= s || (s != [] && HasSubstring(s[1..], key))
  }

  /** `key in x` for a list (an element equal to the string) or a string. */
  predicate Contains(x: Json, key: string)
    requires x.List? || x.Str?
  {
    if x.List? then Str(key) in x.items else HasSubstring(x.s, key)
  }

  /** The raw keys the first two loops test with `in`, in loop order. */
  const TestedKeys: seq<string> := DirectFields + [Renames[0].0, Renames[1].0, Renames[2].0]

  /** What the loops raise on a record that is not a dict. On a list or a
      string, `key in x` works: the first key it finds makes `x[key]` raise
      TypeError, and when it finds none the `.get` of the class loop raises
      AttributeError. On any other value `in` itself raises TypeError. */
  function RecordFault(rec: Json): Fault
    requires !rec.Object?
  {
    if (rec.List? || rec.Str?) && forall k :: 0 <= k < |TestedKeys| ==> !Contains(rec, TestedKeys[k])
    then AttributeError
    else TypeError
  }

  /** A key longer than the string is never a substring of it. */
  lemma {:induction false} LongerNotSubstring(s: string, key: string)
    requires |key| > |s|
    ensures !HasSubstring(s, key)
    decreases |s|
  {
    if s != [] {
      LongerNotSubstring(s[1..], key);
    }
  }

  /** Every key the loops test has at least three characters. */
  lemma TestedKeysLength()
    ensures forall k :: 0 <= k < |TestedKeys| ==> |TestedKeys[k]| >= 3
  {
  }

  /** A string record shorter than every tested key (such as one character
      of a string response) contains none of them, so the loop reaches the
      `.get` of the class loop and raises AttributeError; a list record
      holding the string "kills" raises TypeError at `x["kills"]`. */
  lemma RecordFaultCases(s: string, items: seq<Json>)
    ensures |s| < 3 ==> RecordFault(Str(s)) == AttributeError
    ensures Str("kills") in items ==> RecordFault(List(items)) == TypeError
    ensures RecordFault(Null) == TypeError
  {
    TestedKeysLength();
    if |s| < 3 {
      forall k | 0 <= k < |TestedKeys| ensures !Contains(Str(s), TestedKeys[k]) {
        LongerNotSubstring(s, TestedKeys[k]);
      }
    }
    if Str("kills") in items {
      assert TestedKeys[0] == "kills";
    }
  }

  /** The `class_exp` entries a record's loop visits. */
  function ClassEntries(m: map<string, Json>): Result<seq<Json>> {
    Iterate(GetOr(m, "class_exp", List([])))
  }

  /** The `output` dict built for one record (fetchStats.py:85-96), or the
      exception that building it raises. */
  function Normalized(rec: Json): Result<map<string, Json>>
  {
    if !rec.Object? then Err(RecordFault(rec))
    else
      var m := rec.fields;
      match ClassEntries(m)
      case Err(f) => Err(f)
      case Ok(entries) => ApplyClassExp(BaseOf(m), entries)
  }

  /** The loops of fetchPlayersStats that build `output` for one record. */
  method NormalizeRecord(rec: Json) returns (r: Result<map<string, Json>>)
    ensures r == Normalized(rec)
  {
    if !rec.Object? {
      return Err(RecordFault(rec));
    }
    var m := rec.fields;
    var output := CopyDirect(m);
    output := CopyRenamed(m, output);
    var items := ClassEntries(m);
    if items.Err? {
      return Err(items.fault);
    }
    r := CopyClassExp(output, items.value);
  }

  /** The DIRECT_FEILD loop, starting from an empty `output`. */
  method CopyDirect(m: map<string, Json>) returns (output: map<string, Json>)
    ensures output == DirectPart(m, |DirectFields|)
  {
    output := map[];
    for k := 0 to |DirectFields|
      invariant output == DirectPart(m, k)
    {
      var field := DirectFields[k];
      if field in m {
        output := output[field := m[field]];
      }
      assert DirectFields[..k + 1] == DirectFields[..k] + [field];
    }
  }

  /** The MAPPING loop, writing into `output`. */
  method CopyRenamed(m: map<string, Json>, output0: map<string, Json>) returns (output: map<string, Json>)
    ensures output == output0 + RenamedPart(m, |Renames|)
  {
    output := output0;
    for k := 0 to |Renames|
      invariant output == output0 + RenamedPart(m, k)
    {
      var (key, mappedKey) := Renames[k];
      if key in m {
        output := output[mappedKey := m[key]];
      }
    }
  }

  /** The `class_exp` loop, writing into `output`; an entry that raises ends it. */
  method CopyClassExp(output0: map<string, Json>, entries: seq<Json>) returns (r: Result<map<string, Json>>)
    ensures r == ApplyClassExp(output0, entries)
  {
    var output := output0;
    for k := 0 to |entries|
      invariant ApplyClassExp(output0, entries[..k]) == Ok(output)
    {
      var entry := entries[k];
      assert entries[..k + 1][..k] == entries[..k];
      if !entry.Object? {
        ApplyClassExpStopsAt(output0, entries, k + 1);
        return Err(AttributeError);
      }
      var slot := ClassSlot(Get(entry.fields, "id"));
      if slot.Err? {
        ApplyClassExpStopsAt(output0, entries, k + 1);
        return Err(slot.fault);
      }
      if slot.value.Some? {
        output := output[slot.value.value := GetOr(entry.fields, "exp", Int(0))];
      }
    }
    assert entries[..|entries|] == entries;
    return Ok(output);
  }

  /** Once an entry raises, the rest of the loop never runs. */
  lemma {:induction false} ApplyClassExpStopsAt(acc: map<string, Json>, entries: seq<Json>, k: nat)
    requires k <= |entries| && ApplyClassExp(acc, entries[..k]).Err?
    ensures ApplyClassExp(acc, entries) == ApplyClassExp(acc, entries[..k])
    decreases |entries| - k
  {
    if k < |entries| {
      assert entries[..k + 1][..k] == entries[..k];
      ApplyClassExpStopsAt(acc, entries, k + 1);
    } else {
      assert entries[..k] == entries;
    }
  }

  // ---------------------------------------------------------------------
  // The three tables against the 30 stored columns.

  lemma RenameTargetsAre()
    ensures forall i :: 0 <= i < |Renames| ==> Renames[i].1 in RenameTargets
    ensures forall t :: t in RenameTargets ==> exists i :: 0 <= i < |Renames| && Renames[i].1 == t
  {
    assert Renames[0].1 == "backstabs" && Renames[1].1 == "headshots" && Renames[2].1 == "match_wins";
  }

  lemma ClassValuesWithin()
    ensures forall v :: v in ClassIdMap.Values ==> v in ClassFields
  {
    forall v | v in ClassIdMap.Values ensures v in ClassFields {
      var i :| i in ClassIdMap && ClassIdMap[i] == v;
    }
  }
  lemma ClassValuesCover()
    ensures forall v :: v in ClassFields ==> v in ClassIdMap.Values
  {
    assert ClassIdMap[0] in ClassIdMap.Values;
    assert ClassIdMap[1] in ClassIdMap.Values;
    assert ClassIdMap[2] in ClassIdMap.Values;
    assert ClassIdMap[3] in ClassIdMap.Values;
    assert ClassIdMap[4] in ClassIdMap.Values;
    assert ClassIdMap[5] in ClassIdMap.Values;
    assert ClassIdMap[6] in ClassIdMap.Values;
    assert ClassIdMap[7] in ClassIdMap.Values;
    assert ClassIdMap[9] in ClassIdMap.Values;
  }
  lemma ClassIdCount()
    ensures |ClassIdMap| == 9
  {
    assert ClassIdMap.Keys == {0, 1, 2, 3, 4, 5, 6, 7, 9};
  }
  lemma ClassFieldsAre()
    ensures ClassIdMap.Values == ClassFields
    ensures |ClassIdMap| == 9
  {
    ClassValuesWithin();
    ClassValuesCover();
    ClassIdCount();
  }

  lemma DirectDisjoint()
    ensures forall f :: f in DirectFields ==> f !in RenameTargets && f !in ClassFields
    ensures RenameTargets !! ClassFields
  {
  }

  lemma ColumnsCovered()
    ensures forall c :: c in StatColumns <==> c in DirectFields || c in RenameTargets || c in ClassFields
  {
  }

  /** The direct, renamed and class fields are pairwise disjoint and together
      are exactly the 30 counter columns add_player_stats reads. */
  lemma ColumnsPartition()
    ensures forall f :: f in DirectFields ==> f !in RenameTargets && f !in ClassIdMap.Values
    ensures RenameTargets !! ClassIdMap.Values
    ensures |DirectFields| + |Renames| + |ClassIdMap| == |StatColumns| == 30
    ensures forall c :: c in StatColumns <==> c in DirectFields || c in RenameTargets || c in ClassIdMap.Values
  {
    ClassFieldsAre();
    DirectDisjoint();
    ColumnsCovered();
  }

  // ---------------------------------------------------------------------
  // What one normalized record holds.

  /** MAPPING writes each stored name exactly when its raw key is present,
      with the raw key's value, and writes nothing else. */
  lemma {:induction false} RenamedPartFields(m: map<string, Json>, n: nat)
    requires n <= |Renames|
    ensures forall t :: t in RenamedPart(m, n) ==> t in RenameTargets
    ensures forall i :: 0 <= i < n ==> (Renames[i].1 in RenamedPart(m, n) <==> Renames[i].0 in m)
    ensures forall i :: 0 <= i < n && Renames[i].0 in m ==> RenamedPart(m, n)[Renames[i].1] == m[Renames[i].0]
    ensures forall i :: n <= i < |Renames| ==> Renames[i].1 !in RenamedPart(m, n)
  {
    RenameTargetsAre();
    if n > 0 {
      RenamedPartFields(m, n - 1);
      var prev := RenamedPart(m, n - 1);
      var (key, mappedKey) := Renames[n - 1];
      assert RenamedPart(m, n) == if key in m then prev[mappedKey := m[key]] else prev;
      assert Renames[0].1 != Renames[1].1 && Renames[1].1 != Renames[2].1 && Renames[2].1 != Renames[0].1;
    }
  }

  /** An entry that the class loop survives. */
  predicate EntryOk(entry: Json) {
    entry.Object? && ClassSlot(Get(entry.fields, "id")).Ok?
  }

  /** The class loop completes exactly when every entry is a dict whose `id`
      is hashable. */
  lemma {:induction false} ApplyClassExpOk(acc: map<string, Json>, entries: seq<Json>)
    ensures ApplyClassExp(acc, entries).Ok? <==> forall k :: 0 <= k < |entries| ==> EntryOk(entries[k])
    decreases |entries|
  {
    if entries != [] {
      var init := entries[..|entries| - 1];
      ApplyClassExpOk(acc, init);
      assert forall k :: 0 <= k < |init| ==> init[k] == entries[k];
    }
  }

  /** The `exp` of the last entry among `entries` whose id maps to `field`. */
  function LastWith(entries: seq<Json>, field: string): (r: Option<Json>)
    ensures r.Some? ==> field in ClassIdMap.Values
    decreases |entries|
  {
    if entries == [] then None
    else
      var last := entries[|entries| - 1];
      if EntrySlot(last) == Some(field) then Some(ExpOf(last))
      else LastWith(entries[..|entries| - 1], field)
  }

  /** When the class loop completes, each xp field holds the `exp` of the
      last entry naming its class; a field that no entry names keeps what it
      had before the loop. */
  lemma {:induction false} ApplyClassExpLastWins(acc: map<string, Json>, entries: seq<Json>, out: map<string, Json>)
    requires ApplyClassExp(acc, entries) == Ok(out)
    ensures forall c :: LastWith(entries, c).Some? ==> c in out && out[c] == LastWith(entries, c).value
    ensures forall c :: LastWith(entries, c).None? ==> (c in out <==> c in acc) && (c in acc ==> out[c] == acc[c])
    decreases |entries|
  {
    if entries != [] {
      var init := entries[..|entries| - 1];
      var mid := ApplyClassExp(acc, init).value;
      ApplyClassExpLastWins(acc, init, mid);
    }
  }

  /** The dict the first two loops build. */
  function BaseOf(m: map<string, Json>): map<string, Json> {
    DirectPart(m, |DirectFields|) + RenamedPart(m, |Renames|)
  }

  /** The first two loops write every direct field exactly when present and
      every MAPPING target exactly when its raw key is present, with the
      record's values, and nothing else. */
  lemma BaseFields(m: map<string, Json>)
    ensures forall c :: c in BaseOf(m) ==> c in DirectFields || c in RenameTargets
    ensures forall f :: f in DirectFields ==> (f in BaseOf(m) <==> f in m)
    ensures forall f :: f in DirectFields && f in m ==> BaseOf(m)[f] == m[f]
    ensures forall i :: 0 <= i < |Renames| ==> (Renames[i].1 in BaseOf(m) <==> Renames[i].0 in m)
    ensures forall i :: 0 <= i < |Renames| && Renames[i].0 in m ==> BaseOf(m)[Renames[i].1] == m[Renames[i].0]
  {
    assert DirectFields[..|DirectFields|] == DirectFields;
    RenamedPartFields(m, |Renames|);
    DirectDisjoint();
  }

  /** What a record that normalizes without raising becomes: only stored
      columns; every direct field copied exactly when present; every MAPPING
      target exactly when its raw key is present; every xp field from the
      last `class_exp` entry naming its class. */
  lemma NormalizedFields(rec: Json, out: map<string, Json>)
    requires Normalized(rec) == Ok(out)
    ensures rec.Object? && ClassEntries(rec.fields).Ok?
    ensures forall c :: c in out ==> c in StatColumns
    ensures forall f :: f in DirectFields ==> (f in out <==> f in rec.fields)
    ensures forall f :: f in DirectFields && f in out ==> out[f] == rec.fields[f]
    ensures forall i :: 0 <= i < |Renames| ==> (Renames[i].1 in out <==> Renames[i].0 in rec.fields)
    ensures forall i :: 0 <= i < |Renames| && Renames[i].0 in rec.fields ==> out[Renames[i].1] == rec.fields[Renames[i].0]
    ensures forall c :: c in ClassFields ==> (c in out <==> LastWith(ClassEntries(rec.fields).value, c).Some?)
    ensures forall c :: c in ClassFields && c in out ==> out[c] == LastWith(ClassEntries(rec.fields).value, c).value
  {
    var m := rec.fields;
    var entries := ClassEntries(m).value;
    BaseFields(m);
    ApplyClassExpLastWins(BaseOf(m), entries, out);
    ClassFieldsAre();
    DirectDisjoint();
    ColumnsCovered();
    RenameTargetsAre();
    forall c | c in ClassFields ensures c !in BaseOf(m) {
    }
    forall i | 0 <= i < |Renames| ensures Renames[i].1 !in ClassFields {
    }
  }

  /** Normalizing raises exactly when the record is not a dict, its
      `class_exp` cannot be looped over, or one of its entries raises. */
  lemma NormalizedFails(rec: Json)
    ensures Normalized(rec).Err? <==>
      !rec.Object? || ClassEntries(rec.fields).Err? ||
      exists k :: 0 <= k < |ClassEntries(rec.fields).value| && !EntryOk(ClassEntries(rec.fields).value[k])
  {
    if rec.Object? && ClassEntries(rec.fields).Ok? {
      var m := rec.fields;
      ApplyClassExpOk(BaseOf(m), ClassEntries(m).value);
    }
  }

  /** Class ids 0..7 and 9 name an xp field; id 3 is support_xp, while 8
      and 99 are dropped. A later entry for the same id overwrites an earlier
      one, and an entry without `exp` stores 0. */
  lemma ClassExpExample()
    ensures ApplyClassExp(map[], [
      Object(map["id" := Int(3), "exp" := Int(50)]),
      Object(map["id" := Int(8), "exp" := Int(7)]),
      Object(map["id" := Int(99), "exp" := Int(7)]),
      Object(map["id" := Int(3)])]) == Ok(map["support_xp" := Int(0)])
  {
    var a := Object(map["id" := Int(3), "exp" := Int(50)]);
    var b := Object(map["id" := Int(8), "exp" := Int(7)]);
    var c := Object(map["id" := Int(99), "exp" := Int(7)]);
    var d := Object(map["id" := Int(3)]);
    assert 3 in ClassIdMap && ClassIdMap[3] == "support_xp";
    assert 8 !in ClassIdMap && 99 !in ClassIdMap;
    assert ApplyEntry(map[], a) == Ok(map["support_xp" := Int(50)]);
    assert ApplyEntry(map["support_xp" := Int(50)], b) == Ok(map["support_xp" := Int(50)]);
    assert ApplyEntry(map["support_xp" := Int(50)], c) == Ok(map["support_xp" := Int(50)]);
    assert "exp" != "id" && "exp" !in d.fields;
    assert ExpOf(d) == Int(0);
    assert Get(d.fields, "id") == Int(3) && ClassSlot(Int(3)) == Ok(Some("support_xp"));
    assert map["support_xp" := Int(50)]["support_xp" := Int(0)] == map["support_xp" := Int(0)];
    assert ApplyEntry(map["support_xp" := Int(50)], d) == Ok(map["support_xp" := Int(0)]);
    assert [a, b, c, d][..3] == [a, b, c] && [a, b, c][..2] == [a, b] && [a, b][..1] == [a] && [a][..0] == [];
    assert ApplyClassExp(map[], [a]) == Ok(map["support_xp" := Int(50)]);
    assert ApplyClassExp(map[], [a, b]) == Ok(map["support_xp" := Int(50)]);
    assert ApplyClassExp(map[], [a, b, c]) == Ok(map["support_xp" := Int(50)]);
  }

  /** The 30 values add_player_stats stores for a normalized record: a
      direct column holds the raw value, a renamed column the value under
      its raw key, an xp column the last matching `class_exp` entry's exp,
      and each of them 0 when its source is missing. */
  lemma NormalizedSnapshot(rec: Json, out: map<string, Json>)
    requires Normalized(rec) == Ok(out)
    ensures rec.Object? && ClassEntries(rec.fields).Ok?
    ensures forall k :: 0 <= k < |StatColumns| && StatColumns[k] in DirectFields ==>
      StatValues(out)[k] == GetOr(rec.fields, StatColumns[k], Int(0))
    ensures forall k, i :: 0 <= k < |StatColumns| && 0 <= i < |Renames| && StatColumns[k] == Renames[i].1 ==>
      StatValues(out)[k] == GetOr(rec.fields, Renames[i].0, Int(0))
    ensures forall k :: 0 <= k < |StatColumns| && StatColumns[k] in ClassFields ==>
      StatValues(out)[k] == match LastWith(ClassEntries(rec.fields).value, StatColumns[k])
                            case Some(v) => v
                            case None => Int(0)
  {
    NormalizedFields(rec, out);
  }
}
