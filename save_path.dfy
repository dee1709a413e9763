/** `SavingService.SaveGame`: collects the snapshot of every live saveable and the
    scene directory into one document. */
module SavePath {
  import opened Outcomes
  import opened Json
  import opened Scenes
  import opened SaveFormat
  import Seqs

  /** What the engine sees of a live `ISaveable`: its `SaveID` and its `SavedData`. */
  datatype Saveable = Saveable(saveID: Option<string>, snapshot: Json)

  /** A snapshot that is not an object is skipped with a warning. */
  predicate IsSkipped(s: Saveable) { !s.snapshot.JObject? }

  predicate IsKept(s: Saveable) { s.snapshot.JObject? }

  /** A snapshot with the saveable's identifier written under the reserved key. */
  function Tagged(s: Saveable): (r: Json)
    requires s.snapshot.JObject?
    ensures r.JObject?
    ensures Lookup(r.fields, SaveIdKey) == Some(StringValue(s.saveID))
    ensures forall k :: k != SaveIdKey ==> Lookup(r.fields, k) == Lookup(s.snapshot.fields, k)
  {
    JObject(Put(s.snapshot.fields, SaveIdKey, StringValue(s.saveID)))
  }

  /** The `objects` list: entry k is the tagged snapshot of the k-th saveable whose
      snapshot is an object, in discovery order. */
  function SavedObjects(ss: seq<Saveable>): (r: seq<Json>)
    ensures |r| == |Seqs.Indices(ss, IsKept)|
    ensures forall k :: 0 <= k < |r| ==>
      var s := ss[Seqs.Indices(ss, IsKept)[k]];
      s.snapshot.JObject? && r[k] == Tagged(s)
    decreases |ss|
  {
    if ss == [] then []
    else
      var init := SavedObjects(ss[..|ss| - 1]);
      KeptExtended(ss, init);
      var s := ss[|ss| - 1];
      if s.snapshot.JObject? then init + [Tagged(s)] else init
  }

  /** The step of `SavedObjects`: appending the last saveable's tagged snapshot, when
      it is an object, keeps entry k paired with the k-th kept saveable. */
  lemma KeptExtended(ss: seq<Saveable>, init: seq<Json>)
    requires ss != []
    requires |init| == |Seqs.Indices(ss[..|ss| - 1], IsKept)|
    requires forall k :: 0 <= k < |init| ==>
      var s := ss[..|ss| - 1][Seqs.Indices(ss[..|ss| - 1], IsKept)[k]];
      s.snapshot.JObject? && init[k] == Tagged(s)
    ensures var last := ss[|ss| - 1];
      var r := if last.snapshot.JObject? then init + [Tagged(last)] else init;
      && |r| == |Seqs.Indices(ss, IsKept)|
      && forall k :: 0 <= k < |r| ==>
        var s := ss[Seqs.Indices(ss, IsKept)[k]];
        s.snapshot.JObject? && r[k] == Tagged(s)
  {
    var n := |ss| - 1;
    var last := ss[n];
    var ix, full := Seqs.Indices(ss[..n], IsKept), Seqs.Indices(ss, IsKept);
    assert full == if IsKept(last) then ix + [n] else ix;
    var r := if last.snapshot.JObject? then init + [Tagged(last)] else init;
    forall k | 0 <= k < |r| ensures ss[full[k]].snapshot.JObject? && r[k] == Tagged(ss[full[k]]) {
      if k < |init| {
        assert full[k] == ix[k] && r[k] == init[k];
        assert ss[..n][ix[k]] == ss[ix[k]];
      } else {
        assert full[k] == n;
      }
    }
  }

  /** The `scenes` list: the names of the loaded scenes in scene-index order. */
  function SceneList(table: seq<SceneEntry>): (r: seq<Json>)
    ensures |r| == |LoadedNames(table)|
    ensures forall k :: 0 <= k < |r| ==> r[k] == JString(LoadedNames(table)[k])
    decreases |table|
  {
    if table == [] then []
    else
      var init := SceneList(table[..|table| - 1]);
      var e := table[|table| - 1];
      if e.isLoaded then init + [JString(e.name)] else init
  }

  /** A snapshot that is a null reference makes `data.IsObject` throw. */
  predicate HasNullSnapshot(ss: seq<Saveable>)
  {
    exists i :: 0 <= i < |ss| && ss[i].snapshot.JNull?
  }

  /** The root object as `SaveGame` fills it: `objects` when there is a list to
      store, then `scenes`, then `activeScene`. Each indexer set adds a new key to
      the fresh object, so each appends. */
  function Layout(objects: Option<Json>, scenes: Json, active: string): (doc: Json)
    ensures doc.JObject?
    ensures Keys(doc.fields) == (if objects.Some? then {ObjectsKey} else {}) + {ScenesKey, ActiveSceneKey}
    ensures Lookup(doc.fields, ObjectsKey) == objects
    ensures Lookup(doc.fields, ScenesKey) == Some(scenes)
    ensures Lookup(doc.fields, ActiveSceneKey) == Some(JString(active))
  {
    assert |ActiveSceneKey| != |ScenesKey| && |ActiveSceneKey| != |ObjectsKey| && |ScenesKey| != |ObjectsKey|;
    var tail := [(ScenesKey, scenes), (ActiveSceneKey, JString(active))];
    assert tail[1..] == [(ActiveSceneKey, JString(active))];
    assert tail[1..][1..] == [];
    assert Keys(tail[1..]) == {ActiveSceneKey};
    assert Keys(tail) == {ScenesKey, ActiveSceneKey};
    if objects.Some? then
      var fields := [(ObjectsKey, objects.value)] + tail;
      assert fields[1..] == tail;
      JObject(fields)
    else JObject(tail)
  }

  /** The document written when no snapshot is null. */
  function Document(ss: seq<Saveable>, table: seq<SceneEntry>, active: string): (doc: Json)
    ensures doc.JObject?
    ensures Keys(doc.fields) == (if |ss| > 0 then {ObjectsKey} else {}) + {ScenesKey, ActiveSceneKey}
    ensures Lookup(doc.fields, ObjectsKey) == (if |ss| > 0 then Some(JArray(SavedObjects(ss))) else None)
    ensures Lookup(doc.fields, ScenesKey) == Some(JArray(SceneList(table)))
    ensures Lookup(doc.fields, ActiveSceneKey) == Some(JString(active))
  {
    Layout(if |ss| > 0 then Some(JArray(SavedObjects(ss))) else None, JArray(SceneList(table)), active)
  }

  /** What `SaveGame` produces for the live saveables, the scene table and the
      active scene's name. */
  function SaveDocument(ss: seq<Saveable>, table: seq<SceneEntry>, active: string): (r: Outcome<Json>)
    ensures r.Threw? <==> HasNullSnapshot(ss)
    ensures r.Threw? ==> r.fault == NullReference
    ensures r.Returned? ==> r.value == Document(ss, table, active)
  {
    if HasNullSnapshot(ss) then Threw(NullReference) else Returned(Document(ss, table, active))
  }

  /** Every saveable is either saved or skipped with a warning. */
  lemma {:induction false} SavedOrSkipped(ss: seq<Saveable>)
    ensures |SavedObjects(ss)| + |Seqs.Indices(ss, IsSkipped)| == |ss|
    decreases |ss|
  {
    if ss != [] {
      SavedOrSkipped(ss[..|ss| - 1]);
    }
  }

  /** One step of the first loop: the prefix grows by one saveable. */
  lemma SnapshotStep(ss: seq<Saveable>, i: nat)
    requires i < |ss|
    ensures SavedObjects(ss[..i + 1]) ==
      SavedObjects(ss[..i]) + (if ss[i].snapshot.JObject? then [Tagged(ss[i])] else [])
    ensures Seqs.Indices(ss[..i + 1], IsSkipped) ==
      Seqs.Indices(ss[..i], IsSkipped) + (if IsSkipped(ss[i]) then [i] else [])
    ensures HasNullSnapshot(ss[..i + 1]) <==> HasNullSnapshot(ss[..i]) || ss[i].snapshot.JNull?
  {
    assert ss[..i + 1][..i] == ss[..i];
  }

  /** The first loop of `SaveGame`: snapshots every saveable, tags the objects and
      skips the rest; `skipped` lists the positions warned about. */
  method CollectSnapshots(ss: seq<Saveable>) returns (r: Outcome<seq<Json>>, skipped: seq<nat>)
    ensures r.Threw? <==> HasNullSnapshot(ss)
    ensures r.Threw? ==> r.fault == NullReference
    ensures r.Returned? ==> r.value == SavedObjects(ss) && skipped == Seqs.Indices(ss, IsSkipped)
  {
    var saved: seq<Json> := [];
    skipped := [];
    var i := 0;
    while i < |ss|
      invariant 0 <= i <= |ss|
      invariant saved == SavedObjects(ss[..i])
      invariant skipped == Seqs.Indices(ss[..i], IsSkipped)
      invariant !HasNullSnapshot(ss[..i])
    {
      var s := ss[i];
      SnapshotStep(ss, i);
      if s.snapshot.JNull? {
        assert ss[i] in ss[..i + 1];
        return Threw(NullReference), skipped;
      }
      if s.snapshot.JObject? {
        saved := saved + [Tagged(s)];
      } else {
        skipped := skipped + [i];
      }
      i := i + 1;
    }
    assert ss[..i] == ss;
    r := Returned(saved);
  }

  /** The second loop of `SaveGame`: the loaded scenes' names in index order. */
  method OpenScenes(table: seq<SceneEntry>) returns (names: seq<Json>)
    ensures names == SceneList(table)
  {
    names := [];
    for i := 0 to |table|
      invariant names == SceneList(table[..i])
    {
      assert table[..i + 1][..i] == table[..i];
      if table[i].isLoaded {
        names := names + [JString(table[i].name)];
      }
    }
    assert table[..|table|] == table;
  }

  /** `SaveGame` up to the write: assembles the document from the live saveables,
      the scene table and the active scene's name. */
  method BuildDocument(ss: seq<Saveable>, table: seq<SceneEntry>, active: string)
    returns (r: Outcome<Json>, skipped: seq<nat>)
    ensures r == SaveDocument(ss, table, active)
    ensures r.Returned? ==> skipped == Seqs.Indices(ss, IsSkipped)
  {
    var objects: Option<Json> := None;
    skipped := [];
    if |ss| > 0 {
      var saved;
      saved, skipped := CollectSnapshots(ss);
      if saved.Threw? {
        return Threw(saved.fault), skipped;
      }
      objects := Some(JArray(saved.value));
    }
    var openScenes := OpenScenes(table);
    r := Returned(Layout(objects, JArray(openScenes), active));
  }
}
