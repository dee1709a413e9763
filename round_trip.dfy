/** What one save followed by one load promises: the scenes that were open are
    requested again, the active scene comes back, and every saved object reaches
    the live object with its identifier. */
module RoundTrip {
  import opened Outcomes
  import opened Json
  import opened Scenes
  import opened SaveFormat
  import opened SavePath
  import opened LoadPath
  import opened Restore
  import opened Transforms
  import Seqs

  /** The saved scene list is requested back in order: the first loaded scene in
      Single mode and every other one Additive, without an exception. */
  lemma SavedScenesRequested(table: seq<SceneEntry>)
    ensures SceneRequests(SceneList(table)).fault.None?
    ensures |SceneRequests(SceneList(table)).issued| == |LoadedNames(table)|
    ensures forall i :: 0 <= i < |LoadedNames(table)| ==>
      SceneRequests(SceneList(table)).issued[i] ==
        SceneRequest(LoadedNames(table)[i], if i == 0 then Single else Additive)
  {
    var names := SceneList(table);
    var r := SceneRequests(names);
    forall i | 0 <= i < |names| ensures !names[i].JNull? {
      assert names[i] == JString(LoadedNames(table)[i]);
    }
    forall i | 0 <= i < |LoadedNames(table)|
      ensures r.issued[i] == SceneRequest(LoadedNames(table)[i], if i == 0 then Single else Additive)
    {
      assert ToText(names[i]) == Returned(r.issued[i].name);
    }
  }

  /** A file saved with at least one saveable and an active scene that is still
      loaded loads successfully: its scenes are requested again, its active scene
      is set and the handler captures exactly the saved objects. */
  lemma SaveThenLoad(ss: seq<Saveable>, table: seq<SceneEntry>, active: string)
    requires !HasNullSnapshot(ss) && |ss| > 0
    requires IsLoaded(table, active)
    ensures var e := LoadEffectOf(Some(Text(SaveDocument(ss, table, active).value)), table);
      && e.result == Returned(true)
      && e.warning.None?
      && e.activated == Some(active)
      && e.captured == Some(JArray(SavedObjects(ss)))
      && e.requests == SceneRequests(SceneList(table)).issued
  {
    LoadedSceneIsRecorded(table, active);
    SavedScenesRequested(table);
    assert |SceneList(table)| > 0;
  }

  /** With no saveable at all the file has no `objects` member: loading it requests
      the scenes and sets the active scene, then warns and returns false. */
  lemma EmptySaveLoadsNoObjects(table: seq<SceneEntry>, active: string)
    requires IsLoaded(table, active)
    ensures var e := LoadEffectOf(Some(Text(SaveDocument([], table, active).value)), table);
      && e.result == Returned(false)
      && e.warning == Some(NoObjects)
      && e.activated == Some(active)
      && e.requests == SceneRequests(SceneList(table)).issued
      && e.captured.None?
  {
    LoadedSceneIsRecorded(table, active);
    SavedScenesRequested(table);
    assert |SceneList(table)| > 0;
  }

  /** When every snapshot is an object, every saveable is saved, in order. */
  lemma {:induction false} AllKeptSaved(ss: seq<Saveable>)
    requires forall i :: 0 <= i < |ss| ==> IsKept(ss[i])
    ensures |SavedObjects(ss)| == |ss|
    ensures forall i :: 0 <= i < |ss| ==> SavedObjects(ss)[i] == Tagged(ss[i])
    decreases |ss|
  {
    if ss != [] {
      var init := ss[..|ss| - 1];
      assert forall i :: 0 <= i < |init| ==> init[i] == ss[i];
      AllKeptSaved(init);
    }
  }

  /** A list of records that all carry a live identifier is restored record by
      record, with no warning. */
  lemma {:induction false} AllRecordsMatched(recs: seq<Json>, ids: set<string>)
    requires forall j :: 0 <= j < |recs| ==> RecordID(recs[j]).Some? && RecordID(recs[j]).value in ids
    ensures Process(recs, ids).fault.None? && Process(recs, ids).warnings == []
    ensures |Process(recs, ids).calls| == |recs|
    ensures forall j :: 0 <= j < |recs| ==>
      Process(recs, ids).calls[j] == RestoreCall(RecordID(recs[j]).value, recs[j])
    decreases |recs|
  {
    if recs != [] {
      var n := |recs| - 1;
      assert forall j :: 0 <= j < n ==> recs[..n][j] == recs[j];
      AllRecordsMatched(recs[..n], ids);
      ProcessStep(recs, n, ids);
      assert recs[..n + 1] == recs;
      MatchedCallAppended(Process(recs[..n], ids).calls, recs, ids);
    }
  }

  /** The step of `AllRecordsMatched`: the call for the last record follows the calls
      for the ones before it. */
  lemma MatchedCallAppended(prev: seq<RestoreCall>, recs: seq<Json>, ids: set<string>)
    requires |recs| > 0 && |prev| == |recs| - 1
    requires forall j :: 0 <= j < |recs| ==> RecordID(recs[j]).Some?
    requires forall j :: 0 <= j < |prev| ==> prev[j] == RestoreCall(RecordID(recs[j]).value, recs[j])
    ensures var calls := prev + [RestoreCall(RecordID(recs[|recs| - 1]).value, recs[|recs| - 1])];
      forall j :: 0 <= j < |recs| ==> calls[j] == RestoreCall(RecordID(recs[j]).value, recs[j])
  {
    var n := |recs| - 1;
    var calls := prev + [RestoreCall(RecordID(recs[n]).value, recs[n])];
    forall j | 0 <= j < |recs| ensures calls[j] == RestoreCall(RecordID(recs[j]).value, recs[j]) {
      if j < n {
        assert calls[j] == prev[j];
      }
    }
  }

  /** The identifier a tagged snapshot carries is the saveable's own. */
  lemma TaggedCarriesID(s: Saveable)
    requires s.snapshot.JObject? && s.saveID.Some?
    ensures RecordID(Tagged(s)) == s.saveID
  {
  }

  /** Objects are restored by identity: when the same saveables are alive, with
      distinct non-null identifiers, each saved record is handed to the saveable
      it was taken from, in saving order, and nothing is reported. */
  lemma RestoredByIdentity(ss: seq<Saveable>, live: seq<Option<string>>)
    requires forall i :: 0 <= i < |ss| ==> IsKept(ss[i]) && ss[i].saveID.Some?
    requires |live| == |ss| && forall i :: 0 <= i < |ss| ==> live[i] == ss[i].saveID
    requires Distinct(live)
    ensures var run := RestoreRun(JArray(SavedObjects(ss)), live);
      && run.fault.None? && run.warnings == [] && |run.calls| == |ss|
      && forall i :: 0 <= i < |ss| ==> run.calls[i] == RestoreCall(ss[i].saveID.value, Tagged(ss[i]))
  {
    AllKeptSaved(ss);
    var recs := SavedObjects(ss);
    var ids := LiveIDs(live).value;
    forall j | 0 <= j < |recs| ensures RecordID(recs[j]).Some? && RecordID(recs[j]).value in ids {
      TaggedCarriesID(ss[j]);
    }
    AllRecordsMatched(recs, ids);
    forall i | 0 <= i < |ss| ensures Process(recs, ids).calls[i] == RestoreCall(ss[i].saveID.value, Tagged(ss[i])) {
      TaggedCarriesID(ss[i]);
    }
  }

  /** Every saved record is an object. */
  lemma SavedRecordsAreObjects(ss: seq<Saveable>)
    ensures forall j :: 0 <= j < |SavedObjects(ss)| ==> SavedObjects(ss)[j].JObject?
  {
    var recs := SavedObjects(ss);
    forall j | 0 <= j < |recs| ensures recs[j].JObject? {
      assert recs[j] == Tagged(ss[Seqs.Indices(ss, IsKept)[j]]);
    }
  }

  /** The record of a saveable without an identifier carries a null `$saveID`. */
  lemma NullIDRecordFaulty(ss: seq<Saveable>, k: nat)
    requires k < |ss|
    requires forall i :: 0 <= i < |ss| ==> IsKept(ss[i])
    requires ss[k].saveID.None?
    ensures k < |SavedObjects(ss)| && Faulty(SavedObjects(ss)[k])
  {
    AllKeptSaved(ss);
    assert SavedObjects(ss)[k] == Tagged(ss[k]);
  }

  /** A saveable saved without an identifier is written with a null `$saveID`;
      reading that record back makes `ToString` throw, which ends the handler. */
  lemma NullIDBreaksRestore(ss: seq<Saveable>, live: seq<Option<string>>, k: nat)
    requires k < |ss|
    requires forall i :: 0 <= i < |ss| ==> IsKept(ss[i])
    requires ss[k].saveID.None?
    requires LiveIDs(live).Returned?
    ensures RestoreRun(JArray(SavedObjects(ss)), live).fault == Some(NullReference)
  {
    var recs := SavedObjects(ss);
    SavedRecordsAreObjects(ss);
    NullIDRecordFaulty(ss, k);
    FirstFault(recs, LiveIDs(live).value);
  }

  /** Among records that are all objects, a null `$saveID` makes the handler throw a
      null reference. */
  lemma {:induction false} FirstFault(recs: seq<Json>, ids: set<string>)
    requires exists j :: 0 <= j < |recs| && Faulty(recs[j])
    requires forall j :: 0 <= j < |recs| ==> recs[j].JObject?
    ensures Process(recs, ids).fault == Some(NullReference)
    decreases |recs|
  {
    var init := recs[..|recs| - 1];
    assert forall j :: 0 <= j < |init| ==> init[j] == recs[j];
    if exists j :: 0 <= j < |init| && Faulty(init[j]) {
      FirstFault(init, ids);
    }
  }
  /** A document naming one loaded scene, `Main`, and one record: the identifier
      `abc` and a position, with no rotation and no scale. */
  function ScenarioRecord(u: JsonUtility): Json
  {
    JObject([(SaveIdKey, JString("abc")), (LocalPositionKey, u.vectors.encode(Vector3(1.0, 2.0, 3.0)))])
  }

  function ScenarioDocument(u: JsonUtility): Json
  {
    JObject([
      (ActiveSceneKey, JString("Main")),
      (ScenesKey, JArray([JString("Main")])),
      (ObjectsKey, JArray([ScenarioRecord(u)]))])
  }

  const MainOnly: seq<SceneEntry> := [SceneEntry("Main", true)]

  lemma ScenarioLoads(u: JsonUtility)
    ensures LoadEffectOf(Some(Text(ScenarioDocument(u))), MainOnly)
      == LoadEffect([SceneRequest("Main", Single)], Some("Main"), None, Some(JArray([ScenarioRecord(u)])), Returned(true))
  {
    var doc := ScenarioDocument(u);
    assert [JString("Main")][..0] == [];
    assert SceneRequests([JString("Main")]) == Requests([SceneRequest("Main", Single)], None);
    assert Lookup(doc.fields, ScenesKey) == Some(JArray([JString("Main")]));
    assert Lookup(doc.fields, ActiveSceneKey) == Some(JString("Main"));
    assert Lookup(doc.fields, ObjectsKey) == Some(JArray([ScenarioRecord(u)]));
    assert IsLoaded(MainOnly, "Main");
  }

  lemma ScenarioRestores(u: JsonUtility)
    ensures RestoreRun(JArray([ScenarioRecord(u)]), [Some("abc")]) == HandlerRun([RestoreCall("abc", ScenarioRecord(u))], [], None)
  {
    var rec := ScenarioRecord(u);
    SingleLiveID("abc");
    assert RecordStep(rec, {"abc"}) == Call(RestoreCall("abc", rec));
    assert [rec][..0] == [];
  }

  lemma ScenarioRecordMoves(u: JsonUtility, t: TransformState)
    requires Lawful(u)
    ensures Restored(t, ScenarioRecord(u), u) == Restoration(t.(position := Vector3(1.0, 2.0, 3.0)), true)
  {
    var v := Vector3(1.0, 2.0, 3.0);
    var rec := ScenarioRecord(u);
    assert u.vectors.decode(u.vectors.encode(v)) == Some(v) && u.vectors.encode(v).JObject?;
    assert |LocalPositionKey| != |SaveIdKey| && |LocalRotationKey| != |SaveIdKey| && |LocalScaleKey| != |SaveIdKey|;
    assert LocalPositionKey[5] != LocalRotationKey[5] && |LocalScaleKey| != |LocalPositionKey|;
    assert rec.fields[1..] == [(LocalPositionKey, u.vectors.encode(v))];
    assert rec.fields[1..][1..] == [];
    assert Lookup(rec.fields, LocalPositionKey) == Some(u.vectors.encode(v));
    assert Lookup(rec.fields, LocalRotationKey).None?;
    assert Lookup(rec.fields, LocalScaleKey).None?;
  }

  /** Loading the document with a live transform saver identified as `abc`, once
      `Main` has loaded, moves that transform to (1, 2, 3) and leaves its rotation
      and scale as they were. */
  lemma ScenarioMovesTransform(u: JsonUtility, t: TransformState)
    requires Lawful(u)
    ensures var e := LoadEffectOf(Some(Text(ScenarioDocument(u))), MainOnly);
      && e.result == Returned(true)
      && RestoreRun(e.captured.value, [Some("abc")]).calls == [RestoreCall("abc", ScenarioRecord(u))]
      && Restored(t, ScenarioRecord(u), u) == Restoration(t.(position := Vector3(1.0, 2.0, 3.0)), true)
  {
    ScenarioLoads(u);
    ScenarioRestores(u);
    ScenarioRecordMoves(u, t);
  }
}
