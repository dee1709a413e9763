/** The body of the `LoadObjectsAfterSceneLoad` handler: match each recorded
    object with a live saveable by identifier and restore it. */
module Restore {
  import opened Outcomes
  import opened Json
  import opened SaveFormat

  /** One `LoadFromData(record)` call on the live saveable whose `SaveID` is `id`. */
  datatype RestoreCall = RestoreCall(id: string, record: Json)

  /** The handler's non-fatal warnings. */
  datatype HandlerWarning = MissingSaveID | UnknownSaveID(id: string)

  /** What one run of the handler body did: the restore calls and warnings in the
      order they happened, and the exception that stopped it, if any. */
  datatype HandlerRun = HandlerRun(calls: seq<RestoreCall>, warnings: seq<HandlerWarning>, fault: Option<Fault>)

  predicate Distinct<T(==)>(s: seq<T>)
  {
    forall i, j :: 0 <= i < j < |s| ==> s[i] != s[j]
  }

  /** `ToDictionary(o => o.SaveID)` over the live saveables' identifiers: a null or a
      repeated identifier throws. */
  function LiveIDs(live: seq<Option<string>>): (r: Outcome<set<string>>)
    ensures r.Returned? <==> (forall i :: 0 <= i < |live| ==> live[i].Some?) && Distinct(live)
    ensures r.Returned? ==> forall id :: id in r.value <==> Some(id) in live
    decreases |live|
  {
    if live == [] then Returned({})
    else
      var init := LiveIDs(live[..|live| - 1]);
      assert forall x :: x in live <==> x in live[..|live| - 1] || x == live[|live| - 1] by {
        assert live == live[..|live| - 1] + [live[|live| - 1]];
      }
      match init
      case Threw(_) => init
      case Returned(ids) =>
        match live[|live| - 1]
        case None => Threw(ArgumentNull)
        case Some(id) =>
          if id in ids then
            var j :| 0 <= j < |live| - 1 && live[..|live| - 1][j] == Some(id);
            assert live[j] == live[|live| - 1];
            Threw(DuplicateKey)
          else Returned(ids + {id})
  }

  lemma SingleLiveID(id: string)
    ensures LiveIDs([Some(id)]) == Returned({id})
  {
    var r := LiveIDs([Some(id)]);
    assert Distinct([Some(id)]);
    assert r.Returned?;
    forall x ensures x in r.value <==> x == id {
      assert Some(x) in [Some(id)] <==> x == id;
    }
    assert r.value == {id};
  }

  /** The identifier a record carries: its `$saveID` member as text, when the record
      is an object and the member is present and not null. */
  function RecordID(rec: Json): Option<string>
  {
    if rec.JObject? && Lookup(rec.fields, SaveIdKey).Some? then
      match ToText(Lookup(rec.fields, SaveIdKey).value)
      case Returned(text) => Some(text)
      case Threw(_) => None
    else None
  }

  /** A record the handler cannot look into: `ContainsKey` throws on anything but an
      object, and `ToString` throws on a null identifier. */
  predicate Faulty(rec: Json)
  {
    !rec.JObject? || Lookup(rec.fields, SaveIdKey) == Some(JNull)
  }

  datatype Step = Call(call: RestoreCall) | Warn(warning: HandlerWarning) | Fail(fault: Fault)

  /** One iteration of the handler's loop. */
  function RecordStep(rec: Json, ids: set<string>): (s: Step)
    ensures s.Fail? <==> Faulty(rec)
    ensures s.Call? <==> RecordID(rec).Some? && RecordID(rec).value in ids
    ensures s.Call? ==> s.call == RestoreCall(RecordID(rec).value, rec)
  {
    match ContainsKey(rec, SaveIdKey)
    case Threw(f) => Fail(f)
    case Returned(present) =>
      if !present then Warn(MissingSaveID)
      else
        match ToText(Lookup(rec.fields, SaveIdKey).value)
        case Threw(f) => Fail(f)
        case Returned(id) => if id in ids then Call(RestoreCall(id, rec)) else Warn(UnknownSaveID(id))
  }

  /** The handler's loop over the recorded objects, given the live identifiers. */
  function Process(recs: seq<Json>, ids: set<string>): (r: HandlerRun)
    ensures forall c :: c in r.calls ==> c.id in ids && c.record in recs && RecordID(c.record) == Some(c.id)
    ensures r.fault.None? <==> forall j :: 0 <= j < |recs| ==> !Faulty(recs[j])
    ensures r.fault.None? ==> |r.calls| + |r.warnings| == |recs|
    decreases |recs|
  {
    if recs == [] then HandlerRun([], [], None)
    else
      var init := recs[..|recs| - 1];
      var prev := Process(init, ids);
      assert forall x :: x in init ==> x in recs;
      assert forall j :: 0 <= j < |init| ==> init[j] == recs[j];
      if prev.fault.Some? then prev
      else
        match RecordStep(recs[|recs| - 1], ids)
        case Call(c) => prev.(calls := prev.calls + [c])
        case Warn(w) => prev.(warnings := prev.warnings + [w])
        case Fail(f) => prev.(fault := Some(f))
  }

  /** One iteration of the loop extends the run over a prefix of the records. */
  lemma ProcessStep(recs: seq<Json>, i: nat, ids: set<string>)
    requires i < |recs|
    requires Process(recs[..i], ids).fault.None?
    ensures Process(recs[..i + 1], ids) ==
      var prev := Process(recs[..i], ids);
      match RecordStep(recs[i], ids)
      case Call(c) => prev.(calls := prev.calls + [c])
      case Warn(w) => prev.(warnings := prev.warnings + [w])
      case Fail(f) => prev.(fault := Some(f))
  {
    assert recs[..i + 1][..i] == recs[..i];
  }

  /** The records are handled one after another, in the order they are listed. */
  lemma {:induction false} ProcessInOrder(a: seq<Json>, b: seq<Json>, ids: set<string>)
    requires Process(a, ids).fault.None?
    ensures Process(a + b, ids) ==
      var x, y := Process(a, ids), Process(b, ids);
      HandlerRun(x.calls + y.calls, x.warnings + y.warnings, y.fault)
    decreases |b|
  {
    if b == [] {
      assert a + b == a;
    } else {
      var b' := b[..|b| - 1];
      assert (a + b)[..|a + b| - 1] == a + b';
      assert (a + b)[|a + b| - 1] == b[|b| - 1];
      ProcessInOrder(a, b', ids);
      AppendStep(Process(a, ids), Process(b', ids), RecordStep(b[|b| - 1], ids));
    }
  }

  /** One loop iteration after a joined run is the same as one after its second
      part, joined to the first. */
  lemma AppendStep(x: HandlerRun, y: HandlerRun, step: Step)
    ensures var joined := HandlerRun(x.calls + y.calls, x.warnings + y.warnings, y.fault);
      match step
      case Call(c) => joined.(calls := joined.calls + [c]) == HandlerRun(x.calls + (y.calls + [c]), x.warnings + y.warnings, y.fault)
      case Warn(w) => joined.(warnings := joined.warnings + [w]) == HandlerRun(x.calls + y.calls, x.warnings + (y.warnings + [w]), y.fault)
      case Fail(f) => joined.(fault := Some(f)) == HandlerRun(x.calls + y.calls, x.warnings + y.warnings, Some(f))
  {
    match step
    case Call(c) => assert (x.calls + y.calls) + [c] == x.calls + (y.calls + [c]);
    case Warn(w) => assert (x.warnings + y.warnings) + [w] == x.warnings + (y.warnings + [w]);
    case Fail(f) =>
  }

  /** Once an exception has stopped the loop, the later records are not looked at. */
  lemma {:induction false} FaultStopsProcessing(recs: seq<Json>, k: nat, ids: set<string>)
    requires k <= |recs|
    requires Process(recs[..k], ids).fault.Some?
    ensures Process(recs, ids) == Process(recs[..k], ids)
    decreases |recs| - k
  {
    if k < |recs| {
      var init := recs[..|recs| - 1];
      assert init[..k] == recs[..k];
      FaultStopsProcessing(init, k, ids);
      assert Process(recs, ids) == Process(init, ids);
    } else {
      assert recs[..k] == recs;
    }
  }

  /** Every record whose identifier is live is passed, whole, to that object. */
  lemma {:induction false} MatchingRecordsRestored(recs: seq<Json>, ids: set<string>, j: nat)
    requires j < |recs|
    requires Process(recs, ids).fault.None?
    requires RecordID(recs[j]).Some? && RecordID(recs[j]).value in ids
    ensures RestoreCall(RecordID(recs[j]).value, recs[j]) in Process(recs, ids).calls
    decreases |recs|
  {
    var init := recs[..|recs| - 1];
    if j < |recs| - 1 {
      assert init[j] == recs[j];
      MatchingRecordsRestored(init, ids, j);
    }
  }

  /** The whole handler body: build the identifier dictionary, then walk the
      recorded objects. */
  function RestoreRun(objects: Json, live: seq<Option<string>>): (r: HandlerRun)
    ensures forall c :: c in r.calls ==> Some(c.id) in live && RecordID(c.record) == Some(c.id)
    ensures LiveIDs(live).Threw? ==> r == HandlerRun([], [], Some(LiveIDs(live).fault))
  {
    match LiveIDs(live)
    case Threw(f) => HandlerRun([], [], Some(f))
    case Returned(ids) =>
      match Elements(objects)
      case Threw(f) => HandlerRun([], [], Some(f))
      case Returned(recs) => Process(recs, ids)
  }

  /** The handler matches by identifier: the order in which the live objects are
      found does not matter. */
  lemma LiveOrderIrrelevant(objects: Json, a: seq<Option<string>>, b: seq<Option<string>>)
    requires LiveIDs(a).Returned? && LiveIDs(b).Returned?
    requires forall x :: x in a <==> x in b
    ensures RestoreRun(objects, a) == RestoreRun(objects, b)
  {
    assert LiveIDs(a).value == LiveIDs(b).value;
  }

  /** The handler body as the source runs it: a loop over the recorded objects
      after the dictionary is built. */
  method RestoreObjects(objects: Json, live: seq<Option<string>>) returns (run: HandlerRun)
    ensures run == RestoreRun(objects, live)
  {
    var ids := LiveIDs(live);
    if ids.Threw? {
      return HandlerRun([], [], Some(ids.fault));
    }
    var elements := Elements(objects);
    if elements.Threw? {
      return HandlerRun([], [], Some(elements.fault));
    }
    var recs := elements.value;
    var calls: seq<RestoreCall> := [];
    var warnings: seq<HandlerWarning> := [];
    var i := 0;
    while i < |recs|
      invariant 0 <= i <= |recs|
      invariant Process(recs[..i], ids.value) == HandlerRun(calls, warnings, None)
    {
      var obj := recs[i];
      ProcessStep(recs, i, ids.value);
      var has := ContainsKey(obj, SaveIdKey);
      if has.Threw? {
        FaultStopsProcessing(recs, i + 1, ids.value);
        return HandlerRun(calls, warnings, Some(has.fault));
      }
      if has.value {
        var text := ToText(Lookup(obj.fields, SaveIdKey).value);
        if text.Threw? {
          FaultStopsProcessing(recs, i + 1, ids.value);
          return HandlerRun(calls, warnings, Some(text.fault));
        }
        if text.value in ids.value {
          calls := calls + [RestoreCall(text.value, obj)];
        } else {
          warnings := warnings + [UnknownSaveID(text.value)];
        }
      } else {
        warnings := warnings + [MissingSaveID];
      }
      i := i + 1;
    }
    assert recs[..i] == recs;
    run := HandlerRun(calls, warnings, None);
  }
}
