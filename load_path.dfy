/** `SavingService.LoadGame` up to the point where it subscribes its handler: the
    validation chain and the scene requests interleaved with it. */
module LoadPath {
  import opened Outcomes
  import opened Json
  import opened Scenes
  import opened SaveFormat

  /** The warning logged before each `return false`. */
  datatype LoadWarning =
    | FileMissing
    | InvalidDocument
    | NoScenes
    | ActiveSceneNotLoaded(name: string)
    | NoActiveScene
    | NoObjects

  /** The scene requests issued by the loop over `scenes`, and the exception that
      stopped it, if any. */
  datatype Requests = Requests(issued: seq<SceneRequest>, fault: Option<Fault>)

  /** The loop over the listed scenes: the first is requested in Single mode, every
      later one in Additive mode, in list order, until a null entry throws. */
  function SceneRequests(names: seq<Json>): (r: Requests)
    ensures |r.issued| <= |names|
    ensures forall i :: 0 <= i < |r.issued| ==>
      && r.issued[i].mode == (if i == 0 then Single else Additive)
      && ToText(names[i]) == Returned(r.issued[i].name)
    ensures r.fault.None? <==> forall i :: 0 <= i < |names| ==> !names[i].JNull?
    ensures r.fault.None? ==> |r.issued| == |names|
    ensures r.fault.Some? ==> |r.issued| < |names| && r.fault.value == NullReference && names[|r.issued|].JNull?
    decreases |names|
  {
    if names == [] then Requests([], None)
    else
      var init := names[..|names| - 1];
      var prev := SceneRequests(init);
      assert forall i :: 0 <= i < |init| ==> init[i] == names[i];
      if prev.fault.Some? then prev
      else
        match ToText(names[|names| - 1])
        case Threw(f) => Requests(prev.issued, Some(f))
        case Returned(name) =>
          Requests(prev.issued + [SceneRequest(name, if |names| == 1 then Single else Additive)], None)
  }

  /** One more pass of the loop over the listed scenes. */
  lemma RequestStep(names: seq<Json>, i: nat)
    requires i < |names|
    requires SceneRequests(names[..i]).fault.None?
    ensures SceneRequests(names[..i + 1]) ==
      var prev := SceneRequests(names[..i]);
      match ToText(names[i])
      case Threw(f) => Requests(prev.issued, Some(f))
      case Returned(name) => Requests(prev.issued + [SceneRequest(name, if i == 0 then Single else Additive)], None)
  {
    assert names[..i + 1][..i] == names[..i];
  }

  /** A null entry ends the loop: the entries after it are never requested. */
  lemma {:induction false} RequestsStopAtFault(names: seq<Json>, k: nat)
    requires k <= |names|
    requires SceneRequests(names[..k]).fault.Some?
    ensures SceneRequests(names) == SceneRequests(names[..k])
    decreases |names| - k
  {
    if k < |names| {
      RequestsStopAtFault(names[..|names| - 1], k);
      assert names[..|names| - 1][..k] == names[..k];
    } else {
      assert names[..k] == names;
    }
  }

  /** The entries of `scenes` when the file holds an object whose `scenes` value
      can be counted; empty otherwise. */
  function ListedScenes(file: Option<FileContent>): seq<Json>
  {
    if file.Some? && file.value.Text? && file.value.doc.JObject? then
      match Lookup(file.value.doc.fields, ScenesKey)
      case Some(scenes) => (match Elements(scenes) case Returned(names) => names case Threw(_) => [])
      case None => []
    else []
  }

  /** Everything one `LoadGame` call does before it returns: the scene requests it
      issues, the scene it makes active, the warning it logs, the `objects` value its
      handler captures, and its result. */
  datatype LoadEffect = LoadEffect(
    requests: seq<SceneRequest>,
    activated: Option<string>,
    warning: Option<LoadWarning>,
    captured: Option<Json>,
    result: Outcome<bool>)

  function Rejected(requests: seq<SceneRequest>, activated: Option<string>, w: LoadWarning): LoadEffect
  {
    LoadEffect(requests, activated, Some(w), None, Returned(false))
  }

  function Aborted(requests: seq<SceneRequest>, f: Fault): LoadEffect
  {
    LoadEffect(requests, None, None, None, Threw(f))
  }

  /** The rest of `LoadGame` once the scenes are requested: the active-scene check,
      `SetActiveScene`, the objects check and the subscription. The scene made
      active is the one the document names. */
  function Activation(fields: seq<(string, Json)>, issued: seq<SceneRequest>, table: seq<SceneEntry>): (e: LoadEffect)
    ensures e.requests == issued
    ensures e.result == Returned(true) <==> e.captured.Some?
    ensures e.result == Returned(false) <==> e.warning.Some?
    ensures e.warning.Some? ==>
      e.warning.value in {NoActiveScene, NoObjects} || e.warning.value.ActiveSceneNotLoaded?
    ensures e.warning.Some? && e.warning.value.ActiveSceneNotLoaded? ==> !IsLoaded(table, e.warning.value.name)
    ensures e.activated.Some? ==> IsLoaded(table, e.activated.value)
    ensures e.warning == Some(NoObjects) ==> e.activated.Some?
    ensures e.captured.Some? ==> Lookup(fields, ObjectsKey) == e.captured && e.activated.Some?
    ensures Lookup(fields, ActiveSceneKey).None? ==> e == Rejected(issued, None, NoActiveScene)
    ensures e.activated.Some? ==>
      Lookup(fields, ActiveSceneKey).Some? && ToText(Lookup(fields, ActiveSceneKey).value) == Returned(e.activated.value)
    ensures e.warning.Some? && e.warning.value.ActiveSceneNotLoaded? ==>
      Lookup(fields, ActiveSceneKey).Some? && ToText(Lookup(fields, ActiveSceneKey).value) == Returned(e.warning.value.name)
    ensures Lookup(fields, ActiveSceneKey).Some? && ToText(Lookup(fields, ActiveSceneKey).value).Threw? ==>
      e == Aborted(issued, ToText(Lookup(fields, ActiveSceneKey).value).fault)
    ensures Lookup(fields, ActiveSceneKey).Some? && ToText(Lookup(fields, ActiveSceneKey).value).Returned? ==>
      var name := ToText(Lookup(fields, ActiveSceneKey).value).value;
      && (!IsLoaded(table, name) ==> e == Rejected(issued, None, ActiveSceneNotLoaded(name)))
      && (IsLoaded(table, name) && Lookup(fields, ObjectsKey).None? ==> e == Rejected(issued, Some(name), NoObjects))
      && (IsLoaded(table, name) && Lookup(fields, ObjectsKey).Some? ==>
            e == LoadEffect(issued, Some(name), None, Lookup(fields, ObjectsKey), Returned(true)))
  {
    match Lookup(fields, ActiveSceneKey)
    case None => Rejected(issued, None, NoActiveScene)
    case Some(active) =>
      match ToText(active)
      case Threw(f) => Aborted(issued, f)
      case Returned(name) =>
        if !IsLoaded(table, name) then Rejected(issued, None, ActiveSceneNotLoaded(name))
        else
          match Lookup(fields, ObjectsKey)
          case None => Rejected(issued, Some(name), NoObjects)
          case Some(objects) => LoadEffect(issued, Some(name), None, Some(objects), Returned(true))
  }

  /** `LoadGame` for the stored file (`None` when it does not exist) and the scene
      table as it is when the call runs. */
  function LoadEffectOf(file: Option<FileContent>, table: seq<SceneEntry>): (e: LoadEffect)
    ensures e.result == Returned(true) <==> e.captured.Some?
    ensures e.result == Returned(false) <==> e.warning.Some?
    ensures e.warning == Some(FileMissing) <==> file.None?
    ensures e.result == Threw(ParseError) <==> file == Some(Malformed)
    ensures file == Some(Malformed) ==> e == Aborted([], ParseError)
    ensures e.warning == Some(InvalidDocument) <==> file.Some? && file.value.Text? && !file.value.doc.JObject?
    ensures e.warning in {Some(FileMissing), Some(InvalidDocument), Some(NoScenes)} ==> e.requests == [] && e.activated.None?
    ensures e.requests == [] || e.requests == SceneRequests(ListedScenes(file)).issued
    ensures e.warning.Some? && e.warning.value in {NoActiveScene, NoObjects} ==>
      |e.requests| == |ListedScenes(file)| > 0 && e.requests[0].mode == Single
    ensures e.warning.Some? && e.warning.value.ActiveSceneNotLoaded? ==>
      |e.requests| == |ListedScenes(file)| > 0 && !IsLoaded(table, e.warning.value.name)
    ensures e.activated.Some? ==> IsLoaded(table, e.activated.value)
    ensures e.warning == Some(NoObjects) ==> e.activated.Some?
    ensures e.captured.Some? ==>
      && file.Some? && file.value.Text? && file.value.doc.JObject?
      && Lookup(file.value.doc.fields, ObjectsKey) == e.captured
      && e.activated.Some? && |e.requests| == |ListedScenes(file)| > 0
    ensures file.Some? && file.value.Text? && file.value.doc.JObject? ==>
      var fields := file.value.doc.fields;
      && (Lookup(fields, ScenesKey).None? ==> e == Rejected([], None, NoScenes))
      && (Lookup(fields, ScenesKey).Some? && Elements(Lookup(fields, ScenesKey).value) == Returned([]) ==>
            e == Rejected([], None, NoScenes))
      && (Lookup(fields, ScenesKey).Some? && Elements(Lookup(fields, ScenesKey).value).Threw? ==>
            e == Aborted([], Elements(Lookup(fields, ScenesKey).value).fault))
    ensures file.Some? && file.value.Text? && file.value.doc.JObject? && |ListedScenes(file)| > 0 ==>
      var reqs := SceneRequests(ListedScenes(file));
      && (reqs.fault.Some? ==> e == Aborted(reqs.issued, NullReference))
      && (reqs.fault.None? ==> e == Activation(file.value.doc.fields, reqs.issued, table))
  {
    match file
    case None => Rejected([], None, FileMissing)
    case Some(Malformed) => Aborted([], ParseError)
    case Some(Text(data)) =>
      if !data.JObject? then Rejected([], None, InvalidDocument)
      else
        match Lookup(data.fields, ScenesKey)
        case None => Rejected([], None, NoScenes)
        case Some(scenes) =>
          match Elements(scenes)
          case Threw(f) => Aborted([], f)
          case Returned(names) =>
            if |names| == 0 then Rejected([], None, NoScenes)
            else
              var reqs := SceneRequests(names);
              if reqs.fault.Some? then Aborted(reqs.issued, reqs.fault.value)
              else
                Activation(data.fields, reqs.issued, table)
  }

  /** A document that passes every check loads: the listed scenes are requested,
      the recorded active scene is made active, the handler captures `objects`,
      nothing is logged and true is returned. */
  lemma DocumentAccepted(doc: Json, table: seq<SceneEntry>, name: string)
    requires doc.JObject?
    requires |ListedScenes(Some(Text(doc)))| > 0
    requires forall i :: 0 <= i < |ListedScenes(Some(Text(doc)))| ==> !ListedScenes(Some(Text(doc)))[i].JNull?
    requires Lookup(doc.fields, ActiveSceneKey) == Some(JString(name)) && IsLoaded(table, name)
    requires Lookup(doc.fields, ObjectsKey).Some?
    ensures var e := LoadEffectOf(Some(Text(doc)), table);
      && e.result == Returned(true) && e.warning.None?
      && e.requests == SceneRequests(ListedScenes(Some(Text(doc)))).issued
      && |e.requests| == |ListedScenes(Some(Text(doc)))|
      && e.activated == Some(name)
      && e.captured == Lookup(doc.fields, ObjectsKey)
  {
  }
}
