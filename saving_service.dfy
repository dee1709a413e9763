/** The static `SavingService`: saving the open scenes and every saveable object to
    a file, loading them back, and the handler that restores the objects once a
    scene has loaded. Files, the scene table and the `sceneLoaded` event are state
    the service changes in place. */
module Saving {
  import opened Outcomes
  import opened Json
  import opened Scenes
  import opened SaveFormat
  import opened SavePath
  import opened LoadPath
  import opened Restore
  import opened SceneEvents
  import Seqs

  /** Each closure is subscribed at most once and was created before `bound`; the
      slot, when set, holds a subscribed closure. */
  ghost predicate WellFormed(reg: Registry, bound: nat)
  {
    && Distinct(reg.subscribers)
    && (forall h :: h in reg.subscribers ==> h.id < bound)
    && (reg.slot.Some? ==> reg.slot.value in reg.subscribers)
  }

  /** A handler finishing, under either unsubscribe policy, keeps the registry
      well formed: `-=` keeps the list free of repeats and the slot is cleared. */
  lemma AfterRunWellFormed(reg: Registry, h: Handler, policy: Unsubscribe, bound: nat)
    requires WellFormed(reg, bound)
    ensures WellFormed(AfterRun(reg, h, policy), bound)
  {
    var removed := match policy
      case RemoveSelf => h
      case RemoveSlotHandler => if reg.slot.Some? then reg.slot.value else h;
    RemoveLastKeepsDistinct(reg.subscribers, removed);
  }

  /** Running any handlers one after another keeps the registry well formed. */
  lemma {:induction false} DispatchWellFormed(reg: Registry, pending: seq<Handler>, live: seq<Option<string>>,
                                             policy: Unsubscribe, bound: nat)
    requires WellFormed(reg, bound)
    ensures WellFormed(Dispatch(reg, pending, live, policy).registry, bound)
    decreases |pending|
  {
    if pending != [] && RestoreRun(pending[0].objects, live).fault.None? {
      AfterRunWellFormed(reg, pending[0], policy, bound);
      DispatchWellFormed(AfterRun(reg, pending[0], policy), pending[1..], live, policy, bound);
    }
  }

  /** Raising the event, with the handlers as written or corrected, keeps the
      registry well formed. */
  lemma FiredWellFormed(reg: Registry, live: seq<Option<string>>, policy: Unsubscribe, bound: nat)
    requires WellFormed(reg, bound)
    ensures WellFormed(Fire(reg, live, policy).registry, bound)
  {
    DispatchWellFormed(reg, reg.subscribers, live, policy, bound);
  }

  /** Subscribing a closure newer than every subscribed one, and putting it in
      the slot, keeps the registry well formed. */
  lemma SubscribeFreshWellFormed(reg: Registry, h: Handler, bound: nat)
    requires WellFormed(reg, bound) && h.id == bound
    ensures WellFormed(Registry(reg.subscribers + [h], Some(h)), bound + 1)
  {
    var subs := reg.subscribers + [h];
    assert h !in reg.subscribers;
    forall i, j | 0 <= i < j < |subs| ensures subs[i] != subs[j] {
      if j < |reg.subscribers| {
        assert subs[i] == reg.subscribers[i] && subs[j] == reg.subscribers[j];
      } else {
        assert subs[i] in reg.subscribers;
      }
    }
  }

  /** `target` is what raising the event gives when the handlers already run have
      produced `calls` and `log`, and `rest` are still to run on `reg`. */
  ghost predicate Pending(target: Dispatched, reg: Registry, rest: seq<Handler>, live: seq<Option<string>>,
                          policy: Unsubscribe, calls: seq<RestoreCall>, log: seq<HandlerWarning>)
  {
    var d := Dispatch(reg, rest, live, policy);
    target == Dispatched(d.registry, calls + d.calls, log + d.warnings, d.fault)
  }

  /** One handler of the fixed invocation list: an exception ends the dispatch with
      the handler still subscribed; otherwise it unsubscribes and the rest follow. */
  lemma DispatchNext(target: Dispatched, reg: Registry, pending: seq<Handler>, j: nat, live: seq<Option<string>>,
                     policy: Unsubscribe, calls: seq<RestoreCall>, log: seq<HandlerWarning>)
    requires j < |pending|
    requires Pending(target, reg, pending[j..], live, policy, calls, log)
    ensures var run := RestoreRun(pending[j].objects, live);
      run.fault.Some? ==> target == Dispatched(reg, calls + run.calls, log + run.warnings, run.fault)
    ensures var run := RestoreRun(pending[j].objects, live);
      run.fault.None? ==>
        Pending(target, AfterRun(reg, pending[j], policy), pending[j + 1..], live, policy,
                calls + run.calls, log + run.warnings)
  {
    assert pending[j..][1..] == pending[j + 1..];
    var run := RestoreRun(pending[j].objects, live);
    if run.fault.None? {
      var next := Dispatch(AfterRun(reg, pending[j], policy), pending[j + 1..], live, policy);
      assert calls + (run.calls + next.calls) == (calls + run.calls) + next.calls;
      assert log + (run.warnings + next.warnings) == (log + run.warnings) + next.warnings;
    }
  }

  /** Once no handler is left, the dispatch has produced what was collected. */
  lemma DispatchDone(target: Dispatched, reg: Registry, live: seq<Option<string>>, policy: Unsubscribe,
                     calls: seq<RestoreCall>, log: seq<HandlerWarning>)
    requires Pending(target, reg, [], live, policy, calls, log)
    ensures target == Dispatched(reg, calls, log, None)
  {
    assert calls + [] == calls && log + [] == log;
  }

  class SavingService {
    /** The scenes the scene manager holds, in its order. */
    var scenes: seq<SceneEntry>
    /** The name of the active scene. */
    var activeScene: string
    /** Every `LoadScene` call issued so far, in order. */
    var requests: seq<SceneRequest>
    /** The files under the persistent data path, by file name. */
    var files: map<string, FileContent>
    /** The invocation list of `sceneLoaded`. */
    var subscribers: seq<Handler>
    /** `LoadObjectsAfterSceneLoad`. */
    var slot: Option<Handler>
    /** The identity the next handler closure gets. */
    var nextHandler: nat
    /** The warnings `LoadGame` has logged. */
    var warnings: seq<LoadWarning>

    /** The active scene is loaded and the event's registry is well formed. */
    ghost predicate Valid()
      reads this
    {
      && IsLoaded(scenes, activeScene)
      && WellFormed(Events(), nextHandler)
    }

    function Events(): (reg: Registry)
      reads this
      ensures reg.subscribers == subscribers && reg.slot == slot
    {
      Registry(subscribers, slot)
    }

    constructor(scenes: seq<SceneEntry>, activeScene: string, files: map<string, FileContent>)
      requires IsLoaded(scenes, activeScene)
      ensures Valid()
      ensures this.scenes == scenes && this.activeScene == activeScene && this.files == files
      ensures requests == [] && subscribers == [] && slot.None? && warnings == []
    {
      this.scenes := scenes;
      this.activeScene := activeScene;
      this.files := files;
      requests := [];
      subscribers := [];
      slot := None;
      nextHandler := 0;
      warnings := [];
    }

    /** `SaveGame`: writes the document for the given saveables and the current
        scenes under `filename`; a null snapshot throws before anything is
        written. `skipped` lists the saveables logged as not saveable. */
    method SaveGame(filename: string, saveables: seq<Saveable>) returns (fault: Option<Fault>, skipped: seq<nat>)
      modifies this
      ensures var r := SaveDocument(saveables, old(scenes), old(activeScene));
        && (r.Threw? ==> fault == Some(r.fault) && files == old(files))
        && (r.Returned? ==> fault.None? && files == old(files)[filename := Text(r.value)]
                            && skipped == Seqs.Indices(saveables, IsSkipped))
      ensures scenes == old(scenes) && activeScene == old(activeScene) && requests == old(requests)
      ensures subscribers == old(subscribers) && slot == old(slot) && nextHandler == old(nextHandler)
      ensures warnings == old(warnings)
    {
      var r;
      r, skipped := BuildDocument(saveables, scenes, activeScene);
      if r.Threw? {
        return Some(r.fault), skipped;
      }
      files := files[filename := Text(r.value)];
      fault := None;
    }

    /** The loop of `LoadGame` over the listed scenes: one `LoadScene` call per
        entry, the first in Single mode and the rest Additive, until an entry that
        cannot be turned into text throws. */
    method RequestScenes(names: seq<Json>) returns (fault: Option<Fault>)
      modifies this
      ensures requests == old(requests) + SceneRequests(names).issued
      ensures fault == SceneRequests(names).fault
      ensures scenes == old(scenes) && files == old(files) && activeScene == old(activeScene)
      ensures subscribers == old(subscribers) && slot == old(slot) && nextHandler == old(nextHandler)
      ensures warnings == old(warnings)
    {
      var i := 0;
      while i < |names|
        invariant 0 <= i <= |names|
        invariant SceneRequests(names[..i]).fault.None?
        invariant requests == old(requests) + SceneRequests(names[..i]).issued
        invariant scenes == old(scenes) && files == old(files) && activeScene == old(activeScene)
        invariant subscribers == old(subscribers) && slot == old(slot) && nextHandler == old(nextHandler)
        invariant warnings == old(warnings)
      {
        RequestStep(names, i);
        var sceneName := ToText(names[i]);
        if sceneName.Threw? {
          RequestsStopAtFault(names, i + 1);
          return Some(sceneName.fault);
        }
        requests := requests + [SceneRequest(sceneName.value, if i == 0 then Single else Additive)];
        i := i + 1;
      }
      assert names[..i] == names;
      fault := None;
    }

    /** `LoadGame`: validates the file, requests its scenes, activates its active
        scene and subscribes a new handler holding its objects. The scene table is
        not changed: scene loading completes later, outside the call. */
    method LoadGame(filename: string) returns (r: Outcome<bool>)
      requires Valid()
      modifies this
      ensures Valid()
      ensures var e := LoadEffectOf(if filename in old(files) then Some(old(files)[filename]) else None, old(scenes));
        && r == e.result
        && requests == old(requests) + e.requests
        && activeScene == (if e.activated.Some? then e.activated.value else old(activeScene))
        && warnings == old(warnings) + (if e.warning.Some? then [e.warning.value] else [])
        && (e.captured.Some? ==>
              && slot == Some(Handler(old(nextHandler), e.captured.value))
              && subscribers == old(subscribers) + [slot.value]
              && nextHandler == old(nextHandler) + 1)
        && (e.captured.None? ==>
              slot == old(slot) && subscribers == old(subscribers) && nextHandler == old(nextHandler))
      ensures scenes == old(scenes) && files == old(files)
    {
      if filename !in files {
        warnings := warnings + [FileMissing];
        return Returned(false);
      }
      if files[filename].Malformed? {
        return Threw(ParseError);
      }
      var data := files[filename].doc;
      if !data.JObject? {
        warnings := warnings + [InvalidDocument];
        return Returned(false);
      }
      var scenesValue := Lookup(data.fields, ScenesKey);
      if scenesValue.None? {
        warnings := warnings + [NoScenes];
        return Returned(false);
      }
      var count := Elements(scenesValue.value);
      if count.Threw? {
        return Threw(count.fault);
      }
      var names := count.value;
      if |names| == 0 {
        warnings := warnings + [NoScenes];
        return Returned(false);
      }
      var fault := RequestScenes(names);
      if fault.Some? {
        return Threw(fault.value);
      }
      r := ActivateAndSubscribe(data.fields, SceneRequests(names).issued);
    }

    /** The end of `LoadGame`: checks and activates the recorded active scene, then
        creates the handler for the recorded objects, puts it in the slot and
        subscribes it. */
    method ActivateAndSubscribe(fields: seq<(string, Json)>, ghost issued: seq<SceneRequest>) returns (r: Outcome<bool>)
      requires Valid()
      modifies this
      ensures Valid()
      ensures var e := Activation(fields, issued, old(scenes));
        && r == e.result
        && activeScene == (if e.activated.Some? then e.activated.value else old(activeScene))
        && warnings == old(warnings) + (if e.warning.Some? then [e.warning.value] else [])
        && (e.captured.Some? ==>
              && slot == Some(Handler(old(nextHandler), e.captured.value))
              && subscribers == old(subscribers) + [slot.value]
              && nextHandler == old(nextHandler) + 1)
        && (e.captured.None? ==>
              slot == old(slot) && subscribers == old(subscribers) && nextHandler == old(nextHandler))
      ensures scenes == old(scenes) && files == old(files) && requests == old(requests)
    {
      var active := Lookup(fields, ActiveSceneKey);
      if active.None? {
        warnings := warnings + [NoActiveScene];
        return Returned(false);
      }
      var activeName := ToText(active.value);
      if activeName.Threw? {
        return Threw(activeName.fault);
      }
      if !IsLoaded(scenes, activeName.value) {
        warnings := warnings + [ActiveSceneNotLoaded(activeName.value)];
        return Returned(false);
      }
      activeScene := activeName.value;
      var objects := Lookup(fields, ObjectsKey);
      if objects.None? {
        warnings := warnings + [NoObjects];
        return Returned(false);
      }
      var handler := Handler(nextHandler, objects.value);
      SubscribeFreshWellFormed(Events(), handler, nextHandler);
      slot := Some(handler);
      subscribers := subscribers + [handler];
      nextHandler := nextHandler + 1;
      r := Returned(true);
    }

    /** Raising `sceneLoaded` with the identifiers of the saveables alive in the
        loaded scenes. Each subscribed handler restores its objects, then removes a
        delegate from the event and clears the slot: with `RemoveSlotHandler` the
        delegate the slot holds, as the handler is written, with `RemoveSelf`
        itself. An exception stops the remaining handlers. The invocation list is
        fixed when the event is raised. */
    method SceneLoaded(live: seq<Option<string>>, policy: Unsubscribe)
      returns (calls: seq<RestoreCall>, log: seq<HandlerWarning>, fault: Option<Fault>)
      requires Valid()
      modifies this
      ensures Valid()
      ensures Fire(old(Events()), live, policy) == Dispatched(Events(), calls, log, fault)
      ensures scenes == old(scenes) && activeScene == old(activeScene) && requests == old(requests)
      ensures files == old(files) && nextHandler == old(nextHandler) && warnings == old(warnings)
    {
      ghost var start := Events();
      calls, log, fault := RunHandlers(live, policy);
      FiredWellFormed(start, live, policy, nextHandler);
    }

    /** The end of one handler: `sceneLoaded -= …` with the delegate the policy
        names (nothing when the slot is already null), then the slot is cleared. */
    static method Unsubscribed(subs: seq<Handler>, current: Option<Handler>, self: Handler, policy: Unsubscribe)
      returns (subs': seq<Handler>, current': Option<Handler>)
      ensures Registry(subs', current') == AfterRun(Registry(subs, current), self, policy)
    {
      subs' := subs;
      if policy == RemoveSelf {
        subs' := RemoveLast(subs, self);
      } else if current.Some? {
        subs' := RemoveLast(subs, current.value);
      }
      current' := None;
    }

    /** The handlers of the invocation list as it stands when the event is
        raised, one after another. */
    method RunHandlers(live: seq<Option<string>>, policy: Unsubscribe)
      returns (calls: seq<RestoreCall>, log: seq<HandlerWarning>, fault: Option<Fault>)
      modifies this
      ensures Fire(old(Events()), live, policy) == Dispatched(Events(), calls, log, fault)
      ensures scenes == old(scenes) && activeScene == old(activeScene) && requests == old(requests)
      ensures files == old(files) && nextHandler == old(nextHandler) && warnings == old(warnings)
    {
      ghost var start := Events();
      var pending := subscribers;
      var subs, current := subscribers, slot;
      calls, log, fault := [], [], None;
      var j := 0;
      assert pending[0..] == pending;
      while j < |pending|
        invariant 0 <= j <= |pending|
        invariant Pending(Fire(start, live, policy), Registry(subs, current), pending[j..], live, policy, calls, log)
        invariant scenes == old(scenes) && activeScene == old(activeScene) && requests == old(requests)
        invariant files == old(files) && nextHandler == old(nextHandler) && warnings == old(warnings)
      {
        DispatchNext(Fire(start, live, policy), Registry(subs, current), pending, j, live, policy, calls, log);
        var run := RestoreObjects(pending[j].objects, live);
        calls, log := calls + run.calls, log + run.warnings;
        if run.fault.Some? {
          fault := run.fault;
          subscribers, slot := subs, current;
          return;
        }
        subs, current := Unsubscribed(subs, current, pending[j], policy);
        j := j + 1;
      }
      DispatchDone(Fire(start, live, policy), Registry(subs, current), live, policy, calls, log);
      subscribers, slot := subs, current;
    }
  }
}
