/** The `SceneManager.sceneLoaded` event and the static `LoadObjectsAfterSceneLoad`
    slot: which handlers are subscribed, and what raising the event does. */
module SceneEvents {
  import opened Outcomes
  import opened Json
  import opened SaveFormat
  import opened Restore

  /** One handler delegate. Each `LoadGame` creates a new closure, so delegates are
      told apart by `id`; `objects` is the `objects` value it captured. */
  datatype Handler = Handler(id: nat, objects: Json)

  /** Which delegate a handler removes from the event once its loop is done. */
  datatype Unsubscribe =
    | RemoveSlotHandler  // as written: whatever the static slot holds at that moment
    | RemoveSelf         // corrected: the handler that is running

  /** The event's invocation list, in subscription order, and the static slot. */
  datatype Registry = Registry(subscribers: seq<Handler>, slot: Option<Handler>)

  /** `Delegate.Remove`: drops the last occurrence, and changes nothing when the
      delegate is not subscribed. */
  function RemoveLast<T(==)>(s: seq<T>, x: T): (r: seq<T>)
    ensures x !in s ==> r == s
    ensures x in s ==> |r| == |s| - 1
    decreases |s|
  {
    if s == [] then []
    else if s[|s| - 1] == x then s[..|s| - 1]
    else
      assert x in s[..|s| - 1] <==> x in s by {
        assert s == s[..|s| - 1] + [s[|s| - 1]];
      }
      RemoveLast(s[..|s| - 1], x) + [s[|s| - 1]]
  }

  /** Exactly one occurrence goes, when there is one. */
  lemma {:induction false} RemoveLastRemovesOne<T>(s: seq<T>, x: T)
    ensures multiset(RemoveLast(s, x)) == multiset(s) - multiset{x}
    decreases |s|
  {
    if s != [] {
      var init := s[..|s| - 1];
      assert s == init + [s[|s| - 1]];
      if s[|s| - 1] != x {
        RemoveLastRemovesOne(init, x);
      }
    }
  }

  /** `-=` deletes the last occurrence and keeps every other delegate in order. */
  lemma {:induction false} RemoveLastDeletesLast<T>(s: seq<T>, x: T)
    ensures x in s ==>
      exists k :: 0 <= k < |s| && s[k] == x && x !in s[k + 1..] && RemoveLast(s, x) == s[..k] + s[k + 1..]
    decreases |s|
  {
    if x in s {
      var n := |s| - 1;
      var init := s[..n];
      assert s == init + [s[n]];
      if s[n] == x {
        assert s[..n] + s[n + 1..] == init;
      } else {
        assert x in init;
        RemoveLastDeletesLast(init, x);
        var k :| 0 <= k < |init| && init[k] == x && x !in init[k + 1..] && RemoveLast(init, x) == init[..k] + init[k + 1..];
        assert s[k + 1..] == init[k + 1..] + [s[n]];
        assert s[..k] == init[..k];
        assert RemoveLast(s, x) == s[..k] + s[k + 1..];
        assert s[k] == x;
      }
    }
  }

  /** Removing a delegate from a list without repeats leaves a list without
      repeats, holding only delegates that were subscribed. */
  lemma {:induction false} RemoveLastKeepsDistinct<T>(s: seq<T>, x: T)
    requires Distinct(s)
    ensures Distinct(RemoveLast(s, x))
    ensures forall y :: y in RemoveLast(s, x) ==> y in s
    decreases |s|
  {
    if s != [] {
      var n := |s| - 1;
      var init := s[..n];
      assert s == init + [s[n]];
      assert Distinct(init) by {
        forall i, j | 0 <= i < j < |init| ensures init[i] != init[j] {
          assert init[i] == s[i] && init[j] == s[j];
        }
      }
      if s[n] != x {
        RemoveLastKeepsDistinct(init, x);
        var r0 := RemoveLast(init, x);
        forall i | 0 <= i < |init| ensures init[i] != s[n] {
          assert init[i] == s[i];
        }
        var r := r0 + [s[n]];
        forall i, j | 0 <= i < j < |r| ensures r[i] != r[j] {
          if j < |r0| {
            assert r[i] == r0[i] && r[j] == r0[j];
          } else {
            assert r[i] in r0;
          }
        }
      }
    }
  }

  /** What a handler does after its loop: unsubscribe and clear the slot. */
  function AfterRun(reg: Registry, self: Handler, policy: Unsubscribe): (r: Registry)
    ensures r.slot.None?
    ensures policy.RemoveSelf? ==>
      && (self !in reg.subscribers ==> r.subscribers == reg.subscribers)
      && (self in reg.subscribers ==> |r.subscribers| == |reg.subscribers| - 1)
    ensures policy.RemoveSlotHandler? ==>
      && (reg.slot.None? || reg.slot.value !in reg.subscribers ==> r.subscribers == reg.subscribers)
      && (reg.slot.Some? && reg.slot.value in reg.subscribers ==> |r.subscribers| == |reg.subscribers| - 1)
  {
    match policy
    case RemoveSlotHandler =>
      Registry(if reg.slot.Some? then RemoveLast(reg.subscribers, reg.slot.value) else reg.subscribers, None)
    case RemoveSelf =>
      Registry(RemoveLast(reg.subscribers, self), None)
  }

  /** The outcome of raising the event. */
  datatype Dispatched = Dispatched(registry: Registry, calls: seq<RestoreCall>, warnings: seq<HandlerWarning>, fault: Option<Fault>)

  /** Invokes `pending` in order. The list is fixed when the event is raised, so
      unsubscribing does not stop a handler already in it; an exception stops the
      rest and leaves the handler that threw subscribed. */
  function Dispatch(reg: Registry, pending: seq<Handler>, live: seq<Option<string>>, policy: Unsubscribe): (d: Dispatched)
    ensures forall c :: c in d.calls ==> Some(c.id) in live && RecordID(c.record) == Some(c.id)
    decreases |pending|
  {
    if pending == [] then Dispatched(reg, [], [], None)
    else
      var run := RestoreRun(pending[0].objects, live);
      if run.fault.Some? then Dispatched(reg, run.calls, run.warnings, run.fault)
      else
        var rest := Dispatch(AfterRun(reg, pending[0], policy), pending[1..], live, policy);
        Dispatched(rest.registry, run.calls + rest.calls, run.warnings + rest.warnings, rest.fault)
  }

  /** Raising `sceneLoaded` once, with the identifiers of the live saveables. */
  function Fire(reg: Registry, live: seq<Option<string>>, policy: Unsubscribe): (d: Dispatched)
    ensures forall c :: c in d.calls ==> Some(c.id) in live && RecordID(c.record) == Some(c.id)
    ensures reg.subscribers == [] ==> d == Dispatched(reg, [], [], None)
  {
    Dispatch(reg, reg.subscribers, live, policy)
  }

  /** Delegates after the last occurrence are kept, in order. */
  lemma {:induction false} RemoveLastSkipsTail<T>(p: seq<T>, t: seq<T>, x: T)
    requires x !in t
    ensures RemoveLast(p + t, x) == RemoveLast(p, x) + t
    decreases |t|
  {
    if t == [] {
      assert p + t == p;
    } else {
      var init := t[..|t| - 1];
      assert t[|t| - 1] in t;
      assert x !in init by {
        assert forall y :: y in init ==> y in t;
      }
      assert (p + t)[..|p + t| - 1] == p + init;
      RemoveLastSkipsTail(p, init, x);
      assert init + [t[|t| - 1]] == t;
    }
  }

  /** Removing the only occurrence of the first delegate leaves the others, in order. */
  lemma RemoveFirst<T>(s: seq<T>)
    requires |s| > 0 && s[0] !in s[1..]
    ensures RemoveLast(s, s[0]) == s[1..]
  {
    RemoveLastSkipsTail([s[0]], s[1..], s[0]);
    assert [s[0]] + s[1..] == s;
    assert RemoveLast([s[0]], s[0]) == [];
  }

  /** Corrected handlers: every handler that returns normally leaves the event, so
      what stays subscribed is the handler that threw and those after it. */
  lemma {:induction false} SelfRemovalLeavesSuffix(reg: Registry, live: seq<Option<string>>)
    requires Distinct(reg.subscribers)
    ensures var d := Fire(reg, live, RemoveSelf);
      exists k :: 0 <= k <= |reg.subscribers| && d.registry.subscribers == reg.subscribers[k..]
        && (k == 0 ==> d.registry.slot == reg.slot)
        && (k > 0 ==> d.registry.slot.None?)
        && (d.fault.None? <==> k == |reg.subscribers|)
    decreases |reg.subscribers|
  {
    var subs := reg.subscribers;
    var d := Fire(reg, live, RemoveSelf);
    if subs == [] {
      assert d.registry.subscribers == subs[0..];
    } else {
      var run := RestoreRun(subs[0].objects, live);
      if run.fault.Some? {
        assert d.registry.subscribers == subs[0..];
      } else {
        assert subs[0] !in subs[1..] by {
          forall j | 0 <= j < |subs[1..]| ensures subs[1..][j] != subs[0] {
            assert subs[1..][j] == subs[j + 1];
          }
        }
        RemoveFirst(subs);
        var next := AfterRun(reg, subs[0], RemoveSelf);
        assert next.subscribers == subs[1..];
        assert Distinct(subs[1..]) by {
          forall i, j | 0 <= i < j < |subs[1..]| ensures subs[1..][i] != subs[1..][j] {
            assert subs[1..][i] == subs[i + 1] && subs[1..][j] == subs[j + 1];
          }
        }
        SelfRemovalLeavesSuffix(next, live);
        var k :| 0 <= k <= |subs[1..]| && Fire(next, live, RemoveSelf).registry.subscribers == subs[1..][k..]
          && (k == 0 ==> Fire(next, live, RemoveSelf).registry.slot == next.slot)
          && (k > 0 ==> Fire(next, live, RemoveSelf).registry.slot.None?)
          && (Fire(next, live, RemoveSelf).fault.None? <==> k == |subs[1..]|);
        assert subs[1..][k..] == subs[k + 1..];
      }
    }
  }

  /** Corrected handlers run at most once: after an event that raised no exception
      nothing is subscribed, and raising the event again restores nothing. */
  lemma CorrectedHandlersRunOnce(reg: Registry, live: seq<Option<string>>, later: seq<Option<string>>)
    requires Distinct(reg.subscribers)
    requires Fire(reg, live, RemoveSelf).fault.None?
    ensures Fire(reg, live, RemoveSelf).registry.subscribers == []
    ensures Fire(Fire(reg, live, RemoveSelf).registry, later, RemoveSelf).calls == []
  {
    SelfRemovalLeavesSuffix(reg, live);
  }

  /** As written, a single pending load is handled correctly: its handler is the one
      in the slot, so it removes itself. */
  lemma SingleLoadRemovesItsHandler(h: Handler, live: seq<Option<string>>)
    requires Fire(Registry([h], Some(h)), live, RemoveSlotHandler).fault.None?
    ensures Fire(Registry([h], Some(h)), live, RemoveSlotHandler).registry == Registry([], None)
  {
    assert [h][1..] == [] && [h][..0] == [];
    assert RemoveLast([h], h) == [];
    var reg := Registry([h], Some(h));
    assert AfterRun(reg, h, RemoveSlotHandler) == Registry([], None);
    assert RestoreRun(h.objects, live).fault.None?;
    assert Dispatch(Registry([], None), [], live, RemoveSlotHandler).registry == Registry([], None);
  }

  /** Two loads issued before any scene finishes loading: the first captured one
      record for the live object "a", the second captured none. */
  const ExampleRecord: Json := JObject([(SaveIdKey, JString("a"))])
  const FirstLoad: Handler := Handler(0, JArray([ExampleRecord]))
  const SecondLoad: Handler := Handler(1, JArray([]))
  const TwoLoads: Registry := Registry([FirstLoad, SecondLoad], Some(SecondLoad))

  lemma ExampleRuns()
    ensures RestoreRun(FirstLoad.objects, [Some("a")]) == HandlerRun([RestoreCall("a", ExampleRecord)], [], None)
    ensures RestoreRun(SecondLoad.objects, [Some("a")]) == HandlerRun([], [], None)
  {
    SingleLiveID("a");
    assert RecordStep(ExampleRecord, {"a"}) == Call(RestoreCall("a", ExampleRecord));
    assert [ExampleRecord][..0] == [];
  }

  /** As written, two loads before a scene finishes loading leave the first
      handler subscribed after it has run, and the next scene load runs it again. */
  lemma StaleHandlerRunsAgain()
    ensures Fire(TwoLoads, [Some("a")], RemoveSlotHandler).calls == [RestoreCall("a", ExampleRecord)]
    ensures Fire(TwoLoads, [Some("a")], RemoveSlotHandler).registry.subscribers == [FirstLoad]
    ensures Fire(Fire(TwoLoads, [Some("a")], RemoveSlotHandler).registry, [Some("a")], RemoveSlotHandler).calls
      == [RestoreCall("a", ExampleRecord)]
  {
    var live := [Some("a")];
    ExampleRuns();
    assert RemoveLast([FirstLoad, SecondLoad], SecondLoad) == [FirstLoad] by {
      assert [FirstLoad, SecondLoad][..1] == [FirstLoad];
    }
    var mid := Registry([FirstLoad], None);
    assert AfterRun(TwoLoads, FirstLoad, RemoveSlotHandler) == mid;
    assert [FirstLoad, SecondLoad][1..] == [SecondLoad];
    assert AfterRun(mid, SecondLoad, RemoveSlotHandler) == mid;
    assert Dispatch(mid, [SecondLoad], live, RemoveSlotHandler) == Dispatched(mid, [], [], None) by {
      assert [SecondLoad][1..] == [];
    }
    assert Fire(TwoLoads, live, RemoveSlotHandler) == Dispatched(mid, [RestoreCall("a", ExampleRecord)], [], None);
    assert Dispatch(mid, [FirstLoad], live, RemoveSlotHandler) == Dispatched(mid, [RestoreCall("a", ExampleRecord)], [], None) by {
      assert [FirstLoad][1..] == [];
    }
  }

  lemma CorrectedRemovals()
    ensures RemoveLast([FirstLoad, SecondLoad], FirstLoad) == [SecondLoad]
    ensures RemoveLast([SecondLoad], SecondLoad) == []
  {
    assert [FirstLoad, SecondLoad][..1] == [FirstLoad];
    assert [FirstLoad][..0] == [];
    assert [SecondLoad][..0] == [];
  }

  /** With the correction, the same two loads are each handled once. */
  lemma StaleHandlerGoneWhenCorrected()
    ensures Fire(TwoLoads, [Some("a")], RemoveSelf).calls == [RestoreCall("a", ExampleRecord)]
    ensures Fire(TwoLoads, [Some("a")], RemoveSelf).registry.subscribers == []
    ensures Fire(Fire(TwoLoads, [Some("a")], RemoveSelf).registry, [Some("a")], RemoveSelf).calls == []
  {
    var live := [Some("a")];
    ExampleRuns();
    CorrectedRemovals();
    var mid := Registry([SecondLoad], None);
    var done := Registry([], None);
    assert [FirstLoad, SecondLoad][1..] == [SecondLoad];
    assert [SecondLoad][1..] == [];
    assert Dispatch(mid, [SecondLoad], live, RemoveSelf) == Dispatched(done, [], [], None);
    assert Fire(TwoLoads, live, RemoveSelf) == Dispatched(done, [RestoreCall("a", ExampleRecord)], [], None);
  }
}
