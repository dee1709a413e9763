# UnityLoadSaveDemo persistence core, in Dafny

This project models the save/load engine of UnityLoadSaveDemo. The engine is made of three parts:

- `SavingService` writes one JSON document per save. The document holds the loaded scenes, the active scene, and a snapshot of every live `ISaveable` whose snapshot is an object, tagged with its `$saveID`.
- Loading reads the document back and validates it. It requests the scenes, makes the recorded active scene active, and subscribes a one-shot `sceneLoaded` handler. That handler hands each recorded object to the live object with the same identifier.
- `SaveableBehavior` gives every saveable its identifier. `TransformSaver` snapshots and restores a transform's position, rotation and scale.

LitJson's `JsonData` is the datatype `Json.Json`. Each .NET and LitJson exception the code can hit is modelled as an explicit `Outcome.Threw` value:

- `ContainsKey` on a non-object;
- `Count` or the int indexer on a scalar;
- `ToString` on a null reference (.NET);
- LINQ's `ToDictionary` on a null or repeated key (.NET);
- unparseable file text.

Engine state is held in the class `Saving.SavingService`, whose methods update it in place:

- the scene table;
- the active scene;
- the issued scene requests;
- the files;
- the event's invocation list;
- the static handler slot.

The live saveables the engine would find with `FindObjectsOfType` are a parameter of `SaveGame` and of `SceneLoaded`. So is the text of `Guid.NewGuid()` for `OnBeforeSerialize`.

The model follows the code where its behaviour is easy to overlook:

- A save with no saveable writes no `objects` member at all, not an empty list. Loading that file then returns false (`RoundTrip.EmptySaveLoadsNoObjects`).
- A failed load is not free of side effects. Scene requests already issued stay issued. When only `objects` is missing, the active scene has already been switched (`LoadPath.LoadEffectOf`).
- Several malformed inputs throw instead of returning false: a null scene name, a null active-scene name, a null `$saveID`, and unparseable text.
- Scene loading is asynchronous, so `LoadGame` only records its requests. It checks the active scene against the scene table as it stands during the call, which is the same race the code has.

The code has one bug. The handler unsubscribes whatever delegate the static slot holds when it finishes, not itself. Two loads before a scene finishes loading therefore leave the first handler subscribed for good (see Findings). `Saving.SavingService.SceneLoaded` takes the unsubscribe policy as a parameter. `RemoveSlotHandler` is the handler as written, and `RemoveSelf` is the correction, in which each handler removes itself. Both keep the service's invariant. The lemmas about handlers running once hold for the correction only.

## Model

| member | source | states |
|---|---|---|
| Json.Lookup | Assets/Scripts/Utils/SavingService.cs:111-117 | a key is found exactly when it is one of the object's keys, and the value returned is the one stored with it |
| Json.Put | Assets/Scripts/Utils/SavingService.cs:41 | after the indexer set, the key maps to the new value, every other key keeps its value, and the key set grows by that key only |
| Json.ContainsKey | Assets/Scripts/Utils/SavingService.cs:174 | answers for an object and throws for any other node |
| Json.Elements | Assets/Scripts/Utils/SavingService.cs:118 | `Count`/indexer give the items of an array or the member values of an object, and throw for scalars and null |
| Json.ToText | Assets/Scripts/Utils/SavingService.cs:126 | `ToString` throws exactly on null and gives the text of a string node |
| Json.StringValue | Assets/Scripts/Utils/SavingService.cs:41 | the stored identifier reads back with `ToString` as the same text, and a null one throws a null reference |
| Seqs.Indices | Assets/Scripts/Utils/SavingService.cs:36-48 | the positions satisfying a test, each once, in increasing order |
| Scenes.LoadedNames | Assets/Scripts/Utils/SavingService.cs:60-69 | the names of exactly the loaded scenes, in scene-index order |
| Scenes.SceneNamed | Assets/Scripts/Utils/SavingService.cs:141 | `GetSceneByName` gives a scene of that name, and none only when no scene has it |
| Scenes.LoadedSceneIsRecorded | Assets/Scripts/Utils/SavingService.cs:60-73 | a scene that is loaded is among the names a save records |
| SaveIdentity.EnsuredID | Assets/Scripts/Utils/SaveableBehavior.cs:24-30 | the identifier is never null afterwards; a stored one is kept and only a null one becomes the fresh GUID |
| SaveIdentity.EnsuredIDIdempotent | Assets/Scripts/Utils/SaveableBehavior.cs:26 | a second assignment keeps the first identifier |
| SaveIdentity.EmptyIDIsKept | Assets/Scripts/Utils/SaveableBehavior.cs:26 | an empty identifier counts as assigned and is not replaced |
| SaveIdentity.SaveableBehavior.constructor | Assets/Scripts/Utils/SaveableBehavior.cs:20-22 | the serialized `_saveID` field starts as stored |
| SaveIdentity.SaveableBehavior.SaveID | Assets/Scripts/Utils/SaveableBehavior.cs:10-13 | the getter returns the stored field |
| SaveIdentity.SaveableBehavior.SetSaveID | Assets/Scripts/Utils/SaveableBehavior.cs:14-17 | the setter replaces the stored field and changes nothing else |
| SaveIdentity.SaveableBehavior.OnBeforeSerialize | Assets/Scripts/Utils/SaveableBehavior.cs:24-30 | the field becomes `EnsuredID` of its old value: non-null, unchanged if it was set |
| SaveIdentity.SaveableBehavior.OnAfterDeserialize | Assets/Scripts/Utils/SaveableBehavior.cs:32-34 | changes nothing |
| SavePath.Tagged | Assets/Scripts/Utils/SavingService.cs:38-42 | a kept snapshot gets `$saveID` set to the saveable's identifier, and all its other members stay as they were |
| SavePath.SavedObjects | Assets/Scripts/Utils/SavingService.cs:35-49 | entry k of `objects` is the tagged snapshot of the k-th saveable whose snapshot is an object, in discovery order |
| SavePath.SceneList | Assets/Scripts/Utils/SavingService.cs:59-69 | `scenes` holds the loaded scene names, as strings, in scene-index order |
| SavePath.Layout | Assets/Scripts/Utils/SavingService.cs:51-73 | the root object holds `objects` only when a list is given, and always `scenes` and `activeScene`, each with its value and no other key |
| SavePath.Document | Assets/Scripts/Utils/SavingService.cs:27-73 | the document's keys are `scenes`, `activeScene`, and `objects` only when there is a saveable; each holds its list or name |
| SavePath.SaveDocument | Assets/Scripts/Utils/SavingService.cs:36-40 | a null snapshot makes the save throw a null reference; otherwise the document is produced |
| SavePath.SavedOrSkipped | Assets/Scripts/Utils/SavingService.cs:39-48 | every saveable is either saved or skipped with a warning |
| SavePath.CollectSnapshots | Assets/Scripts/Utils/SavingService.cs:33-56 | the loop produces exactly `SavedObjects` and the skipped positions, or throws on a null snapshot |
| SavePath.OpenScenes | Assets/Scripts/Utils/SavingService.cs:59-70 | the loop over the scene table produces exactly `SceneList` |
| SavePath.BuildDocument | Assets/Scripts/Utils/SavingService.cs:25-73 | the assembled document equals `SaveDocument`, with the skipped positions reported |
| Transforms.SavedData | Assets/Scripts/Utils/TransformSaver.cs:23-33 | always an object with exactly the three component keys, each holding its component's encoding |
| Transforms.Deserialize | Assets/Scripts/Utils/TransformSaver.cs:18-21 | definition of `DeserializeValue`: a JSON null makes `ToJson` throw (no value), anything else is what the component's decoder makes of it, `None` where `FromJson` throws |
| Transforms.ReadComponent | Assets/Scripts/Utils/TransformSaver.cs:37-50 | an absent key keeps the current value; a present one is decoded |
| Transforms.Restored | Assets/Scripts/Utils/TransformSaver.cs:35-52 | a non-object record changes nothing; each present key that decodes sets its component, in order, and the first read that throws stops the rest and leaves later components unchanged; it completes exactly when all three reads return |
| Transforms.PresentKeySetsComponent | Assets/Scripts/Utils/TransformSaver.cs:37-50 | a present key whose value decodes sets its component to the decoded value, once the reads before it have returned |
| Transforms.NoComponentKeysChangeNothing | Assets/Scripts/Utils/TransformSaver.cs:37-50 | a record without any of the three keys changes nothing |
| Transforms.OtherKeysIgnored | Assets/Scripts/Utils/TransformSaver.cs:35-52 | two records agreeing on the three keys restore identically, whatever else they hold, `$saveID` included |
| Transforms.PositionFromItsOwnKey | Assets/Scripts/Utils/TransformSaver.cs:39 | the position depends only on the position entry |
| Transforms.RotationFromItsOwnKey | Assets/Scripts/Utils/TransformSaver.cs:44 | the rotation depends only on the rotation entry, once the position read has returned |
| Transforms.ScaleFromItsOwnKey | Assets/Scripts/Utils/TransformSaver.cs:49 | the scale depends only on the scale entry, once the earlier reads have returned |
| Transforms.RestoreOwnSnapshot | Assets/Scripts/Utils/TransformSaver.cs:12-52 | restoring any transform from a snapshot puts it in the state the snapshot was taken from, given that the conversions are mutual inverses |
| Transforms.RestoreTaggedSnapshot | Assets/Scripts/Utils/TransformSaver.cs:23-52 | the same holds for the snapshot with `$saveID` added by the save path |
| Transforms.Transform.constructor | Assets/Scripts/Utils/TransformSaver.cs:39-49 | the transform starts in the given state |
| Transforms.TransformSaver.constructor | Assets/Scripts/Utils/TransformSaver.cs:4 | a saver ties one identifier holder to one transform |
| Transforms.TransformSaver.AsSaveable | Assets/Scripts/Utils/TransformSaver.cs:23-33 | the saver's snapshot is always an object, so a save never skips it; it carries the saver's identifier |
| Transforms.TransformSaver.LoadFromData | Assets/Scripts/Utils/TransformSaver.cs:35-52 | the transform ends in `Restored` of its old state, and `completed` says whether no exception escaped |
| Restore.LiveIDs | Assets/Scripts/Utils/SavingService.cs:166-168 | the dictionary is built exactly when every live identifier is non-null and distinct, and holds exactly those identifiers |
| Restore.SingleLiveID | Assets/Scripts/Utils/SavingService.cs:166-168 | one live object gives a one-entry dictionary |
| Restore.RecordStep | Assets/Scripts/Utils/SavingService.cs:173-189 | a record throws exactly when it is not an object or its `$saveID` is null; it is restored exactly when its identifier is live, and then whole |
| Restore.Process | Assets/Scripts/Utils/SavingService.cs:169-190 | every restore goes to the live object whose identifier the record carries; the loop throws only on a faulty record; otherwise each record is restored or warned about |
| Restore.ProcessInOrder | Assets/Scripts/Utils/SavingService.cs:171-190 | records are handled one after another in list order |
| Restore.FaultStopsProcessing | Assets/Scripts/Utils/SavingService.cs:171-190 | after an exception the remaining records are not looked at |
| Restore.MatchingRecordsRestored | Assets/Scripts/Utils/SavingService.cs:174-179 | every record with a live identifier is passed, whole, to that object |
| Restore.RestoreRun | Assets/Scripts/Utils/SavingService.cs:164-190 | restores go only to live identifiers; a failed dictionary build stops the handler before any record |
| Restore.LiveOrderIrrelevant | Assets/Scripts/Utils/SavingService.cs:166-179 | matching is by identifier: the order the live objects are found in does not matter |
| Restore.RestoreObjects | Assets/Scripts/Utils/SavingService.cs:166-190 | the handler's loop computes exactly `RestoreRun` |
| SceneEvents.RemoveLast | Assets/Scripts/Utils/SavingService.cs:192 | `-=` shortens the invocation list by one when the delegate is subscribed and changes nothing when it is absent |
| SceneEvents.RemoveLastRemovesOne | Assets/Scripts/Utils/SavingService.cs:192 | `-=` takes away exactly one occurrence of the delegate and keeps every other delegate |
| SceneEvents.RemoveLastSkipsTail | Assets/Scripts/Utils/SavingService.cs:192 | delegates subscribed after the last occurrence of the removed one stay, in order |
| SceneEvents.RemoveLastKeepsDistinct | Assets/Scripts/Utils/SavingService.cs:192 | `-=` on a list without repeats leaves a list without repeats, holding only delegates that were subscribed |
| SceneEvents.RemoveLastDeletesLast | Assets/Scripts/Utils/SavingService.cs:192 | when the delegate is subscribed, `-=` deletes the occurrence after which it no longer appears, and the list is the rest in its original order |
| SceneEvents.RemoveFirst | Assets/Scripts/Utils/SavingService.cs:192 | removing a delegate subscribed once, at the head, leaves the rest of the list in order |
| SceneEvents.AfterRun | Assets/Scripts/Utils/SavingService.cs:192-193 | definition of the handler's last two statements: the static slot is cleared; the list loses one delegate when the one removed (the slot's, as written, or the handler itself, corrected) is subscribed, and is unchanged otherwise, including `-= null` |
| SceneEvents.Fire | Assets/Scripts/Utils/SavingService.cs:164-197 | definition of raising `sceneLoaded` over the handlers subscribed at that moment: every restore goes to a live object whose identifier matches the record's, and with nothing subscribed nothing happens |
| SceneEvents.Dispatch | Assets/Scripts/Utils/SavingService.cs:164-197 | raising the event only ever restores live objects with matching identifiers |
| SceneEvents.SelfRemovalLeavesSuffix | Assets/Scripts/Utils/SavingService.cs:192-193 | with self-removal, exactly the handlers from the one that threw onwards stay subscribed |
| SceneEvents.CorrectedHandlersRunOnce | Assets/Scripts/Utils/SavingService.cs:192-197 | with self-removal, a handler runs at most once: afterwards nothing is subscribed and a later event restores nothing |
| SceneEvents.SingleLoadRemovesItsHandler | Assets/Scripts/Utils/SavingService.cs:192-197 | as written, a single pending load unsubscribes its own handler and clears the slot |
| SceneEvents.StaleHandlerRunsAgain | Assets/Scripts/Utils/SavingService.cs:192-193 | as written, two pending loads leave the first handler subscribed, and it restores again on the next scene load |
| SceneEvents.ExampleRuns | Assets/Scripts/Utils/SavingService.cs:164-190 | the two handlers of the finding: the first restores its one record to the live object `a`, the second restores nothing |
| SceneEvents.StaleHandlerGoneWhenCorrected | Assets/Scripts/Utils/SavingService.cs:192-193 | with self-removal, the same two loads restore once and leave nothing subscribed |
| SceneEvents.CorrectedRemovals | Assets/Scripts/Utils/SavingService.cs:192 | with self-removal the first handler leaves the second subscribed, and the second then leaves nothing |
| LoadPath.SceneRequests | Assets/Scripts/Utils/SavingService.cs:124-135 | the first listed scene is requested in Single mode, the others Additive, in list order; a null entry stops the loop with a null reference |
| LoadPath.RequestsStopAtFault | Assets/Scripts/Utils/SavingService.cs:124-135 | entries after a null one are never requested |
| LoadPath.Activation | Assets/Scripts/Utils/SavingService.cs:137-199 | after the scene requests, which it keeps: an absent `activeScene` returns false with no handler; the scene made active, or reported as not loaded, is the one `activeScene` names; an unloaded one returns false with no handler; a loaded one is made active, and then a missing `objects` returns false with a warning and no handler, while a present one returns true with no warning and the handler capturing exactly that `objects` value |
| LoadPath.LoadEffectOf | Assets/Scripts/Utils/SavingService.cs:89-199 | the result is true exactly when a handler is captured and false exactly when a warning is logged; missing, non-object or scene-less files (no `scenes`, or an empty one) return false with no request; a null scene name throws after the earlier requests; otherwise the rest is `Activation` of the document; the active scene is set only if it is loaded; a malformed file throws the parse error with no request issued |
| LoadPath.DocumentAccepted | Assets/Scripts/Utils/SavingService.cs:89-199 | a document with a non-empty list of scene names, a loaded `activeScene` and an `objects` member loads: every listed scene requested, that scene made active, `objects` captured, true returned, nothing logged |
| Saving.FiredWellFormed | Assets/Scripts/Utils/SavingService.cs:192-197 | with the handler as written or corrected, raising the event keeps every closure subscribed at most once and the slot empty or holding a subscribed closure |
| Saving.AfterRunWellFormed | Assets/Scripts/Utils/SavingService.cs:192-193 | a handler finishing, as written or corrected, keeps every closure subscribed at most once and clears the slot |
| Saving.DispatchWellFormed | Assets/Scripts/Utils/SavingService.cs:164-197 | running any handlers one after another keeps the registry well formed |
| Saving.SubscribeFreshWellFormed | Assets/Scripts/Utils/SavingService.cs:164-197 | subscribing a newly created closure, and putting it in the slot, keeps every closure subscribed at most once |
| Saving.SavingService.constructor | Assets/Scripts/Utils/SavingService.cs:16-23 | the service starts with no requests, no subscriber and an empty slot |
| Saving.SavingService.SaveGame | Assets/Scripts/Utils/SavingService.cs:25-87 | the file receives `SaveDocument` of the live saveables and the current scenes; a null snapshot throws and writes nothing |
| Saving.SavingService.RequestScenes | Assets/Scripts/Utils/SavingService.cs:124-135 | the requests issued are exactly `SceneRequests` of the listed scenes |
| Saving.SavingService.LoadGame | Assets/Scripts/Utils/SavingService.cs:89-200 | the result, the requests, the active scene and the warning follow `LoadEffectOf`; a new handler is created, put in the slot and subscribed only when true is returned |
| Saving.SavingService.ActivateAndSubscribe | Assets/Scripts/Utils/SavingService.cs:137-199 | the active scene, the warning, the result and the new subscription follow `Activation`, and the service stays valid |
| Saving.SavingService.Unsubscribed | Assets/Scripts/Utils/SavingService.cs:192-193 | the end of one handler gives the registry `AfterRun` describes: the policy's delegate removed, nothing removed when the slot is null, the slot cleared |
| Saving.SavingService.RunHandlers | Assets/Scripts/Utils/SavingService.cs:164-197 | the handlers of the invocation list run as in `Fire` with the given policy; `RemoveSlotHandler` removes the slot's delegate as line 192 does |
| Saving.SavingService.SceneLoaded | Assets/Scripts/Utils/SavingService.cs:164-197 | raising `sceneLoaded` gives `Fire` with the given policy, the code as written or the correction, and keeps the service valid |
| RoundTrip.SavedScenesRequested | Assets/Scripts/Utils/SavingService.cs:59-70 | loading requests the saved scenes back: the first in Single mode, the rest Additive |
| RoundTrip.SaveThenLoad | Assets/Scripts/Utils/SavingService.cs:25-199 | a file saved with saveables whose active scene is still loaded loads with true, captures exactly the saved objects, sets the active scene and requests the scenes again |
| RoundTrip.EmptySaveLoadsNoObjects | Assets/Scripts/Utils/SavingService.cs:33-56 | a save with no saveable has no `objects`, and loading it returns false at that check after requesting the scenes |
| RoundTrip.AllKeptSaved | Assets/Scripts/Utils/SavingService.cs:36-43 | when every snapshot is an object, every saveable is saved in order |
| RoundTrip.AllRecordsMatched | Assets/Scripts/Utils/SavingService.cs:171-190 | records that all carry live identifiers are each restored, in order, with no warning |
| RoundTrip.TaggedCarriesID | Assets/Scripts/Utils/SavingService.cs:41 | the identifier read back from a tagged snapshot is the saveable's own |
| RoundTrip.RestoredByIdentity | Assets/Scripts/Utils/SavingService.cs:36-43 | with the same saveables alive, each saved record reaches the saveable it was taken from |
| RoundTrip.SavedRecordsAreObjects | Assets/Scripts/Utils/SavingService.cs:39-42 | every record the save writes into `objects` is an object |
| RoundTrip.NullIDRecordFaulty | Assets/Scripts/Utils/SavingService.cs:41 | a saveable saved without an identifier gives a record whose `$saveID` is null |
| RoundTrip.NullIDBreaksRestore | Assets/Scripts/Utils/SavingService.cs:176 | a saveable saved without an identifier makes the handler throw a null reference when it reads the record back |
| RoundTrip.FirstFault | Assets/Scripts/Utils/SavingService.cs:176 | among object records, the first null `$saveID` stops the loop with a null reference |
| RoundTrip.ScenarioLoads | Assets/Scripts/Utils/SavingService.cs:89-199 | the one-scene, one-record document loads: `Main` requested in Single mode, made active, the record captured |
| RoundTrip.ScenarioRestores | Assets/Scripts/Utils/SavingService.cs:166-190 | its record reaches the live object `abc` |
| RoundTrip.ScenarioRecordMoves | Assets/Scripts/Utils/TransformSaver.cs:35-52 | restoring the scenario record moves the transform to (1, 2, 3) and completes |
| RoundTrip.ScenarioMovesTransform | Assets/Scripts/Utils/TransformSaver.cs:35-52 | that record moves the transform to (1, 2, 3) and leaves its rotation and scale unchanged |

## Left out

- File paths are not modelled. `Path.Combine(Application.persistentDataPath, …)` and the pretty-printed text form are left out. A file is either a parsed document or text that does not parse, with `JsonMapper.ToObject` throwing on the latter.
- LitJson numbers are not modelled in full: `JNumber` carries integers only. The doubles of a transform record (positions, rotations, scales) sit inside the encodings of `Transforms.Codec`, which the model treats as opaque and never inspects. A parse that yields a null document is folded into the non-object case.
- Repeated keys inside one object are not modelled. `Lookup` returns the first occurrence and `Put` replaces it.
- An exception thrown by a saveable's own `LoadFromData` while the handler runs is not modelled. The handler records the call; `Transforms.TransformSaver.LoadFromData` models what happens inside.
- Scene loading completing is not modelled. The scene table never changes, and the scene-loaded notification is the explicit method `SceneLoaded`. Its `Scene` and `LoadSceneMode` arguments are not modelled, since the handler ignores them.
- `JsonUtility.ToJson`/`FromJson` and float serialisation are not modelled. They are the abstract `Transforms.Codec`, which satisfies the inverse law `Transforms.Lawful` only where a lemma requires it. Equality after a round trip is therefore exact, with no tolerance.
- `Guid.NewGuid()` is not modelled; its text is the `guid` parameter of `OnBeforeSerialize`.
- `Debug.Log`, the warnings of `SaveGame` and `System.GC.Collect` are not modelled. `LoadGame`'s warnings are a log field, the handler's warnings a returned list, and `SaveGame` returns the skipped positions.
- Failures of `File.WriteAllText` and `File.ReadAllText` are not modelled. In the model a save always stores its document, and a stored file can always be read.
- An empty `JsonData` list is not modelled as LitJson has it. When every snapshot is skipped, the code adds nothing to `savedObjects`, so that node never gets a type. The same holds for `openScenes` when no scene is loaded. How LitJson writes and reads back a node without a type is not part of this model, and the model writes an empty array for both.
- `FindObjectsOfType<MonoBehaviour>().OfType<ISaveable>()` is not modelled. The live saveables are a parameter, given in discovery order.

## Findings

| source | as written | input that shows it | evidently intended | confidence | as-written member | corrected member |
|---|---|---|---|---|---|---|
| Assets/Scripts/Utils/SavingService.cs:192-193 | the handler unsubscribes the delegate the static slot holds when it finishes, which after a second `LoadGame` is the newer handler, not itself | two `LoadGame` calls before any scene finishes loading, then two scene-loaded events: the first handler restores its objects on both events | each handler unsubscribes itself and so runs once | not executed | SceneEvents.StaleHandlerRunsAgain | SceneEvents.StaleHandlerGoneWhenCorrected |
