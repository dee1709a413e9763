/** `TransformSaver`: the saveable that records a transform's local position,
    rotation and scale. */
module Transforms {
  import opened Outcomes
  import opened Json
  import opened SaveFormat
  import SaveIdentity
  import SavePath

  const LocalPositionKey: string := "localPosition"
  const LocalRotationKey: string := "localRotation"
  const LocalScaleKey: string := "localScale"

  /** Unity's vector and rotation values; the model never looks inside them. */
  datatype Vector3 = Vector3(x: real, y: real, z: real)
  datatype Quaternion = Quaternion(x: real, y: real, z: real, w: real)

  /** The `JsonUtility` conversion of one value type, as `SerializeValue` and
      `DeserializeValue` use it; `decode` gives `None` where `FromJson` throws. */
  datatype Codec<!T> = Codec(encode: T -> Json, decode: Json -> Option<T>)

  /** The conversions of the value types a transform has. */
  datatype JsonUtility = JsonUtility(vectors: Codec<Vector3>, rotations: Codec<Quaternion>)

  /** `ToJson` of a struct writes an object, and decoding what was encoded gives the
      value back. */
  ghost predicate Lawful(u: JsonUtility)
  {
    && (forall v: Vector3 :: u.vectors.encode(v).JObject? && u.vectors.decode(u.vectors.encode(v)) == Some(v))
    && (forall q: Quaternion :: u.rotations.encode(q).JObject? && u.rotations.decode(u.rotations.encode(q)) == Some(q))
  }

  datatype TransformState = TransformState(position: Vector3, rotation: Quaternion, scale: Vector3)

  /** The `SavedData` getter: a fresh object with exactly the three component keys,
      set in this order; each indexer set on the fresh object appends. */
  function SavedData(t: TransformState, u: JsonUtility): (r: Json)
    ensures r.JObject?
    ensures Keys(r.fields) == {LocalPositionKey, LocalRotationKey, LocalScaleKey}
    ensures Lookup(r.fields, LocalPositionKey) == Some(u.vectors.encode(t.position))
    ensures Lookup(r.fields, LocalRotationKey) == Some(u.rotations.encode(t.rotation))
    ensures Lookup(r.fields, LocalScaleKey) == Some(u.vectors.encode(t.scale))
  {
    assert LocalPositionKey[5] != LocalRotationKey[5];
    assert |LocalScaleKey| != |LocalPositionKey| && |LocalScaleKey| != |LocalRotationKey|;
    var fields := [(LocalPositionKey, u.vectors.encode(t.position)),
                   (LocalRotationKey, u.rotations.encode(t.rotation)),
                   (LocalScaleKey, u.vectors.encode(t.scale))];
    assert fields[1..][1..] == [(LocalScaleKey, u.vectors.encode(t.scale))];
    assert fields[1..][1..][1..] == [];
    assert Keys(fields[1..][1..]) == {LocalScaleKey};
    assert Keys(fields[1..]) == {LocalRotationKey, LocalScaleKey};
    JObject(fields)
  }

  /** `DeserializeValue<T>(value)`: a null value throws on `ToJson`, anything else
      goes to `FromJson`. */
  function Deserialize<T>(value: Json, c: Codec<T>): (r: Option<T>)
    ensures value.JNull? ==> r.None?
    ensures !value.JNull? ==> r == c.decode(value)
  {
    if value.JNull? then None else c.decode(value)
  }

  /** One guarded read of `LoadFromData`: the current value when the key is absent,
      the decoded one when it is present, `None` when decoding throws. */
  function ReadComponent<T>(fields: seq<(string, Json)>, key: string, c: Codec<T>, current: T): (r: Option<T>)
    ensures Lookup(fields, key).None? ==> r == Some(current)
    ensures Lookup(fields, key).Some? ==> r == Deserialize(Lookup(fields, key).value, c)
  {
    match Lookup(fields, key)
    case None => Some(current)
    case Some(v) => Deserialize(v, c)
  }

  /** The transform after `LoadFromData`, and whether it returned normally. */
  datatype Restoration = Restoration(state: TransformState, completed: bool)

  /** `LoadFromData`: position, rotation and scale are read in that order, each only
      if its key is present; an exception stops the rest. A record that is not an
      object makes the first `ContainsKey` throw. */
  function Restored(t: TransformState, data: Json, u: JsonUtility): (r: Restoration)
    ensures !data.JObject? ==> r == Restoration(t, false)
    ensures data.JObject? && Lookup(data.fields, LocalPositionKey).None? ==> r.state.position == t.position
    ensures data.JObject? && Lookup(data.fields, LocalRotationKey).None? ==> r.state.rotation == t.rotation
    ensures data.JObject? && Lookup(data.fields, LocalScaleKey).None? ==> r.state.scale == t.scale
    ensures data.JObject? ==>
      var p := ReadComponent(data.fields, LocalPositionKey, u.vectors, t.position);
      var q := ReadComponent(data.fields, LocalRotationKey, u.rotations, t.rotation);
      var s := ReadComponent(data.fields, LocalScaleKey, u.vectors, t.scale);
      && (r.completed <==> p.Some? && q.Some? && s.Some?)
      && (p.None? ==> r == Restoration(t, false))
      && (p.Some? ==> r.state.position == p.value)
      && (p.Some? && q.Some? ==> r.state.rotation == q.value)
      && (p.Some? && q.None? ==> r == Restoration(t.(position := p.value), false))
      && (p.Some? && q.Some? && s.Some? ==> r.state.scale == s.value)
      && (s.None? ==> r.state.scale == t.scale)
  {
    if !data.JObject? then Restoration(t, false)
    else
      var fields := data.fields;
      var p := ReadComponent(fields, LocalPositionKey, u.vectors, t.position);
      if p.None? then Restoration(t, false)
      else
        var t1 := t.(position := p.value);
        var q := ReadComponent(fields, LocalRotationKey, u.rotations, t.rotation);
        if q.None? then Restoration(t1, false)
        else
          var t2 := t1.(rotation := q.value);
          var s := ReadComponent(fields, LocalScaleKey, u.vectors, t.scale);
          if s.None? then Restoration(t2, false)
          else Restoration(t2.(scale := s.value), true)
  }

  /** A component whose key is present and decodes is set to the decoded value,
      once the reads before it have returned. */
  lemma PresentKeySetsComponent(t: TransformState, data: Json, u: JsonUtility, v: Vector3, q: Quaternion, w: Vector3)
    requires data.JObject?
    ensures Lookup(data.fields, LocalPositionKey).Some? && Deserialize(Lookup(data.fields, LocalPositionKey).value, u.vectors) == Some(v)
      ==> Restored(t, data, u).state.position == v
    ensures ReadComponent(data.fields, LocalPositionKey, u.vectors, t.position).Some?
      && Lookup(data.fields, LocalRotationKey).Some? && Deserialize(Lookup(data.fields, LocalRotationKey).value, u.rotations) == Some(q)
      ==> Restored(t, data, u).state.rotation == q
    ensures ReadComponent(data.fields, LocalPositionKey, u.vectors, t.position).Some?
      && ReadComponent(data.fields, LocalRotationKey, u.rotations, t.rotation).Some?
      && Lookup(data.fields, LocalScaleKey).Some? && Deserialize(Lookup(data.fields, LocalScaleKey).value, u.vectors) == Some(w)
      ==> Restored(t, data, u).state.scale == w
  {
  }

  /** A record with none of the three keys changes nothing. */
  lemma NoComponentKeysChangeNothing(t: TransformState, data: Json, u: JsonUtility)
    requires data.JObject?
    requires LocalPositionKey !in Keys(data.fields)
    requires LocalRotationKey !in Keys(data.fields)
    requires LocalScaleKey !in Keys(data.fields)
    ensures Restored(t, data, u) == Restoration(t, true)
  {
  }

  /** Keys other than the three, `$saveID` among them, are ignored. */
  lemma OtherKeysIgnored(t: TransformState, a: Json, b: Json, u: JsonUtility)
    requires a.JObject? && b.JObject?
    requires Lookup(a.fields, LocalPositionKey) == Lookup(b.fields, LocalPositionKey)
    requires Lookup(a.fields, LocalRotationKey) == Lookup(b.fields, LocalRotationKey)
    requires Lookup(a.fields, LocalScaleKey) == Lookup(b.fields, LocalScaleKey)
    ensures Restored(t, a, u) == Restored(t, b, u)
  {
  }

  /** The position is read only from its own key: the rotation and scale entries
      never affect it. */
  lemma PositionFromItsOwnKey(t: TransformState, a: Json, b: Json, u: JsonUtility)
    requires a.JObject? && b.JObject?
    requires Lookup(a.fields, LocalPositionKey) == Lookup(b.fields, LocalPositionKey)
    ensures Restored(t, a, u).state.position == Restored(t, b, u).state.position
  {
  }

  /** The rotation is read only from its own key, once the position read before it
      has returned in both records. */
  lemma RotationFromItsOwnKey(t: TransformState, a: Json, b: Json, u: JsonUtility)
    requires a.JObject? && b.JObject?
    requires ReadComponent(a.fields, LocalPositionKey, u.vectors, t.position).Some?
    requires ReadComponent(b.fields, LocalPositionKey, u.vectors, t.position).Some?
    requires Lookup(a.fields, LocalRotationKey) == Lookup(b.fields, LocalRotationKey)
    ensures Restored(t, a, u).state.rotation == Restored(t, b, u).state.rotation
  {
  }

  /** The scale is read only from its own key, once the two reads before it have
      returned in both records. */
  lemma ScaleFromItsOwnKey(t: TransformState, a: Json, b: Json, u: JsonUtility)
    requires a.JObject? && b.JObject?
    requires ReadComponent(a.fields, LocalPositionKey, u.vectors, t.position).Some?
    requires ReadComponent(b.fields, LocalPositionKey, u.vectors, t.position).Some?
    requires ReadComponent(a.fields, LocalRotationKey, u.rotations, t.rotation).Some?
    requires ReadComponent(b.fields, LocalRotationKey, u.rotations, t.rotation).Some?
    requires Lookup(a.fields, LocalScaleKey) == Lookup(b.fields, LocalScaleKey)
    ensures Restored(t, a, u).state.scale == Restored(t, b, u).state.scale
  {
  }

  /** Restoring any transform from a snapshot puts it in the state the snapshot was
      taken from, given that the conversions are mutual inverses. */
  lemma RestoreOwnSnapshot(t0: TransformState, t: TransformState, u: JsonUtility)
    requires Lawful(u)
    ensures Restored(t0, SavedData(t, u), u) == Restoration(t, true)
  {
    assert u.vectors.encode(t.position).JObject? && u.vectors.encode(t.scale).JObject?;
    assert u.rotations.encode(t.rotation).JObject?;
  }

  /** The same holds for the snapshot as the save path tags it. */
  lemma RestoreTaggedSnapshot(t0: TransformState, t: TransformState, u: JsonUtility, id: Json)
    requires Lawful(u)
    ensures Restored(t0, JObject(Put(SavedData(t, u).fields, SaveIdKey, id)), u) == Restoration(t, true)
  {
    OtherKeysIgnored(t0, JObject(Put(SavedData(t, u).fields, SaveIdKey, id)), SavedData(t, u), u);
    RestoreOwnSnapshot(t0, t, u);
  }

  /** The transform component the saver reads and writes. */
  class Transform {
    var localPosition: Vector3
    var localRotation: Quaternion
    var localScale: Vector3

    constructor (t: TransformState)
      ensures State() == t
    {
      localPosition, localRotation, localScale := t.position, t.rotation, t.scale;
    }

    function State(): TransformState
      reads this
    {
      TransformState(localPosition, localRotation, localScale)
    }
  }

  class TransformSaver {
    /** The inherited `SaveableBehavior` part, holding `_saveID`. */
    const behaviour: SaveIdentity.SaveableBehavior
    /** The component's `transform`. */
    const transform: Transform

    constructor (behaviour: SaveIdentity.SaveableBehavior, transform: Transform)
      ensures this.behaviour == behaviour && this.transform == transform
    {
      this.behaviour := behaviour;
      this.transform := transform;
    }

    /** The saver as the save path sees it: its snapshot is always an object, so a
        save never skips it. */
    function AsSaveable(u: JsonUtility): (s: SavePath.Saveable)
      reads behaviour, transform
      ensures s.saveID == behaviour.saveID
      ensures s.snapshot.JObject?
      ensures s.snapshot == SavedData(transform.State(), u)
    {
      SavePath.Saveable(behaviour.SaveID(), SavedData(transform.State(), u))
    }

    /** `LoadFromData`: each component is set only if its key is present;
        `completed` is false when an exception escaped. */
    method LoadFromData(data: Json, u: JsonUtility) returns (completed: bool)
      modifies transform
      ensures transform.State() == Restored(old(transform.State()), data, u).state
      ensures completed == Restored(old(transform.State()), data, u).completed
    {
      completed := false;
      if !data.JObject? {
        return;
      }
      var fields := data.fields;
      if LocalPositionKey in Keys(fields) {
        var v := Deserialize(Lookup(fields, LocalPositionKey).value, u.vectors);
        if v.None? {
          return;
        }
        transform.localPosition := v.value;
      }
      if LocalRotationKey in Keys(fields) {
        var v := Deserialize(Lookup(fields, LocalRotationKey).value, u.rotations);
        if v.None? {
          return;
        }
        transform.localRotation := v.value;
      }
      if LocalScaleKey in Keys(fields) {
        var v := Deserialize(Lookup(fields, LocalScaleKey).value, u.vectors);
        if v.None? {
          return;
        }
        transform.localScale := v.value;
      }
      completed := true;
    }
  }
}
