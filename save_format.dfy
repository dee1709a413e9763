/** The layout of a save file: its reserved keys and what reading it can give. */
module SaveFormat {
  import opened Json

  const ActiveSceneKey: string := "activeScene"
  const ScenesKey: string := "scenes"
  const ObjectsKey: string := "objects"
  /** The reserved member that carries an object's identifier in its record. */
  const SaveIdKey: string := "$saveID"

  /** A stored file after `JsonMapper.ToObject` has read it: a document, or text
      that is not JSON. */
  datatype FileContent = Text(doc: Json) | Malformed
}
