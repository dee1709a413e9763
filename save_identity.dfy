/** `SaveableBehavior`: the base of every saveable component, holding the
    identifier that matches a live object with its record across a save and a load. */
module SaveIdentity {
  import opened Outcomes

  /** The identifier `OnBeforeSerialize` leaves behind: a stored identifier, even an
      empty one, is kept; only a null one is replaced by the fresh GUID text. */
  function EnsuredID(stored: Option<string>, guid: string): (id: Option<string>)
    ensures id.Some?
    ensures stored.Some? ==> id == stored
    ensures stored.None? ==> id == Some(guid)
  {
    match stored
    case None => Some(guid)
    case Some(_) => stored
  }

  /** Assignment happens once: later calls keep the first identifier, whatever
      GUID they would have drawn. */
  lemma EnsuredIDIdempotent(stored: Option<string>, first: string, later: string)
    ensures EnsuredID(EnsuredID(stored, first), later) == EnsuredID(stored, first)
  {
  }

  /** An empty identifier counts as assigned. */
  lemma EmptyIDIsKept(guid: string)
    ensures EnsuredID(Some(""), guid) == Some("")
  {
  }

  class SaveableBehavior {
    /** `_saveID`; `None` is a null string. */
    var saveID: Option<string>

    constructor (stored: Option<string>)
      ensures saveID == stored
    {
      saveID := stored;
    }

    /** The `SaveID` getter returns the stored field. */
    function SaveID(): (id: Option<string>)
      reads this
      ensures id == saveID
    {
      saveID
    }

    /** The `SaveID` setter replaces the stored field and nothing else. */
    method SetSaveID(value: Option<string>)
      modifies this
      ensures saveID == value
    {
      saveID := value;
    }

    /** Assigns a fresh identifier if none is stored. `guid` stands for the text of
        `Guid.NewGuid()`. */
    method OnBeforeSerialize(guid: string)
      modifies this
      ensures saveID == EnsuredID(old(saveID), guid)
      ensures saveID.Some?
      ensures old(saveID).Some? ==> saveID == old(saveID)
    {
      if saveID.None? {
        saveID := Some(guid);
      }
    }

    /** Does nothing. */
    method OnAfterDeserialize()
      ensures unchanged(this)
    {
    }
  }
}
