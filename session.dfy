/** The two module-level objects the handlers share: `db_handler`, which
    owns the list of linked engineers and the rates dict, and `proposal`,
    which owns the three templates and the cursor. The internals of both
    classes live outside the controller; only the interface the handlers
    use is modelled, each method proved to act on the state as the
    corresponding function of Machine does. */
module Session {
  import opened Wrappers
  import opened Catalogs
  import opened Screens
  import opened Machine

  class DbHandler {
    var engineersInProposal: seq<nat>
    var engineersRates: Catalog

    /** No engineer is linked yet and the rates dict starts empty. */
    constructor ()
      ensures engineersInProposal == [] && engineersRates == EMPTY
    {
      engineersInProposal := [];
      engineersRates := EMPTY;
    }
  }

  class Proposal {
    const db: DbHandler

    var contentDict: Catalog
    var infoDict: Catalog
    var engineerDict: Catalog

    var currentTemplate: string
    var currentDict: Slot
    var iterKeys: seq<string>
    var iterPos: nat
    var currentTitleId: string
    var editAll: bool
    var addRate: bool

    /** The state of both objects as one world. */
    function Snapshot(): World
      reads this, db
    {
      World(map[ContentDict := contentDict, InfoDict := infoDict,
                EngineerDict := engineerDict, EngineersRates := db.engineersRates],
            db.engineersInProposal, currentTemplate, currentDict, iterKeys, iterPos,
            currentTitleId, editAll, addRate)
    }

    /** Every dict is a well-formed template. */
    ghost predicate Valid()
      reads this, db
    {
      WellFormed(Snapshot())
    }

    /** The dict current_dict refers to. */
    function CurrentDict(): Catalog
      reads this, db
    {
      match currentDict
      case ContentDict => contentDict
      case InfoDict => infoDict
      case EngineerDict => engineerDict
      case EngineersRates => db.engineersRates
    }

    /** A session on the three templates: no template chosen yet, the
        iterator empty, in full-pass mode with no rate pending. */
    constructor (db: DbHandler, content: Catalog, info: Catalog, engineer: Catalog)
      requires Catalogs.Valid(content) && Catalogs.Valid(info) && Catalogs.Valid(engineer)
      requires Catalogs.Valid(db.engineersRates)
      ensures this.db == db && Valid()
      ensures contentDict == content && infoDict == info && engineerDict == engineer
      ensures currentTemplate == "" && currentDict == ContentDict
      ensures iterKeys == [] && iterPos == 0 && currentTitleId == ""
      ensures editAll && !addRate
    {
      this.db := db;
      contentDict := content;
      infoDict := info;
      engineerDict := engineer;
      currentTemplate := "";
      currentDict := ContentDict;
      iterKeys := [];
      iterPos := 0;
      currentTitleId := "";
      editAll := true;
      addRate := false;
    }

    /** `reset_iter`. */
    method ResetIter()
      modifies this
      ensures Snapshot() == Machine.ResetIter(old(Snapshot()))
    {
      iterKeys := CurrentDict().keys;
      iterPos := 0;
    }

    /** `get_next_title_id`: None stands for StopIteration. */
    method GetNextTitleId() returns (id: Option<string>)
      modifies this
      ensures (Snapshot(), id) == NextTitleId(old(Snapshot()))
    {
      if iterPos < |iterKeys| {
        id := Some(iterKeys[iterPos]);
        iterPos := iterPos + 1;
      } else {
        id := None;
      }
    }

    /** `store_content`: false stands for the KeyError of a title missing
        from current_dict, which leaves everything as it was. */
    method StoreContent(content: string) returns (stored: bool)
      modifies this, db
      ensures stored == Machine.StoreContent(old(Snapshot()), content).Some?
      ensures stored ==> Snapshot() == Machine.StoreContent(old(Snapshot()), content).value
      ensures !stored ==> Snapshot() == old(Snapshot())
    {
      var d := CurrentDict();
      if currentTitleId !in d.entries {
        return false;
      }
      var d' := SetContent(d, currentTitleId, content);
      stored := true;
      match currentDict {
        case ContentDict => contentDict := d';
        case InfoDict => infoDict := d';
        case EngineerDict => engineerDict := d';
        case EngineersRates => db.engineersRates := d';
      }
      assert Snapshot().dicts == old(Snapshot()).dicts[currentDict := d'];
    }

    /** `reset_engineer_dict`. */
    method ResetEngineerDict()
      modifies this
      ensures Snapshot() == Machine.ResetEngineerDict(old(Snapshot()))
    {
      engineerDict := Cleared(engineerDict);
    }
  }
}
