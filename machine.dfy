/** The conversation controller as a function of its state. `World` is
    everything the handlers read or write in the two global objects
    (`proposal` and `db_handler`); each handler is a function from the
    world before to the world after and the reply it gives. */
module Machine {
  import opened Wrappers
  import opened Callbacks
  import opened Catalogs
  import opened Screens

  /** Which dict object `proposal.current_dict` refers to. */
  datatype Slot = ContentDict | InfoDict | EngineerDict | EngineersRates

  /** The engineer registry as far as the handlers read it:
      `get_engineers_id_list()` and `get_field_info(id, 'N')`. */
  datatype Registry = Registry(ids: seq<nat>, name: nat -> string)

  datatype World = World(
    // the four dict objects
    dicts: map<Slot, Catalog>,
    // db_handler's state
    engineersInProposal: seq<nat>,
    // proposal's cursor
    currentTemplate: string,
    currentDict: Slot,
    iterKeys: seq<string>,   // the keys the iterator runs over, fixed at reset_iter
    iterPos: nat,            // how many of them it has handed out
    currentTitleId: string,
    editAll: bool,
    addRate: bool)

  /** Every dict the handlers touch is a well-formed template. */
  predicate WellFormed(w: World) {
    forall s :: s in w.dicts ==> Catalogs.Valid(w.dicts[s])
  }

  /** The dict object a slot names. */
  function Dict(w: World, s: Slot): Catalog {
    if s in w.dicts then w.dicts[s] else EMPTY
  }

  /** The world with the dict object a slot names replaced. */
  function WithDict(w: World, s: Slot, c: Catalog): World {
    w.(dicts := w.dicts[s := c])
  }

  /** Reading back a replaced dict gives it; the other dicts are untouched. */
  lemma DictWithDict(w: World, s: Slot, c: Catalog, s': Slot)
    ensures Dict(WithDict(w, s, c), s') == if s' == s then c else Dict(w, s')
  {
  }

  /** Every dict of a well-formed world is well formed, and replacing one
      by a well-formed dict keeps the world well formed. */
  lemma WellFormedDicts(w: World, s: Slot, c: Catalog)
    requires WellFormed(w)
    ensures Catalogs.Valid(Dict(w, s))
    ensures Catalogs.Valid(c) ==> WellFormed(WithDict(w, s, c))
  {
    forall s' {
      DictWithDict(w, s, c, s');
    }
  }

  /** The `templates` dict: template id to the dict object it fills. */
  function Templates(t: string): Option<Slot> {
    if t == [CREATE_PROPOSAL] then Some(ContentDict)
    else if t == [ADD_INFO] then Some(InfoDict)
    else if t == [ADD_NEW_ENGINEER] then Some(EngineerDict)
    else if t == [ADD_ENGINEERS_RATE] then Some(EngineersRates)
    else None
  }

  /** The template id under which `templates` holds a dict. */
  function TemplateId(s: Slot): char {
    match s
    case ContentDict => CREATE_PROPOSAL
    case InfoDict => ADD_INFO
    case EngineerDict => ADD_NEW_ENGINEER
    case EngineersRates => ADD_ENGINEERS_RATE
  }

  /** `templates` holds exactly the four template ids, one dict each. */
  lemma TemplatesInverse(t: string, s: Slot)
    ensures Templates(t) == Some(s) <==> t == [TemplateId(s)]
  {
  }

  // ---------------------------------------------------------------------
  // The Proposal primitives the handlers call.

  /** `reset_iter`: a fresh iterator over the keys of current_dict. */
  function ResetIter(w: World): World {
    w.(iterKeys := Dict(w, w.currentDict).keys, iterPos := 0)
  }

  /** `get_next_title_id`: the next key, or None where the iterator raises StopIteration. */
  function NextTitleId(w: World): (World, Option<string>) {
    if w.iterPos < |w.iterKeys| then (w.(iterPos := w.iterPos + 1), Some(w.iterKeys[w.iterPos]))
    else (w, None)
  }

  /** `store_content`: writes the content of current_title_id in current_dict;
      None where that title is not in the dict (KeyError). */
  function StoreContent(w: World, content: string): (r: Option<World>)
    ensures r.Some? <==> w.currentTitleId in Dict(w, w.currentDict).entries
  {
    var d := Dict(w, w.currentDict);
    if w.currentTitleId in d.entries
    then Some(WithDict(w, w.currentDict, SetContent(d, w.currentTitleId, content)))
    else None
  }

  /** `reset_engineer_dict`: empties the contents of the engineer template. */
  function ResetEngineerDict(w: World): World {
    WithDict(w, EngineerDict, Cleared(Dict(w, EngineerDict)))
  }

  // ---------------------------------------------------------------------
  // The handlers.

  /** A handler's effect: the world after it and its reply. */
  datatype Step = Step(w: World, reply: Reply)

  /** `show_title`: prompts for the current title and waits for data. */
  function ShowTitle(w: World): Reply {
    Reply(StoreDataState, [ShowsTitle(w.currentTitleId)])
  }

  /** The overview's two buttons: go on to the info template after the
      proposal template, to engineer selection after any other. */
  function OverviewKeyboard(template: string): Keyboard {
    var next :=
      if template == [CREATE_PROPOSAL] then Button("Add info", InitCallback(ADD_INFO))
      else Button("Choose engineers", [CHOOSE_ENGINEER]);
    [[next, Button("Edit", [CHOOSE_TITLE_TO_EDIT])]]
  }

  /** `overview`: lists the titles of current_dict and offers the next step. */
  function Overview(w: World): Reply {
    Reply(SelectActionState, [ShowsOverview(Dict(w, w.currentDict).keys, OverviewKeyboard(w.currentTemplate))])
  }

  /** `next_title`: prompts for the next title; once the iterator is
      exhausted, a finished engineer template is handed to the db (whose
      failure, `storeFailed`, shows a notice) and emptied, and the overview
      follows. */
  function NextTitle(w: World, storeFailed: bool): Step {
    var (w1, next) := NextTitleId(w);
    match next
    case Some(id) =>
      var w2 := w1.(currentTitleId := id);
      Step(w2, ShowTitle(w2))
    case None =>
      if w.currentTemplate == [ADD_NEW_ENGINEER] then
        var w2 := ResetEngineerDict(w);
        var ov := Overview(w2);
        Step(w2, ov.(screens := (if storeFailed then [ShowsErrorNotice] else []) + ov.screens))
      else Step(w, Overview(w))
  }

  /** `initialize_template`: current_template is set from the callback before
      `templates` is consulted, so an unknown id raises KeyError with
      current_template already changed. */
  function InitializeTemplate(w: World, data: string, storeFailed: bool): Step {
    var template := Detach(data);
    var w1 := w.(currentTemplate := template);
    match Templates(template)
    case None => Step(w1, Raised(KeyError))
    case Some(s) => NextTitle(ResetIter(w1.(currentDict := s)), storeFailed)
  }

  /** `store_data`: stores the message, then either advances (full pass) or
      ends a single-title edit: back to the overview, or to engineer
      selection when a rate was being added. */
  function StoreData(w: World, text: string, reg: Registry, storeFailed: bool): Step {
    match StoreContent(w, text)
    case None => Step(w, Raised(KeyError))
    case Some(w1) =>
      if w1.editAll then NextTitle(w1, storeFailed)
      else
        var w2 := w1.(editAll := true);
        if w2.addRate then
          var w3 := w2.(addRate := false);
          Step(w3, ChooseEngineers(w3, reg))
        else Step(w2, Overview(w2))
  }

  /** The content stored for a photo: the quoted relative path of the
      downloaded file, whose random name is `name`. */
  function PhotoPath(name: string): string {
    "\"../engineers_photo/" + name + ".jpg\""
  }

  /** `store_photo`: stores the photo's path and always moves on to the next
      title, whatever edit_all is. */
  function StorePhoto(w: World, name: string, storeFailed: bool): Step {
    match StoreContent(w, PhotoPath(name))
    case None => Step(w, Raised(KeyError))
    case Some(w1) => NextTitle(w1, storeFailed)
  }

  /** One button per title of `ks`, labelled with the title and carrying its edit callback. */
  function TitleRows(c: Catalog, ks: seq<string>): (r: Keyboard)
    requires forall i :: 0 <= i < |ks| ==> ks[i] in c.entries
    ensures |r| == |ks|
  {
    if ks == [] then []
    else TitleRows(c, ks[..|ks| - 1]) + [[Button(c.entries[ks[|ks| - 1]].title, EditCallback(ks[|ks| - 1]))]]
  }

  /** Adding a title to the list adds its button at the end. */
  lemma TitleRowsSnoc(c: Catalog, ks: seq<string>, k: string)
    requires forall i :: 0 <= i < |ks| ==> ks[i] in c.entries
    requires k in c.entries
    ensures TitleRows(c, ks + [k]) == TitleRows(c, ks) + [[Button(c.entries[k].title, EditCallback(k))]]
  {
    assert (ks + [k])[..|ks|] == ks;
  }

  /** `choose_title_to_edit`: a menu of current_dict's titles and a way back. */
  function ChooseTitleToEdit(w: World): Reply
    requires Catalogs.Valid(Dict(w, w.currentDict))
  {
    var d := Dict(w, w.currentDict);
    Reply(SelectActionState, [ShowsTitleMenu(AddButton("<< Go back", [OVERVIEW], TitleRows(d, d.keys)))])
  }

  /** `add_engineer_to_proposal`: links the engineer whose id is current_title_id
      and opens a rate title for it; None where `int(...)` raises ValueError,
      which happens before anything is changed. */
  function AddEngineerToProposal(w: World, reg: Registry): (r: Option<World>)
    ensures r.Some? <==> ParseInt(w.currentTitleId).Some?
  {
    match ParseInt(w.currentTitleId)
    case None => None
    case Some(n) =>
      var rate := Entry("Current rate for " + reg.name(n), "");
      Some(WithDict(w, EngineersRates, Put(Dict(w, EngineersRates), w.currentTitleId, rate))
             .(engineersInProposal := w.engineersInProposal + [n], addRate := true))
  }

  /** `edit_title`: selects one title for a single edit; an engineer button
      also links the engineer and switches current_dict to the rates dict. */
  function EditTitle(w: World, data: string, reg: Registry): Step {
    var w1 := w.(currentTitleId := Detach(data));
    if ADD_ENGINEERS_RATE in data then
      match AddEngineerToProposal(w1, reg)
      case None => Step(w1, Raised(ValueError))
      case Some(w2) =>
        var w3 := w2.(currentDict := EngineersRates, editAll := false);
        Step(w3, ShowTitle(w3))
    else
      var w3 := w1.(editAll := false);
      Step(w3, ShowTitle(w3))
  }

  /** The registry's engineers not yet in the proposal, in registry order. */
  function Offered(ids: seq<nat>, linked: seq<nat>): seq<nat> {
    if ids == [] then []
    else Offered(ids[..|ids| - 1], linked) + (if ids[|ids| - 1] in linked then [] else [ids[|ids| - 1]])
  }

  /** One button per offered engineer, named after it and carrying its engineer callback. */
  function EngineerRows(reg: Registry, offers: seq<nat>): (r: Keyboard)
    ensures |r| == |offers|
  {
    if offers == [] then []
    else
      var id := offers[|offers| - 1];
      AddButton(reg.name(id), EngineerCallback(id), EngineerRows(reg, offers[..|offers| - 1]))
  }

  /** The next registry id is offered exactly when it is not linked. */
  lemma OfferedStep(ids: seq<nat>, i: nat, linked: seq<nat>)
    requires i < |ids|
    ensures Offered(ids[..i + 1], linked) == Offered(ids[..i], linked) + (if ids[i] in linked then [] else [ids[i]])
  {
    assert ids[..i + 1][..i] == ids[..i];
  }

  /** The buttons for the first `i + 1` registry ids: those for the first
      `i`, and one more when id `i` is not linked. */
  lemma EngineerRowsStep(reg: Registry, ids: seq<nat>, i: nat, linked: seq<nat>)
    requires i < |ids|
    ensures var rows := EngineerRows(reg, Offered(ids[..i], linked));
      EngineerRows(reg, Offered(ids[..i + 1], linked))
        == if ids[i] in linked then rows else AddButton(reg.name(ids[i]), EngineerCallback(ids[i]), rows)
  {
    OfferedStep(ids, i, linked);
    var offers := Offered(ids[..i], linked);
    if ids[i] in linked {
      assert offers + [] == offers;
    } else {
      assert (offers + [ids[i]])[..|offers|] == offers;
    }
  }

  const HELP_ROW: seq<Button> :=
    [Button("Add new engineer", InitCallback(ADD_NEW_ENGINEER)), Button("Continue", [CREATE_PDF])]

  /** `choose_engineers`: a menu of the engineers not yet linked, then
      'Add new engineer' and 'Continue'. */
  function ChooseEngineers(w: World, reg: Registry): Reply {
    Reply(SelectActionState,
          [ShowsEngineerMenu(EngineerRows(reg, Offered(reg.ids, w.engineersInProposal)) + [HELP_ROW])])
  }
}
