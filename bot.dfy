/** The handlers of the conversation, acting on the shared `proposal`
    (and, through it, `db_handler`). Each returns its reply; an exception
    the handler lets escape is the reply `Raised`, with every change made
    before it kept. Each handler is proved to do what the function of the
    same name in Machine describes, and to keep the templates well formed. */
module Bot {
  import opened Wrappers
  import opened Callbacks
  import opened Catalogs
  import opened Screens
  import opened Session
  import opened Invariants
  import Machine

  /** `show_title`: asks for the current title. */
  method ShowTitle(p: Proposal) returns (reply: Reply)
    ensures reply == Machine.ShowTitle(p.Snapshot())
  {
    reply := Reply(StoreDataState, [ShowsTitle(p.currentTitleId)]);
  }

  /** `overview`: the titles of current_dict and the next-step buttons. */
  method Overview(p: Proposal) returns (reply: Reply)
    ensures reply.Reply? && reply.next == SelectActionState
    ensures reply == Machine.Overview(p.Snapshot())
  {
    reply := Reply(SelectActionState, [ShowsOverview(p.CurrentDict().keys, Machine.OverviewKeyboard(p.currentTemplate))]);
  }

  /** `next_title`. */
  method NextTitle(p: Proposal, storeFailed: bool) returns (reply: Reply)
    requires p.Valid()
    modifies p, p.db
    ensures Machine.Step(p.Snapshot(), reply) == Machine.NextTitle(old(p.Snapshot()), storeFailed)
    ensures p.Valid()
  {
    ghost var w := p.Snapshot();
    NextTitleKeepsWellFormed(w, storeFailed);
    var id := p.GetNextTitleId();
    match id {
      case Some(t) =>
        p.currentTitleId := t;
        reply := ShowTitle(p);
      case None =>
        if p.currentTemplate == [ADD_NEW_ENGINEER] {
          // store_new_engineer_to_db(current_dict) happens here; storeFailed is its outcome
          p.ResetEngineerDict();
          var overview := Overview(p);
          var notice := if storeFailed then [ShowsErrorNotice] else [];
          reply := overview.(screens := notice + overview.screens);
        } else {
          reply := Overview(p);
        }
    }
  }

  /** `initialize_template`. */
  method InitializeTemplate(p: Proposal, data: string, storeFailed: bool) returns (reply: Reply)
    requires p.Valid()
    modifies p, p.db
    ensures Machine.Step(p.Snapshot(), reply) == Machine.InitializeTemplate(old(p.Snapshot()), data, storeFailed)
    ensures p.Valid()
  {
    ghost var w := p.Snapshot();
    InitializeTemplateKeepsWellFormed(w, data, storeFailed);
    var template := Detach(data);
    p.currentTemplate := template;
    match Machine.Templates(template) {
      case None =>
        return Raised(KeyError);
      case Some(s) =>
        p.currentDict := s;
    }
    p.ResetIter();
    reply := NextTitle(p, storeFailed);
  }

  /** `store_data`. */
  method StoreData(p: Proposal, text: string, reg: Machine.Registry, storeFailed: bool) returns (reply: Reply)
    requires p.Valid()
    modifies p, p.db
    ensures Machine.Step(p.Snapshot(), reply) == Machine.StoreData(old(p.Snapshot()), text, reg, storeFailed)
    ensures p.Valid()
  {
    ghost var w := p.Snapshot();
    StoreDataKeepsWellFormed(w, text, reg, storeFailed);
    StoreContentKeepsWellFormed(w, text);
    var stored := p.StoreContent(text);
    if !stored {
      return Raised(KeyError);
    }
    if p.editAll {
      reply := NextTitle(p, storeFailed);
    } else {
      p.editAll := true;
      if p.addRate {
        p.addRate := false;
        reply := ChooseEngineers(p, reg);
      } else {
        reply := Overview(p);
      }
    }
  }

  /** `store_photo`, from the random name the photo was saved under. */
  method StorePhoto(p: Proposal, name: string, storeFailed: bool) returns (reply: Reply)
    requires p.Valid()
    modifies p, p.db
    ensures Machine.Step(p.Snapshot(), reply) == Machine.StorePhoto(old(p.Snapshot()), name, storeFailed)
    ensures p.Valid()
  {
    ghost var w := p.Snapshot();
    StorePhotoKeepsWellFormed(w, name, storeFailed);
    StoreContentKeepsWellFormed(w, Machine.PhotoPath(name));
    var stored := p.StoreContent(Machine.PhotoPath(name));
    if !stored {
      return Raised(KeyError);
    }
    reply := NextTitle(p, storeFailed);
  }

  /** `add_engineer_to_proposal`: false stands for the ValueError of an id
      that is not a number, raised before anything is changed. */
  method AddEngineerToProposal(p: Proposal, reg: Machine.Registry) returns (linked: bool)
    requires p.Valid()
    modifies p, p.db
    ensures linked == Machine.AddEngineerToProposal(old(p.Snapshot()), reg).Some?
    ensures linked ==> p.Snapshot() == Machine.AddEngineerToProposal(old(p.Snapshot()), reg).value
    ensures !linked ==> p.Snapshot() == old(p.Snapshot())
    ensures p.Valid()
  {
    ghost var w := p.Snapshot();
    AddEngineerKeepsWellFormed(w, reg);
    var engineerId := p.currentTitleId;
    var id := ParseInt(engineerId);
    if id.None? {
      return false;
    }
    p.db.engineersInProposal := p.db.engineersInProposal + [id.value];
    var engineerName := reg.name(id.value);
    p.db.engineersRates := Put(p.db.engineersRates, engineerId, Entry("Current rate for " + engineerName, ""));
    p.addRate := true;
    linked := true;
  }

  /** `edit_title`. */
  method EditTitle(p: Proposal, data: string, reg: Machine.Registry) returns (reply: Reply)
    requires p.Valid()
    modifies p, p.db
    ensures Machine.Step(p.Snapshot(), reply) == Machine.EditTitle(old(p.Snapshot()), data, reg)
    ensures p.Valid()
  {
    ghost var w := p.Snapshot();
    EditTitleKeepsWellFormed(w, data, reg);
    p.currentTitleId := Detach(data);
    if ADD_ENGINEERS_RATE in data {
      var linked := AddEngineerToProposal(p, reg);
      if !linked {
        return Raised(ValueError);
      }
      p.currentDict := Machine.EngineersRates;
    }
    p.editAll := false;
    reply := ShowTitle(p);
  }

  /** The loop of `choose_title_to_edit`: one button per title of `d`, in order. */
  method TitleButtons(d: Catalog) returns (buttons: Keyboard)
    requires Catalogs.Valid(d)
    ensures buttons == Machine.TitleRows(d, d.keys)
  {
    buttons := [];
    var i := 0;
    while i < |d.keys|
      invariant 0 <= i <= |d.keys|
      invariant buttons == Machine.TitleRows(d, d.keys[..i])
    {
      var titleId := d.keys[i];
      Machine.TitleRowsSnoc(d, d.keys[..i], titleId);
      assert d.keys[..i] + [titleId] == d.keys[..i + 1];
      buttons := buttons + [[Button(d.entries[titleId].title, EditCallback(titleId))]];
      i := i + 1;
    }
    assert d.keys[..i] == d.keys;
  }

  /** `choose_title_to_edit`: the title buttons of current_dict, then '<< Go back'. */
  method ChooseTitleToEdit(p: Proposal) returns (reply: Reply)
    requires p.Valid()
    ensures reply == Machine.ChooseTitleToEdit(p.Snapshot())
  {
    Machine.WellFormedDicts(p.Snapshot(), p.currentDict, EMPTY);
    var d := p.CurrentDict();
    assert d == Machine.Dict(p.Snapshot(), p.currentDict);
    var buttons := TitleButtons(d);
    buttons := AddButton("<< Go back", [OVERVIEW], buttons);
    reply := Reply(SelectActionState, [ShowsTitleMenu(buttons)]);
  }

  /** The loop of `choose_engineers`: a button for each of `engineers` not
      in `linked`, in order. */
  method EngineerButtons(reg: Machine.Registry, engineers: seq<nat>, linked: seq<nat>) returns (buttons: Keyboard)
    ensures buttons == Machine.EngineerRows(reg, Machine.Offered(engineers, linked))
  {
    buttons := [];
    var i := 0;
    while i < |engineers|
      invariant 0 <= i <= |engineers|
      invariant buttons == Machine.EngineerRows(reg, Machine.Offered(engineers[..i], linked))
    {
      var engineerId := engineers[i];
      var engineerName := reg.name(engineerId);
      Machine.EngineerRowsStep(reg, engineers, i, linked);
      if engineerId !in linked {
        buttons := AddButton(engineerName, EngineerCallback(engineerId), buttons);
      }
      i := i + 1;
    }
    assert engineers[..i] == engineers;
  }

  /** `choose_engineers`: the buttons of the registry's engineers not linked
      yet, then the help row. */
  method ChooseEngineers(p: Proposal, reg: Machine.Registry) returns (reply: Reply)
    ensures reply == Machine.ChooseEngineers(p.Snapshot(), reg)
  {
    var buttons := EngineerButtons(reg, reg.ids, p.db.engineersInProposal);
    buttons := buttons + [Machine.HELP_ROW];
    reply := Reply(SelectActionState, [ShowsEngineerMenu(buttons)]);
  }
}
