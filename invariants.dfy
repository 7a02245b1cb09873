/** Every handler keeps the four dicts well-formed templates: keys listed
    once each, in insertion order, exactly the dict's keys. */
module Invariants {
  import opened Wrappers
  import opened Callbacks
  import opened Catalogs
  import opened Machine

  lemma StoreContentKeepsWellFormed(w: World, content: string)
    requires WellFormed(w)
    ensures StoreContent(w, content).Some? ==> WellFormed(StoreContent(w, content).value)
  {
    var d := Dict(w, w.currentDict);
    if w.currentTitleId in d.entries {
      WellFormedDicts(w, w.currentDict, d);
      SetContentValid(d, w.currentTitleId, content);
      WellFormedDicts(w, w.currentDict, SetContent(d, w.currentTitleId, content));
    }
  }

  lemma ResetEngineerDictKeepsWellFormed(w: World)
    requires WellFormed(w)
    ensures WellFormed(ResetEngineerDict(w))
  {
    WellFormedDicts(w, EngineerDict, Dict(w, EngineerDict));
    ClearedValid(Dict(w, EngineerDict));
    WellFormedDicts(w, EngineerDict, Cleared(Dict(w, EngineerDict)));
  }

  lemma NextTitleKeepsWellFormed(w: World, storeFailed: bool)
    requires WellFormed(w)
    ensures WellFormed(NextTitle(w, storeFailed).w)
  {
    ResetEngineerDictKeepsWellFormed(w);
  }

  lemma InitializeTemplateKeepsWellFormed(w: World, data: string, storeFailed: bool)
    requires WellFormed(w)
    ensures WellFormed(InitializeTemplate(w, data, storeFailed).w)
  {
    match Templates(Detach(data))
    case None =>
    case Some(s) =>
      NextTitleKeepsWellFormed(ResetIter(w.(currentTemplate := Detach(data), currentDict := s)), storeFailed);
  }

  lemma StoreDataKeepsWellFormed(w: World, text: string, reg: Registry, storeFailed: bool)
    requires WellFormed(w)
    ensures WellFormed(StoreData(w, text, reg, storeFailed).w)
  {
    StoreContentKeepsWellFormed(w, text);
    if StoreContent(w, text).Some? {
      NextTitleKeepsWellFormed(StoreContent(w, text).value, storeFailed);
    }
  }

  lemma StorePhotoKeepsWellFormed(w: World, name: string, storeFailed: bool)
    requires WellFormed(w)
    ensures WellFormed(StorePhoto(w, name, storeFailed).w)
  {
    StoreContentKeepsWellFormed(w, PhotoPath(name));
    if StoreContent(w, PhotoPath(name)).Some? {
      NextTitleKeepsWellFormed(StoreContent(w, PhotoPath(name)).value, storeFailed);
    }
  }

  lemma AddEngineerKeepsWellFormed(w: World, reg: Registry)
    requires WellFormed(w)
    ensures AddEngineerToProposal(w, reg).Some? ==> WellFormed(AddEngineerToProposal(w, reg).value)
  {
    var rates := Dict(w, EngineersRates);
    if ParseInt(w.currentTitleId).Some? {
      var n := ParseInt(w.currentTitleId).value;
      var rate := Entry("Current rate for " + reg.name(n), "");
      WellFormedDicts(w, EngineersRates, rates);
      PutValid(rates, w.currentTitleId, rate);
      WellFormedDicts(w, EngineersRates, Put(rates, w.currentTitleId, rate));
    }
  }

  lemma EditTitleKeepsWellFormed(w: World, data: string, reg: Registry)
    requires WellFormed(w)
    ensures WellFormed(EditTitle(w, data, reg).w)
  {
    AddEngineerKeepsWellFormed(w.(currentTitleId := Detach(data)), reg);
  }
}
