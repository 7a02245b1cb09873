/** What the controller promises across several handler calls: the
    forward pass, the single-title edit detour, the rate sub-loop, the
    engineer offer list and the end of a template. */
module Properties {
  import opened Wrappers
  import opened Callbacks
  import opened Catalogs
  import opened Screens
  import opened Machine

  /** Once the iterator is exhausted it stays exhausted. */
  lemma NextTitleIdStaysExhausted(w: World)
    requires NextTitleId(w).1 == None
    ensures NextTitleId(NextTitleId(w).0) == NextTitleId(w)
    ensures NextTitleId(w).0 == w
  {
  }

  /** A template's init button selects that template and its dict, rewinds
      the iterator over it and asks for the next title. */
  lemma InitializeTemplateEnters(w: World, s: Slot, storeFailed: bool)
    ensures InitializeTemplate(w, InitCallback(TemplateId(s)), storeFailed)
         == NextTitle(w.(currentTemplate := [TemplateId(s)], currentDict := s, iterKeys := Dict(w, s).keys, iterPos := 0), storeFailed)
  {
    DetachInit(TemplateId(s));
    TemplatesInverse([TemplateId(s)], s);
  }

  /** Pressing a template's init button points current_template and
      current_dict at that template, rewinds the iterator and asks for the
      template's first title; an empty template goes straight to the overview. */
  lemma InitializeTemplateStarts(w: World, s: Slot, storeFailed: bool)
    ensures var r := InitializeTemplate(w, InitCallback(TemplateId(s)), storeFailed);
      var keys := Dict(w, s).keys;
      && r.w.currentTemplate == [TemplateId(s)]
      && r.w.currentDict == s
      && r.w.iterKeys == keys
      && r.w.editAll == w.editAll && r.w.addRate == w.addRate
      && (|keys| > 0 ==>
            && r.w.iterPos == 1 && r.w.currentTitleId == keys[0]
            && r.reply == Reply(StoreDataState, [ShowsTitle(keys[0])])
            && r.w.dicts == w.dicts)
      && (|keys| == 0 ==> r.reply.Reply? && r.reply.next == SelectActionState)
  {
    InitializeTemplateEnters(w, s, storeFailed);
  }

  /** Any callback whose id is not a template raises KeyError, having
      already overwritten current_template; nothing else changes. */
  lemma InitializeUnknownTemplate(w: World, data: string, storeFailed: bool)
    requires Templates(Detach(data)) == None
    ensures InitializeTemplate(w, data, storeFailed) == Step(w.(currentTemplate := Detach(data)), Raised(KeyError))
  {
  }

  /** At the end of the iterator: an engineer template is handed to the db,
      emptied, and a failed store shows a notice before the overview; every
      other template goes to the overview with nothing changed. */
  lemma NextTitleAtExhaustion(w: World, storeFailed: bool)
    requires w.iterPos >= |w.iterKeys|
    ensures var r := NextTitle(w, storeFailed);
      var engineer := w.currentTemplate == [ADD_NEW_ENGINEER];
      && r.reply == Reply(SelectActionState,
                          (if engineer && storeFailed then [ShowsErrorNotice] else [])
                          + [ShowsOverview(Dict(w, w.currentDict).keys, OverviewKeyboard(w.currentTemplate))])
      && (engineer ==> r.w == WithDict(w, EngineerDict, Cleared(Dict(w, EngineerDict))))
      && (!engineer ==> r.w == w)
  {
  }

  /** Feeds text messages to store_data one after another. */
  function Feed(w: World, texts: seq<string>, reg: Registry, storeFailed: bool): (r: (World, seq<Reply>))
    ensures |r.1| == |texts|
    decreases |texts|
  {
    if texts == [] then (w, [])
    else
      var st := StoreData(w, texts[0], reg, storeFailed);
      var rest := Feed(st.w, texts[1..], reg, storeFailed);
      (rest.0, [st.reply] + rest.1)
  }

  /** Feeding one text is one store_data. */
  lemma FeedOne(w: World, texts: seq<string>, reg: Registry, storeFailed: bool)
    requires |texts| == 1
    ensures var st := StoreData(w, texts[0], reg, storeFailed);
      Feed(w, texts, reg, storeFailed) == (st.w, [st.reply])
  {
    var st := StoreData(w, texts[0], reg, storeFailed);
    assert texts[1..] == [];
    assert Feed(st.w, texts[1..], reg, storeFailed) == (st.w, []);
    assert [st.reply] + [] == [st.reply];
  }

  /** Feeding several texts is one store_data and then feeding the rest. */
  lemma FeedCons(w: World, texts: seq<string>, reg: Registry, storeFailed: bool)
    requires |texts| > 0
    ensures var st := StoreData(w, texts[0], reg, storeFailed);
      var rest := Feed(st.w, texts[1..], reg, storeFailed);
      Feed(w, texts, reg, storeFailed) == (rest.0, [st.reply] + rest.1)
  {
  }

  /** `after` is `before` with the titles from position `i` on filled, in
      order, with `texts`, and everything else as it was. */
  predicate FilledFrom(before: Catalog, after: Catalog, i: nat, texts: seq<string>)
  {
    && after.keys == before.keys
    && i + |texts| == |before.keys|
    && forall j :: 0 <= j < |before.keys| ==>
         && before.keys[j] in before.entries
         && before.keys[j] in after.entries
         && after.entries[before.keys[j]] ==
              if j < i then before.entries[before.keys[j]]
              else Entry(before.entries[before.keys[j]].title, texts[j - i])
  }

  /** Filling title `i` and then the titles after it is filling from `i`. */
  lemma FilledFromStep(d: Catalog, d': Catalog, i: nat, texts: seq<string>)
    requires Catalogs.Valid(d) && i < |d.keys| && |texts| > 0
    requires FilledFrom(SetContent(d, d.keys[i], texts[0]), d', i + 1, texts[1..])
    ensures FilledFrom(d, d', i, texts)
  {
    var d1 := SetContent(d, d.keys[i], texts[0]);
    forall j | 0 <= j < |d.keys|
      ensures d.keys[j] in d.entries
      ensures d.keys[j] in d'.entries
      ensures d'.entries[d.keys[j]] ==
        if j < i then d.entries[d.keys[j]] else Entry(d.entries[d.keys[j]].title, texts[j - i])
    {
      if j > i {
        assert texts[1..][j - (i + 1)] == texts[j - i];
      }
    }
  }

  /** Filling the last title is filling from the last position. */
  lemma FilledFromLast(d: Catalog, i: nat, texts: seq<string>)
    requires Catalogs.Valid(d) && i + 1 == |d.keys| && |texts| == 1
    ensures FilledFrom(d, SetContent(d, d.keys[i], texts[0]), i, texts)
  {
    SetContentValid(d, d.keys[i], texts[0]);
  }

  /** With edit_all set and titles left, store_data stores into the current
      title and asks for the next one. */
  lemma StoreDataAdvances(w: World, text: string, reg: Registry, storeFailed: bool)
    requires w.editAll
    requires w.currentTitleId in Dict(w, w.currentDict).entries
    requires w.iterPos < |w.iterKeys|
    ensures var w' := WithDict(w, w.currentDict, SetContent(Dict(w, w.currentDict), w.currentTitleId, text))
                        .(iterPos := w.iterPos + 1, currentTitleId := w.iterKeys[w.iterPos]);
      StoreData(w, text, reg, storeFailed) == Step(w', ShowTitle(w'))
  {
  }

  /** With edit_all set and no titles left, store_data stores into the
      current title and ends the template (see NextTitleAtExhaustion). */
  lemma StoreDataEnds(w: World, text: string, reg: Registry, storeFailed: bool)
    requires w.editAll
    requires w.currentTitleId in Dict(w, w.currentDict).entries
    requires w.iterPos >= |w.iterKeys|
    ensures StoreData(w, text, reg, storeFailed)
         == NextTitle(WithDict(w, w.currentDict, SetContent(Dict(w, w.currentDict), w.currentTitleId, text)), storeFailed)
  {
  }

  /** The replies of a forward pass from title `i`: the following titles
      one by one, then the overview, preceded by the error notice when an
      engineer could not be stored. */
  predicate PassReplies(rs: seq<Reply>, keys: seq<string>, i: nat, template: string, storeFailed: bool)
    requires i < |keys| && |rs| == |keys| - i
  {
    && (forall j :: 0 <= j < |rs| - 1 ==> rs[j] == Reply(StoreDataState, [ShowsTitle(keys[i + j + 1])]))
    && rs[|rs| - 1] == Reply(SelectActionState,
                             (if template == [ADD_NEW_ENGINEER] && storeFailed then [ShowsErrorNotice] else [])
                             + [ShowsOverview(keys, OverviewKeyboard(template))])
  }

  /** The session after a forward pass: back at edit_all with the iterator
      exhausted on the same template and dict, the last title current,
      links and the add_rate flag untouched. */
  predicate PassEnded(w: World, w': World)
  {
    && w'.editAll && w'.iterKeys == w.iterKeys && w'.iterPos == |w.iterKeys|
    && |w.iterKeys| > 0 && w'.currentTitleId == w.iterKeys[|w.iterKeys| - 1]
    && w'.currentDict == w.currentDict && w'.currentTemplate == w.currentTemplate
    && w'.addRate == w.addRate && w'.engineersInProposal == w.engineersInProposal
  }

  /** The replies and the session a forward pass from title `i` of `w`
      ends in (see PassReplies and PassEnded). */
  predicate PassShape(w: World, i: nat, w': World, rs: seq<Reply>, storeFailed: bool)
    requires i < |w.iterKeys| && |rs| == |w.iterKeys| - i
  {
    PassReplies(rs, w.iterKeys, i, w.currentTemplate, storeFailed) && PassEnded(w, w')
  }

  /** The dicts after a forward pass from title `i` of `w` fed `texts`: an
      engineer template is emptied at the end; any other filled dict holds
      the texts from position `i` on; every other dict stays as it was,
      the engineer dict included unless the engineer template is the one
      being ended. */
  predicate PassDicts(w: World, i: nat, texts: seq<string>, w': World)
  {
    var cur := w.currentDict;
    var engineer := w.currentTemplate == [ADD_NEW_ENGINEER];
    && (engineer ==> Dict(w', EngineerDict) == Cleared(Dict(w, EngineerDict)))
    && (!(engineer && cur == EngineerDict) ==> FilledFrom(Dict(w, cur), Dict(w', cur), i, texts))
    && (forall s :: s != cur && !(engineer && s == EngineerDict) ==> Dict(w', s) == Dict(w, s))
  }

  /** What a forward pass from title `i` of `w`, fed `texts`, ends in: the
      session `w'` and the replies `rs`. */
  predicate PassFrom(w: World, i: nat, texts: seq<string>, w': World, rs: seq<Reply>, storeFailed: bool)
    requires i < |w.iterKeys| && |rs| == |w.iterKeys| - i
  {
    PassShape(w, i, w', rs, storeFailed) && PassDicts(w, i, texts, w')
  }

  /** The world after storing `text` into title `i` and moving the iterator to title `i + 1`. */
  function Advanced(w: World, i: nat, text: string): World
    requires i + 1 < |w.iterKeys| && w.iterKeys[i] in Dict(w, w.currentDict).entries
  {
    WithDict(w, w.currentDict, SetContent(Dict(w, w.currentDict), w.iterKeys[i], text))
      .(iterPos := i + 2, currentTitleId := w.iterKeys[i + 1])
  }

  /** What advancing keeps and changes. */
  lemma AdvancedFields(w: World, i: nat, text: string)
    requires i + 1 < |w.iterKeys| && w.iterKeys[i] in Dict(w, w.currentDict).entries
    ensures var w2 := Advanced(w, i, text);
      && w2.iterKeys == w.iterKeys && w2.currentDict == w.currentDict
      && w2.currentTemplate == w.currentTemplate && w2.addRate == w.addRate
      && w2.engineersInProposal == w.engineersInProposal && w2.iterPos == i + 2
      && w2.currentTitleId == w.iterKeys[i + 1]
      && Dict(w2, w.currentDict) == SetContent(Dict(w, w.currentDict), w.iterKeys[i], text)
      && (forall s :: s != w.currentDict ==> Dict(w2, s) == Dict(w, s))
  {
    var c := SetContent(Dict(w, w.currentDict), w.iterKeys[i], text);
    forall s
      ensures Dict(Advanced(w, i, text), s) == if s == w.currentDict then c else Dict(w, s)
    {
      DictWithDict(w, w.currentDict, c, s);
    }
  }

  /** The inductive step for the replies and the session. */
  lemma StepBackShape(w: World, i: nat, texts: seq<string>, w': World, rs: seq<Reply>, storeFailed: bool)
    requires w.iterKeys == Dict(w, w.currentDict).keys && Catalogs.Valid(Dict(w, w.currentDict))
    requires i + 1 < |w.iterKeys| && |texts| == |w.iterKeys| - i && |rs| == |texts| - 1
    requires PassShape(Advanced(w, i, texts[0]), i + 1, w', rs, storeFailed)
    ensures PassShape(w, i, w', [ShowTitle(Advanced(w, i, texts[0]))] + rs, storeFailed)
  {
    var keys := w.iterKeys;
    var w2 := Advanced(w, i, texts[0]);
    AdvancedFields(w, i, texts[0]);
    var rs' := [ShowTitle(w2)] + rs;
    forall j | 0 <= j < |rs'| - 1
      ensures rs'[j] == Reply(StoreDataState, [ShowsTitle(keys[i + j + 1])])
    {
      if j > 0 {
        assert rs'[j] == rs[j - 1];
      }
    }
  }

  /** The inductive step for the dicts. */
  lemma StepBackDicts(w: World, i: nat, texts: seq<string>, w': World)
    requires w.iterKeys == Dict(w, w.currentDict).keys && Catalogs.Valid(Dict(w, w.currentDict))
    requires i + 1 < |w.iterKeys| && |texts| == |w.iterKeys| - i
    requires PassDicts(Advanced(w, i, texts[0]), i + 1, texts[1..], w')
    ensures PassDicts(w, i, texts, w')
  {
    var cur := w.currentDict;
    var d := Dict(w, cur);
    AdvancedFields(w, i, texts[0]);
    if w.currentTemplate == [ADD_NEW_ENGINEER] && cur == EngineerDict {
      ClearedAfterSetContent(d, w.iterKeys[i], texts[0]);
    } else {
      FilledFromStep(d, Dict(w', cur), i, texts);
    }
  }

  /** The last step for the replies and the session. */
  lemma LastShape(w: World, i: nat, texts: seq<string>, storeFailed: bool)
    requires Catalogs.Valid(Dict(w, w.currentDict)) && w.iterKeys == Dict(w, w.currentDict).keys
    requires i + 1 == |w.iterKeys| && w.iterPos == i + 1 && w.currentTitleId == w.iterKeys[i]
    requires w.editAll && |texts| == 1
    ensures var st := NextTitle(WithDict(w, w.currentDict, SetContent(Dict(w, w.currentDict), w.iterKeys[i], texts[0])), storeFailed);
      PassShape(w, i, st.w, [st.reply], storeFailed)
  {
    var cur := w.currentDict;
    var d1 := SetContent(Dict(w, cur), w.iterKeys[i], texts[0]);
    var w1 := WithDict(w, cur, d1);
    DictWithDict(w, cur, d1, cur);
    NextTitleAtExhaustion(w1, storeFailed);
  }

  /** The last step for the dicts. */
  lemma LastDicts(w: World, i: nat, texts: seq<string>, storeFailed: bool)
    requires Catalogs.Valid(Dict(w, w.currentDict)) && w.iterKeys == Dict(w, w.currentDict).keys
    requires i + 1 == |w.iterKeys| && w.iterPos == i + 1 && w.currentTitleId == w.iterKeys[i]
    requires |texts| == 1
    ensures var st := NextTitle(WithDict(w, w.currentDict, SetContent(Dict(w, w.currentDict), w.iterKeys[i], texts[0])), storeFailed);
      PassDicts(w, i, texts, st.w)
  {
    var cur := w.currentDict;
    var d := Dict(w, cur);
    var d1 := SetContent(d, w.iterKeys[i], texts[0]);
    var w1 := WithDict(w, cur, d1);
    NextTitleAtExhaustion(w1, storeFailed);
    if w.currentTemplate == [ADD_NEW_ENGINEER] {
      if cur == EngineerDict {
        ClearedAfterSetContent(d, w.iterKeys[i], texts[0]);
      } else {
        FilledFromLast(d, i, texts);
      }
    } else {
      FilledFromLast(d, i, texts);
    }
  }

  /** The forward pass: with edit_all set and the iterator on title `i` of
      current_dict, one text per remaining title stores them into those
      titles in order, asks for each following title, and reaches the
      overview exactly once, on the last text, when the iterator runs out
      (see PassFrom). */
  lemma {:induction false} ForwardPass(w: World, i: nat, texts: seq<string>, reg: Registry, storeFailed: bool)
    requires Catalogs.Valid(Dict(w, w.currentDict)) && w.editAll
    requires w.iterKeys == Dict(w, w.currentDict).keys
    requires i < |w.iterKeys| && w.iterPos == i + 1 && w.currentTitleId == w.iterKeys[i]
    requires |texts| == |w.iterKeys| - i
    ensures PassFrom(w, i, texts, Feed(w, texts, reg, storeFailed).0, Feed(w, texts, reg, storeFailed).1, storeFailed)
    decreases |texts|
  {
    var cur := w.currentDict;
    var d := Dict(w, cur);
    var keys := w.iterKeys;
    SetContentValid(d, keys[i], texts[0]);
    if i + 1 < |keys| {
      var w2 := Advanced(w, i, texts[0]);
      StoreDataAdvances(w, texts[0], reg, storeFailed);
      assert StoreData(w, texts[0], reg, storeFailed) == Step(w2, ShowTitle(w2));
      DictWithDict(w, cur, SetContent(d, keys[i], texts[0]), cur);
      ForwardPass(w2, i + 1, texts[1..], reg, storeFailed);
      var rest := Feed(w2, texts[1..], reg, storeFailed);
      StepBackShape(w, i, texts, rest.0, rest.1, storeFailed);
      StepBackDicts(w, i, texts, rest.0);
      FeedCons(w, texts, reg, storeFailed);
    } else {
      StoreDataEnds(w, texts[0], reg, storeFailed);
      LastShape(w, i, texts, storeFailed);
      LastDicts(w, i, texts, storeFailed);
      FeedOne(w, texts, reg, storeFailed);
    }
  }

  /** A whole template from its init button: the first title is asked for,
      then N texts over its N titles fill them in order and end in the
      overview (see ForwardPass). */
  lemma FullPass(w: World, s: Slot, texts: seq<string>, reg: Registry, storeFailed: bool)
    requires Catalogs.Valid(Dict(w, s)) && w.editAll
    requires |Dict(w, s).keys| > 0 && |texts| == |Dict(w, s).keys|
    ensures var init := InitializeTemplate(w, InitCallback(TemplateId(s)), storeFailed);
      var (w', rs) := Feed(init.w, texts, reg, storeFailed);
      var keys := Dict(w, s).keys;
      && init.reply == Reply(StoreDataState, [ShowsTitle(keys[0])])
      && PassReplies(rs, keys, 0, [TemplateId(s)], storeFailed)
      && w'.editAll && w'.currentDict == s
      && (s != EngineerDict ==> FilledFrom(Dict(w, s), Dict(w', s), 0, texts))
      && (s == EngineerDict ==> Dict(w', s) == Cleared(Dict(w, s)))
      && (forall t :: t != s ==> Dict(w', t) == Dict(w, t))
  {
    InitializeTemplateStarts(w, s, storeFailed);
    var init := InitializeTemplate(w, InitCallback(TemplateId(s)), storeFailed);
    ForwardPass(init.w, 0, texts, reg, storeFailed);
    TemplatesInverse([ADD_NEW_ENGINEER], s);
  }

  /** With edit_all cleared, store_data stores exactly one value, sets
      edit_all back and returns to the overview; when add_rate is set it
      clears it and returns to engineer selection instead. The iterator is
      left alone. */
  lemma StoreDataSingleEdit(w: World, text: string, reg: Registry, storeFailed: bool)
    requires !w.editAll
    requires w.currentTitleId in Dict(w, w.currentDict).entries
    ensures var w' := WithDict(w, w.currentDict, SetContent(Dict(w, w.currentDict), w.currentTitleId, text))
                        .(editAll := true, addRate := false);
      && StoreData(w, text, reg, storeFailed).w == w'
      && StoreData(w, text, reg, storeFailed).reply == if w.addRate then ChooseEngineers(w', reg) else Overview(w')
  {
  }

  /** The single-title edit detour: choosing a title from the edit menu and
      sending one text changes that title's content and nothing else, sets
      edit_all back, leaves the iterator where it was, and returns to the
      overview (or to engineer selection when a rate was pending). */
  lemma EditDetour(w: World, title: string, text: string, reg: Registry, storeFailed: bool)
    requires ',' !in title && ADD_ENGINEERS_RATE !in title
    requires title in Dict(w, w.currentDict).entries
    ensures var e := EditTitle(w, EditCallback(title), reg);
      var w1 := w.(currentTitleId := title, editAll := false);
      var w2 := WithDict(w, w.currentDict, SetContent(Dict(w, w.currentDict), title, text))
                  .(currentTitleId := title, editAll := true, addRate := false);
      && e == Step(w1, ShowTitle(w1))
      && StoreData(e.w, text, reg, storeFailed).w == w2
      && StoreData(e.w, text, reg, storeFailed).reply == if w.addRate then ChooseEngineers(w2, reg) else Overview(w2)
  {
    DetachEdit(title);
    EditCallbackTag(title);
    var w1 := w.(currentTitleId := title, editAll := false);
    assert EditTitle(w, EditCallback(title), reg) == Step(w1, ShowTitle(w1));
    StoreDataSingleEdit(w1, text, reg, storeFailed);
  }

  predicate Distinct(xs: seq<nat>) {
    forall i, j :: 0 <= i < j < |xs| ==> xs[i] != xs[j]
  }

  /** An engineer button makes edit_title link that engineer: its id is
      appended to engineers_in_proposal_id, a 'Current rate for' title with
      empty content is put under the id's text in engineers_rates,
      add_rate is set and current_dict switches to engineers_rates. */
  lemma LinkEngineer(w: World, n: nat, reg: Registry)
    ensures var key := Decimal(n);
      var w' := WithDict(w, EngineersRates, Put(Dict(w, EngineersRates), key, Entry("Current rate for " + reg.name(n), "")))
                  .(currentTitleId := key, engineersInProposal := w.engineersInProposal + [n],
                    addRate := true, currentDict := EngineersRates, editAll := false);
      EditTitle(w, EngineerCallback(n), reg) == Step(w', ShowTitle(w'))
  {
    DecodeEngineer(n);
  }

  /** The rate sub-loop: pressing an offered engineer's button links it and
      asks for its rate; the next text stores the rate, clears add_rate and
      returns to engineer selection, which no longer offers that engineer.
      Linking only offered engineers keeps the linked list free of repeats. */
  lemma RateSubLoop(w: World, n: nat, rate: string, reg: Registry, storeFailed: bool)
    requires n in Offered(reg.ids, w.engineersInProposal)
    ensures var e := EditTitle(w, EngineerCallback(n), reg);
      var r := StoreData(e.w, rate, reg, storeFailed);
      var key := Decimal(n);
      && e.reply == Reply(StoreDataState, [ShowsTitle(key)])
      && e.w.addRate && !e.w.editAll && e.w.currentDict == EngineersRates
      && e.w.engineersInProposal == w.engineersInProposal + [n]
      && (Distinct(w.engineersInProposal) ==> Distinct(e.w.engineersInProposal))
      && Dict(r.w, EngineersRates) == Put(Dict(w, EngineersRates), key, Entry("Current rate for " + reg.name(n), rate))
      && r.w.engineersInProposal == e.w.engineersInProposal
      && r.w.editAll && !r.w.addRate
      && r.reply == ChooseEngineers(r.w, reg)
      && n !in Offered(reg.ids, r.w.engineersInProposal)
  {
    LinkEngineer(w, n, reg);
    var e := EditTitle(w, EngineerCallback(n), reg);
    StoreDataSingleEdit(e.w, rate, reg, storeFailed);
    PutThenSetContent(Dict(w, EngineersRates), Decimal(n), Entry("Current rate for " + reg.name(n), ""), rate);
    OfferedMembers(reg.ids, w.engineersInProposal);
    OfferedMembers(reg.ids, w.engineersInProposal + [n]);
  }

  /** store_photo does not look at edit_all: during a single-title edit it
      runs next_title instead of ending the edit, so edit_all stays cleared
      and add_rate stays as it was. With titles left it asks for the next
      one; with the iterator exhausted it returns to the overview, and under
      the engineer template it hands current_dict to the db once more and
      empties the engineer dict. */
  lemma StorePhotoIgnoresEditAll(w: World, name: string, storeFailed: bool)
    requires !w.editAll
    requires w.currentTitleId in Dict(w, w.currentDict).entries
    ensures var cur := w.currentDict;
      var w1 := WithDict(w, cur, SetContent(Dict(w, cur), w.currentTitleId, PhotoPath(name)));
      var r := StorePhoto(w, name, storeFailed);
      && r == NextTitle(w1, storeFailed)
      && !r.w.editAll && r.w.addRate == w.addRate
      && (w.iterPos < |w.iterKeys| ==>
            && r.w.iterPos == w.iterPos + 1
            && r.reply == Reply(StoreDataState, [ShowsTitle(w.iterKeys[w.iterPos])])
            && Dict(r.w, cur).entries[w.currentTitleId].content == PhotoPath(name))
      && (w.iterPos >= |w.iterKeys| ==>
            && r.reply.Reply? && r.reply.next == SelectActionState
            && (w.currentTemplate == [ADD_NEW_ENGINEER] ==>
                  r.w == WithDict(w1, EngineerDict, Cleared(Dict(w1, EngineerDict))))
            && (w.currentTemplate != [ADD_NEW_ENGINEER] ==> r.w == w1))
  {
  }

  /** A photo sent as an engineer's rate, after the engineer template has
      been filled: the photo's path becomes the rate, but edit_all stays
      cleared and add_rate stays set, the (rates) dict is handed to the db
      again, the engineer dict is emptied, and the overview of the rates
      follows instead of engineer selection. */
  lemma PhotoAsRate(w: World, n: nat, name: string, reg: Registry, storeFailed: bool)
    requires w.currentTemplate == [ADD_NEW_ENGINEER]
    requires w.iterPos >= |w.iterKeys|
    ensures var e := EditTitle(w, EngineerCallback(n), reg);
      var r := StorePhoto(e.w, name, storeFailed);
      var rates := Dict(r.w, EngineersRates);
      && Decimal(n) in rates.entries
      && rates.entries[Decimal(n)].content == PhotoPath(name)
      && r.w.addRate && !r.w.editAll
      && r.w.engineersInProposal == w.engineersInProposal + [n]
      && Dict(r.w, EngineerDict) == Cleared(Dict(w, EngineerDict))
      && r.reply == Reply(SelectActionState,
                          (if storeFailed then [ShowsErrorNotice] else [])
                          + [ShowsOverview(rates.keys, OverviewKeyboard([ADD_NEW_ENGINEER]))])
  {
    LinkEngineer(w, n, reg);
    var e := EditTitle(w, EngineerCallback(n), reg);
    StorePhotoIgnoresEditAll(e.w, name, storeFailed);
  }

  /** The offer list holds exactly the registry's engineers that are not linked. */
  lemma {:induction false} OfferedMembers(ids: seq<nat>, linked: seq<nat>)
    ensures forall x :: x in Offered(ids, linked) <==> x in ids && x !in linked
  {
    if ids != [] {
      var init := ids[..|ids| - 1];
      OfferedMembers(init, linked);
      assert ids == init + [ids[|ids| - 1]];
    }
  }

  /** Row `i` of the engineer rows is the button of the `i`-th offered engineer. */
  lemma {:induction false} EngineerRowsAt(reg: Registry, offers: seq<nat>)
    ensures |EngineerRows(reg, offers)| == |offers|
    ensures forall i :: 0 <= i < |offers| ==>
      EngineerRows(reg, offers)[i] == [Button(reg.name(offers[i]), EngineerCallback(offers[i]))]
  {
    if offers != [] {
      EngineerRowsAt(reg, offers[..|offers| - 1]);
    }
  }

  /** Row `i` of the title rows is the button of the `i`-th title. */
  lemma {:induction false} TitleRowsAt(c: Catalog, ks: seq<string>)
    requires forall i :: 0 <= i < |ks| ==> ks[i] in c.entries
    ensures |TitleRows(c, ks)| == |ks|
    ensures forall i :: 0 <= i < |ks| ==>
      TitleRows(c, ks)[i] == [Button(c.entries[ks[i]].title, EditCallback(ks[i]))]
  {
    if ks != [] {
      TitleRowsAt(c, ks[..|ks| - 1]);
    }
  }

  /** The engineer menu: one button per registry engineer not yet linked, in
      registry order, each decoding back to its id and reaching edit_title,
      then the 'Add new engineer' / 'Continue' row. */
  lemma EngineerMenuOffers(w: World, reg: Registry)
    ensures var offers := Offered(reg.ids, w.engineersInProposal);
      var menu := ChooseEngineers(w, reg).screens[0].keyboard;
      && |menu| == |offers| + 1
      && menu[|offers|] == HELP_ROW
      && (forall i :: 0 <= i < |offers| ==>
            && offers[i] !in w.engineersInProposal
            && menu[i] == [Button(reg.name(offers[i]), EngineerCallback(offers[i]))]
            && ParseInt(Detach(menu[i][0].data)) == Some(offers[i])
            && Route(menu[i][0].data) == Some(ToEditTitle))
  {
    var offers := Offered(reg.ids, w.engineersInProposal);
    OfferedMembers(reg.ids, w.engineersInProposal);
    EngineerRowsAt(reg, offers);
    forall i | 0 <= i < |offers|
      ensures ParseInt(Detach(EngineerCallback(offers[i]))) == Some(offers[i])
      ensures Route(EngineerCallback(offers[i])) == Some(ToEditTitle)
    {
      DecodeEngineer(offers[i]);
      RouteButtons(CREATE_PROPOSAL, [], offers[i]);
    }
  }

  /** A registry without repeats gives an offer list without repeats. */
  lemma {:induction false} OfferedDistinct(ids: seq<nat>, linked: seq<nat>)
    requires Distinct(ids)
    ensures Distinct(Offered(ids, linked))
  {
    if ids != [] {
      var init := ids[..|ids| - 1];
      assert Distinct(init);
      OfferedDistinct(init, linked);
      OfferedMembers(init, linked);
    }
  }

  /** The edit menu: one button per title of current_dict, in order, each
      decoding back to its title id and reaching edit_title, then '<< Go back'. */
  lemma TitleMenuOffers(w: World)
    requires Catalogs.Valid(Dict(w, w.currentDict))
    requires forall k :: k in Dict(w, w.currentDict).keys ==> ',' !in k && '\n' !in k
    ensures var keys := Dict(w, w.currentDict).keys;
      var menu := ChooseTitleToEdit(w).screens[0].keyboard;
      && |menu| == |keys| + 1
      && menu[|keys|] == [Button("<< Go back", [OVERVIEW])]
      && (forall i :: 0 <= i < |keys| ==>
            && menu[i] == [Button(Dict(w, w.currentDict).entries[keys[i]].title, EditCallback(keys[i]))]
            && Detach(menu[i][0].data) == keys[i]
            && Route(menu[i][0].data) == Some(ToEditTitle))
  {
    var keys := Dict(w, w.currentDict).keys;
    TitleRowsAt(Dict(w, w.currentDict), keys);
    forall i | 0 <= i < |keys|
      ensures Detach(EditCallback(keys[i])) == keys[i]
      ensures Route(EditCallback(keys[i])) == Some(ToEditTitle)
    {
      DetachEdit(keys[i]);
      RouteButtons(CREATE_PROPOSAL, keys[i], 0);
    }
  }

  /** The overview's first button starts the info template after the
      proposal template and opens engineer selection after any other; its
      second button opens the edit menu. */
  lemma OverviewButtonsRoute(w: World)
    ensures var keyboard := Overview(w).screens[0].keyboard;
      && |keyboard| == 1 && |keyboard[0]| == 2
      && (w.currentTemplate == [CREATE_PROPOSAL] ==>
            && Route(keyboard[0][0].data) == Some(ToInitializeTemplate)
            && Detach(keyboard[0][0].data) == [ADD_INFO])
      && (w.currentTemplate != [CREATE_PROPOSAL] ==> Route(keyboard[0][0].data) == Some(ToChooseEngineers))
      && Route(keyboard[0][1].data) == Some(ToChooseTitleToEdit)
  {
    RouteButtons(ADD_INFO, [], 0);
    DetachInit(ADD_INFO);
  }

  /** The engineer menu's last row starts the engineer template and goes on
      to the PDF. */
  lemma HelpRowRoutes()
    ensures Route(HELP_ROW[0].data) == Some(ToInitializeTemplate)
    ensures Detach(HELP_ROW[0].data) == [ADD_NEW_ENGINEER]
    ensures Templates(Detach(HELP_ROW[0].data)) == Some(EngineerDict)
    ensures Route(HELP_ROW[1].data) == Some(ToGenerateHtml)
  {
    RouteButtons(ADD_NEW_ENGINEER, [], 0);
    DetachInit(ADD_NEW_ENGINEER);
  }

  /** Linking an engineer appends its id, opens its rate title with empty
      content, sets add_rate and touches no other rate entry; an id that is
      not a number changes nothing. */
  lemma AddEngineerEffects(w: World, reg: Registry)
    requires Catalogs.Valid(Dict(w, EngineersRates))
    ensures var r := AddEngineerToProposal(w, reg);
      var rates := Dict(w, EngineersRates);
      && (ParseInt(w.currentTitleId).None? ==> r.None?)
      && (ParseInt(w.currentTitleId).Some? ==>
            var n := ParseInt(w.currentTitleId).value;
            var rates' := Dict(r.value, EngineersRates);
            && r.value.engineersInProposal == w.engineersInProposal + [n]
            && r.value.addRate
            && w.currentTitleId in rates'.entries
            && rates'.entries[w.currentTitleId] == Entry("Current rate for " + reg.name(n), "")
            && (forall k :: k in rates.entries && k != w.currentTitleId ==>
                  k in rates'.entries && rates'.entries[k] == rates.entries[k])
            && Catalogs.Valid(rates')
            && (forall s :: s != EngineersRates ==> Dict(r.value, s) == Dict(w, s))
            && r.value.currentDict == w.currentDict && r.value.currentTitleId == w.currentTitleId
            && r.value.editAll == w.editAll)
  {
    if ParseInt(w.currentTitleId).Some? {
      var n := ParseInt(w.currentTitleId).value;
      var rate := Entry("Current rate for " + reg.name(n), "");
      var rates := Dict(w, EngineersRates);
      PutValid(rates, w.currentTitleId, rate);
      forall s
        ensures Dict(AddEngineerToProposal(w, reg).value, s) == if s == EngineersRates then Put(rates, w.currentTitleId, rate) else Dict(w, s)
      {
        DictWithDict(w, EngineersRates, Put(rates, w.currentTitleId, rate), s);
      }
    }
  }
}
