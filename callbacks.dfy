/** Callback data of the bot's inline buttons: the one-character tags the bot
    uses, the way it builds `'<id>, <tag>'` strings, how handlers take the id
    back out (`detach_id_from_callback`, `int(...)`), and which handler the
    conversation dispatches a string to (the regular-expression patterns of
    the SELECT_ACTION state). */
module Callbacks {
  import opened Wrappers

  // Templates (chr(3) .. chr(6) in the source).
  const CREATE_PROPOSAL: char := 3 as char
  const ADD_INFO: char := 4 as char
  const ADD_NEW_ENGINEER: char := 5 as char
  const ADD_ENGINEERS_RATE: char := 6 as char
  // Fill-process tags (chr(8) .. chr(14) in the source).
  const CHOOSE_TITLE_TO_EDIT: char := 8 as char
  const EDIT_TITLE: char := 9 as char
  const CHOOSE_ENGINEER: char := 10 as char
  const OVERVIEW: char := 11 as char
  const INIT_TEMP: char := 12 as char
  const CREATE_PDF: char := 13 as char
  const TEST: char := 14 as char

  /** `query_data.split(',')[0]`: the text before the first comma, or the
      whole string when it has no comma. */
  function Detach(s: string): (r: string)
    ensures |r| <= |s| && r == s[..|r|]
    ensures ',' !in r
    ensures |r| < |s| ==> s[|r|] == ','
  {
    if s == [] then []
    else if s[0] == ',' then []
    else [s[0]] + Detach(s[1..])
  }

  /** The separator the bot puts between an id and its tag: `f'{id}, {tag}'`. */
  const SEP: string := ", "

  lemma {:induction false} DetachEncoded(id: string, tag: string)
    requires ',' !in id
    ensures Detach(id + SEP + tag) == id
  {
    if id != [] {
      assert (id + SEP + tag)[1..] == id[1..] + SEP + tag;
      DetachEncoded(id[1..], tag);
    }
  }

  // ---------------------------------------------------------------------
  // Decimal rendering of engineer ids (`f'{engineer_id}'`) and `int(...)`.

  predicate IsDigit(c: char) { '0' <= c <= '9' }

  predicate AllDigits(s: string) { forall i :: 0 <= i < |s| ==> IsDigit(s[i]) }

  function DigitChar(d: nat): (c: char)
    requires d < 10
    ensures IsDigit(c)
  {
    ('0' as int + d) as char
  }

  /** `str(n)` for a non-negative Python int. */
  function Decimal(n: nat): (r: string)
    ensures |r| >= 1 && AllDigits(r)
    ensures r[0] == '0' ==> n == 0
  {
    if n < 10 then [DigitChar(n)] else Decimal(n / 10) + [DigitChar(n % 10)]
  }

  /** The value of a string of decimal digits, most significant first. */
  function DigitsValue(s: string): nat
    requires AllDigits(s)
  {
    if s == [] then 0
    else DigitsValue(s[..|s| - 1]) * 10 + (s[|s| - 1] as int - '0' as int)
  }

  /** `int(s)`: a value for a non-empty string of decimal digits (leading
      zeros allowed), `None` where Python raises ValueError. */
  function ParseInt(s: string): (r: Option<nat>)
    ensures r.Some? <==> |s| > 0 && AllDigits(s)
  {
    if |s| > 0 && AllDigits(s) then Some(DigitsValue(s)) else None
  }

  lemma {:induction false} DigitsValueOfDecimal(n: nat)
    ensures DigitsValue(Decimal(n)) == n
  {
    if n >= 10 {
      var d := Decimal(n);
      assert d[..|d| - 1] == Decimal(n / 10);
      DigitsValueOfDecimal(n / 10);
    }
  }

  /** `int(str(n)) == n`: an engineer id survives the trip through a button. */
  lemma ParseDecimal(n: nat)
    ensures ParseInt(Decimal(n)) == Some(n)
  {
    DigitsValueOfDecimal(n);
  }

  /** Two ids render to the same text only when they are equal. */
  lemma DecimalInjective(m: nat, n: nat)
    requires Decimal(m) == Decimal(n)
    ensures m == n
  {
    ParseDecimal(m);
    ParseDecimal(n);
  }

  // ---------------------------------------------------------------------
  // Callback data the bot builds.

  /** `f'{template}, {INIT_TEMP}'` (start, overview, choose_engineers). */
  function InitCallback(template: char): string {
    [template] + SEP + [INIT_TEMP]
  }

  /** `f'{title_id}, {EDIT_TITLE}'` (choose_title_to_edit). */
  function EditCallback(titleId: string): string {
    titleId + SEP + [EDIT_TITLE]
  }

  /** `f'{engineer_id}, {ADD_ENGINEERS_RATE}, {EDIT_TITLE}'` (choose_engineers). */
  function EngineerCallback(id: nat): string {
    Decimal(id) + SEP + [ADD_ENGINEERS_RATE] + SEP + [EDIT_TITLE]
  }

  lemma DecimalHasNoComma(n: nat)
    ensures ',' !in Decimal(n) && '\n' !in Decimal(n)
  {
  }

  /** detach_id_from_callback recovers the template of an init button. */
  lemma DetachInit(template: char)
    requires template != ','
    ensures Detach(InitCallback(template)) == [template]
  {
    DetachEncoded([template], [INIT_TEMP]);
  }

  /** detach_id_from_callback recovers a comma-free title id from its edit button. */
  lemma DetachEdit(titleId: string)
    requires ',' !in titleId
    ensures Detach(EditCallback(titleId)) == titleId
  {
    DetachEncoded(titleId, [EDIT_TITLE]);
  }

  /** An engineer button decodes back to the id it was built from, and
      carries the ADD_ENGINEERS_RATE tag that edit_title tests for. */
  lemma DecodeEngineer(id: nat)
    ensures Detach(EngineerCallback(id)) == Decimal(id)
    ensures ParseInt(Detach(EngineerCallback(id))) == Some(id)
    ensures ADD_ENGINEERS_RATE in EngineerCallback(id)
  {
    DecimalHasNoComma(id);
    var s := EngineerCallback(id);
    assert s == Decimal(id) + SEP + ([ADD_ENGINEERS_RATE] + SEP + [EDIT_TITLE]);
    DetachEncoded(Decimal(id), [ADD_ENGINEERS_RATE] + SEP + [EDIT_TITLE]);
    ParseDecimal(id);
    assert s[|Decimal(id)| + 2] == ADD_ENGINEERS_RATE;
  }

  /** A title id's edit button does not carry ADD_ENGINEERS_RATE unless the id does. */
  lemma EditCallbackTag(titleId: string)
    ensures ADD_ENGINEERS_RATE in EditCallback(titleId) <==> ADD_ENGINEERS_RATE in titleId
  {
    var s := EditCallback(titleId);
    if ADD_ENGINEERS_RATE in s {
      var i :| 0 <= i < |s| && s[i] == ADD_ENGINEERS_RATE;
      assert i < |titleId| && titleId[i] == ADD_ENGINEERS_RATE;
    }
    if ADD_ENGINEERS_RATE in titleId {
      var i :| 0 <= i < |titleId| && titleId[i] == ADD_ENGINEERS_RATE;
      assert s[i] == ADD_ENGINEERS_RATE;
    }
  }

  // ---------------------------------------------------------------------
  // Dispatch of callback data in the SELECT_ACTION state. Each handler is
  // tried in order and the first whose pattern `re.match`es wins; `re.match`
  // anchors at the start, `.` matches anything but a newline and `$` matches
  // at the end or just before a final newline.

  /** Pattern `'.+' + tag + '$'`. */
  predicate MatchesTagAtEnd(s: string, tag: char) {
    || (|s| >= 2 && s[|s| - 1] == tag && '\n' !in s[..|s| - 1])
    || (|s| >= 3 && s[|s| - 2] == tag && s[|s| - 1] == '\n' && '\n' !in s[..|s| - 2])
  }

  /** Pattern `'^' + tag + '$'`. */
  predicate MatchesExactly(s: string, tag: char) {
    s == [tag] || s == [tag, '\n']
  }

  /** Pattern `tag` with no anchor: `re.match` only needs a matching prefix. */
  predicate MatchesPrefix(s: string, tag: char) {
    |s| >= 1 && s[0] == tag
  }

  datatype Target =
    | ToInitializeTemplate
    | ToChooseEngineers
    | ToEditTitle
    | ToTestPdf
    | ToGenerateHtml
    | ToChooseTitleToEdit
    | ToOverview

  /** The handler of the SELECT_ACTION state that a button press reaches, if any. */
  function Route(data: string): Option<Target> {
    if MatchesTagAtEnd(data, INIT_TEMP) then Some(ToInitializeTemplate)
    else if MatchesExactly(data, CHOOSE_ENGINEER) then Some(ToChooseEngineers)
    else if MatchesTagAtEnd(data, EDIT_TITLE) then Some(ToEditTitle)
    else if MatchesPrefix(data, TEST) then Some(ToTestPdf)
    else if MatchesExactly(data, CREATE_PDF) then Some(ToGenerateHtml)
    else if MatchesExactly(data, CHOOSE_TITLE_TO_EDIT) then Some(ToChooseTitleToEdit)
    else if MatchesExactly(data, OVERVIEW) then Some(ToOverview)
    else None
  }

  /** Every button the bot shows reaches the handler it was built for. */
  lemma RouteButtons(template: char, titleId: string, id: nat)
    requires template != '\n'
    requires '\n' !in titleId
    ensures Route(InitCallback(template)) == Some(ToInitializeTemplate)
    ensures Route(EditCallback(titleId)) == Some(ToEditTitle)
    ensures Route(EngineerCallback(id)) == Some(ToEditTitle)
    ensures Route([CHOOSE_ENGINEER]) == Some(ToChooseEngineers)
    ensures Route([TEST]) == Some(ToTestPdf)
    ensures Route([CREATE_PDF]) == Some(ToGenerateHtml)
    ensures Route([CHOOSE_TITLE_TO_EDIT]) == Some(ToChooseTitleToEdit)
    ensures Route([OVERVIEW]) == Some(ToOverview)
  {
    var init := InitCallback(template);
    assert init[..|init| - 1] == [template, ',', ' '];
    var edit := EditCallback(titleId);
    assert edit[..|edit| - 1] == titleId + SEP;
    var eng := EngineerCallback(id);
    DecimalHasNoComma(id);
    assert eng[..|eng| - 1] == Decimal(id) + SEP + [ADD_ENGINEERS_RATE] + SEP;
  }
}
