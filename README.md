# Conversation controller of the HTML-to-PDF proposal bot, in Dafny

The bot fills one of four field templates (the proposal content, the
additional info, a new engineer's card, and the engineers' rates) one title
at a time. It then shows an overview, lets the user edit single titles, and
links engineers from a registry to the proposal, asking for each one's rate.
All of its state lives in two module-level objects, `proposal` and
`db_handler`. This project models the handlers of `telegram_bot/telegram_bot.py`
that read and change that state, and proves what they promise.

Layout, one module per file:

- `callbacks.dfy` (`Callbacks`) covers the callback data of the inline buttons:
  - the one-character tags;
  - the `'<id>, <tag>'` strings the bot builds;
  - `detach_id_from_callback`;
  - `str`/`int` of engineer ids;
  - the regular-expression dispatch of the SELECT_ACTION state (`Route`).
- `catalogs.dfy` (`Catalogs`) is a template: an insertion-ordered dict from
  title id to `[title, content]`. It defines assignment (`Put`), storing a
  content, and emptying all contents.
- `screens.dfy` (`Screens`) holds what a handler shows, which conversation
  state it returns, and `add_button`.
- `machine.dfy` (`Machine`) is the controller as functions on a `World`,
  which holds the state of both objects:
  - the four dict objects, keyed by the `Slot` that names them (the `templates` map);
  - `current_dict` as a `Slot`, so that its aliasing with one of the four dict objects is explicit;
  - the iterator over the keys;
  - `current_title_id`, `edit_all` and `add_rate`;
  - the list of linked engineers.

  Each handler is a function from the world before to the world after and the reply.
- `session.dfy` (`Session`) holds the classes `Proposal` and `DbHandler`,
  whose fields the handlers update in place. Their primitives (`reset_iter`,
  `get_next_title_id`, `store_content`, `reset_engineer_dict`) are methods
  proved against `Machine`.
- `bot.dfy` (`Bot`) holds the handlers as methods on the shared `Proposal`.
  Each is proved to leave the objects as the `Machine` function of the same
  name says and to keep every template well formed. It includes the two
  loops that build the title menu and the engineer menu.
- `invariants.dfy` (`Invariants`) proves that every handler keeps the four
  templates well formed.
- `properties.dfy` (`Properties`) proves behaviour across several handler calls:
  - the forward pass;
  - the single-title edit detour;
  - the rate sub-loop;
  - the engineer offer list and the title menu;
  - the end of a template.

An exception that a handler lets escape (`KeyError` from `templates[...]` or
from storing into a missing title, `ValueError` from `int(...)`) becomes the
reply `Raised`. Every change made before the raise is kept. For example,
`current_template` is already overwritten when `templates[template]` fails.

The model follows the code on two points where a reader might expect
otherwise:

- `initialize_template` never sets `edit_all`. A template started while a
  single-title edit is pending stays in single-edit mode.
- `add_engineer_to_proposal` has no check for an engineer that is already
  linked. The model has none either. `Properties.RateSubLoop` shows that
  linking only engineers from the offer list keeps the list free of repeats.

`store_photo` always runs `next_title`, whatever `edit_all` is. Storing a
text ends a single-title edit: `edit_all` is set again and `add_rate`
cleared. Storing a photo does neither:
- With titles left, the photo asks for the next title.
- With the iterator exhausted, which is the usual state during an edit, it
  returns to the overview with `edit_all` still cleared.
  - Under the engineer template, it also hands `current_dict` to the db
    again and empties the engineer dict.

The model keeps this behaviour. `Properties.StorePhotoIgnoresEditAll` states
it, and `Properties.PhotoAsRate` states it for a photo sent as an engineer's
rate.

## Model

| member | source | states |
|---|---|---|
| Callbacks.Detach | telegram_bot/telegram_bot.py:246-248 | the result is the prefix of the data up to the first comma: comma-free, and followed by a comma unless it is the whole string |
| Callbacks.DetachEncoded | telegram_bot/telegram_bot.py:246-248 | for a comma-free id, `detach_id_from_callback(f'{id}, {tag}')` gives back exactly the id |
| Callbacks.Decimal | telegram_bot/telegram_bot.py:212 | an engineer id is written as a non-empty string of decimal digits with no leading zero |
| Callbacks.ParseInt | telegram_bot/telegram_bot.py:237 | `int(...)` yields a value exactly for non-empty digit strings and raises otherwise |
| Callbacks.DigitsValueOfDecimal | telegram_bot/telegram_bot.py:237 | the digits of a written id evaluate back to the id |
| Callbacks.ParseDecimal | telegram_bot/telegram_bot.py:237 | `int(str(n)) == n` for every engineer id |
| Callbacks.DecimalInjective | telegram_bot/telegram_bot.py:212 | two different ids never produce the same button text |
| Callbacks.DecimalHasNoComma | telegram_bot/telegram_bot.py:212 | a written id contains neither a comma nor a newline, so it survives detaching and routing |
| Callbacks.DetachInit | telegram_bot/telegram_bot.py:70 | an init button (built at :54, :150, :217) decodes to its template id |
| Callbacks.DetachEdit | telegram_bot/telegram_bot.py:191 | an edit button (built at :176) decodes to its comma-free title id |
| Callbacks.DecodeEngineer | telegram_bot/telegram_bot.py:212 | an engineer button decodes to the id's text, `int` of that text is the id, and the data carries ADD_ENGINEERS_RATE |
| Callbacks.EditCallbackTag | telegram_bot/telegram_bot.py:193 | a title's edit button carries ADD_ENGINEERS_RATE if and only if the title id does |
| Callbacks.RouteButtons | telegram_bot/telegram_bot.py:331-352 | with first-match dispatch over the seven patterns, every button the bot builds reaches the handler it was built for |
| Screens.AddButton | telegram_bot/telegram_bot.py:251-255 | the keyboard keeps its rows and gains exactly one single-button row at the end |
| Catalogs.PutValid | telegram_bot/telegram_bot.py:241 | dict assignment keeps the template well formed, holds the new entry, leaves every other entry alone, and appends the key only when it is new |
| Catalogs.SetContentValid | telegram_bot/telegram_bot.py:122 | storing a content keeps titles, keys and order, and changes that one content only |
| Catalogs.ClearedValid | telegram_bot/telegram_bot.py:89 | emptying the engineer template keeps its titles and order and empties every content |
| Catalogs.ClearedIdempotent | telegram_bot/telegram_bot.py:89 | emptying twice is emptying once |
| Catalogs.SetContentLastWins | telegram_bot/telegram_bot.py:122 | of two stores into one title, the last one wins |
| Catalogs.PutThenSetContent | telegram_bot/telegram_bot.py:241 | opening a rate title with empty content and then storing the rate equals opening it with that rate |
| Catalogs.ClearedAfterSetContent | telegram_bot/telegram_bot.py:88-89 | whatever was stored into the engineer template is forgotten once it is emptied |
| Machine.DictWithDict | telegram_bot/telegram_bot.py:38-43 | writing through one dict object changes that object only; the others are untouched |
| Machine.WellFormedDicts | telegram_bot/telegram_bot.py:38-43 | every dict of a well-formed world is a well-formed template, and replacing one by a well-formed template keeps the world well formed |
| Machine.TemplatesInverse | telegram_bot/telegram_bot.py:38-43 | `templates` maps exactly the four template ids, each to its own dict object |
| Machine.StoreContent | telegram_bot/telegram_bot.py:122 | storing succeeds exactly when current_title_id is a key of current_dict (KeyError otherwise) |
| Machine.TitleRows | telegram_bot/telegram_bot.py:174-177 | one row per title |
| Machine.TitleRowsSnoc | telegram_bot/telegram_bot.py:174-177 | each loop iteration appends the button of the next title |
| Machine.AddEngineerToProposal | telegram_bot/telegram_bot.py:233-242 | linking succeeds exactly when current_title_id is a number (ValueError otherwise) |
| Machine.EngineerRows | telegram_bot/telegram_bot.py:208-213 | one row per offered engineer |
| Machine.OfferedStep | telegram_bot/telegram_bot.py:208-213 | each loop iteration offers the next registry id exactly when it is not linked |
| Machine.EngineerRowsStep | telegram_bot/telegram_bot.py:208-213 | each loop iteration adds a button exactly for an unlinked id |
| Machine.Templates | telegram_bot/telegram_bot.py:38-43 | the `templates` dict from template id to dict object; Machine.TemplatesInverse characterises it |
| Machine.ResetIter | telegram_bot/telegram_bot.py:73 | a fresh iterator over current_dict's keys; Session.Proposal.ResetIter and Properties.InitializeTemplateEnters use it |
| Machine.NextTitleId | telegram_bot/telegram_bot.py:82 | the next key or StopIteration; Properties.NextTitleIdStaysExhausted and Session.Proposal.GetNextTitleId characterise it |
| Machine.ResetEngineerDict | telegram_bot/telegram_bot.py:89 | empties the engineer dict object; Catalogs.ClearedValid, Invariants.ResetEngineerDictKeepsWellFormed and Properties.NextTitleAtExhaustion characterise it |
| Machine.ShowTitle | telegram_bot/telegram_bot.py:96-102 | the prompt for current_title_id, then STORE_DATA; Bot.ShowTitle implements it |
| Machine.OverviewKeyboard | telegram_bot/telegram_bot.py:148-160 | the overview's two buttons; Properties.OverviewButtonsRoute characterises them |
| Machine.Overview | telegram_bot/telegram_bot.py:138-166 | current_dict's titles and the next-step buttons, then SELECT_ACTION; Properties.NextTitleAtExhaustion and Properties.OverviewButtonsRoute characterise it |
| Machine.NextTitle | telegram_bot/telegram_bot.py:80-93 | the next_title handler; Properties.NextTitleAtExhaustion, Properties.StoreDataAdvances, Properties.ForwardPass and Invariants.NextTitleKeepsWellFormed characterise it |
| Machine.InitializeTemplate | telegram_bot/telegram_bot.py:67-76 | the initialize_template handler; Properties.InitializeTemplateEnters, InitializeTemplateStarts, InitializeUnknownTemplate and FullPass characterise it |
| Machine.StoreData | telegram_bot/telegram_bot.py:120-133 | the store_data handler; Properties.StoreDataAdvances, StoreDataEnds, StoreDataSingleEdit, ForwardPass, EditDetour and RateSubLoop characterise it |
| Machine.PhotoPath | telegram_bot/telegram_bot.py:110-113 | the quoted relative path stored for a photo saved under a random name |
| Machine.StorePhoto | telegram_bot/telegram_bot.py:105-117 | the store_photo handler; Properties.StorePhotoIgnoresEditAll, Properties.PhotoAsRate and Invariants.StorePhotoKeepsWellFormed characterise it |
| Machine.ChooseTitleToEdit | telegram_bot/telegram_bot.py:169-186 | the choose_title_to_edit menu; Properties.TitleMenuOffers characterises it |
| Machine.EditTitle | telegram_bot/telegram_bot.py:189-198 | the edit_title handler; Properties.LinkEngineer, EditDetour and RateSubLoop characterise it |
| Machine.Offered | telegram_bot/telegram_bot.py:207-213 | the `not in` filter over the registry; Properties.OfferedMembers, Properties.OfferedDistinct and Machine.OfferedStep characterise it |
| Machine.ChooseEngineers | telegram_bot/telegram_bot.py:202-230 | the choose_engineers menu; Properties.EngineerMenuOffers characterises it |
| Callbacks.InitCallback | telegram_bot/telegram_bot.py:54 | the init button data (also built at :150 and :217); Callbacks.DetachInit and Callbacks.RouteButtons characterise it |
| Callbacks.EditCallback | telegram_bot/telegram_bot.py:176 | a title's edit button data; Callbacks.DetachEdit, Callbacks.EditCallbackTag and Callbacks.RouteButtons characterise it |
| Callbacks.EngineerCallback | telegram_bot/telegram_bot.py:212 | an engineer button's data; Callbacks.DecodeEngineer and Callbacks.RouteButtons characterise it |
| Callbacks.Route | telegram_bot/telegram_bot.py:331-352 | first-match dispatch of the SELECT_ACTION patterns; Callbacks.RouteButtons characterises it |
| Catalogs.Put | telegram_bot/telegram_bot.py:241 | dict assignment; Catalogs.PutValid and Catalogs.PutThenSetContent characterise it |
| Catalogs.SetContent | telegram_bot/telegram_bot.py:122 | storing one title's content; Catalogs.SetContentValid and Catalogs.SetContentLastWins characterise it |
| Catalogs.Cleared | telegram_bot/telegram_bot.py:89 | emptying every content; Catalogs.ClearedValid, ClearedIdempotent and ClearedAfterSetContent characterise it |
| Invariants.StoreContentKeepsWellFormed | telegram_bot/telegram_bot.py:122 | store_content keeps every template well formed |
| Invariants.ResetEngineerDictKeepsWellFormed | telegram_bot/telegram_bot.py:89 | reset_engineer_dict keeps every template well formed |
| Invariants.NextTitleKeepsWellFormed | telegram_bot/telegram_bot.py:80-93 | next_title keeps every template well formed |
| Invariants.InitializeTemplateKeepsWellFormed | telegram_bot/telegram_bot.py:67-76 | initialize_template keeps every template well formed |
| Invariants.StoreDataKeepsWellFormed | telegram_bot/telegram_bot.py:120-133 | store_data keeps every template well formed |
| Invariants.StorePhotoKeepsWellFormed | telegram_bot/telegram_bot.py:105-117 | store_photo keeps every template well formed |
| Invariants.AddEngineerKeepsWellFormed | telegram_bot/telegram_bot.py:233-242 | add_engineer_to_proposal keeps every template, the rates dict included, well formed |
| Invariants.EditTitleKeepsWellFormed | telegram_bot/telegram_bot.py:189-198 | edit_title keeps every template well formed |
| Properties.NextTitleIdStaysExhausted | telegram_bot/telegram_bot.py:82-84 | an exhausted iterator changes nothing and stays exhausted |
| Properties.InitializeTemplateEnters | telegram_bot/telegram_bot.py:67-76 | an init button sets current_template and current_dict to the template and its dict, resets the iterator to that dict's keys, and then runs next_title |
| Properties.InitializeTemplateStarts | telegram_bot/telegram_bot.py:67-76 | after an init button the first title of the template is asked for, no dict is changed and edit_all/add_rate are untouched; an empty template goes straight to SELECT_ACTION |
| Properties.InitializeUnknownTemplate | telegram_bot/telegram_bot.py:70-72 | an id that is not a template raises KeyError after overwriting current_template, and nothing else changes |
| Properties.NextTitleAtExhaustion | telegram_bot/telegram_bot.py:84-93 | at exhaustion the engineer template is emptied and a failed db store adds the notice before the overview; any other template goes to the overview with nothing changed |
| Properties.Feed | telegram_bot/telegram_bot.py:120-125 | feeding N texts gives N replies |
| Properties.FeedOne | telegram_bot/telegram_bot.py:120-125 | feeding one text is one store_data |
| Properties.FeedCons | telegram_bot/telegram_bot.py:120-125 | feeding texts is store_data of the first and then feeding the rest |
| Properties.FilledFromStep | telegram_bot/telegram_bot.py:120-125 | storing into title i and then filling from title i+1 is filling from title i |
| Properties.FilledFromLast | telegram_bot/telegram_bot.py:120-125 | storing into the last title is filling from the last position |
| Properties.StoreDataAdvances | telegram_bot/telegram_bot.py:120-125 | with edit_all set and titles left, store_data stores into the current title and asks for the next key |
| Properties.StoreDataEnds | telegram_bot/telegram_bot.py:120-125 | with edit_all set and no titles left, store_data stores and then ends the template as next_title does |
| Properties.AdvancedFields | telegram_bot/telegram_bot.py:120-125 | one step of the pass changes only the current dict's entry, the iterator position and current_title_id |
| Properties.StepBackShape | telegram_bot/telegram_bot.py:80-93 | the inductive step for the replies and the session of the forward pass |
| Properties.StepBackDicts | telegram_bot/telegram_bot.py:80-93 | the inductive step for the dicts of the forward pass |
| Properties.LastShape | telegram_bot/telegram_bot.py:84-93 | the last text of the pass gives the overview (with the notice when due) and ends at edit_all with the iterator exhausted |
| Properties.LastDicts | telegram_bot/telegram_bot.py:84-93 | the last text of the pass fills the last title, or empties an engineer template |
| Properties.ForwardPass | telegram_bot/telegram_bot.py:80-93 | with edit_all set, one text per remaining title asks for each following title in order and reaches the overview exactly once, on the last text; the texts land in those titles in order (an engineer template is emptied instead). Every other dict stays as it was, except that the engineer dict is emptied when current_template is the engineer template |
| Properties.FullPass | telegram_bot/telegram_bot.py:67-93 | from an init button, N texts over an N-title template visit its keys in order, fill them and end in the overview, with the notice only for a failed engineer store; the other three dicts stay as they were |
| Properties.StoreDataSingleEdit | telegram_bot/telegram_bot.py:127-133 | with edit_all cleared, store_data stores exactly one value, sets edit_all back, leaves the iterator alone, and goes to the overview, or clears add_rate and goes to engineer selection |
| Properties.EditDetour | telegram_bot/telegram_bot.py:189-198 | choosing a title from the edit menu and sending a text changes that title only and returns to the overview (or to engineer selection when a rate is pending) |
| Properties.LinkEngineer | telegram_bot/telegram_bot.py:189-198 | an engineer button links that engineer, opens its rate title, sets add_rate, switches current_dict to engineers_rates and clears edit_all |
| Properties.RateSubLoop | telegram_bot/telegram_bot.py:233-242 | an offered engineer's button and one text store its rate, clear add_rate and return to engineer selection, which no longer offers it; the linked list stays free of repeats |
| Properties.StorePhotoIgnoresEditAll | telegram_bot/telegram_bot.py:105-117 | during a single-title edit, store_photo stores the photo path and runs next_title, leaving edit_all cleared and add_rate as it was: with titles left it asks for the next one; with the iterator exhausted it returns to the overview, emptying the engineer dict under the engineer template and changing nothing else otherwise |
| Properties.PhotoAsRate | telegram_bot/telegram_bot.py:105-117 | a photo sent as an engineer's rate after the engineer template was filled becomes the rate, but leaves add_rate set and edit_all cleared, empties the engineer dict and shows the rates overview (with the notice on a failed db store) instead of engineer selection |
| Properties.OfferedMembers | telegram_bot/telegram_bot.py:207-213 | an engineer is offered if and only if it is in the registry and not linked |
| Properties.EngineerRowsAt | telegram_bot/telegram_bot.py:208-213 | row i is the button of the i-th offered engineer |
| Properties.TitleRowsAt | telegram_bot/telegram_bot.py:174-177 | row i is the button of the i-th title |
| Properties.EngineerMenuOffers | telegram_bot/telegram_bot.py:202-230 | the engineer menu holds one button per unlinked registry engineer, in registry order, each decoding to its id and reaching edit_title, and ends with the help row |
| Properties.OfferedDistinct | telegram_bot/telegram_bot.py:208-213 | a registry without repeats gives an offer list without repeats |
| Properties.TitleMenuOffers | telegram_bot/telegram_bot.py:169-186 | the edit menu holds one button per title of current_dict, in order, each decoding to its title id and reaching edit_title, and ends with '<< Go back' |
| Properties.OverviewButtonsRoute | telegram_bot/telegram_bot.py:148-160 | the overview's first button starts the info template after the proposal template and opens engineer selection after any other; 'Edit' opens the edit menu |
| Properties.HelpRowRoutes | telegram_bot/telegram_bot.py:215-221 | 'Add new engineer' starts the engineer template and 'Continue' reaches the PDF generation |
| Properties.AddEngineerEffects | telegram_bot/telegram_bot.py:233-242 | linking appends int(id), opens 'Current rate for <name>' with empty content, sets add_rate and leaves every other rate entry and every other dict as it was; a non-number changes nothing |
| Session.DbHandler.constructor | telegram_bot/telegram_bot.py:26 | no engineer is linked and the rates dict is empty |
| Session.Proposal.constructor | telegram_bot/telegram_bot.py:27 | the proposal is built over the db handler with well-formed templates |
| Session.Proposal.ResetIter | telegram_bot/telegram_bot.py:73 | the iterator restarts over the keys of current_dict |
| Session.Proposal.GetNextTitleId | telegram_bot/telegram_bot.py:82 | the next key is handed out in order, or None (StopIteration) |
| Session.Proposal.StoreContent | telegram_bot/telegram_bot.py:122 | the content is stored into current_title_id of the dict object current_dict refers to, or nothing changes on KeyError |
| Session.Proposal.ResetEngineerDict | telegram_bot/telegram_bot.py:89 | the engineer template's contents are emptied |
| Bot.ShowTitle | telegram_bot/telegram_bot.py:96-102 | replies as Machine.ShowTitle: asks for current_title_id and returns STORE_DATA |
| Bot.Overview | telegram_bot/telegram_bot.py:138-166 | lists current_dict's titles with the next-step buttons and returns SELECT_ACTION |
| Bot.NextTitle | telegram_bot/telegram_bot.py:80-93 | acts on the objects as Machine.NextTitle says and keeps the templates well formed |
| Bot.InitializeTemplate | telegram_bot/telegram_bot.py:67-76 | acts on the objects as Machine.InitializeTemplate says and keeps the templates well formed |
| Bot.StoreData | telegram_bot/telegram_bot.py:120-133 | acts on the objects as Machine.StoreData says and keeps the templates well formed |
| Bot.StorePhoto | telegram_bot/telegram_bot.py:105-117 | acts on the objects as Machine.StorePhoto says and keeps the templates well formed |
| Bot.AddEngineerToProposal | telegram_bot/telegram_bot.py:233-242 | links exactly when the id is a number and then acts as Machine.AddEngineerToProposal says; otherwise nothing changes |
| Bot.EditTitle | telegram_bot/telegram_bot.py:189-198 | acts on the objects as Machine.EditTitle says and keeps the templates well formed |
| Bot.TitleButtons | telegram_bot/telegram_bot.py:173-177 | the loop builds exactly the title rows, in key order |
| Bot.ChooseTitleToEdit | telegram_bot/telegram_bot.py:169-186 | builds the edit menu that Properties.TitleMenuOffers describes |
| Bot.EngineerButtons | telegram_bot/telegram_bot.py:206-213 | the loop builds exactly the rows of the unlinked engineers, in registry order |
| Bot.ChooseEngineers | telegram_bot/telegram_bot.py:202-230 | builds the engineer menu that Properties.EngineerMenuOffers describes |

## Left out

- Telegram I/O is reduced to abstract screens: sending messages, message texts, HTML parse modes, `query.answer`, `Updater` polling and the `ConversationHandler` machinery. What the framework does after a handler raises is not modelled.
- The overview's per-title messages are modelled by the list of title ids they are sent for. The bold title and the content text come from `Proposal.get_bold_title` and `get_title_content`, which are not part of this model.
- `start` (:46-64) is not modelled. Its init button is covered by `Callbacks.DetachInit`.
- `show_error_message` is the abstract notice screen.
- The HTML/PDF pipeline is not modelled (`generate_html`, `generate_pdf`, `send_pdf`, `get_test_pdf_dict`, `generate_tmp_files`, `end`, `main`). It is template rendering, temporary files and page geometry. Of `main`'s dispatch table, the SELECT_ACTION patterns are modelled as `Callbacks.Route`. The STORE_DATA split between text and photo messages is modelled by the separate handlers `StoreData` and `StorePhoto`.
- `Proposal.py` and `ProposalDBHandler.py` are not part of this model. Their interface is modelled on these assumptions:
  - `store_content` raises KeyError for a title missing from `current_dict`.
  - `reset_engineer_dict` empties the contents of the same dict object in place, keeping its titles, so `templates` still refers to it.
  - The registry (`get_engineers_id_list`, `get_field_info(id, 'N')`) is a parameter: a sequence of ids and a total name function.
- Machine.Registry: assumes `get_engineers_id_list()` returns non-negative Python ints. The `not in` test at :210 compares them with the `int(...)` values appended at :237. If the registry returned the ids as text, no linked engineer would ever be excluded. `Properties.OfferedMembers` and the "no longer offers it" part of `Properties.RateSubLoop` rest on this assumption.
- Machine.AddEngineerToProposal: assumes `get_field_info` gives the same name for an id's text (passed at :240) as for the number it parses to. The model looks the name up by the parsed number.
- Session.DbHandler.constructor: assumes a new `ProposalDBHandler()` (:26) has no linked engineer and an empty rates dict. `ProposalDBHandler.py` is not part of this model.
- `store_new_engineer_to_db` is not modelled. Only its outcome enters the model, as the parameter `storeFailed`; what it writes to the db is not modelled.
- In `store_photo`, the file download and `get_random_name` are not modelled. The random name is a parameter.
- Callbacks.ParseInt: accepts only non-empty ASCII digit strings. Python's `int` also accepts surrounding whitespace, a sign, underscores between digits and non-ASCII digits. The bot only ever parses ids it wrote itself with `str`.
- The iterator is assumed to be a copy of the keys taken at `reset_iter`. Whether `Proposal.reset_iter` keeps a live iterator over the dict itself depends on `Proposal.py`, which is not part of this model. If it does, Python would raise RuntimeError when that dict changed size during the pass. The model does not capture that error.
- Session.Proposal.constructor: the initial cursor is assumed, because `Proposal.py` is not part of this model. It starts with no template chosen (`current_template` is empty), `current_dict` on the proposal content dict, the iterator empty, `current_title_id` empty, `edit_all` set and `add_rate` cleared.
- There is one sequential session over the two global objects. Per-conversation sessions and concurrency are not modelled.
