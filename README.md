# KJV Search Tools — a verified model of its coordinate and verse-resolution core

KJV Search Tools shows a 31102 × 31102 image in which pixel (x, y) is the semantic
distance between verse x and verse y of the King James Bible, as a zoomable Leaflet
map. This project models, in Dafny, the logic around that image:

- the verse selector, which turns a book / chapter / verse selection into the verse's
  ordinal (`getVerseNumber`), and the drop-downs it reads;
- the conversion between the map's projected coordinates and 1-based pixels (the click
  rule and the pan-to-pixel control), and the 0-based rule of the legacy map script;
- the verse cache worker (a message-driven state machine over a keyed verse store) and
  the page-side single-slot resolver that queries it, including a timer defect;
- the click handlers and their popups, the legacy pixel-info endpoint, and the
  similarity search from the backend's marker rows to the markers on the map;
- the CSS colour-preset parser and the filter controls, and the changelog popup;
- the tile pipeline's arithmetic: the zoom-to-width table, the four sources of a tile,
  the children of a tile, tile starts, edge covers, flat pixel indices, the tile path
  and its regular-expression parse, and the renaming to Leaflet indices.

Each module is one component (`verse_address.dfy`, `verse_selector.dfy`,
`pixel_coords.dfy`, `popup.dfy`, `pixel_info.dfy`, `legacy_click.dfy`,
`data_worker.dfy`, `verse_client.dfy`, `map_click.dfy`, `similarity.dfy`,
`markers.dfy`, `changelog.dfy`, `color_presets.dfy`, `tile_paths.dfy`,
`tile_pyramid.dfy`), over three shared helpers (`wrappers.dfy`, `text.dfy` for JavaScript
string and number semantics, `json.dfy` for decoded objects). Code that updates state in
place is modelled as classes (`VerseSelector.Selector`, `DataWorker.Worker`,
`VerseClient.Client`, `Markers.MarkerGroup`, `Changelog.ChangelogPopup`,
`ColorPresets.Controls`) whose methods are proved against specification functions, and
loops are methods with invariants; the pure rules are functions with lemmas. The legacy
scripts and the newer modules share one model where their logic is the same; the
variants are parameters (`labelDeclared` of the selector) or separate members (the
legacy click rule).

Modelling conventions: JavaScript `NaN` and `undefined` are `None` of an `Option`;
a thrown exception is an explicit outcome (`ReferenceError`, `NotOk`, `ServerError`,
`None`); timers, worker replies and fetch results are explicit events or parameters;
a JSON object is its entries in insertion order.

## Model

| member | source | states |
|---|---|---|
| Text.IndexOf | static/scripts/map/app.js:149-150 | `indexOf` of one character: the first position holding it, -1 exactly when it does not occur |
| Text.JsSubstring | static/scripts/map/app.js:149-150 | `substring` clamps both ends into the string and swaps them when reversed; in-range ends give that slice |
| Text.Split | static/scripts/map/app.js:148 | `split(' ')` yields at least one part, no part holds the separator, and joining the parts with it gives the input back |
| Text.SplitJoin | static/scripts/map/app.js:148 | splitting separator-free parts joined by the separator returns exactly those parts |
| Text.Join | static/app.js:68 | `join('<br>')` starts with the first part |
| Text.UpperAscii | static/app.js:65 | `toUpperCase` on a `\w` character raises exactly the ASCII lower-case letters |
| Text.NatToString | frontend/src/similarity_search.js:18 | a number in a template literal is written as a non-empty run of digits without a leading zero whose value is the number |
| Text.NatToStringInjective | src/helpers.py:1381 | different numbers are written differently, so a written index identifies its number |
| Text.NumeralLacks | frontend/src/similarity_search.js:18 | a character that is neither a digit nor a minus sign occurs in no written number |
| Json.Delete | static/scripts/custom/app.js:142-143 | `delete item[key]` keeps every other entry, in order, and removes every entry under the key |
| Json.Lookup | frontend/src/similarity_search.js:31-32 | reading `item[key]` finds a value exactly when the key is present, and that entry is in the object |
| VerseAddress.Plus | frontend/src/verse_selector.js:90 | `+=` on counts: a number exactly when both operands are numbers, and then their sum (NaN absorbs) |
| VerseAddress.FindBook | frontend/src/verse_selector.js:76-80 | the book loop stops at the first book with the name; no earlier book has it; none found gives the table length |
| VerseAddress.GetVerseNumber | frontend/src/verse_selector.js:68-107 | the nested accumulating loops return exactly `OrdinalOf`: earlier books' counts + earlier chapters' counts + verse, -1 on a rejected address, undefined for an unknown book |
| VerseAddress.OrdinalOf | frontend/src/verse_selector.js:68-107 | the value `getVerseNumber` computes; its meaning is stated by `OrdinalOfOutcomes`, `OrdinalOfWellFormed`, `OrdinalInRange`, `OrdinalIncreasing`, `OrdinalInjective` and the inverse lemmas below |
| VerseAddress.OrdinalOfOutcomes | static/scripts/custom/app.js:77-108 | on any table: undefined exactly when no book has the name; -1 exactly when the first such book rejects the chapter or verse (missing or zero count, verse > count, verse < 1) |
| VerseAddress.SumDefined | frontend/src/verse_selector.js:89-91 | on a well-formed book the chapter loop never meets NaN and sums the counts |
| VerseAddress.BeforeDefined | frontend/src/verse_selector.js:102-104 | on a well-formed table the preceding-books loop never meets NaN |
| VerseAddress.SumGrows | frontend/src/verse_selector.js:89-91 | each chapter adds at least one verse to the running sum |
| VerseAddress.BeforeGrows | frontend/src/verse_selector.js:102-104 | each book adds at least one verse per book passed |
| VerseAddress.FindBookDistinct | frontend/src/verse_selector.js:76-80 | with distinct names, the loop finds book i under its own name |
| VerseAddress.FindBookAt | static/scripts/custom/app.js:77-81 | the first book carrying the name is the one the loop stops at |
| VerseAddress.OrdinalOfWellFormed | frontend/src/verse_selector.js:76-105 | on a well-formed table the result is a number exactly for valid addresses, and then their position; an invalid chapter or verse of a known book is -1; an unknown book is undefined |
| VerseAddress.OrdinalInRange | frontend/src/verse_selector.js:89-98 | valid addresses map into [1, total verses] |
| VerseAddress.OrdinalEnds | frontend/src/verse_selector.js:89-98 | the first verse of the first book is 1 and the last verse of the last book is the total |
| VerseAddress.OrdinalIncreasing | frontend/src/verse_selector.js:89-104 | the ordinal is strictly increasing in book, chapter, verse reading order |
| VerseAddress.OrdinalInjective | static/scripts/custom/app.js:90-105 | two valid selections with the same ordinal are the same selection |
| VerseAddress.Locate | frontend/src/verse_selector.js:76-105 | the inverse's book search stays within the table |
| VerseAddress.LocateChapterOfPosition | frontend/src/verse_selector.js:89-95 | the chapter search of the inverse undoes the chapter sum of the ordinal |
| VerseAddress.LocateOfPosition | frontend/src/verse_selector.js:89-104 | the book search of the inverse undoes the book sum of the ordinal |
| VerseAddress.LocateChapterValid | frontend/src/verse_selector.js:89-95 | every count inside a book lands on an existing chapter and verse whose partial sum is that count |
| VerseAddress.LocateValid | frontend/src/verse_selector.js:89-104 | every count inside the table lands on a valid address whose position is that count |
| VerseAddress.AddressOfOrdinal | frontend/src/verse_selector.js:68-107 | the inverse undoes `getVerseNumber` on every valid address |
| VerseAddress.OrdinalOfAddress | frontend/src/verse_selector.js:68-107 | `getVerseNumber` undoes the inverse on every number in [1, total], so the ordinals are dense |
| VerseSelector.Options | frontend/src/verse_selector.js:43-48 | the option loop appends exactly 1, 2, …, n in ascending order, none when n < 1 |
| VerseSelector.Range | static/scripts/custom/app.js:44-49 | the option list 1..n as a value: length n (0 when n < 1), element k is k + 1 |
| VerseSelector.RangeUnique | static/scripts/custom/app.js:60-65 | any list with that length and those elements is `Range(n)`, so the loop's list is the range |
| VerseSelector.Names | frontend/src/verse_selector.js:28-35 | the book list holds the table's names, one per book, in key order |
| VerseSelector.Selector.constructor | frontend/src/verse_selector.js:10 | empty data, nothing selected, the label as declared or not |
| VerseSelector.Selector.PopulateChapters | frontend/src/verse_selector.js:38-50 | with a book selected the chapter list becomes 1..chapters and its first option is selected; with none nothing changes; the rest of the state is kept |
| VerseSelector.Selector.PopulateVerses | frontend/src/verse_selector.js:52-66 | with book and chapter selected the verse list becomes 1..verses[chapter] (none for a missing key) with the first selected; otherwise nothing changes |
| VerseSelector.Selector.Load | frontend/src/verse_selector.js:15-26 | the table is stored, its names listed, Genesis selected when present, then chapter 1 and verse 1 when offered; the lists are consistent |
| VerseSelector.Selector.SelectFirstVerse | frontend/src/verse_selector.js:20-25 | the chapters of the selected book are listed and chapter 1 selected when offered, then its verses; the lists agree with the selection |
| VerseSelector.Selector.OnBookChange | frontend/src/verse_selector.js:120-124 | a book change repopulates the chapters, then the verses of the newly selected first chapter |
| VerseSelector.Selector.OnChapterChange | static/scripts/custom/app.js:116-118 | a chapter change repopulates only the verses; book and chapter lists are kept |
| VerseSelector.Selector.OnVerseChange | static/scripts/custom/app.js:53-66 | picking a verse changes only the verse selection |
| VerseSelector.Selector.GetVerseNumber | static/scripts/custom/app.js:83-87 | the ordinal of the selection; an invalid address writes the label text and returns -1 where the label is declared, and throws a ReferenceError where it is not (frontend/src/verse_selector.js:82-85) |
| VerseSelector.ConsistentSelectionIsValid | frontend/src/verse_selector.js:43-64 | on a well-formed table a selection from the offered lists is a valid address, so the ordinal is a number |
| PixelCoords.ClampFacts | frontend/src/pan_to_coordinates.js:24-25 | `Math.min(Math.max(v, lo), hi)` lies in [lo, hi], keeps in-range values, sends others to the nearest end, and is idempotent |
| PixelCoords.ClickAxis | frontend/src/map.js:73-77 | the click rule `clamp(floor(p) + 1, 1, 31102)` is always within [1, 31102] |
| PixelCoords.ClickPixel | static/scripts/map/app.js:55-59 | both axes of a clicked pixel lie in [1, 31102], whatever the projected point |
| PixelCoords.ClickCell | frontend/src/map.js:73-74 | projected cell [k, k+1) of the image gives pixel k + 1, so cell (0, 0) is pixel (1, 1) |
| PixelCoords.ClickOutside | frontend/src/map.js:76-77 | clicks left of or above the image give 1, clicks past its end give 31102 |
| PixelCoords.ClickMonotone | frontend/src/map.js:73-77 | the click rule is monotone on each axis |
| PixelCoords.LegacyAgainstClick | static/app.js:48-49 | the legacy `floor(p)` is 0-based and unclamped: inside the image it is the click rule minus one, it lies in [0, 31102) exactly for points inside, and it is negative left of the image |
| PixelCoords.LegacyPixel | static/app.js:48-49 | the legacy pixel `Math.floor` of each axis; related to the click rule by `LegacyAgainstClick` |
| PixelCoords.TrimStart | frontend/src/pan_to_coordinates.js:41-42 | `parseInt` skips exactly the leading white space of section 19.2.5 of ECMA-262 |
| PixelCoords.ParseIntOfNumeral | static/scripts/map/app.js:229-230 | `parseInt` reads back any decimal numeral and ignores what follows it when that is not a digit |
| PixelCoords.ParseUnsigned | frontend/src/pan_to_coordinates.js:41-42 | the digits after the sign give a value of at least zero, or NaN when there are none |
| PixelCoords.ParseIntNaN | frontend/src/pan_to_coordinates.js:41-42 | text that does not start (after white space and a sign) with a digit gives NaN |
| PixelCoords.ParseInt | frontend/src/pan_to_coordinates.js:41-42 | `parseInt(s, 10)`; read back by `ParseIntOfNumeral`, NaN by `ParseIntNaN` |
| PixelCoords.ParseUnsignedAuto | static/scripts/map/app.js:154 | with the radix left out, the digits after the sign are hexadecimal after `0x`/`0X` and decimal otherwise; the value is at least zero, and without the prefix it is the decimal reading |
| PixelCoords.ParseIntAutoDecimal | static/scripts/map/app.js:154 | `parseInt(s)` and `parseInt(s, 10)` agree on every text without the `0x` prefix after white space and sign |
| PixelCoords.ParseIntAutoOfHex | static/scripts/map/app.js:154 | after `0x`, `parseInt(s)` reads the longest run of hexadecimal digits |
| PixelCoords.ParseIntAutoHexNaN | static/scripts/map/app.js:154 | `0x` followed by no hexadecimal digit is NaN |
| PixelCoords.ParseIntAutoOfNumeral | static/scripts/map/app.js:154 | `parseInt(s)` reads a numeral back and ignores a non-digit unit after it, unless the numeral is 0 and the unit starts with `x` or `X` |
| PixelCoords.HexHueExample | static/scripts/map/app.js:154 | `parseInt("0x10deg")` is 4318 (hexadecimal 10de), not 0 |
| PixelCoords.PanTarget | frontend/src/pan_to_coordinates.js:16-25 | NaN on either axis pans nowhere (the alert branch); otherwise both axes are clamped into [1, 31102] |
| PixelCoords.PanClamps | static/scripts/map/app.js:204-213 | in-range inputs are kept, out-of-range ones go to the nearest edge, and clamping the target again changes nothing |
| PixelCoords.PanThenClick | frontend/src/pan_to_coordinates.js:32 | panning to p and clicking the point it centres on gives p + 1 for p < 31102 and 31102 at 31102: pan and click are not inverses (assuming `project` undoes `unproject`) |
| PixelCoords.PanFromInputs | frontend/src/pan_to_coordinates.js:39-46 | the pan button parses both inputs with `parseInt(v, 10)` and pans to `PanTarget` of them; see `PanTarget` and `PanClamps` |
| Popup.ReplaceFirst | static/app.js:65 | `replace('_', ' ')` changes only the first underscore, keeps the length and every other character |
| Popup.UpperWordStarts | static/app.js:65 | the `\b\w` replacement keeps the length |
| Popup.UpperWordStartsAt | static/scripts/map/app.js:75 | a character is raised exactly when it is a word character not preceded by one |
| Popup.UpperFromAt | static/app.js:65 | the scan state after a prefix is whether its last character is a word character |
| Popup.UpperKeepsWordChars | static/app.js:65 | raising a character keeps it a word character or not, so raising does not move word starts |
| Popup.FormatKeyFacts | static/app.js:65 | the formatted key keeps its length; the first underscore is a space and later ones stay; no word starts with a lower-case letter; characters that start no word are unchanged |
| Popup.FormatKey | static/app.js:65 | the key formatter; its properties are `FormatKeyFacts`, `FormatKeyOneWord` and the examples |
| Popup.FormatKeyExample | static/app.js:65 | `verse_x_info` becomes `Verse X_info` |
| Popup.ReplaceExample | static/app.js:65 | the first replacement of `verse_x_info` gives `verse x_info` |
| Popup.ScanExample | static/app.js:65 | the word-start scan of `verse x_info` gives `Verse X_info` |
| Popup.FormatKeyOneWord | frontend/src/similarity_search.js:41 | a single word without underscore only has its first letter raised |
| Popup.Lines | static/app.js:63-67 | one line per entry; the first line is that of the first entry |
| Popup.LinesAt | static/app.js:63-67 | line i is `<b>Key:</b> value` for entry i: the lines follow the entries in order |
| Popup.BuildPopup | static/app.js:63-68 | the push loop and `join('<br>')` give the joined lines of the entries |
| Popup.LinesSnoc | static/scripts/map/app.js:74-77 | one more entry pushes one more line at the end |
| Popup.PopupOrder | static/app.js:63-68 | no entry gives the empty popup; the first entry's line comes first, followed by `<br>` and the rest |
| PixelInfo.Prefixed | src/main.py:52-57 | the dictionary comprehension pairs each column, prefixed, with its row value, in column order |
| PixelInfo.GetPixelInfo | src/main.py:41-65 | with the guard `0 <= x < len`, the handler always answers with a dictionary, never a server error |
| PixelInfo.GuardAsWrittenAdmitsLength | src/main.py:47-50 | the guard as written admits x == len, which is no row, and the handler as written then fails |
| PixelInfo.GetPixelInfoAsWritten | src/main.py:41-65 | the handler with the guard as written; `GuardAsWrittenAdmitsLength` and `AsWrittenAgreesOffTheEdge` state where it fails |
| PixelInfo.AsWrittenAgreesOffTheEdge | src/main.py:47-64 | the handler as written fails exactly when an admitted coordinate equals the length, and otherwise agrees with the corrected one |
| PixelInfo.InBoundsAnswer | src/main.py:52-58 | an in-bounds answer is `Coordinates` "x+1, y+1", then `X Verse`, `X text`, `Y Verse`, `Y text` with the rows' citation and text |
| PixelInfo.OutOfBoundsAnswer | src/main.py:59-64 | any other pair gets `error` "Verse ID out of bounds", `verse_x_id` x and `verse_y_id` y |
| PixelInfo.ResponseKeysDistinct | src/main.py:52-64 | the answer's keys are distinct, so no key of the literal overwrites another |
| LegacyClick.ClickPopup | static/app.js:56-77 | a non-ok response opens no popup; a body opens the popup of its entries |
| LegacyClick.PixelInfoUrl | static/app.js:52 | the request URL; `UrlCarriesPixel` states that it carries exactly x and y |
| LegacyClick.UrlCarriesPixel | static/app.js:52 | `/api/pixel_info/{x}/{y}` has exactly two segments after the prefix, the numerals of x and y, which read back as x and y |
| LegacyClick.AfterPrefix | static/app.js:52 | what follows the URL prefix is the rest of the URL |
| LegacyClick.CoordinatesKey | static/app.js:65 | the key `Coordinates` is shown unchanged |
| LegacyClick.ErrorKey | static/app.js:65 | the key `error` is shown as `Error` |
| LegacyClick.ClickPopupAgainstServer | static/app.js:43-78 | against the endpoint with the intended guard a legacy click always opens a popup, starting with the 1-based coordinates in bounds and with the error message otherwise |
| LegacyClick.InBoundsPopup | src/main.py:58 | an in-bounds popup starts with the `Coordinates` line |
| LegacyClick.OutOfBoundsPopup | src/main.py:60-64 | an out-of-bounds popup starts with the `Error` line |
| LegacyClick.FirstLine | static/app.js:63-68 | a popup starts with the line of its first entry |
| LegacyClick.InsideImageIsInBounds | static/app.js:48-49 | with one verse per pixel, a click inside the image is in bounds |
| LegacyClick.AsWrittenEdgeClickOpensNothing | src/main.py:47-50 | against the guard as written, a click whose legacy pixel equals the table length opens no popup |
| DataWorker.Ids | frontend/src/data.worker.js:33-35 | the ids of a record list: each record's id is in it and nothing else |
| DataWorker.CommitsStep | frontend/src/data.worker.js:33-37 | adding the first record moves the commit condition one record down the list |
| DataWorker.AddAllCommits | frontend/src/data.worker.js:30-37 | the write transaction commits exactly when ids and citations are new and distinct (`keyPath` and the unique `citation` index, frontend/src/data.worker.js:50-53) |
| DataWorker.AddAllContents | frontend/src/data.worker.js:33-37 | a committed transaction keeps every old record and stores each new record under its own id, and nothing else |
| DataWorker.AddAll | frontend/src/data.worker.js:30-37 | one write transaction; `AddAllCommits` and `AddAllContents` state when it commits and what it stores |
| DataWorker.QuerySpec | frontend/src/data.worker.js:79-89 | without a handle the reply is "Database is not initialized."; with one it is a `queryResult` holding the stored record exactly when the key is present |
| DataWorker.Fill | frontend/src/data.worker.js:21-42 | the filling part of `populateDB`; `FetchFailureStillReady`, `FillEmpty` and `FilledStoreValid` state its outcomes |
| DataWorker.Populate | frontend/src/data.worker.js:6-43 | `populateDB`; `PopulateKeepsValid`, `PopulateNotReady` and `InitIdempotent` state its outcomes |
| DataWorker.InitSpec | frontend/src/data.worker.js:63-77 | the `init` handler; `InitOrder`, `InitOpened`, `InitIdempotent` and `InitThenQuery` state its messages and store |
| DataWorker.Worker.constructor | frontend/src/data.worker.js:3 | no handle, the persisted store, nothing posted |
| DataWorker.Worker.Post | frontend/src/data.worker.js:7 | `postMessage` appends to the outbox and changes nothing else |
| DataWorker.Worker.AddVerses | frontend/src/data.worker.js:30-37 | the `add` loop stages records and commits all of them or none, as `AddAll` says |
| DataWorker.Worker.PopulateStore | frontend/src/data.worker.js:6-43 | `populateDB` posts `Populate`'s messages and leaves `Populate`'s store |
| DataWorker.Worker.FillStore | frontend/src/data.worker.js:21-42 | the fetch and the write transaction post `Fill`'s messages and leave `Fill`'s store: an error for a failed fetch, a bad status or an aborted write |
| DataWorker.Worker.OnMessage | frontend/src/data.worker.js:60-95 | `init` follows `InitSpec`, `query` posts `QuerySpec`'s reply, any other command does nothing; the store stays keyed by id with unique citations |
| DataWorker.Worker.Initialize | frontend/src/data.worker.js:63-77 | the `init` branch posts exactly `InitSpec`'s messages, sets the handle only when the store opens, and keeps the store valid |
| DataWorker.PopulateKeepsValid | frontend/src/data.worker.js:30-37 | populating keeps every record under its own id and the citations unique |
| DataWorker.FilledStoreValid | frontend/src/data.worker.js:30-37 | a transaction that commits on an empty store leaves every record under its own id with unique citations |
| DataWorker.InitOpened | frontend/src/data.worker.js:63-72 | when the store opens, `init` posts the announcement, `populateDB`'s messages, then `ready` |
| DataWorker.PopulateNotReady | frontend/src/data.worker.js:6-43 | `populateDB` posts at least two messages and never `ready` |
| DataWorker.InitOrder | frontend/src/data.worker.js:63-76 | "Initializing…" first; when the store opens `ready` is last and posted once; when it fails the setup error is last and there is no `ready` |
| DataWorker.InitIdempotent | frontend/src/data.worker.js:9-17 | a store with records is left alone whatever the fetch would give, so a second `init` changes nothing |
| DataWorker.FetchFailureStillReady | frontend/src/data.worker.js:21-42 | a failed fetch or non-ok status posts an error and still ends with `ready`, the store unchanged |
| DataWorker.InitThenQuery | frontend/src/data.worker.js:30-37 | after filling an empty store, a query answers each file record by its id and `undefined` for any other id |
| DataWorker.FillEmpty | frontend/src/data.worker.js:30-37 | records with distinct ids and citations fill an empty store with exactly their ids, each holding its own record |
| DataWorker.QueryBeforeInit | frontend/src/data.worker.js:80-83 | a query before `init` gets the not-initialized error |
| VerseClient.Initial | frontend/src/kjv.js:2-3 | no worker, empty slot, no calls |
| VerseClient.Start | frontend/src/kjv.js:48-55 | where `Worker` exists the worker is created and `init` posted once; otherwise nothing changes |
| VerseClient.Request | frontend/src/kjv.js:11-29 | without a worker the new call is rejected at once; otherwise it takes the slot (overwriting it), posts the query and arms its timer |
| VerseClient.Settle | frontend/src/kjv.js:23-26 | settling changes only that call, and only while it is pending (a promise settles once) |
| VerseClient.Deliver | frontend/src/kjv.js:38-47 | replies keep indices valid |
| VerseClient.TimeoutAsWritten | frontend/src/kjv.js:22-28 | the timer as written keeps indices valid |
| VerseClient.Timeout | frontend/src/kjv.js:22-28 | the intended timer keeps indices valid |
| VerseClient.Step | frontend/src/kjv.js:11-56 | every event keeps indices valid |
| VerseClient.Run | frontend/src/kjv.js:11-56 | every run keeps indices valid |
| VerseClient.DeliverIgnores | frontend/src/kjv.js:39-46 | statuses other than `queryResult`, and a result with the slot empty, change nothing |
| VerseClient.DeliverResolvesSlot | frontend/src/kjv.js:40-45 | a `queryResult` resolves exactly the slot's call with the result and clears the slot |
| VerseClient.StuckStep | frontend/src/kjv.js:22-28 | under the timer as written a pending call whose timer fired and that lost the slot stays so after any event |
| VerseClient.StuckForever | frontend/src/kjv.js:22-28 | … after any sequence of events |
| VerseClient.ScenarioNeverSettles | frontend/src/kjv.js:17-45 | call A answered, call B issued, A's timer fires, B's answer, B's timer: A resolved, B pending forever |
| VerseClient.ScenarioFacts | frontend/src/kjv.js:17-45 | the scenario's states step by step end with A resolved and B stuck |
| VerseClient.ScenarioTrace | frontend/src/kjv.js:17-45 | running the scenario's events gives that state |
| VerseClient.RunAt | frontend/src/kjv.js:11-56 | running the events from position k takes event k first, then the rest |
| VerseClient.LiveStep | frontend/src/kjv.js:17-28 | with the intended timer every pending call keeps an armed timer and the slot holds a pending call, after any event |
| VerseClient.LiveRun | frontend/src/kjv.js:17-28 | … after any sequence of events |
| VerseClient.EveryCallSettles | frontend/src/kjv.js:22-28 | with the intended timer every pending call of every reachable state has its timer armed, and its firing settles the call |
| VerseClient.TimeoutNamesId | frontend/src/kjv.js:25 | the timeout rejection names the call's own verse id |
| VerseClient.Client.constructor | frontend/src/kjv.js:2-3 | the initial state |
| VerseClient.Client.OnDomReady | frontend/src/kjv.js:51-55 | the state becomes `Start` of the old one |
| VerseClient.Client.GetVerseInfoById | frontend/src/kjv.js:11-20 | the state becomes `Request` of the old one; the call's index is returned |
| VerseClient.Client.OnWorkerMessage | frontend/src/kjv.js:38-47 | the state becomes `Deliver` of the old one |
| VerseClient.Client.OnTimeout | frontend/src/kjv.js:22-28 | the state becomes the intended `Timeout` of the old one, keeping every call settleable |
| MapClick.OnClick | frontend/src/map.js:61-88 | the x verse is looked up first, the y verse only after x resolved; the ids are the click pixel; a popup opens exactly when both lookups resolve with a record, and it holds `PopupContent` of the two records |
| MapClick.PopupContent | frontend/src/map.js:81-85 | the popup starts with the coordinates line of the two verse ids and ends with the Y verse's text |
| MapClick.PopupShowsPixel | frontend/src/map.js:73-85 | when each record is stored under its own id, the popup opens and its first line shows the clicked pixel |
| MapClick.LookupsInRange | frontend/src/map.js:76-80 | every id looked up lies in [1, 31102] |
| MapClick.SequentialLookupsSettle | frontend/src/map.js:79-80 | with the intended timer, the y lookup after a resolved x lookup keeps the slot past x's timer and resolves with its reply |
| Similarity.ClampCount | backend/src/main.py:111-114 | `n_results` is clamped into [1, 100], in-range values kept |
| Similarity.MarkerRows | backend/src/main.py:134-142 | the append loop gives one row per neighbour after the first, row i with neighbour i + 1 and its own distance |
| Similarity.Rows | backend/src/main.py:129-142 | the rows as a value: returned count minus one rows, the same rows as the loop |
| Similarity.RowCountBound | backend/src/main.py:124-135 | with at most `n_results + 1` neighbours returned there are at most `n_results` ≤ 100 rows |
| Similarity.RowsAreNeighbours | backend/src/main.py:136-141 | each row is `distance`, `xCoord` = the verse, `yCoord` = the neighbour, distance and neighbour from the same index |
| Markers.VerseText | frontend/src/similarity_search.js:18 | each outcome of `getVerseNumber` (its numeral, `-1`, `undefined` or `NaN`) is written without a slash, so it stays one path segment |
| Markers.SearchUrl | frontend/src/similarity_search.js:18 | the URL exists exactly when `getVerseNumber` does not throw, and embeds its outcome unguarded with the count 50 |
| Markers.SearchUrlSegments | static/scripts/custom/app.js:127 | after the prefix come the verse as written and 50; an ordinal reads back, and 50 is within the backend's clamp |
| Markers.CoordIsLookup | frontend/src/similarity_search.js:31-32 | a coordinate is read exactly when the key holds a number |
| Markers.DeleteTwice | frontend/src/similarity_search.js:33-34 | deleting `xCoord` then `yCoord` leaves the other entries in order |
| Markers.MarkerOf | frontend/src/similarity_search.js:37 | a marker stands at `[yCoord, xCoord]`: the axes swapped, no offset |
| Markers.PlacedCount | static/scripts/custom/app.js:139-156 | the `forEach` places every row up to, not including, the first row that lacks a numeric coordinate (a missing one makes `LatLng` throw); every counted row is placeable |
| Markers.PlacedCountFrom | static/scripts/custom/app.js:139-156 | the placed count continues past placeable rows |
| Markers.MarkerGroup.constructor | frontend/src/similarity_search.js:58 | the group starts empty |
| Markers.MarkerGroup.AddRows | frontend/src/similarity_search.js:30-47 | one marker per placed row is appended in row order, earlier markers kept |
| Markers.MarkerGroup.MarkerFor | frontend/src/similarity_search.js:31-46 | one row's body: coordinates read and deleted, popup from the rest |
| Markers.MarkerGroup.OnMatches | frontend/src/similarity_search.js:21-51 | a non-ok response adds nothing; decoded rows are appended after the markers shown |
| Markers.MarkerGroup.Clear | static/scripts/custom/app.js:163-165 | `clearMarkers` empties the group |
| Markers.DistanceKey | frontend/src/similarity_search.js:41 | the key `distance` is shown as `Distance` |
| Markers.BackendRowsPlaced | frontend/src/similarity_search.js:30-46 | every backend row is placed, at (neighbour, verse), with the single line `Distance` |
| Markers.WithoutCoords | frontend/src/similarity_search.js:31-34 | a backend row keeps only its distance entry once the coordinates are deleted |
| Markers.RowMarker | backend/src/main.py:136-142 | the marker of one backend row |
| Changelog.Blocks | frontend/src/changelog_popup.js:31-33 | the blocks start with the first release's block |
| Changelog.BlocksAppend | frontend/src/changelog_popup.js:31-33 | blocks of a concatenation are the concatenated blocks |
| Changelog.Decide | frontend/src/changelog_popup.js:21-39 | something is shown exactly when the fetch gave releases and the newest differs from the stored version (absent counts as different); the newest version is stored |
| Changelog.BuildContent | frontend/src/changelog_popup.js:28-35 | the `+=` loop gives the blocks of the first min(5, n) releases then the footer, which ends the content once |
| Changelog.Content | frontend/src/changelog_popup.js:28-35 | the popup's markdown; `BuildContent`, `OlderReleasesIgnored` and `ShortListShowsAll` state what it holds |
| Changelog.RepeatCheckShowsNothing | frontend/src/changelog_popup.js:37-38 | after a shown check, a repeat check on the same list shows nothing |
| Changelog.OlderReleasesIgnored | static/scripts/custom/app.js:197 | releases after the fifth never change the content |
| Changelog.ShortListShowsAll | frontend/src/changelog_popup.js:29-35 | with at most five releases every block appears, in order, then the footer |
| Changelog.ChangelogPopup.constructor | frontend/src/changelog_popup.js:6-8 | the stored version, a hidden popup |
| Changelog.ChangelogPopup.Show | frontend/src/changelog_popup.js:10-13 | the content is shown and `hidden` removed; the stored version is untouched |
| Changelog.ChangelogPopup.Hide | frontend/src/changelog_popup.js:15-17 | `hidden` is added and nothing else changes |
| Changelog.ChangelogPopup.Check | static/scripts/custom/app.js:187-211 | when `Decide` says no, nothing changes (a failure or empty list included); otherwise the content is shown and the newest version stored |
| ColorPresets.Pow10Nat | static/scripts/map/app.js:157 | powers of ten are positive |
| ColorPresets.Pow10 | static/scripts/map/app.js:157 | powers of ten with any exponent are positive |
| ColorPresets.Fraction | static/scripts/map/app.js:157 | digits after the point add a non-negative fraction |
| ColorPresets.ParseFloatUnsigned | static/scripts/map/app.js:157 | text starting with a digit is read without white space or sign |
| ColorPresets.ParseFloatOfNumeral | static/scripts/map/app.js:157 | `parseFloat` reads a whole numeral back and ignores a unit after it |
| ColorPresets.ParseFloatOfDecimal | static/scripts/map/app.js:161 | `parseFloat` of `i.f` is the whole part plus the fraction |
| ColorPresets.ParseFloat | static/scripts/map/app.js:157 | `parseFloat`; `ParseFloatOfNumeral`, `ParseFloatOfDecimal` and `ParseFloatUnsigned` state what it reads |
| ColorPresets.AfterWholeDecimal | static/scripts/map/app.js:161 | the decimal part after the whole digits reads as the fraction |
| ColorPresets.Scaled | static/scripts/map/app.js:159-167 | saturate and brightness take the number as it is with `%` and times 100 without; NaN stays NaN |
| ColorPresets.ApplyToken | static/scripts/map/app.js:148-168 | a token whose property is not one of the four leaves the values unchanged |
| ColorPresets.Assign | static/scripts/map/app.js:152-168 | the `switch` changes only the named property and leaves the values unchanged for an unrecognised one; the hue, read by `parseInt` without a radix, is a whole number or NaN; sepia is `parseFloat` of the value |
| ColorPresets.ParsePreset | static/scripts/map/app.js:140-169 | the `forEach` over `split(' ')`, starting from the defaults, gives `PresetValues` |
| ColorPresets.PresetValues | static/scripts/map/app.js:140-169 | what a preset sets; `ParsePreset`, `PresetOfTokens`, `SepiaSaturateHue` and `NoneIsDefaults` state it |
| ColorPresets.ApplyTokens | static/scripts/map/app.js:148-169 | the `forEach` loop applies the tokens in order, giving `ApplyAll` of them |
| ColorPresets.TokenParts | static/scripts/map/app.js:149-150 | a token `name(arg)` has property `name` and value `arg` |
| ColorPresets.NumberTokenSets | static/scripts/map/app.js:153-167 | a numeric token sets hue-rotate and sepia to the number, saturate and brightness to it with `%` and to 100 times it without |
| ColorPresets.HexHueToken | static/scripts/map/app.js:153-154 | `hue-rotate(0x<hex digits><unit>)` sets the hue to the hexadecimal value of the digits (so `0x10deg` gives 4318, not 0): the missing radix lets a `0x` prefix make it hexadecimal |
| ColorPresets.NumberArg | static/scripts/map/app.js:150 | a numeral followed by a unit holds no parenthesis and a `%` exactly when the unit does |
| ColorPresets.AssignNumber | static/scripts/map/app.js:152-168 | the `switch` on a numeric value sets the named property as above |
| ColorPresets.PresetOfTokens | static/scripts/map/app.js:148 | a preset of space-free tokens joined by spaces is parsed token by token |
| ColorPresets.LaterTokenWins | static/scripts/map/app.js:148-168 | a later token for the same property overrides an earlier one |
| ColorPresets.DistinctTokensCommute | static/scripts/map/app.js:148-168 | tokens for different properties can be applied in either order |
| ColorPresets.NumberToken | static/scripts/map/app.js:148-150 | the token text `name(<n><unit>)` |
| ColorPresets.SepiaSaturateHue | static/scripts/map/app.js:140-169 | `sepia(s%) saturate(k) hue-rotate(hdeg)` gives sepia s, saturate 100·k, hue-rotate h, brightness 100 |
| ColorPresets.ApplyThree | static/scripts/map/app.js:148-169 | three tokens are applied left to right |
| ColorPresets.ApplyAllStep | static/scripts/map/app.js:148-169 | the loop applies the first token, then the rest |
| ColorPresets.SpaceFree | static/scripts/map/app.js:148 | a numeric token holds no space |
| ColorPresets.NoneIsDefaults | static/scripts/map/app.js:135-146 | `none` would parse to the defaults as well, so the reset branch agrees with the parser |
| ColorPresets.Filter | static/scripts/map/app.js:120 | the filter always lists sepia %, saturate %, hue-rotate deg, brightness %, in that order |
| ColorPresets.Controls.constructor | static/scripts/map/app.js:186-187 | the initial sliders and the initial `updateFilter` |
| ColorPresets.Controls.UpdateFilter | static/scripts/map/app.js:104-121 | the filter becomes that of the sliders, which are unchanged |
| ColorPresets.Controls.ResetFilters | static/scripts/map/app.js:124-131 | the defaults (0, 0, 100, 100), preset `none`, and a matching filter |
| ColorPresets.Controls.OnPresetChange | static/scripts/map/app.js:133-177 | `none` resets; any other preset sets the sliders to `PresetValues`; the filter follows |
| ColorPresets.Controls.OnInput | static/scripts/map/app.js:180-183 | a moved slider takes its value, the others are kept, the filter follows |
| TilePaths.Normalize | src/helpers.py:1418 | `normpath` on these paths turns every forward slash into a backslash and keeps everything else |
| TilePaths.TilePath | src/helpers.py:1378-1398 | `image_name_and_folder_handler`'s path; `NormalizedTilePath` and `TilePathRoundTrip` state its shape and that it reads back |
| TilePaths.Field | src/helpers.py:1403 | one `(\d+)\\` group consumes at least one character |
| TilePaths.Groups | src/helpers.py:1403-1407 | the groups, when they match, are non-negative integers |
| TilePaths.MatchAt | src/helpers.py:1403-1404 | a match at a position starts with `static\tiles\` |
| TilePaths.Search | src/helpers.py:1404 | `re.search`; `SearchSkipsDrive`, `SearchAfterDrive`, `StoredPathMatches` and `NoAnchorNoMatch` state where it matches |
| TilePaths.NormalizeConcat | src/helpers.py:1418 | normalising distributes over concatenation |
| TilePaths.NumeralHasNoSlash | src/helpers.py:1381 | a formatted number holds no slash |
| TilePaths.NormalizeRoot | src/helpers.py:1380 | the normalised tiles root is the drive part followed by `static\tiles\` |
| TilePaths.NormalizeRelative | src/helpers.py:1381 | the normalised `{zoom}/{x}/{y}.png` is the numerals joined by backslashes |
| TilePaths.NormalizedTilePath | src/helpers.py:1378-1398 | the normalised path of a stored tile is drive, `static\tiles\`, then zoom, x, y separated by backslashes and `.png` |
| TilePaths.SearchSkipsDrive | src/helpers.py:1404 | `re.search` finds no match starting inside the drive part |
| TilePaths.SearchAfterDrive | src/helpers.py:1404 | the search over a stored path is the search over what follows the drive part |
| TilePaths.FieldOfDigits | src/helpers.py:1403 | a greedy digit group followed by a backslash reads the whole run |
| TilePaths.LastFieldOfDigits | src/helpers.py:1403 | a digit run followed by `.png` reads as the y group |
| TilePaths.MatchAfterAnchor | src/helpers.py:1403 | a match at the anchor reads the groups after it |
| TilePaths.GroupsOfDigits | src/helpers.py:1403-1407 | three digit runs in the stored shape read back as their values |
| TilePaths.TilePathRoundTrip | src/helpers.py:1378-1408 | `get_zoom_x_y_from_tile_path` of the normalised path written for (zoom, x, y) gives back exactly (zoom, x, y) |
| TilePaths.ZoomXY | src/helpers.py:1401-1408 | `get_zoom_x_y_from_tile_path`; `TilePathRoundTrip` states that it undoes `TilePath` |
| TilePaths.StoredPathMatches | src/helpers.py:1401-1408 | any digit strings in the stored shape are found by the search |
| TilePaths.DotTakesLastDigit | src/helpers.py:1403 | the unescaped `.` lets `…\45png` match, the y group giving up its last digit |
| TilePaths.NoAnchorNoMatch | src/helpers.py:1404 | a path without `static\tiles\` has no match, which makes `.groupdict()` raise |
| TilePyramid.Pow2 | src/helpers.py:581-590 | powers of two are positive |
| TilePyramid.SizesMapLevels | src/helpers.py:581-590 | `sizes_map` has keys 0..7, `sizes_map[z] = 256·2^(7−z)`, each level twice the next |
| TilePyramid.SourceCoords | src/helpers.py:592-599 | defined exactly when zoom + 1 is a key; source i is at offset ((i mod 2)·s, (i div 2)·s) with s = `sizes_map[zoom+1]`: left-top, right-top, left-bottom, right-bottom |
| TilePyramid.SourcesTileParent | src/helpers.py:551-599 | every pixel of a tile's square lies in exactly one of its four sources, the one in its quadrant |
| TilePyramid.QuadrantSquares | src/helpers.py:551-599 | a square 2s wide is covered by its four s-wide quarters, and each point lies in exactly the quarter of its halves |
| TilePyramid.SourcePaths | src/helpers.py:601-622 | four paths, source i's path for its coordinates at zoom + 1 |
| TilePyramid.SourceImages | src/helpers.py:624-635 | exactly four images: the stored file where it exists, a white 256×256 image where it does not |
| TilePyramid.OpenEach | src/helpers.py:624-632 | one image per path, in order: the file where it exists, a blank tile where it does not |
| TilePyramid.LeafletIndex | src/helpers.py:1299-1300 | `// sizes_map[zoom]` gives the tile whose square holds the pixel start; a zoom that is not a key raises |
| TilePyramid.Children | src/helpers.py:1350-1371 | a tile has four children |
| TilePyramid.ChildrenOfTile | src/helpers.py:1345-1371 | child i is (2x + i mod 2, 2y + i div 2) at zoom + 1; halving gives the parent back; the four are distinct |
| TilePyramid.ChildPaths | src/helpers.py:1350-1371 | four output paths |
| TilePyramid.ChildPathsReadBack | src/helpers.py:1350-1375 | each child's path reads back as that child and the four paths are distinct |
| TilePyramid.ChildReadBack | src/helpers.py:1350-1371 | each child's path reads back as that child |
| TilePyramid.SourcesAreChildren | src/helpers.py:592-599 | at a tile-aligned start, source i of the pixel-named scheme is child i of the Leaflet scheme |
| TilePyramid.DivideMultiple | src/helpers.py:1299-1300 | floor division of an exact multiple gives the factor |
| TilePyramid.MultiplyMonotone | src/helpers.py:1299-1300 | multiplying by a non-negative width is monotone |
| TilePyramid.RenameTiles | src/helpers.py:1290-1302 | new paths exist exactly when there are 19907 files and each renames; path i is the renaming of file i |
| TilePyramid.RenameEach | src/helpers.py:1294-1302 | the loop gives one new path per file, in order, and stops with none when one file does not rename |
| TilePyramid.RenamedPixelTile | src/helpers.py:1294-1301 | a tile stored at pixel start (ix·s, iy·s) is renamed to the Leaflet path of (ix, iy) |
| TilePyramid.Renamed | src/helpers.py:1294-1301 | one renamed path; `RenamedPixelTile` states the Leaflet path it gives |
| TilePyramid.NativeStarts | src/helpers.py:487-488 | the native level has 122 starts per axis, the last at 30976 |
| TilePyramid.Starts | src/helpers.py:487-488 | `range(0, 31102, step)`; `NativeStarts`, `StartsCover` and `StartsInside` state what it holds |
| TilePyramid.StartsCover | src/helpers.py:487-488 | every pixel of the image lies in exactly one tile of a level, the one at p div step |
| TilePyramid.TileOfPixelExists | src/helpers.py:691-692 | the tile of every pixel is one of the level's starts |
| TilePyramid.StartsInside | src/helpers.py:691-692 | every start of a level lies inside the image |
| TilePyramid.FlatIndexInverse | src/helpers.py:709 | pixel (x, y) at `x + y·31102` gives (x, y) back |
| TilePyramid.FlatIndex | src/helpers.py:709 | the flat position of a pixel; `FlatIndexInverse` and `FlatIndexBound` state that it is invertible and in range |
| TilePyramid.RowSlice | src/helpers.py:443-453 | a row slice has 256 values: the data where it exists, 255 padding after |
| TilePyramid.CoverRow | src/helpers.py:461-464 | the cover sets the last d columns to 255 and keeps the rest |
| TilePyramid.GenerateNativeTile | src/helpers.py:435-466 | the 256×256 tile holds `TilePixel` at every row and column |
| TilePyramid.TilePixel | src/helpers.py:443-464 | a tile's pixel; `TileShowsImage` states which image pixel it is |
| TilePyramid.FlatIndexBound | src/helpers.py:709 | the flat index of an image pixel lies within the data |
| TilePyramid.TileShowsImage | src/helpers.py:443-464 | the pixel at row i, column c of the tile at (sx, sy) is image pixel (sx + c, sy + i), and white outside the image |

## Left out

- Leaflet itself (`project`, `unproject`, `panTo`, `fitBounds`, markers and popups as
  widgets) is not part of this model: a pan target and a marker record the pixel handed
  to `unproject`, and `PixelCoords.PanThenClick` takes `project`/`unproject` as
  parameters with the one assumption that `project` undoes `unproject`.
- Networking and serving: `fetch`, FastAPI routing, static mounts, the zip tile server
  and the rate limit. Fetch results are parameters (`FetchOutcome`, `Fetched`,
  `SearchResponse`, `FetchResult`); an exception raised in a server handler is a
  non-ok response.
- The vector store's embedding lookup and nearest-neighbour query: its answer (ids and
  distances) is an input of `Similarity.Rows`; the `:.2f` formatting of distances is
  floating point and the distances arrive as strings.
- JSON encoding: the backend's double encoding (`json.dumps` of a list, decoded by
  `response.json()` then `JSON.parse`) is not modelled; the decoded rows are the input.
- IndexedDB: the object store is a map from `verse_id` to record; `openDB`'s upgrade
  callback is the outcome `Opened`/`OpenFailed`; a write transaction is all or nothing;
  the browser's wording of a constraint error is a constant.
- Timers and the worker thread: the five-second timeout and message delivery are
  explicit events of `VerseClient.Step`; promises are call records with a settlement.
- Floating point: projected coordinates are exact reals; `parseFloat` gives exact
  decimals; the range inputs' own rounding and clamping of assigned values is not
  modelled (their attributes are not part of the source shown).
- DOM details: an option list refilled by the loops selects its first option; the
  label write is a field; the markdown renderer and sanitiser of the changelog are not
  modelled (the popup holds the markdown text); `updateFilter`'s writes of the four
  value labels next to the sliders (static/scripts/map/app.js:110-113) are not modelled. `frontend/src/color_selector.js`, which
  only assigns the selected string to the filter, is not part of this model.
- `ColorPresets.ParseFloat`: `Infinity` and `-Infinity` (with their optional sign) read
  as NaN here, and an exponent large enough to overflow reads as an exact decimal, since
  the model's numbers are unbounded reals without infinities; no preset uses either.
- `ColorPresets.NumberTokenSets`: its hue clause leaves out the numeral 0 followed by a
  unit starting with `x` or `X`, which `parseInt` without a radix reads as a hexadecimal
  prefix; `ColorPresets.HexHueToken` states that case.
- `Markers.Placeable`: a coordinate is taken to be a number or absent. A coordinate
  that is a numeric string, which Leaflet's arithmetic would coerce, counts as not
  placeable; the backend always sends numbers (`Similarity.RowsAreNeighbours`).
- `Markers.PlacedCount`: counts rows under that assumption about coordinates.
- `Popup.UpperWordStarts`: `\w`, `\b` and `toUpperCase` follow ASCII; case changes of
  non-ASCII letters are not modelled since `\w` without the `u` flag never matches them.
- `TilePaths.Normalize`: models `os.path.normpath` only for paths without `.`/`..` parts
  or doubled separators, which is all the pipeline produces.
- The `\d` of Python's `re` also matches non-ASCII decimal digits; the model's digits
  are ASCII, which is what the paths contain.
- The orchestrators `generate_images_from_mmap`, `generate_images_zoom`,
  `generate_images_extra_zoom`, `downsize_images` and `upsize_image` only loop over the
  modelled index functions and do PIL and polars I/O (resize, paste, save, read); the
  resampling, the file copying of `copy_rename_tiles` and `os.makedirs` are left out.
- `helpers.pixel_info` reads two feather files; only its flat index is modelled
  (`TilePyramid.FlatIndex`).
- No shown file implements navigation between markers or grouping markers by search;
  the marker group is one flat list.
- Server start-up and shutdown (loading the verse table, opening the store and the
  zip archive) are I/O.

## Findings

| source | as written | input that shows it | evidently intended | confidence | as-written member | corrected member |
|---|---|---|---|---|---|---|
| src/main.py:47 | the guard admits `0 <= x <= len(verse_df)`, so `x == len` reaches `verse_df.row(x)`, which has no such row and raises | x = number of rows, any y in [0, rows]: the handler fails with a server error instead of returning the out-of-bounds dictionary | `0 <= x < len` and `0 <= y < len`, so every request gets a dictionary | high (not executed) | PixelInfo.GuardAsWrittenAdmitsLength | PixelInfo.GetPixelInfo |
| frontend/src/kjv.js:22-28 | each timer tests whether any resolver is pending and clears the single slot, even when a later call owns it | lookup A, A's reply, lookup B, A's timer fires, B's reply, B's timer fires: A's timer clears B's slot, B's reply is dropped, B's timer finds the slot empty, and B's promise never settles | the timer rejects its own call if still pending and clears the slot only when it holds that call's resolver, so every call settles | high (not executed) | VerseClient.ScenarioNeverSettles | VerseClient.EveryCallSettles |
