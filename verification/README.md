# prospfyy lead management — a Dafny model of its core logic

prospfyy is a lead-management front end. Users search a places API for businesses, mark the interesting ones as
leads, move leads through a six-stage pipeline on a kanban board, comment on them, and watch a dashboard of
counts. It also exports lists as CSV and keeps a light/dark theme in sync with the user's settings row.

This project models the parts of it that are logic rather than rendering. Each is a pure function over
immutable data, and every database, fetch, auth or browser-storage call becomes an input value: the reply the
code would have received.

| file | module | what it models |
|---|---|---|
| `wrappers.dfy` | `Wrappers` | `Option`, `Result`, a caught value (`Error` or not), a database reply |
| `strings.dfy` | `Strings` | the JavaScript string operations used: `trim`, `includes`, one-character `replace`, `split`/`join`, integer `toString` |
| `seqs.dfy` | `Seqs` | `filter`, `map`, `find`, counting, and an insertion-ordered histogram (the `reduce` into an object followed by `Object.entries`) |
| `types.dfy` | `Types` | the `Lead`, `Comment` and `Business` records and the lead pipeline's six stages |
| `kanban_board.dfy` | `KanbanBoard` | the business board: its own six stages, the column filter, `onDragEnd` as written, and the corrected move |
| `lead_kanban.dfy` | `LeadKanban` | the lead board: the column filter, the drop decision and refresh, the drag/click guard |
| `lead_details.dfy` | `LeadDetails` | the comment form: guard, insert payload, appended thread, button enablement |
| `dashboard.dfy` | `Dashboard` | totals by outcome, the per-stage and per-day histograms, the seven-day trend |
| `csv.dfy` | `Csv` | the generic CSV exporter |
| `empresas.dfy` | `Empresas` | the business search page: checks, status dispatch, detail filtering and defaults, `inLeads`, history count, fixed-column CSV |
| `maps.dfy` | `Maps` | the places-search helper: input checks, term extraction from a maps link, cleaning, result defaults, rethrown messages |
| `login.dfy` | `Login` | the login form: error translation, notices, field clearing, mode switch |
| `layout.dfy` | `Layout` | the theme: initial mode, toggle, settings sync, reconciliation on sign-in |

## Model

| member | source | states |
|---|---|---|
| KanbanBoard.Column | src/components/KanbanBoard.tsx:48-49 | a column holds exactly the board's cards with that column's status, and only cards with that status |
| KanbanBoard.ColumnsPartition | src/components/KanbanBoard.tsx:48-49 | since every card is in exactly one column, the six column sizes add up to the number of cards |
| KanbanBoard.ColumnAppend | src/components/KanbanBoard.tsx:48-49 | the column of two lists put together is the first list's column followed by the second's, so filtering keeps the board's order |
| KanbanBoard.FindByName | src/components/KanbanBoard.tsx:34 | the dragged card is the first card whose name is the draggable id; it is absent exactly when no card has that name |
| KanbanBoard.SpliceRemove | src/components/KanbanBoard.tsx:41 | removing at an index drops exactly that element and shifts the later ones down; an index past the end removes nothing |
| KanbanBoard.SpliceInsert | src/components/KanbanBoard.tsx:42 | inserting puts the card at the index, or at the end when the index is past it, and keeps every other element in order |
| KanbanBoard.SpliceInsertRemove | src/components/KanbanBoard.tsx:41-42 | removing an element at the position it was inserted at undoes the insertion |
| KanbanBoard.OnDragEnd | src/components/KanbanBoard.tsx:22-46 | no destination, a drop on the starting position, or an unknown name changes nothing and notifies nobody; otherwise the owner is told once of the found card with only its status replaced, the list keeps its length when the source index is in range (grows by one when not), the updated card sits at the destination index when that index is in range, the multiset changes only by the removed card and the updated one, and removing the updated card again gives back exactly the list with the source index removed, so every other card is where that removal left it |
| KanbanBoard.DragEndLosesOtherCard | src/components/KanbanBoard.tsx:40-42 | on a board with one card in "Lead" and one in "Fechado", dragging the "Fechado" card to the top of "Lead" removes the other card and shows the dragged business twice |
| KanbanBoard.TwoColumnDrop | src/components/KanbanBoard.tsx:40-42 | on that two-card board the drop leaves exactly the dragged business twice, once in "Lead" and once in "Fechado" |
| KanbanBoard.InsertionPoint | src/components/KanbanBoard.tsx:42 | the whole-list position for a drop lies within the list, and when it is not the end it is a card of the target column, so the dropped card goes just before that card |
| KanbanBoard.InsertionPointColumn | src/components/KanbanBoard.tsx:42 | exactly the requested number of target-column cards come before the insertion point, or the whole column when it is shorter |
| KanbanBoard.MoveCard | src/components/KanbanBoard.tsx:40-42 | moving the dragged card loses and duplicates nothing (the multiset changes only by the card's new status), puts it at the requested position of its new column with that column's other cards in their old order around it, and leaves every other column as it was without it |
| KanbanBoard.OnDragEndByCard | src/components/KanbanBoard.tsx:22-46 | the corrected drop: the same no-op cases and the same single notification, with the dragged card itself moved as `MoveCard` states, so the target column reads its old cards with the moved card inserted at the destination index |
| KanbanBoard.ColumnSplitAt | src/components/KanbanBoard.tsx:48-49 | cutting the list at a position cuts its column at the number of column cards before that position |
| KanbanBoard.MovedCardColumns | src/components/KanbanBoard.tsx:48-49 | inserting a card into the list adds it to its own column just after the column's earlier cards and leaves the other columns unchanged |
| LeadKanban.Column | src/components/LeadKanban.tsx:26-28 | a column holds exactly the leads in that stage, drawn from the `leads` input, which is not changed |
| LeadKanban.ColumnAppend | src/components/LeadKanban.tsx:26-28 | the column of two lead lists put together is the first list's column followed by the second's, so a column keeps the input order, which is the order the cards render in and their drag indices |
| LeadKanban.ColumnSingleton | src/components/LeadKanban.tsx:26-28 | a single lead is in a column exactly when it is in that stage |
| LeadKanban.ColumnsPartition | src/components/LeadKanban.tsx:8-15 | since every lead is in exactly one stage column, the counts in the column headers add up to the number of leads |
| LeadKanban.FindById | src/components/LeadKanban.tsx:36 | the dropped lead is the first with the draggable id; it is absent exactly when no lead has it |
| LeadKanban.UpdateRequest | src/components/LeadKanban.tsx:33-50 | no update without a destination, for an unknown id, or for a drop into the lead's own stage whatever the index; otherwise exactly one update, for the dropped lead, to the destination stage |
| LeadKanban.DragStart | src/components/LeadKanban.tsx:65 | starting a drag sets the dragging flag and keeps the open modal |
| LeadKanban.CardClick | src/components/LeadKanban.tsx:100 | a click during a drag changes nothing; otherwise it opens that lead's details |
| LeadKanban.DragEnd | src/components/LeadKanban.tsx:30-59 | the drag is over afterwards; the owner is asked to reload exactly when an update was sent and reported no error, and an alert shows exactly when it reported one |
| LeadKanban.ClickDuringDragIgnored | src/components/LeadKanban.tsx:65-100 | a click between drag start and drag end is ignored, and the drag flag is cleared at the end |
| LeadDetails.AppendComment | src/components/LeadDetailsModal.tsx:37-40 | the updated lead has one more comment, the old thread as a prefix, the new comment last, and every other field unchanged |
| LeadDetails.HandleAddComment | src/components/LeadDetailsModal.tsx:16-50 | blank text or a submit in flight does nothing; without a user nothing is inserted and a failure is alerted; otherwise one row with the lead id, non-empty text and the user id is inserted; success hands over the lead with the comment appended and clears the box, failure keeps the text and alerts; the in-flight flag ends false |
| LeadDetails.InsertCarriesTrimmedText | src/components/LeadDetailsModal.tsx:25-31 | an enabled submit by a signed-in user inserts the box's text trimmed, under the lead's id and the user's id |
| Strings.BlankTrim | src/components/LeadDetailsModal.tsx:18 | `!text.trim()` holds exactly when every character of the text is whitespace |
| LeadDetails.SendButtonMatchesGuard | src/components/LeadDetailsModal.tsx:151 | the send button is enabled exactly when a submit would do something |
| LeadDetails.NoDoubleInsert | src/components/LeadDetailsModal.tsx:18-43 | after a successful submit, submitting again inserts nothing until new text is typed |
| Dashboard.ComputeStats | src/pages/Dashboard.tsx:54-57 | the total is the number of leads; the closed and lost counts are the numbers of leads in "Fechado" and "Perdido"; the active, closed and lost counts add up to the total, and the active count is the number of leads in the four open stages, so it is never negative |
| Dashboard.StatusHistogram | src/pages/Dashboard.tsx:71-81 | one entry per stage that occurs and none for absent stages, each with a count of at least 1 that is the number of leads in that stage; the counts add up to the number of leads |
| Dashboard.LeadsByDay | src/pages/Dashboard.tsx:84-88 | per day, the number of leads created that day; the counts add up to the number of leads |
| Dashboard.Trend | src/pages/Dashboard.tsx:96-101 | one point per day of the window, in order, carrying that day's count from the record, which is 0 exactly for days that have no entry |
| Dashboard.LoadDashboard | src/pages/Dashboard.tsx:38-101 | data is shown only with a user and a successful query; the pie chart gives each stage's number of leads and agrees with the totals, and the trend has seven points, each the number of leads created on that day |
| Csv.CellText | src/utils/csv.ts:7 | a missing, null or empty value gives an empty cell; text is written as is and integers as their decimal numeral |
| Csv.QuoteIfComma | src/utils/csv.ts:8 | a cell is wrapped in double quotes exactly when it contains a comma, and is otherwise written verbatim; quoting adds no comma or line break |
| Csv.RowCells | src/utils/csv.ts:6-9 | a data line has one cell per header, in header order |
| Csv.CsvLines | src/utils/csv.ts:3-11 | the list of records holds the header record and one record per row |
| Csv.ExportToCsv | src/utils/csv.ts:2-13 | an empty input fails (there is no first row to read headers from), and any other input produces the file of its lines joined by line breaks |
| Csv.CsvLineStructure | src/utils/csv.ts:3-13 | without line breaks in the data, the file splits into exactly one line per row plus the header line, which is the first row's keys joined by commas |
| Csv.RowLineCells | src/utils/csv.ts:5-10 | a line whose cells have no commas splits back into exactly one cell per header, in header order |
| Empresas.OrNull | src/pages/Empresas.tsx:113-114 | a missing or empty phone or website becomes null, and a non-empty one is kept as it is |
| Empresas.DetailsToBusiness | src/pages/Empresas.tsx:95-122 | a hit yields a business exactly when its details arrived with status OK and a location; the business's id and place id are the place id, its name and address are the details', a present rating or review count is kept and a missing one is 0, and a non-empty phone or website is kept while a missing or empty one is null |
| Empresas.SettleDetails | src/pages/Empresas.tsx:92-124 | every details request settles as fulfilled, one per hit, in hit order |
| Empresas.ValidPlaces | src/pages/Empresas.tsx:126-130 | the valid places are exactly the fulfilled, non-null detail results |
| Empresas.ValidPlacesAppend | src/pages/Empresas.tsx:126-130 | the filtering keeps the original order |
| Empresas.MarkInLeads | src/pages/Empresas.tsx:148-161 | each business is marked in-leads exactly when its id is some existing lead's business id, and nothing else about it changes |
| Empresas.ListResults | src/pages/Empresas.tsx:126-161 | the listed businesses are the valid places in order, each marked by lead membership (none marked when the leads query returns nothing), and the history records their number |
| Empresas.HandlePlacesReply | src/pages/Empresas.tsx:63-90 | a thrown request shows the caught error's message; a non-2xx response gives the connection error; `ZERO_RESULTS` records 0 and clears the list; `REQUEST_DENIED` gives its message; any other non-OK status gives the generic message naming it; history always names the user and the query |
| Empresas.SearchBusinesses | src/pages/Empresas.tsx:45-173 | a missing key gives the configure-key error before the query is looked at, and a blank query gives the empty-term error, both before any request; without a user nothing happens; a listed result always carries a history entry counting it |
| Empresas.Quoted | src/pages/Empresas.tsx:188 | every export cell is its text between double quotes |
| Empresas.ExportFields | src/pages/Empresas.tsx:176-184 | a business exports one field per column title, in the titles' order: name, rating and review count as numerals that read back as the numbers, address, and phone and website as they are or empty text when null |
| Empresas.ExportRowCells | src/pages/Empresas.tsx:177-188 | a data line has six quoted cells, a null phone or website being an empty quoted cell |
| Empresas.ExportRowLineBreak | src/pages/Empresas.tsx:177-188 | a data line has no line break when its fields have none |
| Empresas.ExportRowSplit | src/pages/Empresas.tsx:177-188 | a data line whose fields have no commas splits at commas into six cells, each holding its field between quotes |
| Empresas.ExportCsv | src/pages/Empresas.tsx:186-189 | the export starts with the fixed header line, and is exactly that line when there are no businesses |
| Empresas.ExportStructure | src/pages/Empresas.tsx:186-189 | without line breaks in the data, the export is the fixed header line followed by exactly one line per listed business, in order |
| Maps.FirstSearchMatch | src/utils/maps.ts:26 | the `/search/` pattern matches at the leftmost position where the marker is followed by a character other than `/` |
| Maps.RunUntilSlash | src/utils/maps.ts:26 | the capture is the longest run up to the next `/` or the end |
| Maps.SearchTerm | src/utils/maps.ts:24-30 | a term is found exactly when the pattern matches somewhere; it is the run of characters up to the next `/` after the leftmost match, so it is non-empty and free of `/` |
| Maps.FirstAtTail | src/utils/maps.ts:43 | `/@.*$/` matches at the leftmost `@` followed by no line terminator |
| Maps.StripAtTail | src/utils/maps.ts:43 | stripping keeps the prefix before that `@`, or the whole text when there is none |
| Maps.ExtractTerm | src/utils/maps.ts:18-46 | a plain query is kept; a link that does not parse fails with the parse error; otherwise the `/search/` term wins, then a `q` parameter, then the last path segment without its `@…` tail when the path has more than two parts, else the query itself |
| Maps.SearchPathSegment | src/utils/maps.ts:26 | on a `/maps/search/<term>` path, optionally followed by more path, the capture is exactly the term |
| Maps.SearchPathTerm | src/utils/maps.ts:24-30 | a `/maps/search/<term>` link yields the term with `+` as a space, whatever its `q` parameter says |
| Maps.CleanQuery | src/utils/maps.ts:49-51 | the term sent has no `+` and no whitespace at either end; it is the trimmed form of the query with each `+` read as a space (`PlusToSpace` maps each character, `Trim` keeps the infix between the leading and trailing whitespace), and everything cut off is a `+` or whitespace |
| Maps.PlusToSpace | src/utils/maps.ts:50 | the result has the query's length, each `+` read as a space and every other character kept, so no `+` is left |
| Maps.CleanQueryDrops | src/utils/maps.ts:49-51 | every character cleaning cuts off is a `+` or whitespace |
| Strings.Trim | src/utils/maps.ts:51 | `trim` keeps the infix after the leading whitespace, everything before and after it is whitespace, neither end of the result is whitespace, the result is empty exactly for an all-whitespace text, and a text without whitespace at its ends is kept |
| Maps.CleanQueryIdempotent | src/utils/maps.ts:49-51 | cleaning a cleaned term changes nothing |
| Maps.OrText | src/utils/maps.ts:88-93 | a missing or empty text takes the fallback |
| Maps.ToBusiness | src/utils/maps.ts:87-94 | a result never lacks a name or an address (the "not available" texts stand in); missing counts are 0, and a missing website or phone, or missing details, gives empty text |
| Maps.RethrownMessage | src/utils/maps.ts:99-106 | a caught `Error` is rethrown with the same message, and anything else with the generic message |
| Maps.HandleReply | src/utils/maps.ts:53-98 | a non-2xx reply fails with the API error naming its `error_message` ("Erro desconhecido" when the body is unreadable); no results fails with the no-results message; otherwise there is one business per hit, in order |
| Maps.SearchBusinesses | src/utils/maps.ts:8-108 | an empty query fails before the key is checked and an empty key fails next, both without a request; a request is sent exactly when a term could be extracted, and that term has no `+` and no surrounding whitespace |
| Login.TranslateError | src/pages/Login.tsx:30-48 | the three known service messages get their Portuguese texts, any other `Error` message passes through, and a non-`Error` value gives the unexpected-error text |
| Login.Submit | src/pages/Login.tsx:14-52 | loading is off afterwards and the mode is kept; a successful sign-up shows the confirmation and clears email and password; a successful sign-in shows nothing and keeps them; a failure shows only the translated error and keeps them |
| Login.SubmitForgetsNotices | src/pages/Login.tsx:16-18 | a submit's result does not depend on the notices shown before it |
| Login.ToggleMode | src/pages/Login.tsx:161-165 | switching flips the mode, clears both notices and keeps email and password |
| Login.ToggleTwice | src/pages/Login.tsx:161-165 | switching twice returns to the first mode, with only the notices cleared |
| Layout.ThemeText | src/components/Layout.tsx:99 | the saved text is `dark` exactly for dark mode |
| Layout.InitialTheme | src/components/Layout.tsx:11-19 | a non-empty saved entry decides (dark exactly when it reads `dark`); otherwise the system preference does |
| Layout.SyncTheme | src/components/Layout.tsx:22-51 | without a user nothing is written; otherwise the mode is written, and only a missing-row error creates the row with the mode and a 10 km radius |
| Layout.Toggle | src/components/Layout.tsx:94-105 | the mode flips, the saved entry records the new mode, and a remote write happens exactly when a user is signed in |
| Layout.ToggleSurvivesReload | src/components/Layout.tsx:94-99 | after a toggle a reload starts in the toggled mode, whatever the system preference |
| Layout.ToggleTwice | src/components/Layout.tsx:94-99 | toggling twice restores the mode, and also the saved entry when it recorded the mode |
| Layout.LoadSettings | src/components/Layout.tsx:63-92 | a settings row whose mode differs from what the saved entry says replaces the mode and the entry; a missing row starts a sync of the current mode; anything else changes nothing |
| Layout.RemoteLightIgnored | src/components/Layout.tsx:74-80 | with nothing saved and a dark system preference, a settings row asking for light leaves the shell dark |
| Layout.LoadSettingsByMode | src/components/Layout.tsx:74-80 | the corrected reconciliation: a settings row always decides the mode shown; when it changes the mode the saved entry is rewritten to match, when it agrees with the mode shown nothing changes, and an entry that recorded the mode shown still does afterwards |
| Layout.LoadAgreesWhenConsistent | src/components/Layout.tsx:74-80 | when the saved entry records the mode shown, the code as written and the corrected reconciliation agree |

## Left out

- Network, database, auth, `localStorage`, `window.matchMedia`, `Blob` downloads and `console` output: their replies and values are inputs, and the downloads and logs are not modelled.
- Concurrency: the promises of `Promise.all` and `Promise.allSettled` are taken in order. Two submits racing before a React state update are not modelled.
- Floating point: the conversion rate and average rating on the dashboard, latitudes and longitudes, the search radius in metres, and `Number(x) || 0` on a NaN. Ratings and counts are integers.
- Dates: a lead's day key, the construction of the last seven days (an input of seven keys), and the `created_at`/`updated_at` timestamps written with each row.
- Dashboard.LoadDashboard: the search-history query after the counts, and the `taxaConversao`/`mediaAvaliacoes` values, are not modelled.
- Empresas: the settings loading that supplies the API key (its outcome is the key input) and the request URLs are not modelled.
- Maps.ExtractTerm: `new URL` is an input (its path and `q`, or the parse error). Percent decoding is taken as already done, so a malformed escape that would raise `URIError` is not modelled.
- Maps.CleanQuery: the `decodeURIComponent` applied to every query, URL or not, is not modelled; a plain query such as `100%` makes the source throw `URIError` before any request, which Maps.SearchBusinesses does not reproduce.
- Maps.SearchBusinesses: `encodeURIComponent` of the request URL is not modelled; the request is the cleaned term.
- Login.Submit: the auth provider exposes no `signUp`, so in the running application a sign-up fails with a `TypeError` whose message passes through. The model takes the service's outcome as an input and covers that case as one failure among others.
- Csv.CellText: only text, integers below 1e21 in magnitude, booleans, `null` and `undefined` are modelled. A fraction (`1.5`) and a magnitude of 1e21 or more (`1e+21`), which `toString` writes with a decimal point or in exponent form, are not. A nested object gives `[object Object]` and an array gives its elements joined by commas, which then triggers quoting; the helper has no caller in the application, so its rows are not constrained further.
- Csv.CsvLineStructure: cells with a line break or a double quote are not escaped by the source, so no round trip is claimed for them; the line structure is stated only for data without line breaks.
- Empresas.ExportStructure: the same holds for the fixed-column export.
- KanbanBoard: the board copies its input list once at mount and never re-reads it. Each business's board status is modelled next to the `Business` record, because the record type declares none.
- Rendering, routing, the settings page, the business table, the search form, the API-key form, the sidebar, the development proxy server and build configuration are not modelled. The lead-management page is a stub that only logs.
- There is no optimistic update with rollback, no serialisation of writes per lead, no editing or deleting of comments and no author-only permission check in the code; none is modelled.

## Findings

| source | as written | input that shows it | evidently intended | confidence | as-written member | corrected member |
|---|---|---|---|---|---|---|
| src/components/KanbanBoard.tsx:40-42 | the drag library's column-relative `source.index` is used to splice the whole list | one card in "Lead", one in "Fechado"; drag the "Fechado" card (column index 0) to the top of "Lead" | remove the dragged card itself and insert it at the destination position of its new column | high; not executed | KanbanBoard.OnDragEnd, KanbanBoard.DragEndLosesOtherCard | KanbanBoard.OnDragEndByCard |
| src/components/Layout.tsx:74-80 | the settings row's `dark_mode` is compared with "the saved entry reads `dark`", not with the mode shown | no saved theme, system preference dark, settings row with `dark_mode = false` | the settings row decides the mode shown after sign-in | medium; not executed | Layout.LoadSettings, Layout.RemoteLightIgnored | Layout.LoadSettingsByMode |
