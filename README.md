# Crossword Solver: solving steps from the server to the page

This project is a Dafny model of the two stateful halves of the Crossword
Solver web application.

- **The Flask server (app.py).**
  - `/generate` opens a solving session in `solving_sessions`.
  - A background thread runs `AnimatedCrosswordCreator.backtrack`. Every decision of the search is queued as a numbered step: `select_variable`, `try_word`, `place_word`, `backtrack` or `reject_word`, each with the board as `get_current_grid` serialises it.
  - `/solving-progress/<id>` hands the queued steps out and empties the queue.
  - `/get-file-preview` parses a structure or word file for the preview.
  - `/` lists the data files.
- **The browser client (static/js/script.js).**
  - `generateCrossword` resets the counters and starts a poll loop.
  - Every 100 ms the loop fetches the progress and replays each step in order. A step moves the three counters, appends to a log trimmed to 50 entries, and redraws the board with the step's slot highlighted.
  - The loop stops at the 200-poll ceiling, on an error, on a thrown exception, or on completion, when the result is shown.

Modules, one per file:

- `Protocol`: the JSON values exchanged (steps, step data, grids, progress responses) and JavaScript truthiness of strings.
- `ServerGrid`: the grid serialiser, both as a function and as the nested loops of `get_current_grid`.
- `ServerText`: `strip`/`split`, the structure and word previews, `get_file_preview`, and the `index` file filter and sort.
- `ServerSessions`: the session table as functions. Also the class `SessionStore`, whose methods change the table in place and are proved against those functions.
- `ServerSearch`: the instrumented search.
  - `Search`, `TryValues`, `TryHead` and `Placed` give the step trace and result of `backtrack` as functions.
  - The class `Creator` (the `AnimatedCrosswordCreator` object) queues steps through `add_step`. Its recursive `Backtrack` method is proved to queue exactly that trace, numbered from 1.
  - `SolveWithTracking` models the background thread.
- `ClientReplay`: the pure parts of the replay:
  - the counter fold;
  - log entries and the last-50 trim;
  - the highlighted cells and their status;
  - the word preview.
- `ClientPage`: the page's globals as the class `Client`, changed in place by its methods. Each method is proved against a function on a `Page` value; lemmas about those functions cover whole poll runs.
- `EndToEnd`: the server's trace replayed by the client:
  - no step is lost;
  - the client's counters equal the counts of the search's step types, however the polls batch the steps.

The solver primitives that `AnimatedCrosswordCreator` inherits are not part of this model:
- the domains after the consistency passes;
- `select_unassigned_variable`;
- `consistent`;
- `letter_grid`.

They are fields of `ServerSearch.Problem`. `WellFormed` constrains them only as far as `backtrack` relies on:
- every letter grid covers the board;
- the selected variable is unassigned while some variable is unassigned.

The code at script.js:268-270 shows `data.error` once a response is complete. That branch can never run, because script.js:253-254 has already thrown on a truthy `data.error`. `Client.HandleResponse` marks it with `assert false`. `ErrorNeverDelivers` states the consequence: a response with an error never delivers a result.

`reject_word` steps carry no grid (app.py:329-338). So the `error` status that `updateVisualizationGrid` can draw for a `reject_word` step never appears for steps this server sends. `ErrorMarksNeedRejectGrid` and `EndToEnd.ReplayMatchesSearch` state this.

A search that finds no solution ends its session with the error "No solution found" (app.py:76). The poll that reports it may also carry the last queued steps. The client throws on the error (script.js:253-254) before replaying them, so it never counts or logs that final batch. `Consume` models this. `EndToEnd.ClientCountsSearch` therefore assumes poll replies without errors.

## Model

| member | source | states |
|---|---|---|
| Protocol.OccurrencesAppend | static/js/script.js:299-310 | the number of steps of a type in two batches is the sum over each batch |
| ClientReplay.FoldStatsCounts | static/js/script.js:299-310 | after any run of steps, attempts, backtracks and placements have grown by exactly the number of try_word, backtrack and place_word steps; select_variable and reject_word change nothing |
| ClientReplay.FoldStatsAppend | static/js/script.js:257-262 | replaying two batches one after the other moves the counters as replaying their concatenation |
| ClientReplay.TypesAppend | static/js/script.js:257-262 | the step types of two batches are the types of each, in order |
| ClientReplay.LogEntryOf | static/js/script.js:322-347 | a step has a log entry of its own type, except a select_variable step without a variable, whose message throws |
| ClientReplay.EntriesAppend | static/js/script.js:317-348 | the entries of two batches are the entries of each, in order |
| ClientReplay.LastNAppend | static/js/script.js:350-356 | trimming the log to 50 after every append keeps exactly what one trim of the whole log keeps |
| ClientReplay.LastNConcat | static/js/script.js:350-356 | trimming after each entry of a batch equals trimming once after the batch |
| ClientReplay.SpanPrefixMembers | static/js/script.js:372-397 | the first n cells of an across or down slot are n distinct cells, exactly those the slot of length n spans |
| ClientReplay.HighlightIsSlot | static/js/script.js:370-398 | for an across or down variable inside the board, the highlighted cells are exactly its length cells from (i, j); each has the status of the step type (success, error, trying, or none), and all other cells have none |
| ClientReplay.NothingHighlighted | static/js/script.js:370-371 | without a variable, or with a direction that is neither across nor down, nothing is highlighted |
| ClientReplay.RepresentedAppend | static/js/script.js:161-175 | the words a preview stands for add up over two runs of tags |
| ClientReplay.RepresentedWords | static/js/script.js:161-167 | a run of word tags stands for one word each |
| ClientReplay.WordsPreviewShape | static/js/script.js:157-179 | the preview shows the first min(n, 10) words upper-cased, then one "+(n-10) more" tag exactly when n > 10, and stands for all n words |
| ClientPage.Flip | static/js/script.js:485-496 | the toggle always switches to the other view |
| ClientPage.ToggleRestoresView | static/js/script.js:485-496 | toggling twice restores the view |
| ClientPage.Counted | static/js/script.js:257-262 | no more steps move the counters than the response holds |
| ClientPage.Logged | static/js/script.js:257-262 | no more steps are logged than the response holds |
| ClientPage.LoggedPrefix | static/js/script.js:257-262 | the completely replayed steps are all loggable; all steps are replayed exactly when all are loggable |
| ClientPage.ReplayFails | static/js/script.js:257-262 | replay throws exactly when some step is a select_variable step without a variable |
| ClientPage.ReplayStats | static/js/script.js:287-293 | replay moves the counters by the steps up to and including the one that throws |
| ClientPage.EntriesCons | static/js/script.js:317-348 | the entries of a loggable step followed by loggable steps |
| ClientPage.ReplayLog | static/js/script.js:350-356 | the log after a replay is the last 50 of the old log followed by the entries of the completely replayed steps |
| ClientPage.ReplayEffect | static/js/script.js:257-262 | replaying a response moves the counters by the counted steps, sets the log to the last 50 entries in arrival order, and fails exactly when a step cannot be logged |
| ClientPage.NoGridNoRedraw | static/js/script.js:291-293 | steps without a grid never redraw the board |
| ClientPage.ErrorMarksNeedRejectGrid | static/js/script.js:376-395 | only a reject_word step that carries a grid can draw the error status |
| ClientPage.Client.constructor | static/js/script.js:4-12 | the page loads with zero counters, no session, the grid view and no image |
| ClientPage.Client.UpdateSolvingStats | static/js/script.js:299-315 | the counter the step type names grows by one and the others stay |
| ClientPage.Client.UpdateSolvingLog | static/js/script.js:317-357 | appends the step's entry and drops the oldest while more than 50 remain; fails, leaving the log alone, when the entry cannot be built |
| ClientPage.Client.UpdateVisualizationGrid | static/js/script.js:359-405 | the board becomes the step's grid with the step's marks |
| ClientPage.Client.ProcessStep | static/js/script.js:287-297 | counters first, then the log, then the board when the step carries a grid |
| ClientPage.Client.ReplaySteps | static/js/script.js:257-262 | the steps are processed in array order, up to the first that throws |
| ClientPage.Client.ShowError | static/js/script.js:550-555 | the message is shown in the banner and the result display is hidden |
| ClientPage.Client.ShowFailure | static/js/script.js:278-283 | the loop stops, the overlay hides, the message is shown and the result display is hidden |
| ClientPage.Client.Tick | static/js/script.js:239-284 | one interval firing: nothing once stopped; past 200 polls it stops with the timeout message without fetching; a throwing fetch stops with its message; otherwise the response is handled |
| ClientPage.Client.HandleResponse | static/js/script.js:250-277 | an error stops the loop before any step; otherwise every step is replayed before complete is examined, and a complete response stops the loop and delivers the result when present |
| ClientPage.Client.Generate | static/js/script.js:192-233 | shows the overlay, hides the error and zeroes the counters; on success clears the panel and starts a fresh loop for the returned session, otherwise shows the error and hides the result display |
| ClientPage.Client.HandleFormSubmit | static/js/script.js:55-70 | an empty selection shows the selection error and hides the result display; otherwise the generation starts |
| ClientPage.Client.ToggleView | static/js/script.js:485-496 | the view becomes the other view |
| ClientPage.Client.DownloadImage | static/js/script.js:511-529 | without image data the download error is shown, the result display is hidden and nothing is downloaded; otherwise the image data is downloaded and the banner and display are unchanged |
| ClientPage.GenerateStartsPolling | static/js/script.js:197-201 | a started generation has zero counters, an empty log, no board, and a running loop at poll 0 |
| ClientPage.TickKeepsInvariant | static/js/script.js:236-247 | a tick keeps the poll bookkeeping consistent and the log within 50 entries |
| ClientPage.RunKeepsInvariant | static/js/script.js:236-247 | any run of ticks issues at most 200 fetches |
| ClientPage.StoppedStaysPut | static/js/script.js:239-284 | after any stop no tick changes anything |
| ClientPage.TimeoutTick | static/js/script.js:240-247 | the tick on which pollCount passes 200 fetches nothing, stops, shows the timeout message and hides the result display |
| ClientPage.PollingTerminates | static/js/script.js:236-247 | whatever the server answers, the loop has stopped after 201 - pollCount ticks |
| ClientPage.FreshLoopBounded | static/js/script.js:235-247 | a fresh loop fetches at most 200 times and has stopped after 201 ticks |
| ClientPage.ErrorNeverDelivers | static/js/script.js:250-277 | an error response stops the loop with that error before replaying anything and hides the result display, even when it says complete and carries a result |
| ClientPage.CompleteAfterReplay | static/js/script.js:257-277 | a complete response without error has all its steps replayed before the loop stops and its result delivered |
| ClientPage.IncompleteKeepsPolling | static/js/script.js:253-265 | a response that is neither an error nor complete keeps the loop running |
| ClientPage.RunStatsFold | static/js/script.js:257-262 | after a run of ticks the counters are the fold of every counted step in receipt order |
| ClientPage.SessionCountersAreCounts | static/js/script.js:197-201 | after a generation starts, each counter equals the number of counted steps of its type |
| ClientPage.SubmitNeedsBothFiles | static/js/script.js:61-64 | an empty selection only shows the selection error and hides the result display |
| ServerGrid.GetCurrentGrid | app.py:342-362 | the nested loops build the serialised grid |
| ServerGrid.SerialiseRoundTrip | app.py:84-98 | the serialised grid has height rows of width cells; cell types give back the structure and letters give back the letters of open cells; blocked cells have the empty letter |
| ServerText.LeadingSpace | app.py:222 | the whitespace prefix strip removes |
| ServerText.TrailingSpace | app.py:222 | the whitespace suffix strip removes |
| ServerText.Strip | app.py:222 | the stripped text is a slice of the content with only whitespace outside it, and starts and ends with non-whitespace |
| ServerText.Split | app.py:222 | split gives at least one piece, and no piece holds the separator |
| ServerText.JoinSplit | app.py:222 | joining the pieces of a split gives back the text |
| ServerText.SplitJoin | app.py:222 | splitting a join of separator-free pieces gives back the pieces |
| ServerText.Lines | app.py:222-235 | the stripped content split on newlines has at least one line |
| ServerText.PreviewRow | app.py:225-231 | one tag per character of the line |
| ServerText.PreviewRows | app.py:223-231 | one row per line |
| ServerText.ParseStructurePreview | app.py:220-232 | the loops build the rows of tags, "_" as cell and every other character as blocked |
| ServerText.RowCells | app.py:227-230 | a row has as many cell tags as its line has underscores |
| ServerText.SplitKeepsOthers | app.py:222 | splitting keeps every character other than the separator |
| ServerText.SplitCountsSeparators | app.py:222 | a split has one piece more than the text has separators |
| ServerText.PreviewCells | app.py:223-231 | the preview has as many cell tags as the lines have underscores |
| ServerText.StructurePreviewCounts | app.py:220-232 | the preview has one row per line of the stripped content, each as long as its line, and one cell per underscore |
| ServerText.GetFilePreview | app.py:204-236 | no filename and unknown files are refused with their messages; a structure is parsed into rows; any other type is returned as the stripped content split into lines |
| ServerText.LexLeTotal | app.py:37-38 | any two names are ordered one way or the other |
| ServerText.LexLeTrans | app.py:37-38 | the name order is transitive |
| ServerText.InsertPermutes | app.py:37-38 | insertion adds the name and nothing else |
| ServerText.InsertAtLeast | app.py:37-38 | insertion keeps a lower bound |
| ServerText.SortedCons | app.py:37-38 | a lower bound in front of a sorted list stays sorted |
| ServerText.InsertSorted | app.py:37-38 | insertion into a sorted list keeps it sorted |
| ServerText.SortStringsSorts | app.py:37-38 | sort gives a sorted permutation of the list |
| ServerText.FilterMembers | app.py:31-35 | a file is a structure exactly when it is listed and named structure*.txt, and a word list exactly when listed and named words*.txt but not a structure |
| ServerText.IndexFiles | app.py:26-38 | both lists come back sorted and are permutations of the filtered files; without a data directory both are empty |
| ServerText.IndexPartition | app.py:30-35 | a file is in structures exactly when it starts with "structure" and ends with ".txt", in words exactly when it is not a structure and starts with "words" and ends with ".txt", and never in both |
| ServerSessions.StartOutcome | app.py:45-123 | a generation starts exactly when both names are given and exist; a refusal leaves the table alone and names the missing selection; a start stores a fresh session under the given id or the clock's and touches no other |
| ServerSessions.WithStepsEffect | app.py:259 | queuing appends to the session's steps and changes nothing else |
| ServerSessions.WithStepsTwice | app.py:259 | queuing twice is queuing both batches in order |
| ServerSessions.FinishOutcome | app.py:69-113 | finishing marks the session complete with "No solution found", the result, or the exception text, keeps its queue and touches no other session |
| ServerSessions.ClientView | app.py:131-132 | an unknown session reads as an error "Session not found" with no steps |
| ServerSessions.PollDrains | app.py:131-148 | a poll hands out the queued steps and empties the queue, so a second poll hands out nothing with the same flags; an unknown id changes nothing |
| ServerSessions.PollReportsOutcome | app.py:136-143 | a reply carries a result only when complete, and a complete reply carries an error or a result |
| ServerSessions.OperationsKeepTableOk | app.py:62-148 | every operation keeps every session consistent |
| ServerSessions.EventKeepsSteps | app.py:131-148 | one queue or poll event hands out and keeps exactly the steps queued before it plus its own |
| ServerSessions.NoStepLostOrRepeated | app.py:131-148 | for any interleaving of whole add_step, poll and finish calls, the steps handed out followed by those still queued are the queued steps in order |
| ServerSessions.SessionStore.constructor | app.py:20 | the table starts empty |
| ServerSessions.SessionStore.StartGeneration | app.py:45-66 | the table and reply are those of the generate route |
| ServerSessions.SessionStore.AppendStep | app.py:259 | the step is appended to the session's queue |
| ServerSessions.SessionStore.FinishSession | app.py:69-113 | the session ends with its outcome |
| ServerSessions.SessionStore.GetSolvingProgress | app.py:129-148 | the table and reply are those of the progress route |
| ServerSearch.ExtendShrinks | app.py:283-284 | assigning an unassigned variable leaves one variable fewer to fill |
| ServerSearch.ExtendSize | app.py:283-284 | the copy with the new variable is one larger |
| ServerSearch.SameSizeSubset | app.py:266 | a subset of equal size is the whole set |
| ServerSearch.CompleteIff | app.py:266 | equal sizes mean exactly that every variable is assigned |
| ServerSearch.IncompleteSelects | app.py:269 | an incomplete assignment leaves an unassigned variable to select |
| ServerSearch.SearchComplete | app.py:266-280 | the search emits nothing exactly when the assignment is complete, and then returns it; otherwise it first announces the selected variable with the assignment size |
| ServerSearch.SearchSound | app.py:264-340 | a returned assignment extends the given one, assigns every variable, draws each new value from its domain, and is consistent unless nothing was assigned |
| ServerSearch.TryValuesSound | app.py:282-314 | a result from the loop assigns the variable one of the values tried, and is complete and consistent |
| ServerSearch.TryHeadSound | app.py:283-314 | a result from one value assigns that value |
| ServerSearch.PlacedSound | app.py:298-314 | a result after a placement keeps the placed value |
| ServerSearch.CountAppend | app.py:250-259 | step counts add up over two traces |
| ServerSearch.CountSingle | app.py:250-259 | one step counts once, under its own type |
| ServerSearch.SearchCounts | app.py:264-340 | tries equal placements plus rejections; a failed search has one backtrack per placement; a successful one has one placement more than backtracks for each variable it assigned |
| ServerSearch.TryValuesCounts | app.py:282-340 | the same balance over the loop over the values |
| ServerSearch.TryHeadCounts | app.py:283-338 | the same balance over one value |
| ServerSearch.PlacedCounts | app.py:298-326 | after a placement, one placement more than tries answered; a failure backtracks every placement |
| ServerSearch.TriedAppend | app.py:286-296 | the words tried add up over two traces |
| ServerSearch.TriedSingle | app.py:286-296 | a try_word step tries its word |
| ServerSearch.TriedNothing | app.py:286-296 | a trace that never names a variable tries nothing for it |
| ServerSearch.SearchAvoids | app.py:264-340 | the search never emits a step for a variable that was already assigned |
| ServerSearch.TryValuesAvoids | app.py:282-338 | the same for the loop over the values |
| ServerSearch.TryHeadAvoids | app.py:283-338 | one value emits steps for unassigned variables only and tries exactly its own word for the variable |
| ServerSearch.PlacedAvoids | app.py:298-326 | after the placement no word is tried again for the variable |
| ServerSearch.AvoidsAppend | app.py:264-340 | avoiding assigned variables holds over two traces |
| ServerSearch.AvoidsWiden | app.py:311 | a trace that avoids a larger assignment avoids a smaller one |
| ServerSearch.TryValuesInOrder | app.py:282-314 | the values are tried in domain order: all of them when no value succeeds, otherwise a prefix ending with the value returned |
| ServerSearch.TryValuesStep | app.py:282 | one more value in front extends the tried prefix |
| ServerSearch.WellShapedAppend | app.py:272-338 | well-shaped traces concatenate |
| ServerSearch.BoardShaped | app.py:287-326 | try_word, place_word and backtrack steps carry a full board |
| ServerSearch.WellShapedCons | app.py:286-338 | a step in front of a well-shaped trace that answers it stays well shaped |
| ServerSearch.SearchShaped | app.py:264-340 | every step names its variable; select_variable carries the assignment size; tries, placements and backtracks carry the word and a full board; rejections carry the word, the reason "inconsistent" and no grid; every try_word is followed at once by the place_word or reject_word of the same variable and word |
| ServerSearch.TryValuesShaped | app.py:282-338 | the same shape for the loop |
| ServerSearch.TryHeadShaped | app.py:283-338 | the same shape for one value |
| ServerSearch.PlacedShaped | app.py:298-326 | the same shape after a placement, which starts with the place_word step |
| ServerSearch.NumberedAppend | app.py:252-254 | numbering continues across two batches |
| ServerSearch.QueueMore | app.py:259 | queuing more numbered steps after some is queuing them all at once |
| ServerSearch.Creator.constructor | app.py:244-248 | the creator starts at step count 0 on its session |
| ServerSearch.Creator.AddStep | app.py:250-262 | the step is queued with the next number |
| ServerSearch.Creator.TryValue | app.py:283-338 | one value: its steps and result are those of the specification |
| ServerSearch.Creator.PlaceAndSearch | app.py:298-326 | place, recurse and on failure backtrack, as specified |
| ServerSearch.Creator.Undo | app.py:316-326 | queues the backtrack step with the board before the placement |
| ServerSearch.Creator.Backtrack | app.py:264-340 | returns the search's result and queues exactly its trace |
| ServerSearch.Creator.TryDomain | app.py:282-340 | the loop over the domain returns the first success, or None after all values, with the loop's trace |
| ServerSearch.SolveWithTracking | app.py:69-113 | the session ends with the load error, or it ends with the search's whole trace queued from step 1 and then with "No solution found" or the solution's result |
| EndToEnd.UnknownSessionStops | app.py:131-132 | polling an unknown id changes nothing, and the client stops with "Session not found" without replaying anything, with the result display hidden |
| EndToEnd.TraceReplaysCleanly | app.py:264-340 | the search's numbered trace can all be logged, carries no grid on reject_word steps, and keeps the trace's step types |
| EndToEnd.ReplayCounters | app.py:264-340 | replaying the whole trace throws nothing and leaves each counter at the count of its step type |
| EndToEnd.ReplayMatchesSearch | app.py:264-340 | after that replay, attempts equal placements plus rejections, placements equal backtracks on failure or backtracks plus the number of variables on success, and no cell shows the error status |
| EndToEnd.HandedOutIsTrace | app.py:131-148 | when the queue starts and ends empty, the polls hand out exactly the queued trace in order |
| EndToEnd.LoggableSplit | static/js/script.js:257-262 | the parts of a loggable run are loggable |
| EndToEnd.RunCountsDelivered | static/js/script.js:239-284 | within the ceiling, ordinary responses move the counters by every step delivered, however they are batched |
| EndToEnd.ClientCountsSearch | static/js/script.js:192-284 | after a generation, error-free poll replies that deliver the search's trace leave each counter at the count of its step type, with the balances of the search |

## Left out

- DOM construction, CSS classes, animations, scrolling, toasts, `debounce` and console output: rendering only. A redrawn board is a grid of cells with their marks.
- The 100 ms interval, the 50 ms pause of `processStep` and the 500 ms delay before the result is shown. A poll is one method call, and delivery happens on the completing tick.
- `fetch` and `response.json()`: a tick is given what its fetch yields, either a parsed body or a thrown message.
- The preview handlers `handleStructureChange` and `handleWordsChange` and `displayStructurePreview`: they only fetch and render. The server side of the preview is modelled.
- Flask routing, HTTP status codes and `jsonify`: replies are datatypes.
- The threads: the poll running while the search queues steps is modelled as an interleaving of whole events on one session (`ServerSessions.RunEvents`). The search's own run is sequential. A finer interleaving is not modelled: `add_step` looks up the session's step list and appends to it in two separate steps (app.py:259). A poll that serialises the list and rebinds it to a new empty list (app.py:146-148) between those two steps loses the appended step.
- `time.sleep(0.05)`, the step timestamp and `time.time()` as the default session id: the clock is a parameter.
- `generate_image`: the picture is a parameter function of the solution.
- The file system: the data directory is a listing or a map from file name to content. The content is the text as `f.read()` returns it in text mode (app.py:217), so "\r\n" and "\r" have already become "\n"; newline translation is not modelled.
- The solver primitives (`Crossword`, `CrosswordCreator.solve`'s consistency passes, `select_unassigned_variable`, `consistent`, `letter_grid`): they belong to files that are not part of this model. They are abstract fields of `Problem`.
  - Python's iteration order over a domain set is the order of the domain sequence.
  - An exception raised inside the search is not modelled; only one raised before it (loading the crossword) is.
- `Creator.PlaceAndSearch`: place_word calls `get_current_grid` a second time on the same assignment. The model passes in the grid computed for try_word, which is equal because the grid is a function of the assignment.
- `Creator.TryDomain`, `Creator.TryValue`, `Creator.PlaceAndSearch` and `Creator.Undo` split the body of `backtrack` into one method per part of the loop.
- `ClientReplay.ToUpper`: upper-cases ASCII letters only; JavaScript's full Unicode case mapping is not modelled.
- `ClientPage.MissingVariableMessage`: the text of the TypeError is fixed to the one V8 produces.
- The server's 500 replies for exceptions in the routes themselves and the client's JSON parse errors are covered only as thrown messages.
- Client.Generate: starting a generation while a poll loop runs replaces that loop in the model. In the script, Ctrl+Enter dispatches `submit` even while the button is disabled (script.js:653-656), the old interval keeps polling, and script.js:239 overwrites `solvingInterval`, so the old loop's `clearInterval` stops the new loop. Two loops at once are not modelled.
- `generateCrossword`'s own session id, which the server echoes back: the client polls the id of the reply.
