# What They Might Mean — a Dafny model of the analysis lifecycle

What They Might Mean is an assistant that explains the implicit meaning of a message. It works in a
work, school or social context. The user types, photographs or records a message. The app sends it
to a remote language model with a prompt and gets back a structured analysis. That analysis holds
what was said, what is expected, what carries risk, the hidden social rules, a clarity score and
suggested responses. Analyses are kept in a history. Free users have a quota of five analyses.
Requests made while offline wait in a FIFO queue, which is drained once the device is online
again. The hidden rules of all past analyses form a rule library.

This project models the parts of the app that make decisions and proves what they promise:

- `Lifecycle` (lifecycle.dfy) states the application shell's handlers (App.tsx) as pure
  transitions on a `Session`, the value of every piece of shell state they touch. It also proves
  their properties:
  - the quota gate comes first;
  - empty input is a no-op;
  - offline requests join the end of the queue;
  - a success is recorded newest first and counts once against the quota;
  - a failure changes nothing but the toast and the screen;
  - the drain is single-flight and FIFO;
  - the stored history is a prefix of at most 100 entries;
  - the rule library lists each hidden rule once, in order of first occurrence, tagged with the
    first analysis that contains it.
- `AppShell` (app.dfy) is the shell as a class whose fields are that state. Each handler updates
  the fields step by step, as the shell does. Each is proved to reach exactly the state the
  `Lifecycle` transition describes. The rule library is computed with the shell's nested loops,
  and is proved equal to its specification.
- `Gemini` (gemini.dfy) models the interpreter client:
  - the prompt template;
  - the ordered request parts;
  - the `originalMessage` placeholder;
  - the result record, in which the reply's keys override the client's.
- `Coach` (coach.dfy) models the coaching chat's prompt and its fallback answers.
- `Supabase` (supabase.dfy) models the row/record mappings of the database service, with their
  round trips and the early returns taken when no database is configured.
- `LibraryModal` (library_modal.dfy) models the "add resource" form's validation and the record it
  emits.
- `Payment` (payment.dfy) models the simulated card check and the payment form's status machine.
- `RiskMeter` (risk_meter.dfy) models the clarity meter's bar width and colour buckets.
- `Types`, `Text` and `Wrappers` hold the records of types.ts, the JavaScript string built-ins the
  code relies on (`trim`, `replace(/\s/g, '')`, `join`), and `Option`/`Result`.

The remote model, the database and the browser are outside the model. Their outcomes are
parameters:

- a `Gemini.ServiceReply` is either a thrown error or the reply text, parsed or empty;
- a `Coach.CoachReply` is the coach model's reply;
- a `Supabase.DbReply` is a query's rows or its error;
- the confirmation dialog's answer, the generated ids and the clock readings are passed in.

Each handler runs to completion as one step. The session also records, as `sent`, every request
handed to the interpreter: its text, mode, detail level and attachments. This is how the model
states what a direct submit and a drain step send, not only what they do with the answer.

Only the copy of the history written to storage (App.tsx:202) and the copy loaded from it
(App.tsx:162) are capped at 100 entries. The in-memory prepends (App.tsx:242, 303) are not capped.
`Lifecycle.HistoryExceedsCapInMemory` shows that a success on a full history holds 101 analyses in
memory while 100 are stored.

## Model

| member | source | states |
|---|---|---|
| Lifecycle.Initial | App.tsx:92-141 | Start-up state: welcome screen, no analysis running, empty history, queue and library, free tier with count 0, the "Expected" section open, connectivity as the browser reports it |
| Lifecycle.QueuedRequest | App.tsx:281-288 | The offline request carries the raw text, the selected mode, the detail setting, the image and the audio, under the given id |
| Lifecycle.ErrorToastMessage | App.tsx:315 | The error toast shows the error's message when it has one, and otherwise the fixed fallback; it is never empty |
| Lifecycle.StartAnalysis | App.tsx:270-322 | handleStartAnalysis: on an exhausted free quota only the screen becomes the paywall, before any other check; a ready-less submit (blank input or no mode) leaves the session as it was |
| Lifecycle.QueuedRequestSendsSubmitRequest | App.tsx:235-241 | A request queued offline is later sent with exactly the text, mode, detail level and attachments a direct submit would have sent at that moment |
| Lifecycle.StartAnalysisOutcomes | App.tsx:270-322 | handleStartAnalysis, case by case. On an exhausted free quota only the paywall is shown, before any other check. Without input or mode nothing changes. Offline, one request is appended to the queue, the composer is cleared and the home screen shown. Online success prepends the result, adds one to the count, shows it and clears the composer. Online failure only shows the error toast and the input screen, keeping the input |
| Lifecycle.Enqueue | App.tsx:280-295 | The offline branch appends exactly the queued request at the end of the queue, clears the composer, shows the home screen, and leaves history, settings and the sent requests unchanged |
| Lifecycle.Submit | App.tsx:298-321 | The online branch sends one request: the composer's text, the selected mode, the current detail setting and the attachments; the queue is untouched; the history grows by one exactly when the service answered |
| Lifecycle.Succeeded | App.tsx:302-308 | A direct success prepends the result, shows it on the results screen, adds one to the count, clears the composer and ends the busy state; queue and sent requests are untouched |
| Lifecycle.Failed | App.tsx:313-320 | A direct failure shows the error toast on the input screen and ends the busy state; input, history, settings, current analysis, queue and sent requests are unchanged |
| Lifecycle.SubmitOverwritesProgress | App.tsx:298-320 | The loading screen and busy flag set before the call never survive its outcome |
| Lifecycle.StartAnalysisInvariants | App.tsx:270-322 | Across a submit, count minus history length is unchanged, the history grows by at most one with the old history as its tail, the queue stays or gains exactly the new request at its end, and the library and connectivity are untouched |
| Lifecycle.AnalyzeQueued | App.tsx:235-241 | A queued request, analysed with its own stored fields, succeeds exactly when the service answered; a failure carries the service's error message |
| Lifecycle.ProcessQueue | App.tsx:230-250 | processQueue does nothing offline, on an empty queue or while an analysis runs; otherwise it sends only the head, with the text, mode, detail level and attachments stored with it; success prepends the result, counts it and removes exactly the head; failure changes nothing but the sent log; it never leaves the busy flag set |
| Lifecycle.ProcessQueueInvariants | App.tsx:230-250 | A drain step keeps count and history in step, keeps the old history as the tail, and the queue stays or loses exactly its head; screen and input are untouched |
| Lifecycle.NewestFirst | App.tsx:242 | The results of the first n queued requests, newest first: request i gives position n-1-i |
| Lifecycle.RequestsOf | App.tsx:235-241 | The requests for a run of queued analyses, position for position, each with its own stored fields |
| Lifecycle.DrainSendsInOrder | App.tsx:230-250 | n successful drain steps send exactly the first n queued requests, in queue order, each with its stored text, mode, detail level and attachments |
| Lifecycle.DrainIsFifo | App.tsx:230-250 | n successful drain steps remove exactly the first n queued requests, add n to the count and put their results, newest first, in front of the old history |
| Lifecycle.Capped | App.tsx:162 | The stored or loaded history is a prefix of the history of at most 100 entries, all of it when it is no longer, exactly 100 otherwise |
| Lifecycle.ReloadIsStable | App.tsx:159-163 | Loading what was stored gives exactly what was stored |
| Lifecycle.Restore | App.tsx:158-176 | The start-up restore replaces the history with the capped stored one, and the queue and library with the stored ones, each only when stored; nothing else changes |
| Lifecycle.HistoryExceedsCapInMemory | App.tsx:303 | A success on a 100-entry history holds 101 analyses in memory, and the stored copy drops the oldest |
| Lifecycle.FirstByRule | App.tsx:146-154 | Keeping the first entry per rule of the walked occurrences yields a sub-list of them, never longer |
| Lifecycle.FirstByRuleRules | App.tsx:146-154 | Keeping the first entry per rule keeps exactly the set of rules that occur |
| Lifecycle.FirstByRuleFirsts | App.tsx:149-150 | Each kept entry is the one at its rule's first occurrence |
| Lifecycle.FirstByRuleOrdered | App.tsx:146-154 | Kept entries are ordered by where their rules first occur |
| Lifecycle.FirstByRuleDistinct | App.tsx:149 | No rule is kept twice |
| Lifecycle.FirstOccurrenceSource | App.tsx:147-150 | A rule's first occurrence lies in the first analysis containing it and carries that analysis' message and mode |
| Lifecycle.DiscoveredRules | App.tsx:145-155 | The rule library holds only entries that occur in the history's rules, at most one per occurrence |
| Lifecycle.DiscoveredRulesCorrect | App.tsx:145-155 | The rule library lists each hidden rule of the history exactly once, misses none, lists nothing else, tags each with the message and mode of the first analysis containing it, and keeps the order of first occurrence |
| Lifecycle.DiscoveredRulesAsWritten | App.tsx:147-148 | As written, the library fails exactly when some analysis has no hiddenRules, and otherwise equals the corrected library |
| Lifecycle.EmptyReplyBreaksRuleLibrary | App.tsx:148 | After an online submit whose reply text is empty, the library as written fails, while the corrected one is unchanged by the new analysis |
| Lifecycle.AddLibraryItem | App.tsx:441-450 | The new item, with the given id and time, goes first in the library and a success toast is shown; nothing else changes |
| Lifecycle.WithoutItem | App.tsx:454 | The filter keeps exactly the items whose id differs, and never grows the list |
| Lifecycle.WithoutItemAppend | App.tsx:454 | Filtering distributes over concatenation, so the kept items stay in their order and keep their multiplicity |
| Lifecycle.WithoutItemSingle | App.tsx:454 | A single item is kept exactly when its id differs from the deleted one |
| Lifecycle.WithoutAbsentItem | App.tsx:454 | Filtering out an id no item has leaves the list as it is |
| Lifecycle.DeleteLibraryItem | App.tsx:452-458 | Unconfirmed, nothing changes; confirmed, the library becomes the order-preserving filter of it, exactly the items with that id are gone, and a toast is shown |
| Lifecycle.AddThenDeleteRestoresLibrary | App.tsx:441-458 | Deleting an item just added under a fresh id restores the library |
| Lifecycle.Without | App.tsx:1014 | The sections other than the given one; the list is unchanged when the section is absent |
| Lifecycle.Toggle | App.tsx:1012-1016 | An open section is closed, every copy of it, and nothing else; a closed one is opened at the end |
| Lifecycle.ToggleTwice | App.tsx:1013-1015 | Opening a closed section and toggling it again restores the list |
| Lifecycle.ToggleSection | App.tsx:1012-1016 | toggleSection changes only the open sections, as Toggle does |
| Lifecycle.ClearHistory | App.tsx:1362 | Confirmed, the history is emptied and the quota count kept; otherwise nothing changes |
| Lifecycle.SetOnline | App.tsx:218-220 | The online and offline events set only the connectivity flag |
| AppShell.App.constructor | App.tsx:92-141 | The object starts in the initial state |
| AppShell.App.StartAnalysis | App.tsx:270-322 | The in-place handler reaches exactly the state of the submit transition |
| AppShell.App.Enqueue | App.tsx:280-296 | The offline branch appends to the queue and clears the composer, as the transition does |
| AppShell.App.Submit | App.tsx:298-321 | The online branch, including the transient loading state, ends in exactly the state of the transition |
| AppShell.App.Succeed | App.tsx:302-308 | The success branch updates the fields to exactly the state of the success transition |
| AppShell.App.Fail | App.tsx:313-320 | The failure branch updates the fields to exactly the state of the failure transition |
| AppShell.App.RecordResult | App.tsx:242-243 | The update shared by a direct success and a drain success: the result prepended to the history and one more analysis counted |
| AppShell.App.ClearComposer | App.tsx:305-307 | The composer's text, image and audio are emptied and nothing else changes |
| AppShell.App.ProcessQueue | App.tsx:230-250 | The in-place drain step reaches exactly the state of the drain transition |
| AppShell.App.PersistedHistory | App.tsx:201-203 | The stored history is a prefix of the in-memory history: all of it when it has at most 100 entries, exactly its first 100 otherwise |
| AppShell.App.Restore | App.tsx:158-176 | The in-place restore reaches the state of the restore transition |
| AppShell.App.SetOnline | App.tsx:218-220 | Sets the connectivity flag as the transition does |
| AppShell.App.AddLibraryItem | App.tsx:441-450 | Prepends the new item and shows the toast, as the transition does |
| AppShell.App.DeleteLibraryItem | App.tsx:452-458 | Filters out the id after confirmation, as the transition does |
| AppShell.App.ToggleSection | App.tsx:1012-1016 | Toggles the section, as the transition does |
| AppShell.App.ClearHistory | App.tsx:1362 | Empties the history after confirmation, as the transition does |
| AppShell.App.AllDiscoveredRules | App.tsx:145-155 | The nested loops over the history and each analysis' rules yield exactly the specified rule library, whose properties DiscoveredRulesCorrect proves |
| AppShell.RecordRules | App.tsx:148-152 | The inner loop over one analysis' rules records each unseen rule with that analysis' message and mode, extending the library as the specification does |
| Gemini.Prompt | services/geminiService.ts:16-22 | The prompt starts with the header naming the mode and the verbosity level; the lemmas below place the sentences and the message |
| Gemini.PromptNamesModeAndDetail | services/geminiService.ts:16-18 | The prompt names the mode and the verbosity level at their fixed places |
| Gemini.PromptImageSentence | services/geminiService.ts:19 | The image sentence stands after the header exactly when an image is attached |
| Gemini.PromptAudioSentence | services/geminiService.ts:20 | The audio sentence stands on its line exactly when audio is attached |
| Gemini.PromptEndsWithMessage | services/geminiService.ts:21-22 | The prompt ends with the user's message, quoted and unchanged |
| Gemini.Contents | services/geminiService.ts:24-40 | The parts of a request: the prompt built from all five arguments first, one inline part per attachment, the image before the audio, each with the caller's data and MIME type |
| Gemini.BuildParts | services/geminiService.ts:24-40 | The parts start with the prompt, then one inline part per attachment, the image before the audio, each carrying the caller's data and MIME type |
| Gemini.OriginalMessage | services/geminiService.ts:96 | The message when non-empty, otherwise "Audio message" with audio and "Image analysis" without; never empty |
| Gemini.Assemble | services/geminiService.ts:92-98 | The reply's analysis fields are taken over unchanged; id, timestamp, mode and originalMessage are the client's when the reply lacks those keys, and the reply's own values when it has them, because the spread comes last |
| Gemini.Analyze | services/geminiService.ts:90-98 | analyzeMessage fails exactly when the service call fails, with its message |
| Gemini.EmptyReplyHasOnlyClientFields | services/geminiService.ts:90-98 | An empty reply text yields a result holding only the four client-set fields |
| Gemini.ReplyWithoutClientKeys | services/geminiService.ts:92-97 | A reply without the four client keys keeps the client's values and adds all its own fields |
| Coach.RenderTurn | services/coachService.ts:57 | A rendered turn is never empty |
| Coach.Context | services/coachService.ts:56-58 | The context is empty exactly when the history is |
| Coach.ContextAppend | services/coachService.ts:56-58 | A later turn is rendered after the earlier ones, separated by a blank line |
| Coach.Prompt | services/coachService.ts:60-62 | Without history the prompt is the user line and the coach cue; with history the context comes first; every prompt ends with the coach cue |
| Coach.Answer | services/coachService.ts:74-78 | The answer is never empty: the reply text when non-empty, the help fallback for an empty reply, the apology on an error |
| Supabase.SettingsFromRow | services/supabaseService.ts:165-177 | Each settings column maps to its field |
| Supabase.GetUserSettings | services/supabaseService.ts:150-177 | Settings are returned exactly when a client is configured and the query succeeds, mapped from the row |
| Supabase.BuildUpdate | services/supabaseService.ts:187-202 | The successive conditional assignments build exactly the column set Columns describes |
| Supabase.Columns | services/supabaseService.ts:187-202 | A column is sent exactly when its field is defined, with the field's value; a defined expiry is sent, as null when it is 0 |
| Supabase.UpdateUserSettings | services/supabaseService.ts:183-202 | An update is sent exactly when a client is configured, with those columns |
| Supabase.PatchReadBack | services/supabaseService.ts:188-202 | Writing a patch and reading the row back gives each defined field's value and keeps undefined fields; an expiry of 0 comes back undefined |
| Supabase.EmptyPatchChangesNothing | services/supabaseService.ts:187-197 | An empty patch sends no column and leaves the row unchanged |
| Supabase.AnalysisToRow | services/supabaseService.ts:227-241 | The inserted row carries the user id and the analysis' id and timestamp |
| Supabase.RowToAnalysis | services/supabaseService.ts:269-283 | The row mapping of getUserAnalyses is a left inverse of the insert mapping: saving the mapped analysis for the row's user gives the row back |
| Supabase.AnalysisRoundTrip | services/supabaseService.ts:269-283 | Reading back a saved analysis recovers it field for field |
| Supabase.SaveAnalysis | services/supabaseService.ts:222-241 | A row is written exactly when a client is configured, and it reads back as the analysis |
| Supabase.GetUserAnalyses | services/supabaseService.ts:253-284 | No client or a query error gives the empty list; otherwise each row is mapped in order |
| Supabase.SavedAnalysesReadBack | services/supabaseService.ts:269-283 | Reading back a list of saved analyses recovers the list |
| Supabase.QueuedToRow | services/supabaseService.ts:413-423 | The queued row carries the user id, and an attachment column exactly when the attachment exists |
| Supabase.Attachment | services/supabaseService.ts:453-454 | An attachment is read back exactly when its data column is a non-empty string |
| Supabase.RowToQueued | services/supabaseService.ts:448-455 | Image and audio come back exactly when their data is truthy; id and message are taken over |
| Supabase.QueuedRoundTrip | services/supabaseService.ts:448-455 | A queued request reads back unchanged exactly when none of its attachments has empty data |
| Supabase.AddQueuedAnalysis | services/supabaseService.ts:408-423 | A row is written exactly when a client is configured, for this user and id, and it reads back as the queued request exactly when none of its attachments has empty data |
| Supabase.GetQueuedAnalyses | services/supabaseService.ts:434-456 | No client or a query error gives the empty list; otherwise each row is mapped in order |
| Supabase.InsertedLibraryRow | services/supabaseService.ts:365-375 | The stored library row carries the user id and the item's fields |
| Supabase.RowToLibraryItem | services/supabaseService.ts:343-354 | The row mapping of getCustomLibraryItems is a left inverse of the insert mapping: re-inserting the mapped item gives the row back |
| Supabase.LibraryItemRoundTrip | services/supabaseService.ts:343-354 | Reading back a stored library item recovers its content, id and creation time |
| Supabase.AddCustomLibraryItem | services/supabaseService.ts:360-375 | A row is written exactly when a client is configured, and it reads back as the item |
| Supabase.GetCustomLibraryItems | services/supabaseService.ts:328-355 | No client or a query error gives the empty list; otherwise each row is mapped in order |
| Supabase.GetCurrentUser | services/supabaseService.ts:113-118 | No client gives no user; otherwise the session's user |
| Supabase.UnconfiguredIsInert | services/supabaseService.ts:113-114 | Without a client every read returns nothing and every write sends nothing (the early returns at lines 114, 151, 184, 223, 254, 329, 361, 409 and 435) |
| LibraryModal.Submission | components/AddLibraryItemModal.tsx:43-57 | An item is emitted exactly when title and description are non-blank and a link has a url or an upload a file. Its texts are trimmed and non-empty. The url is set only for a link. File data, name and type are set only for an upload, copied from the file. The icon is the one selected |
| LibraryModal.SubmissionIsTrimmed | components/AddLibraryItemModal.tsx:49-50 | Trimming the emitted title and description again changes nothing |
| LibraryModal.HandleSubmit | components/AddLibraryItemModal.tsx:43-60 | A rejected submit does nothing; an accepted one adds the item and then closes the form |
| LibraryModal.SubmitDisabled | components/AddLibraryItemModal.tsx:205-211 | The button's disabled condition holds exactly while a file is read or when the submission would be rejected |
| Payment.Classify | components/PaymentSheet.tsx:26-36 | The card succeeds exactly when its number without white space is 4242424242424242, and is declined exactly when it is 4000000000000002 |
| Payment.ClassifyIgnoresWhitespace | components/PaymentSheet.tsx:26 | White space typed anywhere in the card number never changes the outcome |
| Payment.PaymentSheet.constructor | components/PaymentSheet.tsx:15-19 | The form starts empty and idle, with no message |
| Payment.PaymentSheet.PayDisabled | components/PaymentSheet.tsx:110 | The pay button is disabled exactly while the payment is processing |
| Payment.PaymentSheet.Pay | components/PaymentSheet.tsx:21-22 | Paying first shows processing, which disables the pay button, and changes nothing else |
| Payment.PaymentSheet.Complete | components/PaymentSheet.tsx:25-37 | Only the approved card succeeds and schedules onSuccess. The declined card and every other number fail with their messages. Expiry and CVC are not read. The pay button is enabled again |
| RiskMeter.Percentage | components/RiskMeter.tsx:11 | The bar width is 20 times the score, between 20 and 100 for scores 1 to 5 |
| RiskMeter.BucketOf | components/RiskMeter.tsx:13-19 | Green exactly up to 1, red exactly above 4, and score s from 2 to 5 in bucket s-1 |
| RiskMeter.BucketMonotone | components/RiskMeter.tsx:13-19 | A higher score never falls in an earlier bucket |
| RiskMeter.CssClassInjective | components/RiskMeter.tsx:14-18 | Different buckets have different classes |
| RiskMeter.IntegerScoresDistinct | components/RiskMeter.tsx:13-19 | The scores 1 to 5 get five different classes |
| Text.Trim | App.tsx:275 | The trimmed text has no white space at either end, and is empty exactly when the text is blank |
| Text.StripWhitespace | components/PaymentSheet.tsx:26 | `replace(/\s/g, '')`: the result has no white space, keeps every other character, and leaves a number without white space unchanged |
| Text.TrimIdempotent | components/AddLibraryItemModal.tsx:49-50 | Trimming twice is trimming once |
| Text.StripIgnoresInsertedWhitespace | components/PaymentSheet.tsx:26 | Stripping white space ignores white space inserted anywhere |

## Findings

| source | as written | input that shows it | evidently intended | confidence | as-written member | corrected member |
|---|---|---|---|---|---|---|
| App.tsx:147-148 | The rule library calls `analysis.hiddenRules.forEach` on every analysis in the history. An analysis built from an empty reply text is parsed as `{}` (services/geminiService.ts:90) and has no `hiddenRules`, so the `forEach` throws. `allDiscoveredRules` is a `useMemo` in the shell's own render (App.tsx:145), so the whole shell's render fails, not only the library view, and that render commits none of the submit's updates | Online, a submit whose service reply text is empty; the analysis is recorded, and the next computation of the rule library fails | An analysis without hidden rules contributes none, and the library is still computed | not executed | Lifecycle.DiscoveredRulesAsWritten, Lifecycle.EmptyReplyBreaksRuleLibrary | Lifecycle.DiscoveredRulesCorrect, AppShell.App.AllDiscoveredRules |

## Left out

- Rendering, navigation beyond the `screen` field, theming, haptics and the toast's timer are not
  modelled. They are presentation only.
- The remote model calls (services/geminiService.ts:42-88, services/coachService.ts:64-72) are not
  modelled. Their outcomes are parameters; the request each call is given is recorded in the
  session's `sent` log. The prompt's system instructions are constant text
  handed to those calls and are not modelled.
- The Supabase client calls, including the sign-in, password and delete functions, are not
  modelled. So are the ordering and `limit` of the queries. Only the row mappings and the
  unconfigured early returns are modelled.
- Date and ISO-string conversions of `subscription_expiry` and `created_at` are not modelled.
  Times are kept as milliseconds.
- Supabase.RowToQueued, Supabase.RowToAnalysis, Supabase.RowToLibraryItem: a missing key and a
  NULL column are both read as an absent `Option`; the model does not distinguish null from
  undefined. In RowToQueued a NULL MIME column is read as the empty string.
- localStorage and JSON parsing are not modelled. A stored value is given as present or absent, and
  only the history's truncation is modelled. The restore of saved settings (App.tsx:166-170) and the
  default voice choice (App.tsx:179-198) are not modelled.
- Async interleaving, stale closures and the effect that triggers a drain (App.tsx:252-254) are not
  modelled. Each handler and each drain step runs atomically. The transient loading screen of a
  direct submit is modelled only inside `AppShell.App.Submit`.
- Random ids and `Date.now()` are parameters.
- Text-to-speech is not modelled (`speakAnalysis`, App.tsx:262-267, 311). With audio output on, it
  reads `clarityScore.score` of a result that may lack `clarityScore`. That would throw after the
  result was recorded and move the shell to the input screen with an error toast.
- Recording, the file reader, the camera and base64 conversion are not modelled. They are browser
  APIs.
- RiskMeter.Percentage: computed on exact reals, so floating-point rounding is not modelled.
  `audioSpeed` is kept as a real and never computed with.
- RiskMeter.BucketOf: the clarity score is an integer, as the response schema declares (services/geminiService.ts:66). The source's `number` could be fractional, and `getGradient` would send 4.5 to red; fractional scores are not modelled.
- Response validation is not modelled, because the code performs none. The reply's fields are
  taken over as they come. Gemini.ParsedResponse types the reply's `mode` and `confidenceLevel` as
  the `Mode` and `Confidence` enumerations, although the response schema declares
  `confidenceLevel` a free string and nothing checks either; a reply carrying any other string is
  not modelled.
