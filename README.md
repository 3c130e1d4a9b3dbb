# NetAcad solver: a Dafny model of its deterministic cores

The extension answers quizzes on an e-learning platform. This project models
the deterministic logic beneath its DOM, timer and network plumbing, and
proves properties of that logic:

- **Content script** (`src/content/content.js`):
  - the component catalog that `setComponents` extends, and the gate that
    fetches each components URL once;
  - the seven-way question classifier;
  - the scan of the page for questions, and the answer-input binders;
  - the checkbox solver of `solveQuestion`;
  - the auto-solve state machine (`startAutoSolve`, `autoSolveNext`,
    `stopAutoSolve`), the speed table and the popup message handler;
  - the `iteration` generation counter that stale listeners check.
- **API solver** (`src/content/apiSolver.js`):
  - `patchStateWithAnswers`, which merges answer records into the xAPI state
    document and marks every node complete;
  - the pure decisions of `submitQuizViaApi` and `saveStateViaApi`: launch
    parameters, course prefix, activity ids, response strings, the statement
    list, the Authorization header and its retry, and the state id.
- **Interceptor** (`src/content/interceptor.js`):
  - its own copy of the patch, proved to compute what the API solver's copy
    computes;
  - the `fetch` wrapper's interception test and pass-through rules;
  - launch-key extraction.
- **Background script** (`src/background/background.js`):
  - the Cache-Control header rewrite;
  - URL routing;
  - the pending-tab loop with its `splice` and `i--`.

The page is an oracle: `ContentScript.Dom` answers the selector lookups, and
the `checked` state of the answer inputs is a map that a label click toggles.
Fetch results, storage values, the current time, random UUIDs and browser
answers are parameters.

Modules (one per file):
- `Wrappers`, `JsStrings` and `Http`: JavaScript values, string built-ins and header fields.
- `Descriptors`: the shapes of `components.json`.
- `Classifier`, `ContentHelpers`, `Catalog` and `ContentScript`: the content script.
- `StatePatch` and `Submission`: the API solver.
- `Interceptor` and `Background`: the other two scripts.

Where the content script changes state in place, the model does too: the
`Catalog.Catalog`, `ContentScript.ContentState`, `ContentScript.Page`,
`StatePatch.StateData` and `Background.TabQueue` classes. Each of their
methods states its new state in terms of a specification function, and the
lemmas about that function state what the source promises.

The model follows the code wherever the code's behaviour is surprising:
- `startAutoSolve` while a run is active restarts it from question 0.
- `autoSolveNext` advances the index whether or not the question was solved,
  and nothing counts the solved questions.
- `autoSolveNext` takes no navigation step. The run ends when the index passes
  the end of the question list.
- The scan types each question with the classifier as written. Its
  tableDropdown guard reads `_options?.[0].text`, which throws (finding 1).
- The dropdown binder pushes entries without an id, which the auto-solver
  never solves (finding 2).

## Model

| member | source | states |
|---|---|---|
| Catalog.Catalog.SetComponents | src/content/content.js:33-71 | a non-ok or throwing fetch leaves `components` unchanged; otherwise the admitted entries are appended after all existing ones, which keep their order |
| Catalog.Catalog.OnComponentsUrl | src/content/content.js:18-31 | a string URL triggers a fetch exactly when it is not yet in `componentUrls`, which only grows and then holds it |
| Catalog.NewEntriesMembers | src/content/content.js:51-61 | the merge adds exactly the fetched entries with `_items` whose `_id` was not held before the call, each with its body normalised |
| Catalog.NewEntriesIds | src/content/content.js:53-55 | every added entry carries an id of the response and no id already held |
| Catalog.MergeIdempotent | src/content/content.js:51-61 | merging the same response a second time adds nothing |
| Catalog.DuplicatesInOneResponseKept | src/content/content.js:53-55 | two equal fresh entries in one response are both added, because the check reads the pre-call catalog |
| Catalog.MergeKeepsIdsUnique | src/content/content.js:51-61 | a response without duplicate ids keeps the catalog's ids distinct |
| Classifier.ClassifyIsFirstMatch | src/content/content.js:84-108 | classification is the first rule that holds in the order dropdownSelect, match, yesNo, openTextInput, fillBlanks, tableDropdown |
| Classifier.BasicIffNoRule | src/content/content.js:84-108 | a question is basic exactly when none of the six rules holds of its first item |
| Classifier.DropdownSelectFirst | src/content/content.js:86-89 | a shape accepted by several rules gets the earliest one's tag |
| Classifier.DropdownScenario | src/content/content.js:86-87 | text "Q1" with options X (wrong) and Y (right) is dropdownSelect, bound to option 1 |
| Classifier.AsWrittenAgrees | src/content/content.js:84-108 | whenever the classifier as written does not throw, it agrees with the corrected one |
| Classifier.AsWrittenThrowsIff | src/content/content.js:103-106 | the classifier as written throws exactly on items that reach the tableDropdown test with an empty options list or an options record |
| Classifier.AsWrittenThrowsOnEmptyOptions | src/content/content.js:104 | an item whose only field is `_options: []` makes the classifier as written throw |
| ContentHelpers.RemoveTagsNoOpen | src/content/content.js:572-573 | the output of `removeTagsFromString` contains no `<` |
| ContentHelpers.RemoveTagsIdempotent | src/content/content.js:572-573 | `removeTagsFromString` is idempotent |
| ContentHelpers.DelayFor | src/content/content.js:883-884 | every level gives a delay from the table, and a level outside 1..5 gives 1000 |
| ContentHelpers.FasterLevelShorterDelay | src/content/content.js:883 | a higher speed level gives a strictly shorter delay |
| ContentHelpers.DelayAfter | src/content/content.js:882-886 | an undefined speed leaves the delay unchanged; a defined one gives a table delay |
| ContentScript.Sections | src/content/content.js:73-118 | the scan records at most one question per catalog entry found in the page, each with an id and a container, typed by the classifier as written and not yet bound; it throws at an entry with no first item or whose first item makes the classifier throw |
| ContentScript.SectionsFromCatalog | src/content/content.js:76-117 | each recorded question carries the id, container and items of a catalog entry found in the page |
| ContentScript.ScanThrowsOnEmptyOptions | src/content/content.js:84-106 | as written, a found component whose one item holds only `_options: []` makes the scan throw, and nothing is recorded |
| ContentScript.ContentState.SetQuestionSections | src/content/content.js:73-118 | one scan pass appends the scanned questions and reports whether it threw; nothing is appended and nothing throws when no container is found |
| ContentScript.BasicBinding | src/content/content.js:180-185 | the bound list has exactly `answersLength` entries or none |
| ContentScript.BasicBindingSpec | src/content/content.js:136-160 | the basic binder yields all pairs, in index order with each index's input and label, exactly when every index has an input, and nothing otherwise |
| ContentScript.MatchBinding | src/content/content.js:188-190 | the bound list has exactly `answersLength` entries or none |
| ContentScript.MatchBindingSpec | src/content/content.js:162-174 | the match binder yields every index's button group in index order exactly when each has one, and nothing otherwise |
| ContentScript.BindingAllOrNothing | src/content/content.js:142-159 | a single missing input empties the basic binder's result |
| ContentScript.FindAnswerInputsBasic | src/content/content.js:136-160 | the loop with its `\|\| []` fallback computes the all-or-nothing binding |
| ContentScript.FindAnswerInputsMatch | src/content/content.js:162-174 | the loop with its `\|\| []` fallback computes the all-or-nothing binding |
| ContentScript.FirstTextHit | src/content/content.js:126-134 | the element found is that of the first catalog entry whose body text is found, and there is none only if no body is found |
| ContentScript.FindQuestionElement | src/content/content.js:126-134 | the loop returns the first hit in catalog order |
| ContentScript.DropdownEntry | src/content/content.js:222-240 | an item with a `text` and listed options yields an entry exactly when it has a correct option, bound to the element of its first correct option |
| ContentScript.DropdownOnePerItem | src/content/content.js:215-244 | when every item has a `text` and a correct option, nothing throws and exactly one entry per item is pushed, in item order |
| ContentScript.DropdownScanThrowsIff | src/content/content.js:222-228 | the dropdown binder throws exactly when some item has no `text` or does not list its options |
| ContentScript.DropdownEntriesShaped | src/content/content.js:235-240 | every pushed entry is a dropdownSelect entry, not skipped, bound to one option element |
| ContentScript.FindCorrect | src/content/content.js:227-243 | the `entries()` loop finds the first option whose `_isCorrect` is truthy |
| ContentScript.ScanDropdownItems | src/content/content.js:216-244 | the `forEach` pushes what the step-by-step specification of the dropdown binder pushes, and stops at the first item that throws |
| ContentScript.ContentState.SetDropdownSelectQuestions | src/content/content.js:215-245 | the entries of the binder as written, without an id, are appended to `questions` in item order, and its throw is reported |
| ContentScript.DropdownEntriesUnsolvedAsWritten | src/content/content.js:235-240 | as written, no entry pushed by the dropdown binder is ever solved, and solving one changes nothing |
| ContentScript.PushedEntriesUnsolved | src/content/content.js:176-245 | as written, no entry that `setQuestionElements` pushes is ever solved |
| ContentScript.DropdownEntryExists | src/content/content.js:215-244 | a one-item question whose item has a `text` and a correct option does push an entry |
| ContentScript.DropdownEntriesSolved | src/content/content.js:647-655 | with the id carried over, every pushed entry of a catalogued question is solved |
| ContentScript.ElementsPassBound | src/content/content.js:176-213 | every question visited by `setQuestionElements` is bound as its type requires |
| ContentScript.ElementsPassSkips | src/content/content.js:191-209 | after a complete pass exactly the basic and match questions are left unskipped |
| ContentScript.Bound | src/content/content.js:177-212 | binding keeps a question's id, type and items; only basic and match stay unskipped, with an all-or-nothing list of inputs |
| ContentScript.ContentState.VisitQuestion | src/content/content.js:177-212 | one visit binds the question, appends the id-less dropdown entries it pushes, and throws when a binder throws |
| ContentScript.ContentState.SetQuestionElements | src/content/content.js:176-213 | questions present at the start are bound in place, and pushed entries follow them; a binder that throws leaves its question and the later ones as they were |
| ContentScript.ContentState.BeginScan | src/content/content.js:591-592 | `questions` is emptied and `iteration` incremented, so listeners of the previous generation stop acting |
| ContentScript.ContentState.RunMain | src/content/content.js:588-596 | `main` starts a new generation; with a container present, the questions are the scan's, bound by the pass, and `main` rejects exactly when the scan or the pass throws; otherwise the list stays empty |
| ContentScript.BasicRunSelects | src/content/content.js:672-688 | with distinct inputs, the checkbox loop succeeds exactly when each binding has an item and a label where a click is needed; then every bound input's `checked` equals its item's `_shouldBeSelected`, and other inputs are untouched |
| ContentScript.SolveBasic | src/content/content.js:671-690 | the checkbox loop computes the checkbox solver's specification |
| ContentScript.SolvedBasicMatchesKey | src/content/content.js:657-690 | a solved basic question leaves each bound input checked exactly when its item should be selected |
| ContentScript.SolveFails | src/content/content.js:633-655 | a skipped question, an unknown id or an unsolvable type returns false and changes nothing |
| ContentScript.SolveWithNothingBound | src/content/content.js:657-710 | a basic or match question with zero bound inputs still returns true |
| ContentScript.SolveQuestion | src/content/content.js:633-737 | `solveQuestion`, with clicks reduced to their effect on the checkboxes, computes the solver's specification |
| ContentScript.ContentState.Start | src/content/content.js:784-819 | with no questions nothing changes; otherwise running with index 0, even when a run was active |
| ContentScript.ContentState.Next | src/content/content.js:739-782 | a running step with a question left advances the index by exactly one whatever was solved, and reports progress `current = index`; past the end while running, the run stops and completion is reported |
| ContentScript.ContentState.Stop | src/content/content.js:821-833 | `isAutoSolving` becomes false, and the position reached is reported |
| ContentScript.ContentState.RunToEnd | src/content/content.js:739-782 | steps run back to back report one progress event per remaining question, then completion, and end with the run stopped |
| ContentScript.ProgressReports | src/content/content.js:770-776 | one progress report per step between the two indices |
| ContentScript.ContentState.HandleMessage | src/content/content.js:863-908 | status reports count, flag and index; start sets the delay from the speed table and starts; stop stops; refresh reports the count; a `null` request gets `{ success: false }`; any other action gets `null` |
| StatePatch.StateData.Patch | src/content/apiSolver.js:11-139 | the document becomes the patched one, and with no components it is untouched |
| StatePatch.PatchStateWithAnswers | src/content/apiSolver.js:11-14 | a null document is handed back untouched |
| StatePatch.Patched | src/content/apiSolver.js:12-136 | no components: the document as it was; otherwise merged component records, course flags set only when a course exists, and every article, block and content object completed |
| StatePatch.MergedOrder | src/content/apiSolver.js:19-95 | one record per `_id`: existing ids keep their order, patched ones are overwritten in place, untouched ones are unchanged, and new ids follow in input order |
| StatePatch.MergedCompletes | src/content/apiSolver.js:77-92 | every component is held under its id by a record with all completion flags set, score 1, 0 attempts left and 1 spent |
| StatePatch.MergeRecords | src/content/apiSolver.js:19-95 | the two `forEach` loops over the map compute the merged record list |
| StatePatch.ExistingKept | src/content/apiSolver.js:22-26 | records with distinct ids come out of the first loop unchanged |
| StatePatch.AnswerRecord | src/content/apiSolver.js:78-91 | the record written carries the component's id and answer and completes it |
| StatePatch.AnswersIff | src/content/apiSolver.js:29-92 | the records exist exactly when no component's answer throws, one per component |
| StatePatch.AnswersComplete | src/content/apiSolver.js:78-91 | every answer record completes its component |
| StatePatch.UserAnswerMcq | src/content/apiSolver.js:36-38 | an mcq with items answers with one entry per item, entry i being `!!_shouldBeSelected` |
| StatePatch.UserAnswerOptions | src/content/apiSolver.js:48-70 | on the options path the answer has the first item's option count (4 if none), entry idx true iff idx is a correct index in some item; four falses without a correct option; a throw exactly when some `_options` is a record |
| StatePatch.UserAnswerFallback | src/content/apiSolver.js:71-75 | every other component is answered with four falses |
| StatePatch.CorrectIndicesSpec | src/content/apiSolver.js:50-59 | the collected indices are exactly those correct in some item |
| StatePatch.ComputeUserAnswer | src/content/apiSolver.js:30-75 | the loops compute the `_userAnswer` specification |
| StatePatch.PushCorrect | src/content/apiSolver.js:53-57 | the inner `forEach` appends the correct indices of one list |
| StatePatch.Completed | src/content/apiSolver.js:105-113 | the three flags are set, id and other fields kept, an existing timestamp preserved and only a missing one set to now |
| StatePatch.CourseCompleted | src/content/apiSolver.js:98-102 | the course's three flags are set and its timestamp is left alone |
| StatePatch.CompletedList | src/content/apiSolver.js:116-136 | an array field is completed entry by entry, and an absent one stays absent |
| StatePatch.MarkNodes | src/content/apiSolver.js:127-135 | the `forEach` completes each node in turn |
| Submission.TokenOf | src/content/apiSolver.js:157-167 | this frame's token wins; otherwise only a framed script reads the top frame's |
| Submission.ResolveLaunch | src/content/apiSolver.js:188-215 | a resolved launch has a key, a service and the course prefix of the module number |
| Submission.LaunchPriority | src/content/apiSolver.js:188-199 | overrides beat URL parameters; with no key, session storage supplies both key and service; a missing key or service is a failure |
| Submission.NormaliseService | src/content/apiSolver.js:203-205 | the first "/content/" of the service becomes "/", and a service without one is unchanged |
| Submission.NormaliseKeepsPresence | src/content/apiSolver.js:203-207 | normalising never makes a service missing or present |
| Submission.NormaliseContentRoot | src/content/apiSolver.js:201-205 | a root ending in `/adl/content/` becomes `/adl/` |
| Submission.CoursePrefixParts | src/content/apiSolver.js:217-220 | the prefix is `https://pe1-m<module>-v1`, module 0 by default |
| Submission.ActivityIdShape | src/content/apiSolver.js:310-313 | an id not starting with "http" is put under `<prefix>#/id/`; the result always ends with the component id |
| Submission.SelectedSpec | src/content/apiSolver.js:267-272 | the mcq branch picks exactly the selected items, in increasing order |
| Submission.ChoicePartsSpec | src/content/apiSolver.js:285-287 | one part per correct option, its `id \|\| _id` |
| Submission.OptionPartsIff | src/content/apiSolver.js:281-298 | the options branch throws exactly when some item's `_options` is a record |
| Submission.ResponseOfSpec | src/content/apiSolver.js:249-307 | no items means skip; an mcq answers exactly when an item is selected; the throw cases are exact; an answer is never empty |
| Submission.ComputeResponse | src/content/apiSolver.js:249-307 | the branch computes the response specification |
| Submission.PushMcqParts | src/content/apiSolver.js:266-272 | the `forEach` pushes `_id \|\| index` of each selected item |
| Submission.PushChoiceParts | src/content/apiSolver.js:285-287 | the inner `forEach` appends the parts of one options list |
| Submission.StatementsIff | src/content/apiSolver.js:249-307 | the statement loop fails exactly when some component throws |
| Submission.StatementsMembers | src/content/apiSolver.js:249-405 | the statements are exactly one per answering component, with its activity id and response |
| Submission.BuildStatements | src/content/apiSolver.js:249-405 | the `for ... of` loop computes the statement specification |
| Submission.NothingToSubmit | src/content/apiSolver.js:407-409 | a list none of which answers yields no statements |
| Submission.AuthHeader | src/content/apiSolver.js:421-424 | no header exactly for a missing token or the string "undefined"; otherwise `Bearer <token>` |
| Submission.DeliverSpec | src/content/apiSolver.js:435-465 | a failed POST is retried once, without Authorization, exactly when Authorization was sent; delivery succeeds iff some POST answers ok |
| Submission.SubmitSpec | src/content/apiSolver.js:169-499 | token, token contents, launch parameters, statements and delivery are checked in order; success iff all pass |
| Submission.FirstStateId | src/content/apiSolver.js:555 | the id found is a listed one ending in "_state_data", and none is found only when no listed id ends so |
| Submission.FirstStateIdIs | src/content/apiSolver.js:555 | the first listed id with the suffix is the one found |
| Submission.Undashed | src/content/apiSolver.js:598 | the UUID loses every dash |
| Submission.ChooseStateId | src/content/apiSolver.js:596-600 | the state id always ends in "_state_data" |
| Submission.ChooseStateIdSpec | src/content/apiSolver.js:555-600 | a listed id with the suffix is reused; otherwise the dashless UUID with the suffix |
| Submission.BaseState | src/content/apiSolver.js:606-625 | a copy of the fetched state or a fresh one whose course carries the activity id, with `offlineStorage` made truthy |
| Submission.SaveAsWrittenNeverPosts | src/content/apiSolver.js:606-641 | as written, the save throws at the assignment to the `const` and never posts |
| Submission.SaveStatePosts | src/content/apiSolver.js:596-646 | as intended, the save posts under a "_state_data" id a document in which every component is completed |
| Interceptor.SetKeyAgrees | src/content/interceptor.js:13-15 | setting a key of the `Map` does to its values what the API solver's record list does |
| Interceptor.MapRecords | src/content/interceptor.js:9-70 | the interceptor's `Map` loops compute the same records as the API solver's copy |
| Interceptor.PatchCopy | src/content/interceptor.js:3-108 | the interceptor's `patchStateWithAnswers` returns what the API solver's copy returns, for every input |
| Interceptor.MethodOf | src/content/interceptor.js:113-115 | the method is `options.method`, then the `Request`'s method, then "GET" |
| Interceptor.InterceptedIff | src/content/interceptor.js:118-124 | a request is intercepted exactly when it is a GET whose URL contains "/adl/data/", "/activities/state" and "stateId="; any other request settles as the original fetch |
| Interceptor.StateGetPassesThrough | src/content/interceptor.js:131-161 | a non-ok response, absent or empty components, or a non-JSON body give back the original response |
| Interceptor.StateGetPatches | src/content/interceptor.js:169-184 | a patched response keeps status and status text, has a content type, and holds every component completed |
| Interceptor.StateGetRefetches | src/content/interceptor.js:185-189 | a thrown fetch or patch ends in a second original fetch |
| Interceptor.EnsureContentTypeSpec | src/content/interceptor.js:174-177 | `Content-Type: application/json` is added only when absent; nothing is dropped |
| Interceptor.LaunchKeyOf | src/content/interceptor.js:226 | there is a key exactly when the expression matches; it is a non-empty run of `[a-f0-9-]` |
| Interceptor.LaunchKeyIs | src/content/interceptor.js:226-227 | the key is the maximal run of key characters after the leftmost match |
| Interceptor.LaunchKeyIgnoresCase | src/content/interceptor.js:226 | the `i` flag covers the path as well as the key |
| Interceptor.ServiceSpec | src/content/interceptor.js:234 | the service is the URL prefix before the first "launch/" |
| Interceptor.LaunchPostSpec | src/content/interceptor.js:225-244 | a launch URL posts at most one message, exactly when the expression matches, with its key and service |
| Interceptor.GraphQlPostSpec | src/content/interceptor.js:197-221 | a GraphQL answer posts a key only when `xAPILaunchKey` is truthy |
| Interceptor.PassThroughPosts | src/content/interceptor.js:192-248 | a request that is not intercepted settles as the original fetch, and a rejected one posts nothing |
| Interceptor.AsWrittenAgrees | src/content/interceptor.js:111-124 | on string URLs and `Request`s the wrapper as written is the corrected one |
| Interceptor.AsWrittenRejectsUrlObjects | src/content/interceptor.js:112-124 | as written, a GET with a `URL` object is rejected whatever the network answers |
| Interceptor.UrlObjectAsText | src/content/interceptor.js:112 | corrected, a `URL` object is handled as its `href` |
| Background.RewriteHeadersSpec | src/background/background.js:50-59 | the rewrite keeps header count and order, replaces each Cache-Control header in place and passes every other header through |
| Background.RewriteIdempotent | src/background/background.js:51-59 | rewriting twice is rewriting once |
| Background.NoCacheControlUntouched | src/background/background.js:51-59 | a request without Cache-Control is unchanged |
| Background.RouteUrl | src/background/background.js:12-21 | "components.json" routes as `componentsUrl` even on a launch path; otherwise "/adl/content/launch/" routes as `launchUrl`; otherwise nothing is sent |
| Background.PendingTabsSpec | src/background/background.js:33 | exactly the tabs with a truthy id and title enter the pending list, in query order |
| Background.KeptSpec | src/background/background.js:7-30 | a tab stays pending exactly when its send threw |
| Background.SendsSpec | src/background/background.js:7-21 | each tab is sent the routed message once, in list order |
| Background.AllDeliveredEmpties | src/background/background.js:23-28 | when no send throws, a tick empties the list |
| Background.Tick | src/background/background.js:7-30 | the `splice` with `i--` loop keeps exactly the tabs whose send threw, in order, visits every tab once, and reports when the list became empty |
| Background.TabQueue.SendTick | src/background/background.js:6-31 | a tick leaves the kept tabs, and the interval is cleared once the list becomes empty |
| Background.TabQueue.constructor | src/background/background.js:33 | the queue starts as the filtered tab list, with its interval running |

## Left out

- DOM lookups (`deepHtmlSearch`, `deepHtmlFindByTextContent`) are the `ContentScript.Dom` oracle. `CSS.escape` is folded into it. domHelper is not part of this model.
- `DOMParser` body text extraction is the `plain` function parameter of `Catalog`.
- Clicks are abstract: only the basic solver's label click has an effect, a toggle of its input's `checked`. The clicks of the match and dropdown branches, and the click that reveals a question, have no modelled effect.
- The listener binders (`initYeNoQuestions`, `setOpenTextInputQuestions`, `setFillBlanksQuestions`, `setTableDropdownQuestions`, `initClickListeners`, `initHoverListeners`) install mouse and ctrl-key listeners. The listeners themselves are not modelled. What the binders do to the question list is modelled: those types are skipped. Whether a binder throws while installing is the `Dom.listenerThrows` oracle, because it depends on the page. Examples are a table with more rows than items, a row without a correct option, and an option without `text`. Their `iteration` check is `ContentState.Live`.
- Timers are not modelled, because they are scheduling rather than logic. This covers:
  - `sleep`, `setTimeout` and `setInterval`;
  - the `suspendMain` readiness poll;
  - the unbounded 1-second retry of `setQuestionSections` (`RunMain` reports `ready == false` instead);
  - the URL-change poll;
  - the background script's 30-second interval limit.
- A second `startAutoSolve` during a run leaves two timer chains running. Their interleaving is not modelled, only the flag and index effect.
- `fetch`, `Response`, `Headers` and the `window.fetch` monkey-patching are not executed. What a fetch settles to is a parameter: `FetchResult`, `Reply`, `PostResult`, and the listed ids and current state of the save.
- `browser.runtime` and `browser.tabs` messaging: notices and sends are returned as values; a failure to deliver a notice is ignored, as in the code.
- `localStorage`, `sessionStorage` and `window.top` are parameters (`TokenOf`, `LaunchSources`).
- `parseJwt` is foreign (`atob` and `JSON.parse`). Only whether it parses is a parameter.
- `crypto.randomUUID` and `Date` are the `uuid` and `now` parameters.
- Submission.Statement: keeps only the activity id, name, description and response of a statement. The actor, verb and score are not modelled. Neither are the context extensions: service id, course name, module number `parseInt`, `ravennaSourceID` and the assessment groupings.
- The URLs and query strings of the save (`encodeURIComponent` of the agent and activity id) are not modelled. Neither is the network tail after the patch, which the code as written never reaches (finding 3).
- Fields of the state document that the patch does not touch are abstracted as one opaque `rest` value per record.
- JsStrings.Lower: folds only ASCII letters, while `toLowerCase` folds all of Unicode. The names it is compared with ("cache-control", "content-type", the launch path) are ASCII.
- JsStrings.Trim: the whitespace set is written out from the ECMAScript definition, and no other Unicode property is modelled.
- Submission.StatementsIff: assumes every component has an `_id`. A component without one throws at `activityId.startsWith` (`src/content/apiSolver.js:311`), and this throw is not among the failures the lemma lists. The catalog keeps `_id` as a string throughout.
- Submission.SubmitSpec: as for `StatementsIff`, a component without an `_id` is not among its crash cases.
- Submission.ActivityIdShape: an absent `_id` is not modelled, for the same reason.
- Overlapping background ticks are not modelled. `setInterval(handleSendUrl, 1000)` can start a tick while an earlier one still awaits `sendMessage`, and two ticks then splice the same `tabs` array. `Background.Tick` runs one tick as a whole.
- Integers are unbounded. Indices and counts stay far below JavaScript's safe-integer limit.
- `src/popup/popup.js` (status rendering) and `webpack.common.js` (build configuration) are not part of this model.

## Findings

| source | as written | input that shows it | evidently intended | confidence | as-written member | corrected member |
|---|---|---|---|---|---|---|
| src/content/content.js:104 | `_options?.[0].text` throws a TypeError when `_options` is an empty list or a record | a component whose first item is `{ _options: [] }` | `_options?.[0]?.text`, as on line 100: such an item falls through to basic | medium, not executed | ContentScript.ScanThrowsOnEmptyOptions | Classifier.ClassifyIsFirstMatch |
| src/content/content.js:235-240 | the entries pushed for a dropdownSelect question carry no `id`, so `solveQuestion` finds no component for them (647-655) and the dropdown branch never runs | a dropdownSelect component with one item whose second option is correct | each entry carries the question's `id`, so auto-solve solves it | medium, not executed | ContentScript.PushedEntriesUnsolved | ContentScript.DropdownEntriesSolved |
| src/content/apiSolver.js:628 | the patched state is assigned to the `const stateData` of line 606, which throws, so the POST at 641 is never made | any call of `saveStateViaApi` | the patched state is posted under the chosen state id | high, not executed | Submission.SaveAsWrittenNeverPosts | Submission.SaveStatePosts |
| src/content/interceptor.js:112 | a `URL` object passed to `fetch` is kept as the URL, and `url.includes` throws outside any `try` for a GET | `fetch(new URL("https://x/"))` | the URL read through its `href`, like a string | low, not executed | Interceptor.AsWrittenRejectsUrlObjects | Interceptor.UrlObjectAsText |
