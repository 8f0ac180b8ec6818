# evalite, modelled in Dafny

evalite is a workbench for prompts. A **workspace** holds numbered versions of
a prompt template with `{{VARIABLE}}` placeholders, a set of **workspace
configs** (which model to run, with which options, and whether it is active)
and **test cases** (values for the variables). The Go service evaluates a
test case against every active config that has no stored result yet for the
prompt version, stores the model's reply as a **test result**, generates new
prompts and test cases with a model, and keeps track of which versions are
active. A React front end edits prompts, picks versions, manages configs and
shows a grid of test cases against results. A Python script expands a YAML
file of cases by parsing the XML-ish replies stored in it.

This project models:

- the Go service in `packages/eval`:
  - the records and the `Workspace` methods of `types.go`;
  - the handlers of `eval.go`, `workspace.go`, `prompts.go`, `testcases.go` and `modelconfigs.go`;
- the template and XML helpers of `packages/llmutils`;
- the provider registry of `packages/providerstore`;
- the state and handlers of five React components: `PromptTester`, `WorkspacePage`, `VersionSelectDialog`, `WorkspaceSettingsDialog` and `NewWorkspace`;
- `scripts/process_yaml.py`.

The database is an in-memory `Service` object. Its fields hold the tables as
sequences of rows in insertion order. gorm's `First` is the first row with
the key, `Create` appends a row, and `Save` replaces the row with the key or
appends one (module `Tables`). `xid.New()` is a counter that mints ids longer
than any id stored so far, so a minted id is always fresh. The language
model is a function parameter from request to reply, or to no reply when the
provider fails. So are the two external routines: `encoding/xml`'s decoder
and `html.UnescapeString`. Go map iteration picks each key with
`:|`, so a loop may visit keys in any order, as in Go. Every proof holds
for all orders.

The front-end components are classes whose fields are their `useState`
variables. Each handler is a method that takes the settled result of its
service call as a parameter: resolved with a value, or rejected.

Where the code and its documentation disagree, the model follows the code:

- A result cell of the tester shows the FIRST stored result for the case and
  config, not the last.
- `handleRunTest` stores the results it receives but does not mark the row
  as evaluated locally.
- With no current version number, the workspace page falls back to
  `prompts.length - 1`. That number is an index, not a version number, and
  it is -1 when there are no versions.
- `GetWorkspace` sends no system prompts, so the page never shows one.
- `getOrCreateTestCase` marks a case evaluated before any model has run.
  A new case is always marked evaluated, because a case that has not been
  evaluated always needs an update.
- The requested prompt version is compared with stored results as an int32.
  From 2^31 on, no stored result matches, so every active config runs again.
- `CreateWorkspaceConfig` accepts a duplicate name; there is no conflict error.
- `ListTestCases` returns results only for the cases on the page, and does
  not copy their rating.
- `GenerateTestCase` creates exactly one case. The front end reads a list
  of cases from its response.
- After a save in the new-workspace page, `pending` stays set even when the
  call fails.
- After a config is toggled in the settings dialog, the list reported to the
  parent is filtered by the ids as they were BEFORE the toggle.
- The tester's Next button is enabled when there are no pages at all.
- Only the text inputs of an evaluated row are disabled; image inputs are not.

## Model

| member | source | states |
|---|---|---|
| Evaluation.PrepareVariables | packages/eval/eval.go:312-321 | the variables given to the template are exactly the keys with a text value, each mapped to that text; image values are skipped |
| Evaluation.ImagePlaceholderKept | packages/eval/eval.go:312-321 | a placeholder whose variable holds only an image stays in the prompt unchanged |
| Evaluation.BaseMessages | packages/eval/eval.go:323-330 | the system prompt (when present) comes first, then the filled prompt as the user's message; every message carries the same caching flag |
| Evaluation.ConvertVariableValues | packages/eval/eval.go:334-349 | the stored values are the request's values converted key by key, whatever order the map is visited in |
| Evaluation.ConvertedAgreesWithCreate | packages/eval/eval.go:334-349 | the evaluation path and the create path (testcases.go:34-48) store the same value under every key both keep; they keep the same keys exactly when no value is unset; a stored value converts back to the request's value |
| Evaluation.ShouldUpdateTestCase | packages/eval/eval.go:351-376 | the case needs an update exactly when it was never evaluated, or some text or image value of the request is missing from it or differs from what it stores |
| Evaluation.UpdateSettles | packages/eval/eval.go:269-275 | once a case has been updated from a request, the same request needs no further update |
| Evaluation.ExtraKeysIrrelevant | packages/eval/eval.go:355-374 | stored values under keys the request does not mention never force an update |
| Evaluation.UnsetIrrelevant | packages/eval/eval.go:355-374 | an unset value in the request never forces an update |
| Evaluation.FindOrInsertCase | packages/eval/eval.go:252-266 | the stored case with the request's id is returned unchanged; otherwise a new unevaluated case with a fresh id and the converted values is appended |
| Evaluation.SaveCase | packages/eval/eval.go:272 | after the save, looking the case's id up gives that case |
| Evaluation.GetOrCreateTestCase | packages/eval/eval.go:251-278 | the result is stored, marked evaluated and needs no further update; a new case gets a fresh id; an existing case is updated only when it needs it; a missing test case message is a nil dereference |
| Evaluation.GetActiveWorkspaceConfigs | packages/eval/eval.go:288-301 | the configs to run are the active ones with no stored result for the case, config and version, in their loaded order |
| Evaluation.GetActiveWorkspaceConfig | packages/eval/eval.go:303-310 | the first active config; nothing exactly when no config is active |
| Evaluation.AnsweredNotPending | packages/eval/eval.go:288-301 | when every active config has a result for the version, no config is left to run |
| Evaluation.HighVersionAlwaysPending | packages/eval/eval.go:64 | a version number of 2^31 or more reads as a negative int32, so every active config is always pending |
| Evaluation.MarkEvaluated | packages/eval/eval.go:220-227 | every row of the case is marked evaluated and every other row stays as it was |
| Evaluation.MarkAll | packages/eval/eval.go:220-227 | marking case after case: a row is flagged evaluated exactly when its id is one of the marked ids, and nothing else about any row changes |
| Evaluation.MarkEvaluatedLookup | packages/eval/eval.go:220-227 | marking keeps each key's lookup, marks the case with that id and leaves the others |
| Evaluation.MarkKeepsKeys | packages/eval/eval.go:220-227 | marking changes no id |
| Evaluation.MarkEvaluatedTwice | packages/eval/eval.go:220-227 | marking twice is marking once |
| Evaluation.ProcessSingleConfig | packages/eval/eval.go:171-241 | an evaluated case reuses the first stored result for the config and version without asking the model; otherwise the model's reply is stored under a fresh id and the case is marked evaluated; a failed request stores nothing; stored results only grow |
| Evaluation.RunConfig | packages/eval/eval.go:133-149 | a config whose model is not registered fails and changes nothing; it fails only when it got no reply, and when it gets none nothing is stored and no case is marked; otherwise its answer is stored and belongs to the case, config and version |
| Evaluation.RunConfigs | packages/eval/eval.go:131-168 | the fan-out over the configs, one after the other: every config answers, or the call fails and some config got no reply; results only grow; the case table is kept or has the case marked, marked whenever a config answered a case not yet evaluated; when no config got a reply nothing changes |
| Evaluation.ProcessTestCaseWithConfigs | packages/eval/eval.go:120-169 | every config gets an answer stored for the case and the prompt's version; one unregistered model or failed run fails the whole call, and the call fails only when some config got no reply; when no config gets a reply nothing is stored; the case table is kept or has the case marked; a missing prompt is a nil dereference |
| Evaluation.LoadWorkspace | packages/eval/eval.go:243-249 | the workspace with the id, with exactly its own prompts, configs and system prompts; nothing exactly when no workspace has the id |
| Evaluation.Evaluate | packages/eval/eval.go:47-77 | an unknown workspace or a missing case message is an error that changes nothing; the configs run are those with no result for the case at the version; with a prompt the call fails only when some pending config got no reply; stored results only grow; the case table is the one the get-or-create left, with the case's rows possibly marked evaluated; after success, below 2^31 no active config of the workspace is still pending for the case |
| Evaluation.RunPending | packages/eval/eval.go:61-66 | runs the prompt and system prompt of the requested versions against the configs still pending; with a prompt it fails only when some pending config got no reply; results only grow and the case table is kept or has the case marked; after success, below 2^31 none is pending |
| Evaluation.Settled | packages/eval/eval.go:64-66 | configs pending before a successful call are answered by it, and the others were answered already, so none stays pending |
| Evaluation.RunCases | packages/eval/eval.go:100-110 | each case runs against the active config and the loop goes on past a failed case: the response holds, in case order, one stored answer per case that ran; a case is skipped only when the config got no reply for it, so when every case gets a reply every case is answered, in order; the case table afterwards has the rows of the marked ids flagged evaluated, the marked ids being cases that ran and including every one of them not yet evaluated; a missing prompt crashes and changes nothing |
| Evaluation.RunCase | packages/eval/eval.go:102 | one case run alone against the active config answers it with a stored result, or fails only because the config got no reply, and then changes nothing; an answer to a case not yet evaluated marks its rows; without a prompt it crashes |
| Evaluation.RefusedMeans | packages/eval/eval.go:135-145 | a config gets no reply exactly when its model is not registered or `InferSync` fails |
| Evaluation.KeptAll | packages/eval/eval.go:101-110 | when every case ran, the cases answered are all the cases |
| Evaluation.SyntheticGeneration | packages/eval/eval.go:78-118 | every test case of the workspace runs against its first active config; any failure of the call changes nothing; on success the response holds, in case order, one stored answer per case that ran, a case being skipped only when the config got no reply for it; the rows of the cases that ran are marked evaluated, every case not yet evaluated among them, and no other row changes; stored results only grow |
| LlmUtils.NameRun | packages/llmutils/llmutils.go:15 | the maximal run of `[A-Z_]` characters at the start of the text |
| LlmUtils.PlaceholderAt | packages/llmutils/llmutils.go:15 | when a placeholder starts the text, it is `{{`, a non-empty name of `[A-Z_]` characters, then `}}` |
| LlmUtils.ReplaceEmptyMap | packages/llmutils/llmutils.go:13-31 | with no variables, substitution leaves the text unchanged |
| LlmUtils.PlaceholderOfName | packages/llmutils/llmutils.go:15 | `{{NAME}}` at the front of a text is matched as a placeholder with exactly that name |
| LlmUtils.ReplaceKnown | packages/llmutils/llmutils.go:17-27 | a placeholder whose name is a key becomes its value, and a placeholder inside the value is not substituted again |
| LlmUtils.ReplaceUnknown | packages/llmutils/llmutils.go:22-24 | a placeholder whose name is not a key is left verbatim |
| LlmUtils.ReplaceAt | packages/llmutils/llmutils.go:17-27 | one placeholder is replaced by its value, or kept when its name is unknown, and the rest of the text is processed after it |
| LlmUtils.ReplaceVerbatimPrefix | packages/llmutils/llmutils.go:13-31 | text in which no placeholder starts is copied unchanged |
| LlmUtils.ReplaceNotAName | packages/llmutils/llmutils.go:15 | `{{...}}` around text with a character outside `[A-Z_]` is never touched, whatever the variables hold |
| LlmUtils.NextElement | packages/llmutils/llmutils.go:36-39 | the element found lies within the text: an opening tag, its content and a closing tag |
| LlmUtils.NextElementOf | packages/llmutils/llmutils.go:36-39 | in `<tag>content</tag>rest`, the element found is that one, with exactly `content` inside, when the content holds no closing tag |
| LlmUtils.WrapWithCDATA | packages/llmutils/llmutils.go:34-43 | the loop applies each tag's pass in the order of the tags |
| LlmUtils.WrapTagAbsent | packages/llmutils/llmutils.go:36-41 | a text without the opening tag passes through a tag's pass unchanged |
| LlmUtils.StripAbsent | packages/llmutils/llmutils.go:70-77 | a text without a CDATA section start is left unchanged by the section removal |
| LlmUtils.StripSection | packages/llmutils/llmutils.go:70-77 | removing sections undoes wrapping: a section written around some content gives back exactly that content |
| LlmUtils.BeforeComma | packages/llmutils/llmutils.go:55 | the part of the tag before its first comma, holding no comma |
| LlmUtils.XmlTagsFilter | packages/llmutils/llmutils.go:46-60 | the tags kept are exactly those that are not empty, "-" or "reply", each cut at its first comma |
| LlmUtils.GetXmlTags | packages/llmutils/llmutils.go:46-60 | the loop collects exactly the kept tags, in field order |
| LlmUtils.Clean | packages/llmutils/llmutils.go:98 | a cleaned field has no surrounding white space |
| LlmUtils.CleanFields | packages/llmutils/llmutils.go:93-101 | every field keeps its tag and its value is cleaned |
| LlmUtils.CleanEach | packages/llmutils/llmutils.go:93-101 | the clean-up loop cleans every decoded string field in place |
| LlmUtils.ParseResponse | packages/llmutils/llmutils.go:79-104 | the declared tags are wrapped, then decoded; the call fails exactly when decoding fails; otherwise the string fields are cleaned and the rest is kept |
| LlmUtils.FieldInTrimmed | packages/llmutils/llmutils.go:93-101 | a field looked up by tag among cleaned fields has no surrounding white space |
| LlmUtils.ParsedFieldTrimmed | packages/llmutils/llmutils.go:79-104 | a field read from a parsed reply never starts or ends with white space |
| LlmUtils.CleanedFieldTrimmed | packages/llmutils/llmutils.go:93-101 | every cleaned field, looked up by tag, is free of surrounding white space |
| ModelConfigs.ProviderSet | packages/eval/modelconfigs.go:15-20 | a provider type is in the set exactly when it is in the list of available providers |
| ModelConfigs.ListModelConfigs | packages/eval/modelconfigs.go:12-45 | the configs listed are exactly the registered LLM configs whose provider is available, each under its own name with provider, model and base URL copied |
| ModelConfigs.DefaultNamed | packages/eval/modelconfigs.go:61-92 | the default config is NotFound exactly when no config is registered under the stored name; otherwise it is that config, under that name |
| ModelConfigs.SetDefaultSmallModelConfig | packages/eval/modelconfigs.go:47-52 | sets the small default and leaves the large one |
| ModelConfigs.SetDefaultLargeModelConfig | packages/eval/modelconfigs.go:54-59 | sets the large default and leaves the small one |
| ModelConfigs.GetDefaultSmallModelConfig | packages/eval/modelconfigs.go:61-76 | answers for the stored small default name |
| ModelConfigs.GetDefaultLargeModelConfig | packages/eval/modelconfigs.go:78-92 | answers for the stored large default name |
| NewWorkspace.Generated | frontend/src/pages/NewWorkspace.tsx:38-62 | a non-empty generated prompt replaces the current one, which is pushed on the history; an empty one changes nothing; a rejection records its message; nothing stays pending |
| NewWorkspace.Undone | frontend/src/pages/NewWorkspace.tsx:64-70 | undo pops the last prompt off the history and shows it; with no history nothing changes |
| NewWorkspace.UndoAfterGenerate | frontend/src/pages/NewWorkspace.tsx:53-70 | undo right after a successful generate restores the prompt and history from before it |
| NewWorkspace.GenerateAllPushes | frontend/src/pages/NewWorkspace.tsx:53 | a run of generates pushes one prompt per successful reply on top of the history it started from |
| NewWorkspace.UndoAllAfterGenerateAll | frontend/src/pages/NewWorkspace.tsx:53-70 | the history is a stack: one undo per prompt pushed restores the prompt and history from before any run of generates |
| NewWorkspace.UndoTimesSplit | frontend/src/pages/NewWorkspace.tsx:64-70 | undoing k + 1 times is undoing k times and once more |
| NewWorkspace.Saved | frontend/src/pages/NewWorkspace.tsx:24-36 | a save keeps the prompt and history, leaves `pending` set and records the message of a rejection |
| NewWorkspace.SaveDisablesActions | frontend/src/pages/NewWorkspace.tsx:24-36 | after a save, failed or not, Generate and Accept stay disabled |
| NewWorkspace.PromptGenerator.constructor | frontend/src/pages/NewWorkspace.tsx:15-22 | the first render: an empty prompt in four lines, no history, nothing pending |
| NewWorkspace.PromptGenerator.EditPrompt | frontend/src/pages/NewWorkspace.tsx:77 | typing changes the prompt only |
| NewWorkspace.PromptGenerator.HandleGeneratePrompt | frontend/src/pages/NewWorkspace.tsx:38-62 | a request is made exactly when a model config name is set; the new state is the generate step's |
| NewWorkspace.PromptGenerator.HandleUndo | frontend/src/pages/NewWorkspace.tsx:64-70 | the new state is the undo step's |
| NewWorkspace.PromptGenerator.HandleSavePrompt | frontend/src/pages/NewWorkspace.tsx:24-36 | the new state is the save step's; a resolved save navigates to the new workspace's page |
| ProcessYaml.Put | scripts/process_yaml.py:38 | after `d[k] = v` the key reads `v`, every other key reads as before, and the dict stays well formed |
| ProcessYaml.PutAll | scripts/process_yaml.py:38 | storing items in turn keeps the dict well formed |
| ProcessYaml.PutAllOthers | scripts/process_yaml.py:38 | items without key `k` leave the value under `k` as it was |
| ProcessYaml.PutAllLastWins | scripts/process_yaml.py:9 | a key takes the value of its last item |
| ProcessYaml.PutAllKeys | scripts/process_yaml.py:38 | the keys present afterwards are exactly the old keys and the items' keys |
| ProcessYaml.WordRun | scripts/process_yaml.py:8 | the maximal run of word characters at a position |
| ProcessYaml.OpenTagAt | scripts/process_yaml.py:8 | an opening tag found is `<`, a non-empty word, then `>`, at that position |
| ProcessYaml.FindFrom | scripts/process_yaml.py:8 | the first occurrence of a pattern from a position on; nothing exactly when there is none |
| ProcessYaml.StepAt | scripts/process_yaml.py:8-9 | each step of the scan moves forward, so the scan ends |
| ProcessYaml.StepSound | scripts/process_yaml.py:8 | a match found by one step is an opening tag, content, then the same name's FIRST closing tag after it |
| ProcessYaml.MatchesSound | scripts/process_yaml.py:8-9 | every match the scan reports is sound in that sense |
| ProcessYaml.CustomXmlParse | scripts/process_yaml.py:6-9 | the parse is a well-formed dict |
| ProcessYaml.MatchItems | scripts/process_yaml.py:9 | one item per match, its name with its stripped content |
| ProcessYaml.ItemsKeys | scripts/process_yaml.py:9 | the dict built from matches holds exactly their names |
| ProcessYaml.CustomXmlParseKeys | scripts/process_yaml.py:6-9 | the parse holds exactly the names of the matches in the text |
| ProcessYaml.CustomXmlParseLastWins | scripts/process_yaml.py:6-9 | a name that occurs more than once takes the stripped content of its last match |
| ProcessYaml.NoTagsWithoutAngle | scripts/process_yaml.py:8 | a text without `<` has no matches |
| ProcessYaml.UpperKeys | scripts/process_yaml.py:37 | upper-casing the keys keeps the dict well formed |
| ProcessYaml.Items | scripts/process_yaml.py:37 | `items()` lists every key with its value, in insertion order |
| ProcessYaml.UpperItems | scripts/process_yaml.py:37 | every item with its key upper-cased, in order |
| ProcessYaml.UpperKeysSpec | scripts/process_yaml.py:37 | the new dict holds exactly the upper-cased keys of the old one |
| ProcessYaml.VariablesPartFails | scripts/process_yaml.py:22-25 | expanding the variables raises exactly when a declared variable's value is not a string |
| ProcessYaml.VariablesPartEntries | scripts/process_yaml.py:22-25 | otherwise the record holds exactly the declared variables the case has, each with its stripped text |
| ProcessYaml.Replies | scripts/process_yaml.py:28-38 | one parsed reply per result, in order |
| ProcessYaml.MergedFails | scripts/process_yaml.py:28-38 | merging the results raises exactly when one of them raises |
| ProcessYaml.MergedStep | scripts/process_yaml.py:28-38 | one more result extends the merge of the earlier ones |
| ProcessYaml.ResultsFail | scripts/process_yaml.py:30-31 | a case's results raise exactly when some response lacks `</reply>` |
| ProcessYaml.MergedKeeps | scripts/process_yaml.py:38 | merging never drops a key of the record, and a key no reply has keeps its value |
| ProcessYaml.Outcomes | scripts/process_yaml.py:18-43 | one outcome per test case, in order |
| ProcessYaml.CollectedSpec | scripts/process_yaml.py:18-43 | one record per outcome, in order; the run raises exactly when some outcome does, with the error of the first one |
| ProcessYaml.RecordsSpec | scripts/process_yaml.py:18-43 | one record per test case, each the case's own; the run raises exactly when some case raises |
| ProcessYaml.RaisedPrefix | scripts/process_yaml.py:18-43 | once a prefix of the cases raises, the whole run raises the same error |
| ProcessYaml.ExpandVariables | scripts/process_yaml.py:22-25 | the variable loop builds the variables part |
| ProcessYaml.ParseReply | scripts/process_yaml.py:29-37 | the result loop's body checks `</reply>`, unwraps, parses and upper-cases as the reply's items |
| ProcessYaml.MergeResults | scripts/process_yaml.py:28-38 | the result loop merges every reply into the record in turn |
| ProcessYaml.ProcessCase | scripts/process_yaml.py:19-41 | the case loop's body builds the case's record or raises |
| ProcessYaml.Process | scripts/process_yaml.py:11-46 | the records dumped are the records of the cases, or the first exception stops the script |
| PromptTester.CellAt | frontend/src/pages/PromptTester.tsx:519-525 | a cell shows a result of its case, config and version; it shows the Run button exactly when there is none |
| PromptTester.CellAppend | frontend/src/pages/PromptTester.tsx:519-525 | appending results never changes a cell that shows one; a cell with a Run button shows the first new result that belongs there |
| PromptTester.Rated | frontend/src/pages/PromptTester.tsx:60-68 | rating keeps the number of results |
| PromptTester.RatedCell | frontend/src/pages/PromptTester.tsx:60-68 | after rating, the cell shows the same result with the new rating, and every other result is untouched |
| PromptTester.ConfigIds | frontend/src/pages/PromptTester.tsx:224 | an id is listed exactly when some config has it |
| PromptTester.Export | frontend/src/pages/PromptTester.tsx:218-226 | the export lists every test case, in order |
| PromptTester.ExportedResultsMembers | frontend/src/pages/PromptTester.tsx:224 | a result is exported under a case exactly when it is that case's and its config is active, whatever version produced it |
| PromptTester.RecordValuesFail | frontend/src/pages/PromptTester.tsx:300-315 | building a record's values fails exactly when one of its entries throws |
| PromptTester.RecordValuesKeys | frontend/src/pages/PromptTester.tsx:300-315 | the keys of the values are exactly the record's keys that name a variable |
| PromptTester.RecordValuesLast | frontend/src/pages/PromptTester.tsx:300-315 | a key takes its last entry's value, converted for the first variable of that name |
| PromptTester.NullImportsUnset | frontend/src/pages/PromptTester.tsx:304-312 | a null under a variable's name is read by `fromJson` as a value that is not set, so the import goes on with that variable unset |
| PromptTester.BuildValues | frontend/src/pages/PromptTester.tsx:300-315 | the loop builds the record's values as specified |
| PromptTester.ImportRequests | frontend/src/pages/PromptTester.tsx:296-329 | one create request per record, in order, up to the first record that throws |
| PromptTester.Created | frontend/src/pages/PromptTester.tsx:317-325 | no more cases are added than creates were sent |
| PromptTester.CreatedMembers | frontend/src/pages/PromptTester.tsx:317-325 | a case is added exactly when some create returned it |
| PromptTester.ImportAll | frontend/src/pages/PromptTester.tsx:296-329 | the record loop sends the import's requests and adds the cases the resolved ones return |
| PromptTester.RunTestKeepsRows | frontend/src/pages/PromptTester.tsx:267-269 | putting back the row passed in leaves the rows as they were when they agree with it |
| PromptTester.EditedValue | frontend/src/pages/PromptTester.tsx:335-353 | an edit keeps the number of rows |
| PromptTester.EditedValueOnly | frontend/src/pages/PromptTester.tsx:335-353 | an edit sets one variable of the rows with that id; every other row, value and field stays |
| PromptTester.EditedValueLastWins | frontend/src/pages/PromptTester.tsx:335-353 | of two edits of the same variable, the later wins |
| PromptTester.DeleteMembers | frontend/src/pages/PromptTester.tsx:419 | delete removes exactly the rows with that id |
| PromptTester.Marked | frontend/src/pages/PromptTester.tsx:373-386 | marking keeps the number of rows |
| PromptTester.MarkedSpec | frontend/src/pages/PromptTester.tsx:373-386 | with distinct ids, a row is evaluated afterwards exactly when it was or some result names it; nothing else about a row changes |
| PromptTester.MarkedOnlyMentioned | frontend/src/pages/PromptTester.tsx:373-386 | only rows some result names can change |
| PromptTester.MarkEvaluated | frontend/src/pages/PromptTester.tsx:375-385 | the loop marks, result by result, the first row with the result's case id |
| PromptTester.CeilDiv | frontend/src/pages/PromptTester.tsx:183 | the page count is the least number of pages that holds all the cases |
| PromptTester.NextStaysInRange | frontend/src/pages/PromptTester.tsx:579-584 | while Next is enabled on a page in range, the next page is in range too |
| PromptTester.NoPagesNextEnabled | frontend/src/pages/PromptTester.tsx:579-584 | with no cases there are no pages, and Next stays enabled |
| PromptTester.Expanded | frontend/src/pages/PromptTester.tsx:210-216 | clicking the expanded row collapses it; clicking any other row expands it |
| PromptTester.ExpandedTwice | frontend/src/pages/PromptTester.tsx:210-216 | clicking the same row twice gives back the state before, when that row or none was expanded |
| PromptTester.Tester.constructor | frontend/src/pages/PromptTester.tsx:158-166 | the first render: empty lists, no expanded row, page 1 of 1, ten rows per page |
| PromptTester.Tester.FetchTestCases | frontend/src/pages/PromptTester.tsx:173-188 | a listed page replaces the rows and results and recomputes the page count; a failed fetch changes nothing |
| PromptTester.Tester.HandlePageChange | frontend/src/pages/PromptTester.tsx:169-192 | the page number changes, and the fetch its effect runs replaces the rows and results and recomputes the page count with the unchanged page size; nothing else changes |
| PromptTester.Tester.HandleItemsPerPageChange | frontend/src/pages/PromptTester.tsx:169-197 | the new page size sends the table back to page 1, and the fetch replaces the rows and results and recomputes the page count with the new size; nothing else changes |
| PromptTester.Tester.SyncVersion | frontend/src/pages/PromptTester.tsx:199-208 | the version's variables and the workspace's active configs replace the local lists when present |
| PromptTester.Tester.SetActiveConfigs | frontend/src/pages/PromptTester.tsx:603 | the list reported by the config dialog replaces the active configs |
| PromptTester.Tester.HandleExpandRow | frontend/src/pages/PromptTester.tsx:210-216 | the new state is the expand step's |
| PromptTester.Tester.ExportToYAML | frontend/src/pages/PromptTester.tsx:218-226 | dumps the export of the current state |
| PromptTester.Tester.HandleRunTest | frontend/src/pages/PromptTester.tsx:244-270 | a resolved run appends its results; the rows with that id are set back to the row passed in and none is marked evaluated |
| PromptTester.Tester.HandleRating | frontend/src/pages/PromptTester.tsx:60-68 | the rating sent is +1 or -1 for the result the cell shows, and that result is rated in place |
| PromptTester.Tester.HandleAddRow | frontend/src/pages/PromptTester.tsx:272-276 | the created case is appended once the call resolves |
| PromptTester.Tester.HandleImportYAML | frontend/src/pages/PromptTester.tsx:289-332 | the requests are the import's; the cases created are appended in order |
| PromptTester.Tester.HandleVariableValueChange | frontend/src/pages/PromptTester.tsx:335-353 | the new rows are the edit step's |
| PromptTester.Tester.HandleSyntheticGenerate | frontend/src/pages/PromptTester.tsx:355-391 | with no active config it throws before any request; otherwise a resolved call appends the results and marks the rows they name |
| PromptTester.Tester.HandleGenerateTestCase | frontend/src/pages/PromptTester.tsx:393-411 | the request carries the seed prompt only when it is non-empty; the response's cases are appended only when it has a list of them |
| PromptTester.Tester.HandleDeleteTestCase | frontend/src/pages/PromptTester.tsx:413-423 | no request for a missing or empty id; the rows with that id go once the delete resolves |
| PromptTester.Tester.SetSeedPrompt | frontend/src/pages/PromptTester.tsx:609 | typing changes the seed prompt only |
| Prompts.CloseAt | packages/eval/prompts.go:67-85 | the non-greedy `.*?}}` stops at the first `}}` on the same line, and at nothing when a newline or the end comes first |
| Prompts.ParseDoubleBrackets | packages/eval/prompts.go:67-85 | the loop collects the trimmed placeholders in order of appearance |
| Prompts.NoOpenNoPlaceholders | packages/eval/prompts.go:67-85 | text with no `{{` has no placeholder |
| Prompts.MatchesOnOneLine | packages/eval/prompts.go:67-85 | a placeholder never spans lines |
| Prompts.CloseAfterName | packages/eval/prompts.go:67-85 | a name free of `}` and newlines is closed by its own `}}` |
| Prompts.FirstPlaceholder | packages/eval/prompts.go:67-85 | `{{a}}` at the front yields `a`, and the scan resumes right after it |
| Prompts.TwoPlaceholders | packages/eval/prompts.go:67-85 | `{{a}}{{b}}` holds two placeholders, not one spanning both |
| Prompts.DeclareTextVariables | packages/eval/prompts.go:153-160 | one text variable per extracted name, in order |
| Prompts.GetNameForWorkspace | packages/eval/prompts.go:23-65 | the title and error are `WorkspaceName`'s: an unregistered small default is NotFound, a failed call or an unparsable answer Internal, each with the title "Untitled", and otherwise the trimmed title the model gave |
| Prompts.WorkspaceNameOutcomes | packages/eval/prompts.go:23-65 | every failure comes with the title "Untitled"; NotFound means exactly that the small default model is not registered; a title from the model has no surrounding white space |
| Prompts.GeneratePrompt | packages/eval/prompts.go:93-140 | the reply is `GeneratedPrompt`'s: NotFound for an unregistered model, Internal for a failed call or an unparsable answer, and otherwise the trimmed prompt the model gave |
| Prompts.GeneratedPromptOutcomes | packages/eval/prompts.go:93-140 | NotFound exactly for an unregistered model name; a generated prompt has no surrounding white space |
| Prompts.UpdateWorkspace | packages/eval/prompts.go:142-174 | a known workspace gets the next version of the content, with its placeholders as text variables, as its current and an active version; an unknown id ends in an error, after the zero workspace has been created and given version 1 when no workspace "" exists |
| Prompts.SaveUpdated | packages/eval/prompts.go:148-167 | the saves of the loaded workspace store the next version and bump the workspace; the zero workspace fails |
| Prompts.SaveNewVersion | packages/eval/prompts.go:152-167 | the new version is numbered one past the current (wrapping at 2^32), stored, and the workspace saved with it as current and active |
| Providers.ProviderStore.constructor | packages/providerstore/providerstore.go:34-75 | a store with no provider registered |
| Providers.ProviderStore.GetProvider | packages/providerstore/providerstore.go:17-19 | the responder registered for the type, or nothing exactly when none is |
| Providers.ProviderStore.AddProvider | packages/providerstore/providerstore.go:21-23 | the type now maps to the new responder and every other type is unchanged |
| Providers.ProviderStore.ListProviders | packages/providerstore/providerstore.go:25-31 | every registered type exactly once |
| EvalService.MintedId | packages/eval/testcases.go:118 | each minted id is longer than every earlier one, so none repeats |
| EvalService.Service.constructor | packages/eval/eval.go:36-45 | empty tables and the defaults "gpt-4-mini" and "gpt-4o" |
| EvalService.Service.NewId | packages/eval/workspace.go:29 | a non-empty id that no stored workspace, config, case or result has |
| EvalService.Service.InferSync | packages/eval/eval.go:386-392 | an unregistered provider type is an error; otherwise the registered provider answers |
| EvalService.Service.InsertWorkspace | packages/eval/workspace.go:43 | the create hook resets the version counter to 0, and the row is inserted exactly when its key is free |
| EvalService.Service.SaveWorkspace | packages/eval/prompts.go:148 | a workspace with an id replaces its row or is inserted; the zero id is a create, which fails when "" is taken |
| Tables.Lookup | packages/eval/workspace.go:267 | the row found has the key and is stored; nothing exactly when no row has the key |
| Tables.SaveThenLookup | packages/eval/prompts.go:148 | after a save, looking up its key gives the row saved |
| Tables.SaveKeepsOthers | packages/eval/prompts.go:148 | a save leaves every other key's row as it was |
| Tables.SaveTwice | packages/eval/prompts.go:148-167 | saving twice under one key is saving the second row once |
| Tables.SaveOverInsert | packages/eval/workspace.go:43-52 | a save right after the insert of a fresh key replaces the inserted row |
| Tables.SaveSize | packages/eval/prompts.go:148 | a save adds a row exactly when the key is new and never removes one |
| Tables.WithoutMembers | packages/eval/testcases.go:277 | after a delete no row has the key and every other row is kept |
| Tables.DeleteThenLookup | packages/eval/workspace.go:229 | after a delete the key is not found and other keys are found as before |
| Tables.LookupAppend | packages/eval/workspace.go:43 | an insert changes a lookup only when no earlier row has the key |
| Seqs.Window | packages/eval/workspace.go:151 | the rows at the offset (when positive) and at most `limit` of them (when non-negative), in table order |
| Seqs.WindowsTile | packages/eval/testcases.go:63 | consecutive windows tile the rows with none skipped or repeated |
| TestCases.ValueRoundTrip | packages/eval/testcases.go:20-48 | a stored value fails to convert exactly when it has neither image nor text; one with exactly one of them comes back unchanged |
| TestCases.ProtoRoundTrip | packages/eval/testcases.go:20-48 | a wire value comes back unchanged, except an unset value or empty image, which cannot be sent back |
| TestCases.VariableValuesToProto | packages/eval/testcases.go:20-32 | the loop converts every value, in any key order, and crashes on one that cannot be sent |
| TestCases.VariableValuesFromProto | packages/eval/testcases.go:34-48 | the loop stores every wire value |
| TestCases.StoredRoundTrip | packages/eval/testcases.go:20-48 | stored values that each hold exactly one of image and text are sent and read back unchanged |
| TestCases.WireRoundTrip | packages/eval/testcases.go:20-48 | wire values, once stored, are sent back unchanged exactly when none is unset or an empty image |
| TestCases.ResultMsgs | packages/eval/testcases.go:76-89 | one wire result per stored result, in order |
| TestCases.PageResultsSound | packages/eval/testcases.go:68-92 | every result listed is a stored result of a case on the page |
| TestCases.PageResultsComplete | packages/eval/testcases.go:68-92 | every stored result of a case on the page is listed |
| TestCases.CollectResults | packages/eval/testcases.go:68-92 | the loop lists the results of the page's cases, case after case |
| TestCases.ListTestCases | packages/eval/testcases.go:50-114 | the requested page of the (optionally filtered) cases, the int32 count of all of them and the results of the page's cases; an unsendable case crashes the handler |
| TestCases.CasesToProto | packages/eval/testcases.go:94-105 | every case of the page is sent, or nothing when one cannot be |
| TestCases.CreateTestCase | packages/eval/testcases.go:116-138 | a fresh unevaluated case is stored with the values; the reply echoes them, and crashes after the insert when one cannot be sent back |
| TestCases.DeleteTestCase | packages/eval/testcases.go:276-285 | the case with the id is gone and nothing else changes; an unknown id is no error |
| TestCases.WriteVariableLines | packages/eval/testcases.go:178-183 | the loop writes one `- NAME` line per variable |
| TestCases.VariableLinesLength | packages/eval/testcases.go:178-183 | each variable adds exactly its name and three characters |
| TestCases.ExampleValuesEmpty | packages/eval/testcases.go:191-210 | there are no examples exactly when there are no cases |
| TestCases.WriteExampleLine | packages/eval/testcases.go:198-209 | each key of the case appears once, in the map's order, in its example line |
| TestCases.WriteExampleValues | packages/eval/testcases.go:191-210 | example lines for at most the first three cases |
| TestCases.BuildOutVars | packages/eval/testcases.go:248-251 | the loop builds the generated values |
| TestCases.OutVarsSpec | packages/eval/testcases.go:248-251 | one generated variable per trimmed key and no other, holding the trimmed text of the last pair with that key |
| TestCases.GeneratedCaseSendable | packages/eval/testcases.go:248-270 | a generated case holds only texts, so it is always sent back unchanged |
| TestCases.Generate | packages/eval/testcases.go:159-247 | the model is shown examples of the workspace's cases, and the values are those the model's parsed answer gives |
| TestCases.AskModel | packages/eval/testcases.go:212-247 | the values are the parsed answer of the model to the filled template |
| TestCases.GenerateTestCase | packages/eval/testcases.go:156-274 | exactly one case is generated and stored unevaluated under a fresh id; any failure stores nothing |
| TestCases.StoreGenerated | packages/eval/testcases.go:253-270 | the generated values are stored as a new unevaluated case under a fresh id |
| Text.TrimLeft | packages/llmutils/llmutils.go:98 | drops exactly the leading white space |
| Text.TrimRight | packages/llmutils/llmutils.go:98 | drops exactly the trailing white space |
| Text.Trim | packages/llmutils/llmutils.go:98 | no white space is left at either end, and a string without any there is kept |
| Text.TrimSpace | packages/llmutils/llmutils.go:98 | Go's `strings.TrimSpace` leaves no white space at either end |
| Text.TrimIdempotent | packages/llmutils/llmutils.go:98 | trimming twice is trimming once |
| Text.RemoveAll | scripts/process_yaml.py:32 | removal never lengthens the text |
| Text.RemoveAllAbsent | scripts/process_yaml.py:32 | removing a pattern that does not occur changes nothing |
| Text.ToUpper | scripts/process_yaml.py:37 | every character upper-cased in place |
| EvalTypes.Next32 | packages/eval/types.go:105 | one more, except that 2^32 - 1 wraps round to 0 |
| EvalTypes.ToInt32 | packages/eval/eval.go:64 | a value in int32 range is kept; any value is taken modulo 2^32 |
| EvalTypes.DriverValue | packages/eval/types.go:35-40 | SQL NULL exactly for a variable without a name |
| EvalTypes.ScanDriverValue | packages/eval/types.go:20-40 | what is stored for a variable reads back as that variable, exactly when it has a name |
| EvalTypes.FirstPromptIndex | packages/eval/types.go:126-133 | the index of the first prompt with the number, or none when no prompt has it |
| EvalTypes.IssuedIncreasing | packages/eval/types.go:104-115 | below the uint32 limit the numbers handed out are start+1, start+2, ... |
| EvalTypes.IssuedFromZero | packages/eval/types.go:99-115 | after the create hook, versions are numbered 1, 2, 3, ... and strictly increase |
| EvalTypes.Workspace.constructor | packages/eval/workspace.go:28-32 | a workspace with the id and name and every other field at its zero value |
| EvalTypes.Workspace.Load | packages/eval/eval.go:245 | a workspace read from its row with the preloaded associations |
| EvalTypes.Workspace.BeforeCreate | packages/eval/types.go:99-102 | numbering restarts at 0 |
| EvalTypes.Workspace.CreatePrompt | packages/eval/types.go:104-115 | the current number goes up by one (wrapping), the new prompt carries it, and it is appended to the active versions |
| EvalTypes.Workspace.CurrentPrompt | packages/eval/types.go:117-124 | the loaded prompt with the current number, or nothing exactly when none has it |
| EvalTypes.Workspace.PromptByVersion | packages/eval/types.go:126-133 | the first loaded prompt with the number, or nothing exactly when none has it |
| EvalTypes.Workspace.SystemPromptByVersion | packages/eval/eval.go:62 | the first loaded system prompt with the number, or nothing exactly when none has it |
| VersionSelectDialog.Decimal | frontend/src/components/VersionSelectDialog.tsx:39 | a number's string has at least one digit, and exactly one for a number below ten |
| VersionSelectDialog.DecimalInjective | frontend/src/components/VersionSelectDialog.tsx:39 | distinct numbers are written differently |
| VersionSelectDialog.FindWritten | frontend/src/components/VersionSelectDialog.tsx:39 | looking a version up by its number's string finds the first version with that number |
| VersionSelectDialog.Toggle | frontend/src/components/VersionSelectDialog.tsx:43-52 | a value naming no version leaves the selection as it is |
| VersionSelectDialog.FilterNumber | frontend/src/components/VersionSelectDialog.tsx:48 | filtering by a number drops that number and keeps every other |
| VersionSelectDialog.ToggledMembers | frontend/src/components/VersionSelectDialog.tsx:46-50 | a toggle flips whether its number is selected and no other |
| VersionSelectDialog.ToggledDistinct | frontend/src/components/VersionSelectDialog.tsx:46-50 | a toggle never makes a number occur twice |
| VersionSelectDialog.FilterSubsequence | frontend/src/components/VersionSelectDialog.tsx:48 | filtering keeps distinct numbers distinct |
| VersionSelectDialog.ToggledTwice | frontend/src/components/VersionSelectDialog.tsx:46-50 | toggling a version twice restores which numbers are selected |
| VersionSelectDialog.ToggledBack | frontend/src/components/VersionSelectDialog.tsx:46-50 | ticking an unselected version and unticking it gives back the same list |
| VersionSelectDialog.Dialog.constructor | frontend/src/components/VersionSelectDialog.tsx:35-36 | the state starts from the props |
| VersionSelectDialog.Dialog.HandleVersionChange | frontend/src/components/VersionSelectDialog.tsx:38-41 | the selected version is the one written as the value, or none |
| VersionSelectDialog.Dialog.HandleActiveVersionChange | frontend/src/components/VersionSelectDialog.tsx:43-52 | the selection becomes the toggle step's |
| VersionSelectDialog.Dialog.HandleConfirm | frontend/src/components/VersionSelectDialog.tsx:54-59 | the selected version is reported only when there is one; the active selection always |
| Workspaces.ProtoVariableRoundTrip | packages/eval/workspace.go:76-93 | a text or image variable survives the trip to the wire and back; any other type is dropped |
| Workspaces.VariablesToProtobuf | packages/eval/workspace.go:76-93 | one slot per variable, in order, filled only for text and image variables |
| Workspaces.PromptToProto | packages/eval/workspace.go:102-110 | the wire form of a stored prompt |
| Workspaces.CreateWorkspace | packages/eval/workspace.go:16-74 | a fresh workspace named as asked (or by the model), whose version 1 holds the content with its placeholders as text variables, is current and the only active one; a naming failure stores nothing |
| Workspaces.CreateNamedWorkspace | packages/eval/workspace.go:28-74 | the workspace is inserted under a fresh id, then its version 1 |
| Workspaces.GetWorkspace | packages/eval/workspace.go:95-141 | the workspace with every version and config stored for it, in table order; NotFound exactly for an unknown id |
| Workspaces.PageOffsetExact | packages/eval/workspace.go:147 | without overflow, the offset is (page - 1) * pageSize |
| Workspaces.PageOffsets | packages/eval/workspace.go:147 | consecutive pages' offsets are pageSize apart when neither overflows |
| Workspaces.PagesAt | packages/eval/workspace.go:147-151 | two pages at adjacent offsets are one double-size window |
| Workspaces.ConsecutivePages | packages/eval/workspace.go:147-151 | consecutive pages tile the table while the offsets fit in an int32 |
| Workspaces.ListWorkspaces | packages/eval/workspace.go:143-172 | the requested page of workspace summaries and the int32 number of workspaces |
| Workspaces.Summaries | packages/eval/workspace.go:156-165 | one summary per workspace of the page, in order |
| Workspaces.CreateWorkspaceConfig | packages/eval/workspace.go:174-217 | a new active config with a fresh id for an existing workspace; NotFound for an unknown one; missing options crash the handler |
| Workspaces.DeleteWorkspaceConfig | packages/eval/workspace.go:219-237 | the config with the id is removed; NotFound exactly when there is none |
| Workspaces.SetWorkspaceConfigActive | packages/eval/workspace.go:239-263 | the config's flag is set and no other config changes; NotFound for an unknown config, InvalidArgument for another workspace's |
| Workspaces.ActivateVersionMembers | packages/eval/workspace.go:274-294 | afterwards the version is active exactly when asked, and every other version is as before |
| Workspaces.ActivateVersionNoDup | packages/eval/workspace.go:274-294 | a list of distinct versions stays distinct |
| Workspaces.ActivateVersionIdempotent | packages/eval/workspace.go:274-294 | asking twice is asking once |
| Workspaces.Activated | packages/eval/workspace.go:274-294 | the loops update the active list as specified |
| Workspaces.RemoveVersion | packages/eval/workspace.go:274-282 | the versions other than the one removed, in order |
| Workspaces.ContainsVersion | packages/eval/workspace.go:284-290 | the search finds the version exactly when it is active |
| Workspaces.SetVersionActive | packages/eval/workspace.go:265-305 | the workspace's active list is updated and saved; NotFound for an unknown id |
| Workspaces.SetXMLMode | packages/eval/workspace.go:307-327 | the workspace's XML-mode flag is set and saved; NotFound for an unknown id |
| WorkspacePage.Fallback | frontend/src/pages/WorkspacePage.tsx:39 | the stored number unless it is 0; else the last index of the list, which is -1 with no versions and 0 with one |
| WorkspacePage.CurrentVersionSpec | frontend/src/pages/WorkspacePage.tsx:39-40 | the version shown is one with the fallback number; none exactly when no version has it |
| WorkspacePage.NoSystemPromptShown | frontend/src/pages/WorkspacePage.tsx:46-48 | a workspace without system prompts shows none |
| WorkspacePage.ActiveOfMembers | frontend/src/pages/WorkspacePage.tsx:41 | the versions compared are exactly the prompts whose number is active |
| WorkspacePage.ActivationRequests | frontend/src/pages/WorkspacePage.tsx:59-64 | one request per prompt, in order, asking for it to be active exactly when a selected version has its number |
| WorkspacePage.Attempted | frontend/src/pages/WorkspacePage.tsx:57-66 | requests go out until the first failure, which ends the loop; all go out when none fails |
| WorkspacePage.AppliedMembers | frontend/src/pages/WorkspacePage.tsx:57-67 | requests that agree on a version leave it active exactly as they ask, or as it was when none names it |
| WorkspacePage.AppliedSelection | frontend/src/pages/WorkspacePage.tsx:57-67 | when every request succeeds, the service's active list matches the selection for every prompt and keeps every other number |
| WorkspacePage.Page.constructor | frontend/src/pages/WorkspacePage.tsx:20-26 | nothing loaded, nothing selected, XML mode off |
| WorkspacePage.Page.Load | frontend/src/pages/WorkspacePage.tsx:29-51 | a loaded workspace sets the version shown, the versions compared, the XML mode and the system prompt; a failed load changes nothing |
| WorkspacePage.Page.HandleVersionSelect | frontend/src/pages/WorkspacePage.tsx:53-55 | only the version shown changes |
| WorkspacePage.Page.HandleActiveVersions | frontend/src/pages/WorkspacePage.tsx:57-68 | the requests sent are those attempted; the local list becomes the selection only when all succeed |
| WorkspacePage.Page.HandleSetXMLMode | frontend/src/pages/WorkspacePage.tsx:70-74 | the flag follows only once the call resolves |
| WorkspaceSettingsDialog.DefaultFormInRange | frontend/src/components/WorkspaceSettingsDialog.tsx:34-38 | the default form holds values its sliders can show |
| WorkspaceSettingsDialog.ActiveIdsMembers | frontend/src/components/WorkspaceSettingsDialog.tsx:54 | an id is active exactly when some config flagged active has it |
| WorkspaceSettingsDialog.FlipMembers | frontend/src/components/WorkspaceSettingsDialog.tsx:93-97 | a toggle flips whether its id is active and no other |
| WorkspaceSettingsDialog.ReportedIsStale | frontend/src/components/WorkspaceSettingsDialog.tsx:98 | the list reported after a toggle always says the opposite of the new selection for the toggled config |
| WorkspaceSettingsDialog.RemoveMembers | frontend/src/components/WorkspaceSettingsDialog.tsx:109-111 | removal drops exactly the configs and the ids equal to the removed id |
| WorkspaceSettingsDialog.Dialog.constructor | frontend/src/components/WorkspaceSettingsDialog.tsx:33-40 | after the first effect, the lists are the configs and the ids of the active ones, and the form is the default |
| WorkspaceSettingsDialog.Dialog.SyncConfigs | frontend/src/components/WorkspaceSettingsDialog.tsx:52-55 | the configs are taken as given and the active ids recomputed; the form is kept |
| WorkspaceSettingsDialog.Dialog.SetMaxTokens | frontend/src/components/WorkspaceSettingsDialog.tsx:180-190 | only the max tokens change, and the form stays in range |
| WorkspaceSettingsDialog.Dialog.SetTemperature | frontend/src/components/WorkspaceSettingsDialog.tsx:164-173 | only the temperature changes, and the form stays in range |
| WorkspaceSettingsDialog.Dialog.HandleAddConfig | frontend/src/components/WorkspaceSettingsDialog.tsx:57-83 | a created config is appended, its id made active, the new list reported and the form reset; otherwise nothing changes |
| WorkspaceSettingsDialog.Dialog.HandleConfigSelection | frontend/src/components/WorkspaceSettingsDialog.tsx:85-99 | the request asks for activation exactly when the id is not active; on success the id is toggled and the stale list reported |
| WorkspaceSettingsDialog.Dialog.HandleRemoveConfig | frontend/src/components/WorkspaceSettingsDialog.tsx:101-117 | once the delete resolves the config and its id are gone and the rest is reported |

## Left out

- The goroutines of `processTestCaseWithConfigs` are run one after another, in config order, so the results come back in that order rather than in order of completion; as in the source, any error fails the whole call.
- Database errors other than a missing row, timestamps and gorm's soft delete: the tables are sequences in memory that never fail.
- Temperatures are reals; float32 rounding is not modelled.
- YAML and file input and output, rendering, the clipboard, console logging and HTTP headers are effects outside the model.
- Reading API keys from the environment in `NewProviderStore`: the store starts empty and providers are added by `AddProvider`.
- The embedded prompt templates, the language model, the XML decoder and `html.UnescapeString` are parameters of the operations that use them.
- Go map iteration order is chosen nondeterministically, so the model proves what holds for every order.
- `\w` in the placeholder pattern and Python's `upper()` are limited to ASCII letters.
- ProcessYaml.VariablesPart: a declared value that is not a string is one `NonStr` value, and `.strip()` on it raises AttributeError, as process_yaml.py:25 does for a number, a boolean or null. An image value is the exception the model does not capture: the export writes its bytes as `!!binary`, Python loads them as `bytes`, and `bytes.strip()` succeeds, so the script keeps the stripped bytes where the model raises. The model's records hold strings only.
- React's asynchronous interleaving and re-render timing: each handler runs with the settled reply of its call.
- `handleVariableTypeChange` of the prompt tester: its control is rendered only in commented-out code.
- The settings dialog's fetch of the model-config list (WorkspaceSettingsDialog.tsx:44-50) and the setters of the form's name and model: they only fill a drop-down and text inputs.
- `ModelSettingsDialog` and the page's small and large default model names: the dialog is not part of this model.
- The `ModelConfigNames` field that GetWorkspace sends (workspace.go:129): nothing in the service ever writes it, so it is always empty, and the workspace message of the model has no such field.
- The client-side decoding of protobuf messages: the components receive decoded values.
- `Workspace.CreateWorkspaceConfig` at types.go:74-84: nothing calls it.
- `Infer` (eval.go:378-384): streaming replies are not modelled, only `InferSync`.
- The stored system-prompt rows: no operation of the service writes them, so the model reads them as they are found. The definitions of the `SystemPrompt` row and of `Workspace.SystemPromptByVersion` are not part of this model's source files; the row is modelled with a version number, content and workspace id, and the lookup like `PromptByVersion`.
- `VariableValues.Scan` and `Value` at types.go:167-179: JSON encoding is not modelled; stored values are kept as values.
- The `except` branch of process_yaml.py at lines 39-41: the parser and `upper` are total in the model, so it cannot be reached.
- LlmUtils.WrapWithCDATA: only that the next element is wrapped and that text outside elements passes through are proved, not that every element of the answer is wrapped.
