# AI Writer Room — a verified model of its core

The AI Writer Room is a browser app for writing fiction with a team of AI
agents. A *story bible* holds the summary, the characters and the
locations. The story is a list of *scenes*, one of them *active*. Five
agents each run one call to a generative model and write their result
into the active scene:

- the planner writes a beat sheet;
- the writer writes a draft;
- the continuity checker lists inconsistencies;
- the editor rewrites the text;
- the visualiser draws a picture.

The repository ships two copies of the app: `App.tsx` with
`services/geminiService.ts` (here called *root*), and `src/App.tsx` with
`src/services/geminiService.ts` (here called *src*). Both are modelled.
The `Variant` datatype says which copy a state belongs to.

Modules:

- `Types`: the records of `types.ts`, the JSON values the services read, and the outcome of a call that may throw.
- `Text`: the string operations the services use: `trim`, `split`/`join`, `indexOf`/`lastIndexOf`, `slice` and number formatting.
- `Records`: the `map`/`filter`/`find` idioms over lists of records keyed by id.
- `CleanJson`: `cleanJsonString`, which pulls a JSON object out of a model reply.
- `Gemini`: the bible context, the five agents' requests and replies, the speech call, and `decodeBase64` (an array method with a loop).
- `Continuity`: both copies of the continuity agent, with the src copy's normaliser and its `try`/`catch` fallback.
- `Scenes`: the scene-list updaters of the app: the active scene, the partial update, the new scene and the guarded delete.
- `BibleEditor`: the summary, character and location handlers of the bible editor.
- `App`: the app's state, its effects (key check, load, persist) and `handleAgentAction`. These are functions on an `AppState` value. The class `Orchestrator` holds the same state in fields, and its methods change it step by step; each method is proved to leave exactly the state that the matching function computes.

The model library is a parameter. `Gateway` maps a request to a reply or an
exception, and `Parser` stands for `JSON.parse`. Every property holds for
every gateway and parser.

## Model

| member | source | states |
|---|---|---|
| Text.IndexOf | src/services/geminiService.ts:36 | `indexOf`: -1 exactly when the character is absent, else the index of its first occurrence |
| Text.LastIndexOf | src/services/geminiService.ts:37 | `lastIndexOf`: -1 exactly when absent, else the index of the last occurrence |
| Text.Find | src/services/geminiService.ts:34 | the first occurrence of a pattern at or after a position, or -1 when there is none |
| Text.Trim | src/components/BibleManager.tsx:41 | `trim`: the result has no white space at either end, and is the input minus white space cut from both ends |
| Text.TrimUnique | src/components/BibleManager.tsx:41 | trimming white space around a trimmed text gives that text back |
| Text.TrimIdempotent | src/components/BibleManager.tsx:41 | trimming twice is trimming once |
| Text.Take | services/geminiService.ts:112 | `slice(0, n)`: a prefix of the text, exactly n characters long when the text is longer, and the whole text when it is not |
| Text.Split | src/components/BibleManager.tsx:41 | `split`: at least one piece, and no piece contains the separator |
| Text.JoinSplit | src/components/BibleManager.tsx:41 | joining the pieces of a split with the separator gives back the text |
| Text.SplitCount | src/components/BibleManager.tsx:41 | a split yields one more piece than the text has separators |
| Text.SplitJoin | src/components/BibleManager.tsx:41 | splitting a join of separator-free pieces gives back the pieces |
| Text.NatToString | src/App.tsx:90 | the decimal numeral of a count: non-empty, all digits, no leading zero, and its digits denote the count |
| Records.FindId | src/App.tsx:83 | `find`: none exactly when no record has the id; otherwise the first index that has it |
| Records.CountId | src/App.tsx:177 | the number of records with an id is zero exactly when none has it, and never more than the length |
| Records.UpdateWhere | src/App.tsx:86 | `map` with an id test: same length, records with the id replaced by their update, the rest in place |
| Records.UpdateWhereAbsent | src/App.tsx:86 | updating an id nobody has changes nothing |
| Records.UpdateWhereOne | src/App.tsx:86 | with distinct ids, updating a record's id changes that record and no other |
| Records.RemoveWhere | src/App.tsx:177 | `filter`: no kept record has the id, every record without it is kept, in order, and the length drops by the number of matches |
| Records.RemoveKeepsUnique | src/App.tsx:177 | removing records keeps ids distinct |
| Records.RemoveWhereAbsent | src/App.tsx:177 | removing an id nobody has changes nothing |
| Records.RemoveWhereAppend | src/App.tsx:177 | removing a key drops a last record that carries it and nothing else |
| Records.CountIdUnique | src/App.tsx:177 | with distinct ids, at most one record has a given id |
| CleanJson.CleanJsonString | src/services/geminiService.ts:32-42 | an empty reply gives `{}`; otherwise the result is a piece of the reply: the first-`{`-to-last-`}` span of the working string when there is a `{` before a `}`, else the working string |
| CleanJson.BraceSearch | src/services/geminiService.ts:36-39 | the guard `first != -1 && last != -1 && last > first` holds exactly when there is a `{` before a `}`, and the slice is then the span between the first `{` and the last `}` |
| CleanJson.BraceSlice | src/services/geminiService.ts:36-39 | the first-`{`-to-last-`}` span of the working string when there is a `{` before a `}`, and the working string itself when not |
| CleanJson.FencedBodyShape | src/services/geminiService.ts:34-35 | the fenced content is a piece of the reply with no fence inside and no white space at its ends |
| CleanJson.FirstBlockIsCaptured | src/services/geminiService.ts:34-35 | for a reply with a ```` ```json ```` block, the content captured is that block's body, as long as no fence starts before the block or inside it; single back-ticks anywhere are allowed |
| CleanJson.FirstUntaggedBlockIsCaptured | src/services/geminiService.ts:34-35 | the same for an untagged ```` ``` ```` block, unless the body starts right after the fence with the letters `json`, which the optional tag takes |
| CleanJson.CaptureAt | src/services/geminiService.ts:34-35 | an opening fence with an optional `json` tag, white space, a trimmed block in which no fence starts, white space and a closing fence, with no fence starting earlier: the capture is the block |
| CleanJson.CleanFencedObject | src/services/geminiService.ts:32-42 | an object inside a ```` ```json ```` block comes out exactly, whatever follows the block, whenever no fence starts before the block or inside the object |
| CleanJson.CleanBareObject | services/geminiService.ts:24-34 | an object comes out exactly when no `{` precedes it, no `}` follows it, and no fence occurs in the reply (inline back-ticks allowed) |
| Gemini.OrText | src/App.tsx:140 | `a \|\| b` on strings: `a` when it is non-empty, `b` when it is empty, so the result is empty only when both are |
| Gemini.CharacterLines | src/services/geminiService.ts:26 | one `- name: description` line per character, in order |
| Gemini.LocationLines | src/services/geminiService.ts:28 | one `- name: description` line per location, in order |
| Gemini.ContextLineStructure | src/services/geminiService.ts:19-30 | for single-line fields, the context splits on newlines into: an empty line, the header, the summary (or its fallback), the character entries, the location entries, and a trailing empty line |
| Gemini.ContextIsJoinOfLines | services/geminiService.ts:11-22 | the context is the newline-join of those lines, for any bible |
| Gemini.MissingListsFormatAsEmpty | services/geminiService.ts:12-13 | a missing list formats exactly like an empty one, and an empty list formats as its "No … defined." text |
| Gemini.TextOr | services/geminiService.ts:73 | `response.text \|\| fallback`: the reply text when it is present and non-empty, else the fallback |
| Gemini.RunPlanner | services/geminiService.ts:65-74 | throws exactly when the call throws; otherwise the reply text when it is present and non-empty, and "Failed." when it is missing or empty |
| Gemini.RunWriter | src/services/geminiService.ts:84-93 | the same as the planner, for the writer's request: the reply text when it is present and non-empty, "Failed." otherwise |
| Gemini.WriterIgnoresExistingContent | services/geminiService.ts:76-85 | the writer's result does not depend on the existing content it is given |
| Gemini.RunEditor | src/services/geminiService.ts:158-165 | throws exactly when the call throws, with its fault; otherwise the reply text when it is present and non-empty, and the scene text unchanged when it is not |
| Gemini.FirstInline | services/geminiService.ts:117-121 | the index of the first part with inline data, or none exactly when no part has any |
| Gemini.ScanParts | services/geminiService.ts:117-121 | the loop over the parts stops at the first part with inline data, and returns exactly `FirstInline`, the function through which `RunVisualizer` and `GenerateSceneAudio` read the parts |
| Gemini.FirstInlineData | src/services/geminiService.ts:173-177 | some inline data exactly when some part has it, and then that of the first such part |
| Gemini.VisualizerPromptTruncates | services/geminiService.ts:112 | the prompt carries the summary and title whole and at most the first 500 characters of the content, all of it when it is short enough |
| Gemini.RunVisualizer | src/services/geminiService.ts:167-179 | throws exactly when the call throws; no image exactly when no part has inline data; otherwise a `data:` URI of the first part's data |
| Gemini.SpeechRequestTruncates | services/geminiService.ts:129 | the speech request reads a prefix of the text, 3000 characters long or the whole text |
| Gemini.GenerateSceneAudio | services/geminiService.ts:125-144 | nothing when the call throws or no part has inline data; otherwise the first part's data |
| Gemini.DecodeBase64 | services/geminiService.ts:36-44 | a fresh array with one byte per character of the decoded binary string, each the character code (kept whole when below 256) |
| Continuity.FirstTruthy | src/services/geminiService.ts:146-147 | the first key whose field is truthy gives the value; when none is truthy, the fallback |
| Continuity.NormaliseIssue | src/services/geminiService.ts:145-148 | throws exactly on a `null` entry; otherwise a type and a description that are both truthy |
| Continuity.NormaliseAll | src/services/geminiService.ts:145-148 | succeeds exactly when no entry is `null`, with one normalised issue per entry, in order |
| Continuity.NormaliseErrors | src/services/geminiService.ts:145 | a missing or falsy `errors` gives no issues; an array is normalised entry by entry; a `null` result or a non-array `errors` throws |
| Continuity.ReadIssues | src/services/geminiService.ts:142-150 | a failed parse or normalisation gives no issues; otherwise the normalised issues, each with a truthy type and description |
| Continuity.NormalisedIssuesAreTruthy | src/services/geminiService.ts:146-147 | every normalised issue has a truthy type and description |
| Continuity.GuardedBody | src/services/geminiService.ts:138-155 | a throw anywhere in the `try` block gives the empty list |
| Continuity.AsWrittenReportsNothing | src/services/geminiService.ts:139 | as written, the src agent returns no issues, whatever the model replies |
| Continuity.RunContinuity | src/services/geminiService.ts:95-156 | the corrected src agent: no issues when the call throws; otherwise the issues read from the reply text, each with a truthy type and description |
| Continuity.AsWrittenLosesReportedError | src/services/geminiService.ts:139 | for the reply `{"errors":[{"type":"Timeline"}]}`, read by a parser that accepts only that text, the corrected agent reports the timeline issue and the as-written agent reports nothing |
| Continuity.RunContinuityUnguarded | services/geminiService.ts:87-100 | the root agent: a throwing call or parse propagates; a `null` result throws; otherwise `errors`, or `[]` when that is falsy, so the value is always truthy |
| Scenes.ApplyPatch | src/App.tsx:86 | `{ ...s, ...updates }`: every field present in the patch replaces the scene's, every absent one stays, and the id and version are kept |
| Scenes.ActiveScene | src/App.tsx:83 | the first scene with the active id, or the first scene when none has it |
| Scenes.UpdateActiveScene | src/App.tsx:85-87 | same length, same ids; scenes with the active id get the patch, all others stay |
| Scenes.UpdateWithoutActiveScene | App.tsx:83-85 | when no scene has the active id, an update changes nothing |
| Scenes.UpdateTouchesActiveScene | src/App.tsx:83-87 | with distinct ids, the update replaces exactly the scene the view shows |
| Scenes.UpdateKeepsIdsUnique | src/App.tsx:85-87 | an update keeps ids distinct |
| Scenes.AddScene | src/App.tsx:89-93 | one blank scene appended, titled `Scene n+1` at version 1; earlier scenes kept; ids stay distinct; the new id selects the new scene |
| Scenes.DeleteScene | src/App.tsx:177 | with one scene nothing changes; otherwise exactly the scenes without the id remain, in order, so the list shrinks by the number of scenes with the id |
| Scenes.AddThenDeleteScene | App.tsx:87-91 | deleting a scene just added gives back the list as it was |
| Scenes.DeleteKeepsScenes | App.tsx:147 | with distinct ids, a delete keeps the list non-empty and the ids distinct, and removes at most one scene |
| Scenes.SharedIdEmptiesList | src/App.tsx:177 | two scenes that share an id are deleted together, which empties the list |
| Scenes.DeletedActiveSceneDangles | src/App.tsx:177 | after the active scene is deleted, the view falls back to the first scene and later updates are lost |
| BibleEditor.UpdateSummary | src/components/BibleManager.tsx:16-18 | the summary is replaced, and the lists are untouched |
| BibleEditor.AddCharacter | src/components/BibleManager.tsx:20-29 | the default new character is appended; the existing ones, the locations and the summary are kept; ids stay distinct |
| BibleEditor.DeleteCharacter | src/components/BibleManager.tsx:31-35 | unconfirmed, nothing changes; confirmed, exactly the characters without the id remain, in order |
| BibleEditor.TrimAll | src/components/BibleManager.tsx:41 | `map(s => s.trim())`: same length, each piece trimmed |
| BibleEditor.ParseTraits | src/components/BibleManager.tsx:40-41 | one trait per comma plus one; each trait is the trimmed piece, contains no comma and has no white space at its ends |
| BibleEditor.ParseTraitsJoin | src/components/BibleManager.tsx:40-41 | typing the comma-joined traits back in gives the same traits, when they are trimmed, free of commas and at least one |
| BibleEditor.UpdateCharacter | src/components/BibleManager.tsx:37-48 | same length; characters with the id get the edit, the others stay; the locations and the summary are kept |
| BibleEditor.AddThenDeleteCharacter | src/components/BibleManager.tsx:20-35 | a confirmed delete of a character just added gives back the list as it was |
| BibleEditor.UpdateCharacterTouchesOne | src/components/BibleManager.tsx:37-48 | with distinct ids, an edit changes exactly one character; an edit that leaves ids alone keeps them distinct |
| BibleEditor.AddLocation | src/components/BibleManager.tsx:50-57 | the default new location is appended; the rest is kept; ids stay distinct |
| BibleEditor.DeleteLocation | src/components/BibleManager.tsx:59-63 | unconfirmed, nothing changes; confirmed, exactly the locations without the id remain, in order, and the list shrinks by the number of locations with the id |
| BibleEditor.UpdateLocation | src/components/BibleManager.tsx:65-73 | same length; locations with the id get the edit, the others stay |
| BibleEditor.AddThenDeleteLocation | src/components/BibleManager.tsx:50-63 | a confirmed delete of a location just added gives back the list as it was |
| BibleEditor.EditsOfAbsentIds | src/components/BibleManager.tsx:31-73 | editing or deleting an id that no record has changes nothing |
| App.Initial | src/App.tsx:45-55 | the first render: the initial bible and scene, not loaded, idle, no toast; root assumes a key and src does not |
| App.CheckApiKey | src/App.tsx:58-63 | the key flag is set exactly when the key is present and non-empty; nothing else changes |
| App.Persist | src/App.tsx:76-81 | once loaded, storage holds the bible and the scenes; before that, nothing is written |
| App.Load | src/App.tsx:65-74 | a stored bible replaces the bible; a stored non-empty scene list replaces the scenes; the loaded flag is set |
| App.ReloadRestoresStory | src/App.tsx:65-81 | a story that one session wrote to storage is the story the next session loads |
| App.EmptyStoredScenesIgnored | App.tsx:67-70 | a stored empty scene list is ignored, then overwritten with the initial scene |
| App.AgentFrameKeepsValid | src/App.tsx:95-151 | an agent's changes keep the state invariant: at least one scene, distinct ids, and storage in sync once loaded |
| App.Update | src/App.tsx:85-87 | the scene list becomes `updateActiveScene` of the patch; the bible, the selection, the flags, storage, the status, the toast and the continuity results are untouched |
| App.CheckedDraft | src/App.tsx:120-128 | the issues stored are the continuity agent's issues on the draft; the scenes and the status stay; the toast is a success exactly when there are none |
| App.PlannerBody | src/App.tsx:105-107 | throws exactly when the planner does; otherwise the state is the update of the active scene with the plan as beat sheet, stamped by the planner |
| App.WriterBody | src/App.tsx:109-128 | throws exactly when the writer does; otherwise the scene list is the update with the draft as content, stamped by the writer; root changes nothing else, and src stores the continuity agent's issues on the draft |
| App.ContinuityBody | src/App.tsx:130-133 | src never throws: it stores the normalised issues and announces an empty list, leaving the toast otherwise; root throws exactly when its agent does, and otherwise stores the `errors` value as returned and keeps the toast |
| App.EditorBody | src/App.tsx:135-137 | throws exactly when the editor does; otherwise the state is the update of the active scene with the edited text as content, stamped by the editor |
| App.VisualizerBody | src/App.tsx:139-141 | throws exactly when the visualiser does; a reply without an image changes nothing; an image becomes the active scene's picture, stamped by the visualiser |
| App.TryBody | src/App.tsx:104-142 | dispatches on the agent to the branch of that agent, and whatever the agent, changes only what an agent may change |
| App.AgentStep | src/App.tsx:95-151 | without a key, only the "unavailable" toast appears; with one, the status ends idle; only what an agent may change changes |
| App.StepAfterTry | src/App.tsx:101-150 | with a key, the action's result is the state the `try` block left, or the state before it with the failure toast when it threw, in both cases with the status idle |
| App.KeylessStep | src/App.tsx:96-99 | without a key, the action followed by the persist effect changes only the toast, and keeps the invariant |
| App.WriterChecksItsDraft | src/App.tsx:109-128 | the src writer puts its draft into the active scene, checks that very draft, stores the issues, and ends on the toast that counts them |
| App.SrcWriterStep | src/App.tsx:109-128 | the src writer's scene list, continuity results and last toast |
| App.PlannerStep | App.tsx:100-102 | with a key, a plan makes the state the update of the active scene with that plan as beat sheet, stamped by the planner, with the status idle; the active scene shows the plan and keeps its title and content |
| App.RootWriterStep | App.tsx:103-105 | with a key, the root writer's draft becomes the active scene's content, stamped by the writer, and its beat sheet stays; nothing else but the status changes |
| App.RootCheckerStep | App.tsx:106-108 | with a key, the root checker stores the `errors` value as returned and keeps the toast; a throw shows the failure toast and keeps the results |
| App.EditorStep | App.tsx:109-111 | with a key, the edited text becomes the active scene's content, stamped by the editor, and its beat sheet stays; nothing else but the status changes |
| App.VisualizerStep | App.tsx:112-114 | with a key, an image becomes the active scene's picture, stamped by the visualiser, and its content stays; a reply without one changes only the status |
| App.PatchReachesActiveScene | src/App.tsx:83-87 | with distinct ids, the scene shown after an update is the patched scene shown before it |
| App.ActiveSceneIsUnique | src/App.tsx:83 | with distinct ids, the scene shown is the one that carries the active id |
| App.NoKeyNoAgent | src/App.tsx:96-99 | without a key, the scenes and the continuity results are untouched and the toast is an error |
| App.FailedCallKeepsStory | src/App.tsx:144-150 | a throwing agent changes only the toast, to the failure message, and the status, to idle |
| App.SrcCheckerAlwaysReports | src/App.tsx:130-133 | the src checker always stores its issues, and announces an empty list only |
| App.RootWriterKeepsIssues | App.tsx:103-105 | the root writer leaves earlier continuity results in place |
| App.DanglingActiveIdLosesResults | src/App.tsx:83-87 | when the active id names no scene, no agent's result reaches the scene list |
| App.Orchestrator.constructor | src/App.tsx:45-55 | the mount gives the initial state, and it satisfies the invariant |
| App.Orchestrator.PersistStory | src/App.tsx:76-81 | the fields change as the persist effect says |
| App.Orchestrator.CheckKey | App.tsx:57-61 | the fields change as the key check says, and the invariant is kept |
| App.Orchestrator.LoadStory | src/App.tsx:65-74 | load followed by persist, keeping the invariant |
| App.Orchestrator.SetBible | src/App.tsx:161 | the bible is replaced and then persisted |
| App.Orchestrator.SelectScene | src/App.tsx:175 | only the active id changes |
| App.Orchestrator.EditActiveScene | src/App.tsx:169-171 | an edit through the scene editor is the patch on the active scene, then persisted |
| App.Orchestrator.AddScene | src/App.tsx:89-93 | the scene list gains the new scene, which becomes active, and the view shows it |
| App.Orchestrator.DeleteScene | src/App.tsx:177 | the guarded delete, then persisted, keeping the invariant |
| App.Orchestrator.DismissToast | src/App.tsx:157 | only the toast is cleared |
| App.Orchestrator.PlannerBranch | src/App.tsx:105-107 | reports a throw exactly when the planner throws, and then leaves the fields untouched |
| App.Orchestrator.WriterBranch | src/App.tsx:109-128 | the fields end as the writer branch says, untouched on a throw |
| App.Orchestrator.AutoCheckDraft | src/App.tsx:115-128 | the draft toast and status, then the check's issues and its toast |
| App.Orchestrator.ContinuityBranch | src/App.tsx:130-133 | the fields end as the continuity branch says, untouched on a throw |
| App.Orchestrator.EditorBranch | src/App.tsx:135-137 | the fields end as the editor branch says, untouched on a throw |
| App.Orchestrator.VisualizerBranch | src/App.tsx:139-141 | the fields end as the visualiser branch says, untouched on a throw |
| App.Orchestrator.TryAgent | src/App.tsx:104-142 | dispatches on the agent; reports a throw exactly when the branch threw |
| App.Orchestrator.AgentAction | src/App.tsx:95-151 | the fields end as `AgentStep` followed by persist, and the invariant is kept |
| App.Orchestrator.RunAgent | src/App.tsx:101-150 | past the key guard, the fields end exactly as `AgentStep` says: the working status, the branch, the failure toast on a throw, then idle |

## Left out

- `atob`, `JSON.parse` and `JSON.stringify` are not modelled. `DecodeBase64` takes the decoded binary string as input, and `Parser` is a parameter. Storage holds values, not their JSON text.
- `decodeAudioData` (floating-point samples through the Web Audio API) is not modelled.
- The model library is not modelled. Requests are modelled by their model name, prompt text, system instruction, temperature, MIME type and voice. The exact `contents` shapes (a string or a list of parts) are left out. The reply is modelled as its text and the parts of its first candidate.
- Gemini.RunPlanner, Gemini.RunWriter and Gemini.RunEditor: the `async`/`await` timing is not modelled; a rejected promise is modelled as a thrown exception.
- `localStorage` is modelled as two fields of the state, `savedBible` and `savedScenes`. The reset button (`localStorage.clear()` and a page reload) is not modelled.
- `crypto.randomUUID` is not modelled. The callers of the add handlers pass the fresh id as a parameter.
- The `confirm` dialog is not modelled. The delete handlers take its answer as a boolean.
- The environment variable behind the key check is not modelled. `CheckApiKey` takes it as an optional string.
- React rendering, the toast's five-second timer and the interleaving of concurrent async handlers are not modelled. Each handler runs to completion as one step, and the persist effect runs right after it.
- App.AgentStep: the intermediate toast and status that the src writer shows before its check are overwritten before the action ends. `Orchestrator.AutoCheckDraft` sets them, but `AgentStep` states only the final state.
- Strings are sequences of Unicode characters, not JavaScript's UTF-16 code units: lengths and `slice` positions count characters, and a character outside the Basic Multilingual Plane counts once rather than twice.
- BibleEditor.UpdateCharacter: a value of a type other than the field's type (the handler takes `any`) is not modelled. `CharacterEdit` has one case per field, plus the case of a trait text typed in.
- App.Load: storage is assumed to hold a scene list with distinct ids, as every earlier session writes (`StoredScenesOk`). A list edited by hand is not modelled.
- App.ContinuityBody, App.CheckedDraft, App.WriterBody, App.SrcWriterStep, App.WriterChecksItsDraft, App.SrcCheckerAlwaysReports, App.Orchestrator.AutoCheckDraft: under src/ these call the corrected continuity agent (see Findings). The as-written agent is `Continuity.RunContinuityAsWritten`, with which the src app always stores an empty list and shows the "Perfect!" toast after every draft and "No errors found." after every check.
- Console logging is not modelled.
- The components `AgentSidebar` and `WriterEditor` are not part of this model, apart from the callbacks of `src/App.tsx` that they invoke.

## Findings

| source | as written | input that shows it | evidently intended | confidence | as-written member | corrected member |
|---|---|---|---|---|---|---|
| src/services/geminiService.ts:139 | the reply text is read as `response.response.text()`; a reply of the client library has no `response` member, so this throws a TypeError, the `catch` swallows it, and the agent returns `[]` on every call | any reply, e.g. `{"errors":[{"type":"Timeline"}]}`: the issue is never reported | read `response.text` as every other agent does | not executed; reading of the library's response type | Continuity.AsWrittenLosesReportedError | Continuity.RunContinuity |
