# Personia core, modelled in Dafny

Personia lets an organization describe user **personas** and **projects**. It
then runs **experiments**: an experiment puts a set of personas in front of a
project. An LLM assistant answers every message of the experiment's thread
once for each persona. The backend runs on Convex.

This model covers the following parts of the backend:

- the identity guard, which every public query and mutation passes through;
- the tenant checks that read one experiment, persona or project on behalf of
  the caller's organization;
- the public persona, project, experiment and message functions;
- the two durable workflows:
  - `createExperimentWorkflow`: persona and project checks, the experiment
    insert, one assistant per persona, one assistant row per assistant;
  - `sendMessageWorkflow`: the thread checks, the message insert with one
    pending reply per persona, one model response per persona, one reply
    update per response;
- the prompt templates;
- the selection state of the front end's multi-select component.

The store is a `Database.Db` object holding a `Tables` value: one sequence per
table, in insertion order, and the next free id. Inserts, patches and deletes
are methods of `Db`. Each public mutation and workflow is written twice:

- a pure function returning a `Run` (the outcome and the new tables);
- a method with `modifies db`, proved to leave exactly that `Run`'s tables and
  to return its outcome.

Queries are pure functions of the tables. The caller's organization id
(`ctx.identity.organization.id`) and e-mail are explicit parameters.

Notes on the code as it stands:

- The schema in `convex/schema.ts` declares no `assistants` table, although
  the experiment workflow inserts into one. The model gives the store an
  assistants table with the fields the workflow writes.
- The assistant description literal reads "persona on on the context of the".
  The model keeps the repeated word.
- `templateInstructionPrompt` (`convex/helpers/prompts.ts:12-45`) is a
  line-for-line copy of `templateAssistantInstructions`
  (`convex/helpers/assistants.ts:20-53`), reading the same fields. The model
  defines the text once and the prompt delegates to it.
- `convex/functions/projects.ts:72-81` carries a private copy of
  `getProjectHelper` that is identical to the shared helper. Both are
  `ProjectHelpers.GetProjectHelper`.
- `getProject` in the send-message workflow checks only that the project
  exists. It does not check the organization.
- `requireAuth` destructures the first organization entry before it looks at
  the e-mail. An identity with no organization therefore fails before the
  e-mail check. The model writes that failure as its own error, `NoOrganization`.

## Model

| member | source | states |
|---|---|---|
| PublicContext.RequireAuth | convex/context/public.ts:45-54 | No identity fails "not signed in". No organization entry fails next, then a missing e-mail. Otherwise the caller carries the identity, the e-mail, and the id and role of the first organization entry. Succeeds iff all three are present. |
| PublicContext.UserOf | convex/workflows/sendMessage.ts:26-29 | The workflow's user record carries the caller's e-mail and organization id. |
| Database.Find | convex/schema.ts:4-54 | `db.get` by id: the index returned holds the id and is the first that does. None iff no document has the id. |
| Database.Get | convex/schema.ts:4-54 | The document returned is in the table and has the id. None iff no document has it. |
| Database.GetAll | convex/workflows/createExperiments.ts:96 | `getAllOrThrow`: one document per id, in id order, each the stored one. Fails with a missing document iff some id is absent. |
| Database.GetAppendFresh | convex/workflows/createExperiments.ts:80-86 | An inserted document under a fresh id reads back unchanged. |
| Database.Remove | convex/functions/experiments.ts:56 | `db.delete`: exactly the documents with other ids remain, in their order. |
| Database.GetRemove | convex/functions/experiments.ts:56 | After a delete, reading the deleted id gives nothing. Every other id reads as before. |
| Database.InOrder | convex/functions/personas.ts:36-39 | `.order(sorting)`: ascending is index order, descending is that order reversed. Both are permutations of the index. |
| Database.PatchReplies | convex/workflows/sendMessage.ts:219-230 | `db.patch(id, {replies})`: only the message with the id gets the new replies. Every message keeps its position and its other fields. |
| Database.PatchRepliesLast | convex/workflows/sendMessage.ts:219-230 | Patching the last-inserted message replaces only that one. |
| Database.GetPatchReplies | convex/workflows/sendMessage.ts:219-230 | The patched message reads back with the new replies. |
| Database.PatchRepliesTwice | convex/workflows/sendMessage.ts:219-230 | A second patch of the same message overwrites the first: only the last write survives. |
| Database.PatchExperiment | convex/functions/experiments.ts:66-69 | Only the experiment with the id gets the new name and persona ids. Organization, owner and project are untouched. |
| Database.GetPatchExperiment | convex/functions/experiments.ts:66-69 | The patched experiment reads back with the new fields. Other ids read as before. |
| Database.PatchPersona | convex/functions/personas.ts:72-75 | Only the persona with the id gets the editable fields. Its id and organization are untouched. |
| Database.GetPatchPersona | convex/functions/personas.ts:72-75 | The patched persona reads back with the new fields. Other ids read as before. |
| Database.PatchProject | convex/functions/projects.ts:58-61 | Only the project with the id gets the editable fields. Its id and organization are untouched. |
| Database.GetPatchProject | convex/functions/projects.ts:58-61 | The patched project reads back with the new fields. Other ids read as before. |
| Database.Tables.ExperimentsByProject | convex/functions/experiments.ts:17-22 | The `projectId` index: exactly the project's experiments, in table order. |
| Database.Tables.MessagesByExperiment | convex/workflows/sendMessage.ts:141-143 | The `experimentId` index: exactly the experiment's messages, in table order. |
| Database.Tables.PersonasByOrganization | convex/functions/personas.ts:34-38 | The `organizationId` index: exactly the organization's personas, in table order. |
| Database.Tables.ProjectsByOrganization | convex/functions/projects.ts:28-32 | The `organizationId` index: exactly the organization's projects, in table order. |
| Database.Tables.AssistantsByExperiment | convex/functions/experiments.ts:27-32 | Exactly the experiment's assistant rows, in table order. |
| Database.Db.InsertExperiment | convex/workflows/createExperiments.ts:80-86 | Appends the experiment under the next id, advances the id, and changes no other table. |
| Database.Db.InsertMessage | convex/workflows/sendMessage.ts:159-167 | Appends the message under the next id, advances the id, and changes no other table. |
| Database.Db.InsertPersona | convex/functions/personas.ts:21-25 | Appends the persona under the next id, advances the id, and changes no other table. |
| Database.Db.InsertProject | convex/functions/projects.ts:15-19 | Appends the project under the next id, advances the id, and changes no other table. |
| Database.Db.InsertAssistant | convex/workflows/createExperiments.ts:130-135 | Appends the assistant row under the next id, advances the id, and changes no other table. |
| Database.Db.PatchMessageReplies | convex/workflows/sendMessage.ts:219-230 | Reports whether the message exists. If it does, the messages become `PatchReplies`; otherwise nothing changes. |
| Database.Db.PatchExperimentFields | convex/functions/experiments.ts:68 | Reports whether the experiment exists. If it does, the experiments become `PatchExperiment`; otherwise nothing changes. |
| Database.Db.PatchPersonaFields | convex/functions/personas.ts:74 | Reports whether the persona exists. If it does, the personas become `PatchPersona`; otherwise nothing changes. |
| Database.Db.PatchProjectFields | convex/functions/projects.ts:60 | Reports whether the project exists. If it does, the projects become `PatchProject`; otherwise nothing changes. |
| Database.Db.DeleteExperiment | convex/functions/experiments.ts:56 | Reports whether the experiment exists. If it does, the experiments become `Remove`; no other table changes. |
| Database.Db.DeletePersona | convex/functions/personas.ts:82 | Reports whether the persona exists. If it does, the personas become `Remove`; no other table changes. |
| Database.Db.DeleteProject | convex/functions/projects.ts:68 | Reports whether the project exists. If it does, the projects become `Remove`; no other table changes. |
| Tenancy.TenantGet | convex/helpers/experiments.ts:6-15 | The shared shape of the tenant helpers: "not found" iff no document has the id, "not authorized" iff it exists in another organization, otherwise the stored document of the caller's organization. |
| ExperimentHelpers.GetExperimentHelper | convex/helpers/experiments.ts:6-15 | `getExperimentHelper`: not found, not authorized, or the caller's stored experiment with that id. |
| PersonaHelpers.GetPersonaHelper | convex/helpers/personas.ts:6-15 | `getPersonaHelper` (also `getPersona`): not found, not authorized, or the caller's stored persona. |
| ProjectHelpers.GetProjectHelper | convex/helpers/projects.ts:6-15 | `getProjectHelper` (also `getProject` and the copy in functions/projects.ts): not found, not authorized, or the caller's stored project. |
| MessageHelpers.AnyPending | convex/helpers/messages.ts:6 | True iff some reply is pending. |
| MessageHelpers.HasPendingReplies | convex/helpers/messages.ts:5-7 | True iff some reply of the message is pending. Never true for a message without replies. |
| MessageHelpers.FindReply | convex/helpers/messages.ts:13 | `replies.find`: the first reply by that persona, with no earlier reply by it, or None iff the persona has no reply. |
| MessageHelpers.MatchPersonasWithMessageReplies | convex/helpers/messages.ts:8-17 | One pairing per persona, in persona order, with that persona's first reply, which is finished. Throws iff some persona's first reply is missing or not finished. |
| AssistantTemplates.IntroSentenceMentions | convex/helpers/assistants.ts:21 | The introduction opens with the persona's name and nickname, then names the experiment, the project and the category. |
| AssistantTemplates.InstructionsOpening | convex/helpers/assistants.ts:20-21 | The instructions start with a line break and the persona's greeting, and contain the experiment, project and category phrases. |
| AssistantTemplates.InstructionsProfile | convex/helpers/assistants.ts:23-35 | The instructions contain the background, the quote in quotation marks, the age in decimal, the gender, the occupation, and "country, state". |
| AssistantTemplates.InstructionsContext | convex/helpers/assistants.ts:37-53 | The instructions contain the objective, the situation and the target audience, and end with the rules that name the nickname. |
| AssistantTemplates.DescriptionMentions | convex/helpers/assistants.ts:7-13 | The description names the persona, the project and "<experiment> experiment.". |
| AssistantTemplates.NameMentions | convex/helpers/assistants.ts:56-62 | The name is persona, project and experiment names joined by " on ", so it contains all three. |
| AssistantTemplates.TemplatesIgnoreIds | convex/helpers/assistants.ts:7-62 | None of the three texts depends on the documents' ids or organizations. |
| Prompts.PromptMentions | convex/helpers/prompts.ts:7-46 | The first-turn prompt starts with a line break and the persona's greeting. It carries the age, the place, the objective, the situation and the target audience, and ends with the rules. |
| Prompts.SameModel | convex/helpers/prompts.ts:5 | The prompt file and the assistants file name the same model. |
| CreateExperiments.GetPersonas | convex/workflows/createExperiments.ts:90-104 | One persona per id, in id order. Fails with a missing document iff an id is absent. Otherwise fails "not authorized" iff some persona belongs to another organization. |
| CreateExperiments.CreateExperiment | convex/workflows/createExperiments.ts:72-88 | Inserts the experiment with the caller's organization as organization and the caller's e-mail as owner, and returns the new id. |
| CreateExperiments.CreateOpenaiAssistants | convex/workflows/createExperiments.ts:141-167 | One pair per persona, in persona order, each holding that persona's id. |
| CreateExperiments.AssistantsFromTemplates | convex/workflows/createExperiments.ts:148-163 | Each pair's assistant id is the one the assistant service returned for that persona's description, instructions and name from the templates, with the shared model. |
| CreateExperiments.AssistantRowsFields | convex/workflows/createExperiments.ts:129-136 | One row per pair, in order, each with the given experiment and project and with the pair's persona and assistant ids. |
| CreateExperiments.CreateAssistants | convex/workflows/createExperiments.ts:120-139 | Inserts one assistant row per pair, in order, under consecutive ids, and returns those ids. |
| CreateExperiments.CreatedFields | convex/workflows/createExperiments.ts:57-68 | After the inserts: the experiment comes under the next id, then one row per persona under the following ids, in persona order. Each row names the experiment, the project, its persona and that persona's assistant id. Messages, personas and projects are unchanged. |
| CreateExperiments.CreateExperimentRun | convex/workflows/createExperiments.ts:48-69 | Fails iff the persona check or the project check fails, and then leaves the store untouched. The persona error takes precedence over the project error. |
| CreateExperiments.SuccessfulRun | convex/workflows/createExperiments.ts:48-69 | A successful run appends the experiment and exactly one assistant row per persona, in persona order, and changes nothing else. The k-th row stores the id the assistant service returned for the k-th persona's templates. |
| CreateExperiments.RunIsCreated | convex/workflows/createExperiments.ts:48-69 | A successful run leaves the store the two inserts build from one assistant pair per persona, in persona order. |
| CreateExperiments.InsertCreation | convex/workflows/createExperiments.ts:57-68 | The experiment insert followed by the assistant inserts leaves exactly the tables `Created` builds, whose contents `CreatedFields` states. |
| CreateExperiments.CreateExperimentWorkflow | convex/workflows/createExperiments.ts:41-70 | The step-by-step workflow returns the outcome of `CreateExperimentRun` and leaves exactly its tables. |
| CreateExperiments.CreatedExperimentReadable | convex/workflows/createExperiments.ts:80-86 | After a successful run, the caller's organization reads the new experiment back unchanged. |
| CreateExperiments.AssistantsOfCreatedExperiment | convex/workflows/createExperiments.ts:129-137 | After a successful run, the new experiment's assistants are the earlier ones plus exactly one per persona, in persona order. |
| ExperimentFunctions.WithRelations | convex/functions/experiments.ts:25-33 | An experiment with all its assistant rows and with its personas in id order. Fails with a missing document iff a persona id is absent. |
| ExperimentFunctions.AllWithRelations | convex/functions/experiments.ts:24-35 | `Promise.all`: every experiment extended, in order, or the missing-document error. |
| ExperimentFunctions.ListProjectExperiments | convex/functions/experiments.ts:11-37 | The project check's error passes through. Succeeds iff the check passes and every experiment of the project resolves its personas. Then it lists exactly the project's experiments in index order, each extended. |
| ExperimentFunctions.GetExperiment | convex/functions/experiments.ts:39-48 | The tenant check's error passes through. Succeeds iff every persona id resolves, otherwise a missing document. The personas are the stored ones in id order. |
| ExperimentFunctions.DeleteExperimentRun | convex/functions/experiments.ts:50-58 | Succeeds iff the tenant check does, and then removes the experiment. A failed check changes nothing. |
| ExperimentFunctions.DeleteExperiment | convex/functions/experiments.ts:50-58 | The handler returns the outcome and leaves exactly the tables of `DeleteExperimentRun`. |
| ExperimentFunctions.DeletedExperimentGone | convex/functions/experiments.ts:55-56 | After a delete, no organization finds the experiment. Every other experiment reads as before. |
| ExperimentFunctions.EditExperimentRun | convex/functions/experiments.ts:60-70 | Succeeds iff the tenant check does, and then patches the name and the persona ids. A failed check changes nothing. |
| ExperimentFunctions.EditExperiment | convex/functions/experiments.ts:60-70 | The handler returns the outcome and leaves exactly the tables of `EditExperimentRun`. |
| ExperimentFunctions.EditedExperimentKeepsOwnership | convex/functions/experiments.ts:66-69 | After an edit, the caller reads the experiment with the new name and persona ids and the same organization, owner and project. Every other experiment reads as before. |
| PersonaFunctions.CreatePersona | convex/functions/personas.ts:6-26 | Inserts the persona with the caller's organization and returns its id. |
| PersonaFunctions.CreatedPersonaReadable | convex/functions/personas.ts:20-25 | The caller reads a newly created persona back unchanged. |
| PersonaFunctions.ListPersonas | convex/functions/personas.ts:28-48 | Exactly the organization's personas whose name or nickname contains the search, ignoring case, in the requested order. |
| PersonaFunctions.ListPersonasEmptySearch | convex/functions/personas.ts:42-46 | The empty search lists every persona of the organization. |
| PersonaFunctions.ListPersonasDescending | convex/functions/personas.ts:39 | The descending list is the ascending list reversed. |
| PersonaFunctions.ListPersonasIgnoresCase | convex/functions/personas.ts:44-45 | A lower-cased search lists the same personas. |
| PersonaFunctions.EditPersonaRun | convex/functions/personas.ts:57-76 | Succeeds iff the tenant check does, and then patches the editable fields. A failed check changes nothing. |
| PersonaFunctions.EditPersona | convex/functions/personas.ts:57-76 | The handler returns the outcome and leaves exactly the tables of `EditPersonaRun`. |
| PersonaFunctions.EditedPersonaKeepsOrganization | convex/functions/personas.ts:72-75 | After an edit, the caller reads the persona with the new fields, the same id and organization. Every other persona reads as before. |
| PersonaFunctions.DeletePersonaRun | convex/functions/personas.ts:78-84 | Succeeds iff the tenant check does, and then removes the persona. A failed check changes nothing. |
| PersonaFunctions.DeletePersona | convex/functions/personas.ts:78-84 | The handler returns the outcome and leaves exactly the tables of `DeletePersonaRun`. |
| PersonaFunctions.DeletedPersonaGone | convex/functions/personas.ts:80-83 | After a delete, no organization finds the persona. Every other persona reads as before. |
| PersonaFunctions.DeletedPersonaBreaksExperiments | convex/functions/personas.ts:80-83 | Experiments that name a deleted persona stay in place, and reading them afterwards fails with a missing document. |
| ProjectFunctions.CreateProject | convex/functions/projects.ts:6-20 | Inserts the project with the caller's organization and returns its id. |
| ProjectFunctions.CreatedProjectReadable | convex/functions/projects.ts:14-19 | The caller reads a newly created project back unchanged. |
| ProjectFunctions.ListProjects | convex/functions/projects.ts:22-40 | Exactly the organization's projects whose name contains the search, ignoring case, in the requested order. |
| ProjectFunctions.ListProjectsEmptySearch | convex/functions/projects.ts:36-38 | The empty search lists every project of the organization. |
| ProjectFunctions.ListProjectsDescending | convex/functions/projects.ts:33 | The descending list is the ascending list reversed. |
| ProjectFunctions.ListProjectsIgnoresCase | convex/functions/projects.ts:37 | A lower-cased search lists the same projects. |
| ProjectFunctions.EditProjectRun | convex/functions/projects.ts:49-62 | Succeeds iff the tenant check does, and then patches the editable fields. A failed check changes nothing. |
| ProjectFunctions.EditProject | convex/functions/projects.ts:49-62 | The handler returns the outcome and leaves exactly the tables of `EditProjectRun`. |
| ProjectFunctions.EditedProjectKeepsOrganization | convex/functions/projects.ts:58-61 | After an edit, the caller reads the project with the new fields, the same id and organization. Every other project reads as before. |
| ProjectFunctions.DeleteProjectRun | convex/functions/projects.ts:64-70 | Succeeds iff the tenant check does, and then removes the project. A failed check changes nothing. |
| ProjectFunctions.DeleteProject | convex/functions/projects.ts:64-70 | The handler returns the outcome and leaves exactly the tables of `DeleteProjectRun`. |
| ProjectFunctions.DeletedProjectGone | convex/functions/projects.ts:66-69 | After a delete, no organization finds the project, every other project reads as before, and the project's experiments stay in the store. |
| MessageFunctions.Paginate | convex/functions/messages.ts:18-22 | At most the requested number of consecutive entries from the cursor on. "Done" iff the next cursor is the end; a page that is not the last is full. |
| MessageFunctions.NextPageContinues | convex/functions/messages.ts:18-22 | A page followed by the page at its continuation cursor reads the same entries as one page of both sizes. |
| MessageFunctions.NewestFirst | convex/functions/messages.ts:18-21 | The descending `experimentId` index: exactly the experiment's messages, newest first (the index read in table order, reversed). |
| MessageFunctions.WithAuthors | convex/functions/messages.ts:24-31 | Every reply keeps its place and gets the persona with its author id. It gets none iff no persona of the experiment has that id. |
| MessageFunctions.ListMessages | convex/functions/messages.ts:8-34 | Fails as `getExperiment` does. Otherwise one page of the experiment's messages, newest first, with the store's page fields, each message joined with its reply authors. |
| MessageFunctions.FirstPageStartsWithLastMessage | convex/functions/messages.ts:18-22 | The first page starts with the message the send-message workflow reads as last. It is empty only for an empty thread. |
| MessageFunctions.ListedReplyAuthors | convex/functions/messages.ts:24-31 | A listed reply has an author iff its author id is still among the experiment's persona ids, and that author is the stored persona. |
| MultiSelectList.ValuesOf | src/components/ui/multi-select.tsx:179 | The options' values, in option order. |
| MultiSelectList.Toggled | src/components/ui/multi-select.tsx:152-155 | A selected value is removed (every occurrence), and every other value keeps its order and its number of copies. An unselected value is appended. |
| MultiSelectList.ToggleTwiceRestores | src/components/ui/multi-select.tsx:152-155 | Toggling twice restores the list when the value was absent, or was the only occurrence and the last entry. |
| MultiSelectList.ToggleTwiceMovesToEnd | src/components/ui/multi-select.tsx:152-155 | Toggling twice moves a selected value that is not last to the end: ["a","b"] becomes ["b","a"]. |
| MultiSelectList.SliceFront | src/components/ui/multi-select.tsx:170 | `slice(0, n)`: a prefix of length min(n, length), with a negative n counting from the end. |
| MultiSelectList.SliceFrontIdempotent | src/components/ui/multi-select.tsx:169-173 | Clearing the extra options twice with the same count is the same as once. |
| MultiSelectList.MoreBadge | src/components/ui/multi-select.tsx:201-239 | The "+ N more" badge is shown iff the selection is non-empty and longer than `maxCount`, and N is the number of values beyond `maxCount`. |
| MultiSelectList.BadgesAccountForAll | src/components/ui/multi-select.tsx:204-239 | With a non-negative `maxCount`, the shown badges plus N count every selected value, and at most `maxCount` are shown. |
| MultiSelectList.ToggledAll | src/components/ui/multi-select.tsx:175-183 | Clears when as many values as options are selected, otherwise selects every option's value in option order. |
| MultiSelectList.ToggleAllTwiceClears | src/components/ui/multi-select.tsx:175-183 | Selecting all and then toggling all again clears the list. |
| MultiSelectList.Popped | src/components/ui/multi-select.tsx:144-149 | Backspace on an empty input drops the last value and keeps an empty list empty. |
| MultiSelectList.BackspaceUndoesToggleOn | src/components/ui/multi-select.tsx:144-158 | Backspace undoes a toggle that appended a value. |
| MultiSelectList.MultiSelect.constructor | src/components/ui/multi-select.tsx:126-137 | The selection starts as `defaultValue`, with nothing reported yet. |
| MultiSelectList.MultiSelect.VisibleBadges | src/components/ui/multi-select.tsx:204 | The badges shown are a prefix of the selection, at most `maxCount` long. |
| MultiSelectList.MultiSelect.ToggleOption | src/components/ui/multi-select.tsx:152-158 | The selection becomes `Toggled`, and that list is reported to `onValueChange`. |
| MultiSelectList.MultiSelect.HandleClear | src/components/ui/multi-select.tsx:160-163 | The selection becomes empty, and the empty list is reported. |
| MultiSelectList.MultiSelect.ClearExtraOptions | src/components/ui/multi-select.tsx:169-173 | The selection keeps its first `maxCount` values, and that list is reported. |
| MultiSelectList.MultiSelect.ToggleAll | src/components/ui/multi-select.tsx:175-183 | The selection becomes `ToggledAll`, and that list is reported exactly once. |
| MultiSelectList.MultiSelect.HandleBackspace | src/components/ui/multi-select.tsx:144-149 | The selection becomes `Popped`, and that list is reported. |
| SendMessage.GetProject | convex/workflows/sendMessage.ts:117-126 | The stored project with the id, or "not found" iff none has it. There is no organization check. |
| SendMessage.GetLastMessage | convex/workflows/sendMessage.ts:135-149 | The experiment's most recently inserted message. None iff the experiment has no message. |
| SendMessage.PrepareTurn | convex/workflows/sendMessage.ts:45-63 | The experiment check's error passes through, and every failed read is an error other than "pending replies". Fails with "pending replies" iff the reads succeed and the last message has a pending reply. Otherwise gives the caller's experiment, its project, its last message and its personas. |
| SendMessage.NewMessage | convex/workflows/sendMessage.ts:159-167 | The message carries the caller's e-mail, the content, the experiment, and one pending reply per persona id, in order. It has pending replies iff the experiment has personas. |
| SendMessage.CreateMessage | convex/workflows/sendMessage.ts:151-173 | Inserts `NewMessage` under the next id and returns it as stored. |
| SendMessage.FinishReplies | convex/workflows/sendMessage.ts:220-229 | The persona's replies become finished with the response's text and id and the time. Every other reply, and every author, is unchanged; a finished reply stays finished. |
| SendMessage.UpdateReplyStatus | convex/workflows/sendMessage.ts:211-235 | As written: patches the stored message with replies rebuilt from the message snapshot it is handed, and returns the stored message with those replies. A missing message is an error that changes nothing. |
| SendMessage.UpdateReplyStatusCorrected | convex/workflows/sendMessage.ts:211-235 | Corrected: rebuilds the replies from the stored message, so earlier updates survive. |
| SendMessage.InitialUpdates | convex/workflows/sendMessage.ts:70-80 | One response per persona, in persona order. |
| SendMessage.InitialUpdatesRequests | convex/workflows/sendMessage.ts:192-209 | On a first turn, the k-th answer responds to the user's text with the k-th persona's instruction prompt and the shared model, and is recorded at the k-th clock reading. |
| SendMessage.FollowUpUpdates | convex/workflows/sendMessage.ts:85-96 | One response per matched pair, in pair order. Each responds to the user's text chained, as `previous_response_id`, to the id stored on the pair's finished reply. |
| SendMessage.FromSnapshot | convex/workflows/sendMessage.ts:76-78 | Replies after snapshot-based updates: authors unchanged. The last updater's replies are finished with its answer, and every other reply equals the snapshot's. |
| SendMessage.Accumulated | convex/workflows/sendMessage.ts:76-78 | Replies after accumulating updates: same length, authors unchanged. |
| SendMessage.AccumulatedPending | convex/workflows/sendMessage.ts:76-78 | A reply still pending after accumulating was pending before, and no update was for its persona. |
| SendMessage.AccumulatedUntouched | convex/workflows/sendMessage.ts:219-230 | A reply that no update names is kept as it was. |
| SendMessage.AccumulatedLastUpdate | convex/workflows/sendMessage.ts:219-230 | A reply that some update names is finished with the last such update's text, response id and time. |
| SendMessage.SnapshotStep | convex/workflows/sendMessage.ts:219-230 | One more snapshot-based update is one more patch of the message. |
| SendMessage.RecordOneFromSnapshot | convex/workflows/sendMessage.ts:76-78 | One `updateReplyStatus` call as written extends the snapshot-based table by one update. |
| SendMessage.RecordFromSnapshot | convex/workflows/sendMessage.ts:71-81 | The loop of `updateReplyStatus` calls as written leaves the snapshot-based table, and fails iff there were updates and the message is missing. |
| SendMessage.RecordEachSnapshot | convex/workflows/sendMessage.ts:71-81 | With the message stored, recording every update in order as written leaves the snapshot-based table and changes nothing else. |
| SendMessage.AccumulatedStep | convex/workflows/sendMessage.ts:219-230 | One more accumulated update is one more patch of the message. |
| SendMessage.RecordOneAccumulated | convex/workflows/sendMessage.ts:76-78 | One corrected update extends the accumulated table by one update. |
| SendMessage.RecordAccumulated | convex/workflows/sendMessage.ts:71-81 | The loop of corrected updates leaves the accumulated table, and fails iff there were updates and the message is missing. |
| SendMessage.RecordEachAccumulated | convex/workflows/sendMessage.ts:71-81 | With the message stored, recording every update in order on the stored message leaves the accumulated table and changes nothing else. |
| SendMessage.AsWrittenUpdates | convex/workflows/sendMessage.ts:70-97 | A first turn answers every persona. A later turn pairs against the new message, and throws "inconsistent" iff that pairing fails. |
| SendMessage.CorrectedUpdates | convex/workflows/sendMessage.ts:70-97 | Corrected: a later turn pairs against the previous message, and fails iff some persona has no finished reply there. |
| SendMessage.CorrectedRequests | convex/workflows/sendMessage.ts:70-97 | Corrected: the k-th answer responds to the k-th persona's request. On a later turn that persona has a finished reply on the previous message, and the request continues from that reply's response id. |
| SendMessage.MatchOnFreshMessage | convex/workflows/sendMessage.ts:85 | Pairing against a freshly created message succeeds iff the experiment has no personas. |
| SendMessage.StoredAppends | convex/workflows/sendMessage.ts:159-167 | Any reply update of the new message keeps the append shape: the old messages, then the new message with its authors. |
| SendMessage.AsWrittenPairsOnlyWithoutPersonas | convex/workflows/sendMessage.ts:84-97 | As written, the reply updates are computed iff it is the first turn or the experiment has no personas. |
| SendMessage.AsWrittenTurn | convex/workflows/sendMessage.ts:65-97 | As written, the turn always appends the new message. |
| SendMessage.AsWrittenTurnOutcome | convex/workflows/sendMessage.ts:65-97 | As written, the turn succeeds iff it is the first turn or there are no personas; otherwise it throws "inconsistent". |
| SendMessage.CorrectedTurn | convex/workflows/sendMessage.ts:65-97 | Corrected, the turn always appends the new message. |
| SendMessage.CorrectedTurnOutcome | convex/workflows/sendMessage.ts:65-97 | Corrected, the turn succeeds iff it is the first turn or every persona finished its reply to the previous message. A successful turn leaves no pending reply on the new message. |
| SendMessage.CorrectedTurnAnswers | convex/workflows/sendMessage.ts:65-97 | Corrected: after a passing turn, each reply of the stored message holds its persona's answer to that persona's request: text, response id and recording time. When the ids repeat, this is the answer for the persona's last position. |
| SendMessage.SendMessageAsWritten | convex/workflows/sendMessage.ts:44-98 | The workflow as written: a failed read leaves the store untouched. Otherwise it appends the message and has the as-written turn's outcome. |
| SendMessage.SendMessageCorrected | convex/workflows/sendMessage.ts:44-98 | The corrected workflow: a failed read leaves the store untouched. Otherwise it appends the message; it succeeds iff it is the first turn or every persona answered the previous message, and then leaves no pending reply. |
| SendMessage.RunTurnAsWritten | convex/workflows/sendMessage.ts:65-97 | The step-by-step turn as written leaves exactly `AsWrittenTurn`. |
| SendMessage.SendMessageWorkflow | convex/workflows/sendMessage.ts:38-99 | The step-by-step workflow as written returns the outcome of `SendMessageAsWritten` and leaves exactly its tables. |
| SendMessage.RunTurnCorrected | convex/workflows/sendMessage.ts:65-97 | The step-by-step corrected turn leaves exactly `CorrectedTurn`. |
| SendMessage.SendMessageWorkflowCorrected | convex/workflows/sendMessage.ts:38-99 | The step-by-step corrected workflow returns the outcome of `SendMessageCorrected` and leaves exactly its tables. |
| SendMessage.NextTurnSees | convex/workflows/sendMessage.ts:54-56 | After a turn, the next turn's reads succeed as before, and its last message is the one just appended. |
| SendMessage.AsWrittenFirstTurnBlocks | convex/workflows/sendMessage.ts:70-82 | As written, a first turn to two distinct personas succeeds but leaves a pending reply. Every later message is then refused with "pending replies". |
| SendMessage.AsWrittenLaterTurnBlocks | convex/workflows/sendMessage.ts:84-97 | As written, a later turn with personas throws "inconsistent" after inserting an all-pending message, so the thread is blocked. |
| SendMessage.CorrectedTurnCompletes | convex/workflows/sendMessage.ts:44-98 | Corrected, a turn whose previous message is answered succeeds, leaves no pending reply, and the next turn can start. |

## Left out

- The assistant and response calls to OpenAI are parameters: `create` for the assistant id, `respond` for the response. The model does not describe what they return.
- The OpenAI calls never fail in the model: `create` and `respond` are total. Two failure paths are therefore not modelled. A persona's reply stays pending when its response call throws. An experiment stays stored without its assistant rows when assistant creation throws after `_createExperiment` (convex/workflows/createExperiments.ts:57-68).
- `Date.now()` is a parameter: `clock(k)` gives the time of the k-th reply update.
- `Promise.all` runs its tasks in the model one at a time, in array order. Other interleavings, concurrent `updateReplyStatus` calls among them, are not modelled. Workflow durability, retries and step journaling are left out too.
- Document ids come from one counter shared by all tables. The model does not capture Convex's opaque per-table ids, nor `_creationTime`.
- Pagination cursors are positions in the index read. Convex's opaque cursor strings and page-size limits are not modelled.
- `toLowerCase` lowers ASCII letters only. Unicode case mapping is not modelled.
- The age is an integer written in decimal. Fractional ages, and JavaScript's number-to-text conversion for them, are not modelled.
- `console.log` calls are left out.
- Schema validation of arguments by `v.*` validators is left out. Arguments are assumed to have their declared shapes.
- `getPersona` and `getProject` in the functions files are the tenant helpers themselves. They have no members of their own.
- `requireAuth` failing on a missing organization is written as its own error. In JavaScript it is a destructuring TypeError.
- MultiSelectList: the component's rendering, popover state, animation, icons and the Enter key are left out, except which badges the trigger button shows and the count on its "+ N more" badge. Beyond those, the model keeps only the selection and the values reported to `onValueChange`.
- MultiSelectList.ToggleTwiceRestores: only holds for an absent value, or a value that is the last entry and appears nowhere else. `ToggleTwiceMovesToEnd` shows that it fails otherwise.
- SendMessage.FromSnapshot: states what the last update leaves: its persona's replies finished with its answer, every other reply as in the snapshot. It does not trace the earlier updates, whose answers that last write discards. `AsWrittenFirstTurnBlocks` shows one consequence: with two distinct personas, a reply stays pending.

## Findings

| source | as written | input that shows it | evidently intended | confidence | as-written member | corrected member |
|---|---|---|---|---|---|---|
| convex/workflows/sendMessage.ts:76-78, 219-230 | Each `updateReplyStatus` call rebuilds the replies from the message snapshot that `createMessage` returned and patches them in. Every call overwrites the finished replies of the calls before it. | A first message to an experiment with personas p1 and p2 (distinct): only p2's reply ends finished, p1's stays pending, and every later `sendMessage` is refused with "There are pending replies in the thread". | Each update finishes its own persona's reply in the stored message, keeping the others. | not executed | SendMessage.AsWrittenFirstTurnBlocks | SendMessage.CorrectedTurnAnswers |
| convex/workflows/sendMessage.ts:85 | The continuation branch pairs the personas with the replies of the message just created, which are all pending, so `matchPersonasWithMessageReplies` throws. | A second message to an experiment with at least one persona whose first message was fully answered: the new message is inserted with pending replies, then the workflow throws "This shouldn't happen". The thread is blocked from then on. | Pair the personas with the previous message (`lastMessage`) to find the response ids to continue from. | not executed | SendMessage.AsWrittenLaterTurnBlocks | SendMessage.CorrectedRequests |
