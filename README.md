# TrendPulse server core in Dafny

TrendPulse is a chat-driven trend tracker. A signed-in user writes "Track
Bitcoin every hour". The server turns that message into a tracking *task*:
an OpenAI or Gemini model parses it, or an offline keyword parser does when
no key is set or a vendor fails. Once a minute a scheduler picks the *due*
tasks. For each one it fetches news about the topic, has it analysed
(summary, sentiment, insight), and is meant to store an *analysis result*
and stamp the task's `lastRun`. As written, the record it builds lacks the
owner and topic the result schema requires, so nothing is ever stored or
stamped, and a manual run answers 500 for every existing task (see
Findings). The members marked "corrected record" model the run with
those two fields filled in. Users can list, pause and delete their own tasks. Anyone
can read the result history and trigger a run by hand. Accounts are
created and checked by the register, login and profile endpoints.

The model is organised by source file:

- `common.dfy`: `Option`, `Result` and two small sequence lemmas.
- `js_string.dfy`: the JavaScript string built-ins the code relies on:
  - `split`, `join`, `replace` with a string pattern, `trim`, `toLowerCase`, `includes` and `substring`;
  - truthiness.
- `sorting.dfy`: the descending sort behind `.sort({ field: -1 })`.
- `task_model.dfy`: the Task schema (server/models/Task.js) as a datatype plus a constructor function.
- `result_model.dfy`: the AnalysisResult schema: the sentiment enumeration, the defaults and `Validate`.
- `ai_service.dfy`: provider choice, the per-vendor fallbacks, the Gemini fence cleanup, input cutting, and the offline parser and analyser.
- `news_service.dfy`: `fetchNews` text assembly, the empty-feed text and the mock feed.
- `store.dfy`: the database as a `class Db`, with `seq` fields for tasks, results and users, its invariant, and a fresh-id counter.
- `scheduler.dfy`:
  - the due predicate;
  - the pipeline run `Run`, as a specification function;
  - the methods `ProcessTask`, `RunQueue` (the `for` loop) and `Tick`, proved against `Run`, `RunAll` and `TickSpec`.
- `task_routes.dfy`: list, chat, toggle and delete. Specification functions are paired with methods on `Db`.
- `analysis_routes.dfy`: the history listing and the manual run, which reuses the scheduler's `ProcessTask`.
- `auth_routes.dfy`: register, login and the profile lookup.

Things outside the program become parameters. Each is pinned down by the
contracts of the functions that use it:

- **Vendor SDK calls**: functions from the request to `Threw | Replied(text)`.
- **`JSON.parse`**: a function from text to `Malformed | JsonNull | Object(value)`.
- **NewsAPI**: a function from the query to a response or an error.
- **`Math.random`**: the drawn indices.
- **Whether a `save()` throws**: booleans.
- **bcrypt hashing and `comparePassword`**: functions.
- **The clock**: an integer `now` in milliseconds.

Behaviour of the code worth knowing:

- **Sentiment**: an out-of-enumeration value is rejected by validation (`ResultModel.Validate`), not coerced to `Unknown`.
- **History and the manual run**: both are mounted without the token check (server/server.js:73-75). They take no caller, so neither is scoped to a user.
- **Duplicate check**:
  - It compares the parsed topic as the parser returned it, before the schema trims it.
  - A vendor topic with a leading blank can therefore create a second task for the same topic (`TaskRoutes.UntrimmedTopicDuplicates`).
  - The offline parser always trims, so offline the "one topic per user" invariant holds when the duplicate check is read as case-insensitive equality (`TaskRoutes.ChatOfflineKeepsTopicsUnique`). The real check is a regular expression built from the topic; see "## Left out" for a topic it misses.
- **Task owner**:
  - The model's `Task` carries an owner, because the routes depend on one; see Findings for the schema that lacks it.
  - Its type is `Option<nat>`, so the as-written, owner-less construction can be stated as well.

## Model

| member | source | states |
|---|---|---|
| TaskModel.NewTask | server/models/Task.js:3-24 | Rejected exactly when the topic is absent or blank once trimmed. Otherwise: topic stored trimmed and non-empty, the caller as owner, frequency the given one or "0 * * * *", active, no lastRun, createdAt the creation time |
| TaskModel.NewTaskAsWritten | server/models/Task.js:3-24 | The schema as written has no owner path: same rejection condition, and an accepted task has no owner |
| TaskModel.AsWrittenDiffersOnlyInOwner | server/models/Task.js:3-24 | Both constructions accept the same inputs, and their tasks agree on every field except the owner |
| ResultModel.ParseSentiment | server/models/AnalysisResult.js:23-27 | A sentiment string is accepted exactly when it is one of Positive, Negative, Neutral or Unknown, and it reads back as that name |
| ResultModel.ParseSentimentName | server/models/AnalysisResult.js:23-27 | Every member of the enumeration round-trips through its name |
| ResultModel.Failures | server/models/AnalysisResult.js:3-38 | Each field is reported exactly when its validator fails, all together. Nothing is reported exactly when taskId and userId are present, topic and summary non-empty, and the sentiment absent or valid |
| ResultModel.Validate | server/models/AnalysisResult.js:3-38 | Valid exactly when taskId and userId are present, topic and summary are non-empty, and the sentiment is absent or in the enumeration. A rejection names exactly the failing paths. An accepted record keeps the given values and fills sentiment Unknown, sourceCount 0 and timestamp now when absent |
| Sorting.SortDesc | server/routes/tasks.js:13 | The sorted sequence is a permutation of the input whose keys never increase |
| Sorting.InsertSorted | server/routes/tasks.js:13 | Inserting into a descending sequence keeps it descending |
| Store.AddTaskKeepsValid | server/routes/tasks.js:42-47 | A task with the next id, a topic and an owner keeps task ids distinct and issued |
| Store.Db.FreshId | server/routes/tasks.js:47 | Hands out the counter's value, advances it by one, and changes no collection |
| AiService.ProviderOf | server/services/aiService.js:14-29 | OpenAI exactly when its key is truthy; Gemini exactly when only the Gemini key is truthy; otherwise offline |
| AiService.Settle | server/services/aiService.js:60-64 | A thrown call or an unparsable reply gives the fallback. A reply parsing to an object gives that object. No value exactly when the reply parses to null |
| AiService.CleanFences | server/services/aiService.js:112 | The cleaned text has no white space at either end |
| AiService.Cleaned | server/services/aiService.js:109-112 | A thrown Gemini call stays thrown. A reply becomes its fence-cleaned text, which contains no "```" |
| AiService.CleanFencesFenceFree | server/services/aiService.js:112 | After cleanup the text contains no "```" |
| AiService.CleanFencesKeepsPlainText | server/services/aiService.js:112 | Text with no backtick and no surrounding white space is unchanged |
| AiService.CleanFencesIdempotent | server/services/aiService.js:112 | Cleaning twice is the same as cleaning once |
| AiService.KeywordIndex | server/services/aiService.js:159 | The index of the first word whose lower-cased form contains track, monitor, watch or follow, or -1 exactly when no word does |
| AiService.ExtractTopic | server/services/aiService.js:162 | The extracted topic has no white space at either end |
| AiService.Truncate | server/services/aiService.js:164 | A topic over 25 characters becomes exactly its first 25 followed by "...", 28 characters in all. Shorter ones are unchanged. A trimmed topic stays trimmed |
| AiService.TrackerConfirmation | server/services/aiService.js:170 | The offline confirmation names the topic |
| AiService.MockParseIntent | server/services/aiService.js:144-176 | Topic and frequency are absent together. With no keyword the reply is the offline default. A topic is trimmed and at most 28 long, comes with frequency "0 * * * *" and a confirmation naming it |
| AiService.MockKeywordAtEnd | server/services/aiService.js:159-161 | When the keyword word is the last word there is no topic and no frequency |
| AiService.MockTopicFromWords | server/services/aiService.js:157-164 | A topic is the words after the first keyword word, joined by blanks, with the first "every", "hour" and "minute" removed, trimmed and cut |
| AiService.MockTracksBitcoin | server/services/aiService.js:144-176 | "Track Bitcoin every hour" yields topic "Bitcoin", frequency "0 * * * *" and the tracker confirmation for Bitcoin |
| AiService.KeywordWordFound | server/services/aiService.js:156-161 | When the whole lower-cased message mentions a keyword, some word does too, so findIndex never yields -1 there |
| AiService.KeywordInSomeWord | server/services/aiService.js:156-159 | A blank-free keyword occurring in the lower-cased message occurs in one of its words |
| AiService.MockSummary | server/services/aiService.js:195 | The offline summary is non-empty and names the topic |
| AiService.MockInsights | server/services/aiService.js:183-190 | There are five insight templates, and each contains the topic |
| AiService.MockSentiment | server/services/aiService.js:179-180 | The drawn sentiment is Positive, Neutral or Negative |
| AiService.MockInsight | server/services/aiService.js:183-190 | The drawn insight is one of the five templates for the topic, so it names the topic |
| AiService.MockAnalyzeContent | server/services/aiService.js:178-201 | Sentiment is one of the three names. The insight is one of the five templates and names the topic. The summary is the fixed text naming the topic |
| AiService.ParseIntent | server/services/aiService.js:31-35 | Offline the answer is the offline parse. An OpenAI reply, or a fence-cleaned Gemini reply, that parses to an object is the answer as it stands. Only a vendor reply parsing to null gives no answer |
| AiService.OpenAIRequest | server/services/aiService.js:77 | OpenAI sees a prefix of the news text of at most 2000 characters, the whole text when it is short enough |
| AiService.GeminiRequest | server/services/aiService.js:125 | Gemini sees a prefix of the news text of at most 4000 characters, the whole text when it is short enough |
| AiService.AnalyzeContent | server/services/aiService.js:37-41 | Offline the answer is the offline analysis. An object parsed from the OpenAI reply to the 2000-character request, or from the fence-cleaned Gemini reply to the 4000-character request, is the answer as it stands. Only a vendor reply parsing to null gives no answer |
| AiService.NoKeysMeansOffline | server/services/aiService.js:31-41 | With neither key set, both entry points give the offline answer |
| AiService.OpenAIKeyTakesPrecedence | server/services/aiService.js:31-41 | With an OpenAI key, neither the Gemini key nor Gemini's behaviour changes either answer |
| AiService.IntentFailureFallsBack | server/services/aiService.js:61-64 | A vendor exception or an unparsable reply, from either vendor, gives the offline parse of the same message |
| AiService.AnalysisFailureFallsBack | server/services/aiService.js:81-84 | A vendor exception or an unparsable reply, from either vendor, gives the offline analysis of the same topic |
| AiService.AnalysisSeesOnlyPrefix | server/services/aiService.js:77 | Two news texts with the same first 2000 (OpenAI) or 4000 (Gemini) characters get the same analysis |
| NewsService.Render | server/services/newsService.js:37 | A template literal renders a string as itself and a missing property as "null" or "undefined" |
| NewsService.Query | server/services/newsService.js:26-34 | One query per fetch: the topic and key, English, newest first, at most five articles |
| NewsService.RenderArticle | server/services/newsService.js:37 | An article renders as its title, ". ", then its description and nothing more: the exact length, the prefix and the suffix are all stated |
| NewsService.ArticlesText | server/services/newsService.js:37 | No articles give the empty text. Otherwise the text starts with the first article's rendering |
| NewsService.ArticlesTextMentions | server/services/newsService.js:37 | Every article's rendering, title and description occurs in the joined text |
| NewsService.ArticlesTextAppend | server/services/newsService.js:37 | One more article appends a blank and its rendering, so feed order is kept |
| NewsService.ArticlesTextSingle | server/services/newsService.js:37 | A single article's text is its rendering with no separator |
| NewsService.MockFetchNews | server/services/newsService.js:47-51 | The mock text starts with "Latest sample news for <topic>: " and contains each of the four canned sentences |
| NewsService.NoNews | server/services/newsService.js:39 | The empty-feed text names the topic |
| NewsService.FetchNews | server/services/newsService.js:20-45 | No key or a request error gives the mock text. Missing or empty articles give the no-news text. Otherwise the articles' renderings joined by blanks |
| NewsService.FetchNewsMentionsTopic | server/services/newsService.js:20-45 | Unless real articles came back, the text names the topic |
| Scheduler.Due | server/services/scheduler.js:18-26 | A paused task is never due. An active task that never ran is always due. A task run within the last hour is not due |
| Scheduler.DueTasks | server/services/scheduler.js:18-26 | Exactly the stored tasks that are due: active, and never run or run more than an hour before now |
| Scheduler.DueTasksCounts | server/services/scheduler.js:20-26 | Each due task is selected as often as it is stored, and no other task is selected |
| Scheduler.DueTasksAppend | server/services/scheduler.js:20-26 | Selecting from two stretches of the store is selecting from each in turn, so store order is kept |
| Scheduler.StampedDueAgain | server/services/scheduler.js:18-26 | A task stamped at t is due again exactly when it is active and now − 1 h > t |
| Scheduler.NewTaskIsDue | server/services/scheduler.js:23 | A freshly created task has no lastRun and is due at once |
| Scheduler.FrequencyIgnored | server/services/scheduler.js:20-26 | The stored frequency never affects selection |
| Scheduler.Analysis | server/services/scheduler.js:46-49 | Offline the analysis is the offline analysis of the task's own topic |
| Scheduler.AsWrittenDraft | server/services/scheduler.js:52-58 | The record as built carries the task id, the analysis fields and source count 5, but no owner and no topic |
| Scheduler.AsWrittenDraftRejected | server/models/AnalysisResult.js:9-17 | Whatever the analysis says, the record as built fails validation on userId and on topic |
| Scheduler.RunAsWritten | server/services/scheduler.js:41-70 | The run with the record as built, branch for branch like `Run`: a null analysis fails exactly when the analysis is null, and every failure but a failed task save changes nothing |
| Scheduler.AsWrittenRunChangesNothing | server/services/scheduler.js:41-70 | As written, a run never completes, stores nothing and stamps nothing; with an analysis it fails with a rejection naming userId and topic |
| Scheduler.RecordDraft | server/services/scheduler.js:52-58 | The record carries the task's id, owner and topic, the analysis fields and source count 5 |
| Scheduler.RecordDraftVerdict | server/models/AnalysisResult.js:4-27 | For an owned task with a topic, the record is accepted exactly when the summary is non-empty and the sentiment absent or valid; accepted records keep the task's id, owner and topic |
| Scheduler.MockRecordAccepted | server/services/aiService.js:178-201 | The offline analysis always yields a storable record |
| Scheduler.Stamp | server/services/scheduler.js:63-64 | Only tasks with the run task's id change, and in them only lastRun, set to now |
| Scheduler.StampAt | server/services/scheduler.js:63-64 | Stamping keeps each id, and sets lastRun exactly where the id matches |
| Scheduler.StampKeepsValid | server/services/scheduler.js:63-64 | Stamping keeps the task collection well formed |
| Scheduler.StampedNotDue | server/services/scheduler.js:18-26 | A stamped task is not due again within the hour |
| Scheduler.Run | server/services/scheduler.js:41-70 | A null analysis or rejected record stores nothing. A failed result save changes nothing. A failed task save happens exactly when the record is valid, its save succeeds and the task save throws; it keeps exactly that record but not the stamp. Otherwise exactly one record is appended and the task stamped. The record holds the task's id, owner and topic, source count 5, timestamp now, and the analysis's summary, insight and sentiment (Unknown when absent) (corrected record, see Findings) |
| Scheduler.RunOutcomeReadsTaskKey | server/services/scheduler.js:41-70 | A run's outcome depends on the task's id, owner and topic only, not on its flag, lastRun or the stores |
| Scheduler.RunKeepsValid | server/services/scheduler.js:41-70 | A run keeps the task collection well formed |
| Scheduler.RunAll | server/services/scheduler.js:32-34 | The runs of a queue keep the number of tasks and add at most one result per queued task |
| Scheduler.RunAllSnoc | server/services/scheduler.js:32-34 | One more queued task adds one more run at the end |
| Scheduler.RunAllPrefix | server/services/scheduler.js:32-34 | The runs of the first i+1 queued tasks are those of the first i, then the run of task i |
| Scheduler.RunAllKeepsValid | server/services/scheduler.js:32-34 | The runs of a tick keep the task collection well formed |
| Scheduler.ResultsGrewTrans | server/services/scheduler.js:32-34 | Result growth over two stretches of runs composes into growth over the whole queue |
| Scheduler.RunResults | server/services/scheduler.js:52-60 | One run keeps the old results and appends at most one, stamped now, for that task |
| Scheduler.RunAllResults | server/services/scheduler.js:32-34 | A tick keeps the old results and appends at most one per queued task, each stamped now and naming a queued task |
| Scheduler.RunAllLeavesOthers | server/services/scheduler.js:32-34 | A task sharing no id with a queued task is unchanged by the tick |
| Scheduler.RunOfflineCompletes | server/services/scheduler.js:41-70 | Offline and with both saves succeeding, a run of an owned task completes, stamps it and appends one record (corrected record, see Findings) |
| Scheduler.StampedForStep | server/services/scheduler.js:32-34 | Stamping the next queued task extends "every queued task is stamped" by one |
| Scheduler.RunAllOfflineCompletes | server/services/scheduler.js:32-34 | Offline and with no failing save, a tick appends one record per queued task and stamps each of them (corrected record, see Findings) |
| Scheduler.TickSpec | server/services/scheduler.js:11-37 | A failed due query changes nothing. A tick keeps the number of tasks and adds at most one result per stored task |
| Scheduler.TickLeavesNotDue | server/services/scheduler.js:18-37 | A task that is not due (paused or run within the hour) is left exactly as it was, whether or not the query fails |
| Scheduler.DueTasksWellFormed | server/services/scheduler.js:20-26 | Every selected task has an owner and a topic |
| Scheduler.DueTaskSelected | server/services/scheduler.js:20-26 | Every due task is among the selected ones |
| Scheduler.StampedForAt | server/services/scheduler.js:63-64 | A task whose id was queued carries lastRun now after the tick |
| Scheduler.TickOfflineRunsEveryDue | server/services/scheduler.js:11-37 | Offline and with no failing save, a tick stamps every due task and appends one record per due task (corrected record, see Findings) |
| Scheduler.ProcessTask | server/services/scheduler.js:41-70 | The database ends exactly as `Run` says and keeps its invariant; users and the counter are untouched (corrected record, see Findings) |
| Scheduler.RunQueue | server/services/scheduler.js:32-34 | The loop leaves the database exactly as the queued runs in order say (corrected record, see Findings) |
| Scheduler.RunNext | server/services/scheduler.js:33 | One loop iteration extends the runs of the first i tasks to the first i+1 (corrected record, see Findings) |
| Scheduler.Tick | server/services/scheduler.js:11-38 | The tick leaves the database as `TickSpec` says: nothing when the query fails, otherwise the runs of the due tasks (corrected record, see Findings) |
| TaskRoutes.Owned | server/routes/tasks.js:13 | Exactly the caller's tasks |
| TaskRoutes.OwnedCounts | server/routes/tasks.js:13 | Each of the caller's tasks is selected as often as it is stored, and no other task is selected |
| TaskRoutes.ListTasks | server/routes/tasks.js:11-14 | A permutation of the caller's tasks: each listed as often as it is stored, no other task listed, newest createdAt first |
| TaskRoutes.AlreadyTracking | server/routes/tasks.js:37 | The duplicate reply names the existing topic |
| TaskRoutes.FindDuplicate | server/routes/tasks.js:30-33 | A caller's task whose topic equals the parsed one ignoring case, or none exactly when no such task exists |
| TaskRoutes.ChosenFrequency | server/routes/tasks.js:45 | The parsed frequency when truthy, else "0 * * * *" |
| TaskRoutes.Intent | server/routes/tasks.js:26 | No parse for a missing or empty message. For a present one, exactly the service's parse of it |
| TaskRoutes.ChatSpecOutcomes | server/routes/tasks.js:21-64 | 400 for a missing message. "Didn't understand" for a null parse. Only a created task changes the list: one task with the next id, the caller as owner, the trimmed topic and the chosen frequency. A duplicate answers AlreadyExists naming the caller's matching task, and only a duplicate does. A parse with a falsy topic answers ChatOnly with the parser's own confirmation. A topic blank once trimmed fails validation and answers 500 |
| TaskRoutes.Chat | server/routes/tasks.js:21-64 | The database ends as `ChatSpec` says, keeping its invariant. The counter advances only when a task is created |
| TaskRoutes.ChatCreatesUnlessDuplicate | server/routes/tasks.js:28-53 | A parsed topic that is non-blank once trimmed and matches none of the caller's tasks creates exactly one task |
| TaskRoutes.AppendKeepsTopicsUnique | server/routes/tasks.js:42-47 | Appending a task whose topic differs, ignoring case, from all its owner's topics keeps topics unique per user |
| TaskRoutes.ChatKeepsTopicsUnique | server/routes/tasks.js:28-47 | When the parsed topic is trimmed, chat keeps each user's topics distinct ignoring case, with the duplicate check read as case-insensitive equality |
| TaskRoutes.ChatOfflineKeepsTopicsUnique | server/routes/tasks.js:28-47 | Offline, chat never creates a second task for a topic the user already tracks, with the duplicate check read as case-insensitive equality |
| TaskRoutes.TrimLeadingBlank | server/models/Task.js:7 | Trimming removes a single leading blank from a trimmed word |
| TaskRoutes.PaddedTopicMisses | server/routes/tasks.js:32 | A topic with a leading blank matches no stored copy of it |
| TaskRoutes.UntrimmedTopicDuplicates | server/routes/tasks.js:28-47 | A parsed topic " X" beside an existing task "X" creates a second task "X", breaking per-user uniqueness |
| TaskRoutes.PaddedTopicCreated | server/routes/tasks.js:42-47 | Such a padded topic is created, and is stored trimmed |
| TaskRoutes.OpenAIPaddedTopic | server/services/aiService.js:45-60 | An OpenAI reply that decodes to a padded topic is passed on unchanged |
| TaskRoutes.ChatKeepsValid | server/routes/tasks.js:42-47 | Chat keeps the task store well formed, and a created task is due at once |
| TaskRoutes.FindOwned | server/routes/tasks.js:69 | The position of a task with that id owned by the caller, or none exactly when there is none |
| TaskRoutes.Toggled | server/routes/tasks.js:71-72 | Only the chosen task's active flag flips |
| TaskRoutes.ToggleTwice | server/routes/tasks.js:71-72 | Toggling twice restores the task list |
| TaskRoutes.PausedNotDue | server/routes/tasks.js:71 | A paused task is never selected by the scheduler |
| TaskRoutes.Deleted | server/routes/tasks.js:82 | Removes exactly the chosen task and keeps the others in order |
| TaskRoutes.DeletedGone | server/routes/tasks.js:82 | No remaining task shares the deleted id, and the store stays well formed |
| TaskRoutes.Toggle | server/routes/tasks.js:67-77 | 404 without any change unless the caller owns the task. Otherwise that task's flag flips and the reply is the updated task. Results, users and the counter are untouched |
| TaskRoutes.Delete | server/routes/tasks.js:80-88 | 404 without any change unless the caller owns the task. Otherwise only that task is removed and no result is deleted |
| TaskRoutes.OthersTasksUnreachable | server/routes/tasks.js:69-84 | A task owned by someone else can be neither toggled nor deleted |
| TaskRoutes.OwnerlessTasksInvisible | server/routes/tasks.js:11-84 | Tasks without an owner are never listed, never duplicates and never found for toggle or delete |
| TaskRoutes.OwnedOwnerless | server/routes/tasks.js:13 | No owner-less task is anyone's |
| TaskRoutes.CreatedTaskListed | server/routes/tasks.js:11-47 | A task created through chat shows up in its owner's list |
| AnalysisRoutes.FindById | server/routes/analysis.js:23 | A stored task with that id, or none exactly when no task has it |
| AnalysisRoutes.Populate | server/routes/analysis.js:12 | The task reference is the stored task's id and topic, or missing exactly when no task has that id |
| AnalysisRoutes.PopulateAll | server/routes/analysis.js:12 | Populates each result in place |
| AnalysisRoutes.ResultsOf | server/routes/analysis.js:14 | The results of the listed entries, in order |
| AnalysisRoutes.History | server/routes/analysis.js:9-18 | A permutation of all stored results, newest first, each with its task reference populated |
| AnalysisRoutes.HistoryListsEveryResult | server/routes/analysis.js:11 | Every stored result is listed, whoever owns it |
| AnalysisRoutes.HistoryAfterDelete | server/routes/analysis.js:12 | After its task is deleted, a result is still listed, with no task reference |
| AnalysisRoutes.ManualRunSpec | server/routes/analysis.js:21-51 | 404 and no change exactly when no task has the id. Otherwise the scheduler's run for that task: its saved result on success, 500 on any failure (corrected record, see Findings) |
| AnalysisRoutes.ManualRunAsWritten | server/routes/analysis.js:21-51 | As written: 404 exactly when no task has the id, otherwise 500, and the collections never change |
| AnalysisRoutes.ManualRunAsWrittenRejects | server/routes/analysis.js:33-41 | As written, a task whose analysis succeeds gets 500 because validation rejects the missing userId and topic |
| AnalysisRoutes.ManualRun | server/routes/analysis.js:21-51 | The database ends as `ManualRunSpec` says and keeps its invariant (corrected record, see Findings) |
| AnalysisRoutes.FindByDistinctId | server/routes/analysis.js:23 | With distinct ids, looking up a task's id finds that task |
| AnalysisRoutes.ManualRunIgnoresActiveFlag | server/routes/analysis.js:23 | Pausing a task does not change the manual run's reply |
| AnalysisRoutes.ManualRunDefersSchedule | server/routes/analysis.js:44-45 | After a successful manual run the task is not due within the hour (corrected record, see Findings) |
| AuthRoutes.Public | server/routes/auth.js:38 | The reply user has exactly the id, name and email, and no password |
| AuthRoutes.FindByEmail | server/routes/auth.js:27 | A user registered with exactly that email, or none exactly when no one has it |
| AuthRoutes.RegisterSpec | server/routes/auth.js:16-43 | Checks run as presence (400), then length below 6 (400), then duplicate (409 exactly when the email is taken). A rejection leaves users unchanged. 201 appends one user with the hashed password and replies without it |
| AuthRoutes.AddUserKeepsValid | server/routes/auth.js:32 | A user with a fresh id and an unregistered email keeps ids and emails unique |
| AuthRoutes.RegisterKeepsValid | server/routes/auth.js:16-43 | Registration keeps ids distinct and issued and emails unique |
| AuthRoutes.Register | server/routes/auth.js:16-43 | The database ends as `RegisterSpec` says. The counter advances only on 201. Tasks and results are untouched |
| AuthRoutes.SixCharactersSuffice | server/routes/auth.js:23-25 | A six-character password passes the length check |
| AuthRoutes.SecondRegistrationRejected | server/routes/auth.js:27-30 | Registering a registered email again gives 409 and changes nothing |
| AuthRoutes.Login | server/routes/auth.js:46-74 | 400 exactly when a field is missing; 200 exactly when the email is registered and the password matches, with the public user; every 401 carries the same message |
| AuthRoutes.LoginFailuresAlike | server/routes/auth.js:54-62 | An unknown email and a wrong password give identical 401 replies |
| AuthRoutes.RegisteredCanLogIn | server/routes/auth.js:32-62 | A just-registered account logs in with its password when the comparison accepts its own hash |
| AuthRoutes.FindByEmailAppend | server/routes/auth.js:27-57 | After appending a user with an unregistered email, looking up that email finds the user |
| AuthRoutes.Me | server/routes/auth.js:77-85 | 404 exactly when no user has the id; otherwise that user without the password |
| AuthRoutes.RegisteredProfile | server/routes/auth.js:32-81 | A registered user's profile is found under the id registration returned |
| JsString.TrimKeepsTrimmed | server/models/Task.js:7 | Trimming leaves text without surrounding white space unchanged |
| JsString.TrimIdempotent | server/models/Task.js:7 | Trimming twice is the same as trimming once |
| JsString.JoinSplit | server/services/aiService.js:157-162 | Joining the blank-split words with blanks restores the message |

## Left out

- **Vendor SDKs**: the OpenAI and Gemini SDKs, their prompts and model names are left out; each call is a parameter that throws or replies with text.
- **NewsAPI over HTTP**: a parameter from the query to a response or an error.
- **Offline delays and randomness**: the `setTimeout` delays in the offline parser and analyser are left out, because they do not change the result. `Math.random` is the drawn index.
- **Scheduler timing**: node-cron's once-a-minute timing is left out. The non-awaited `processTask` calls are modelled as sequential runs in query order, so interleavings of overlapping runs are not captured. One `now` serves the due query, every record's timestamp and every `lastRun` of a tick, although each run reads the clock later than the query.
- **JWT**: token generation and verification (server/routes/auth.js:7-13, server/middleware/auth.js) are left out. The caller's id is an input to the task routes and to `AuthRoutes.Me`.
- **Passwords**: bcrypt hashing and `comparePassword` are parameters; server/models/User.js is not part of this model.
- **Persistence**: Mongo and Mongoose are left out.
  - Collections are sequences and ObjectIds are naturals from one shared counter.
  - Order among equal sort keys is not fixed.
  - Casting errors on malformed ids are not modelled.
  - Database exceptions are not modelled. Each would answer 500 and change nothing: list, toggle, delete, register, login, profile, history, the chat's duplicate lookup and task save (it creates no task), and the manual run's task lookup.
- **Duplicate-check regex**: modelled as case-insensitive equality over ASCII letters. The unescaped pattern would treat metacharacters specially, such as the "..." that truncation appends.
- TaskRoutes.ChatSpecOutcomes: does not model a topic that is not a valid pattern. For the offline topic "C++" (from "Track C++"), `new RegExp` throws, so the route answers 500 and creates no task, while the model answers TaskCreated. JavaScript's pattern syntax is not part of this model.
- TaskRoutes.ChatKeepsTopicsUnique, TaskRoutes.ChatOfflineKeepsTopicsUnique: hold only under the equality reading of the duplicate check. "Can you track Bitcoin?" gives the offline topic "Bitcoin?"; the pattern `/^Bitcoin?$/i` does not match the stored "Bitcoin?", so the same message sent twice creates a second task with that topic.
- **String semantics**:
  - `toLowerCase` changes the ASCII letters only; `trim` removes the full JavaScript white-space set.
  - Lengths and offsets count characters, not UTF-16 code units.
- **Non-string JSON values**: vendor replies are objects whose fields are strings or absent, and request-body fields are strings or absent. A truthy non-string request field is outside the model, and the code treats each one its own way:
  - A numeric chat `message` reaches the offline parser, whether offline or as a vendor's fallback. There `message.toLowerCase()` (server/services/aiService.js:145) throws, so the route answers 500 (server/routes/tasks.js:23-26).
  - A numeric `password` has no `.length`, so the length check at server/routes/auth.js:23 passes whatever its value.
- **AuthRoutes.Me**: returns the stored user without the password; it is modelled as the public id, name and email, since the other User fields are not in this model.
- **Host environment**:
  - server/server.js (start-up, CORS, debug routes) is left out; its `lastError` field is never assigned.
  - Everything under client/ and repro_error.js is left out.
- **Orphan sweep and Gemini probing**: there is no orphan-result sweep and no Gemini model-probing cache in the code, so neither is modelled.

## Findings

| source | as written | input that shows it | evidently intended | confidence | as-written member | corrected member |
|---|---|---|---|---|---|---|
| server/services/scheduler.js:52-58, server/routes/analysis.js:33-39 | The result record is built with taskId, summary, sentiment, insight and sourceCount only, while server/models/AnalysisResult.js:9-17 requires userId and topic | Any run whose analysis succeeds: `save()` fails validation, no result is stored, and lastRun is never stamped, so the task is due again on every tick | The record carries the task's owner and topic, so validation passes and the task is stamped | not executed | Scheduler.AsWrittenDraftRejected, Scheduler.AsWrittenRunChangesNothing, AnalysisRoutes.ManualRunAsWritten, AnalysisRoutes.ManualRunAsWrittenRejects | Scheduler.RecordDraftVerdict, Scheduler.Run, Scheduler.RunOfflineCompletes, AnalysisRoutes.ManualRunSpec |
| server/models/Task.js:3-24, server/routes/tasks.js:13,30,43,69,82 | The Task schema has no userId path, so the owner given at creation is not stored. Under strictQuery false (the Mongoose 7 default) the userId filter is kept and every owner-filtered query misses. Under strictQuery true (the Mongoose 6 default) the filter is stripped and every user lists, toggles, deletes and duplicate-checks against all tasks | A user creates a task through chat: with the filter kept it is not in their list, cannot be toggled or deleted, and the same topic can be added again; with the filter stripped another user's request can toggle or delete it | The schema has a userId field, and created tasks belong to their creator | not executed (depends on Mongoose's strict settings) | TaskModel.NewTaskAsWritten, TaskRoutes.OwnerlessTasksInvisible | TaskModel.NewTask, TaskRoutes.CreatedTaskListed |
