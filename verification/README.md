# Business-intelligence agent pipeline, modelled in Dafny

This project models the core of a natural-language business-intelligence
assistant for Microsoft SQL Server. A question in plain language travels
through a pipeline of LLM agents built on Google's Agent Development Kit
(ADK):

1. the **text-to-SQL agent** writes a T-SQL query, with access to a
   database-schema tool;
2. the **SQL executor agent** runs it through the `execute_sql_and_format`
   tool;
3. the **insight pipeline** runs next: a visualisation agent writes Altair chart
   code, then an explanation agent writes a plain-language summary.

Each stage stores its answer in the shared session state under an output
key. Later stages read it through `{key}` placeholders in their
instructions. A Gradio handler merges the state changes and cleans Markdown
fences off the SQL and the chart code. It then decodes the executor's JSON
reply and builds the four panels: SQL, table, chart and explanation. An
offline script scores the SQL generator against a test set. It retries when
the model reports a rate limit.

The model is written as pure functions over immutable values. Each part
that cannot be seen from here is passed in as a function parameter:

- the database: catalogue rows, query execution, the version probe;
- the language model;
- `json.loads`, the DataFrame constructor, and `exec` of the chart code.

Each Dafny module follows one source file:

| module | models |
|---|---|
| `Base` | `Option` and `Result` (a value, or the message of a raised exception) |
| `PyText` | Python `str` semantics used by the code: `strip`, `replace`, `in`, `lower`, `str(int)` |
| `PyValues` | decoded JSON values, truthiness, `dict.get`, `str()`, and the DataFrame as columns and rows |
| `DbConfig` | `bi_agent/db_config.py`: ODBC connection string, connection check, schema text |
| `Tools` | `bi_agent/tools.py`: the two query tools and the schema tool |
| `BiService` | `bi_agent/bi_service.py`: the connection-holding service object |
| `Runtime` | the ADK runtime the agents rely on: placeholder injection, output keys, sequential runs |
| `BiAgents` | `bi_agent/agent.py`: the agents, their reads, writes and tools, and the root pipeline |
| `App` | `app.py`: the request handler |
| `Evaluate` | `evaluate_sql.py`: the retry loop and the scoring |

Most of the proof work lies in a few general lemmas:

- `Runtime.RunFlatten`: running a nested sequential agent is running its leaves in order.
- `Runtime.PlaceholdersOfPieces`: the placeholder scanner agrees with the structured instruction it reads.
- `Evaluate.RetryLoop`: the imperative retry loop agrees with its recursive definition.
- `DbConfig.GroupSpec`: grouping the catalogue rows by table agrees with its specification.
- `PyValues.InsertSpec` and `PyValues.RowRecordSpec`: the dictionary semantics behind a frame's records.

## Model

| member | source | states |
|---|---|---|
| `PyText.Strip` | app.py:107 | the result has no whitespace at either end and is no longer than the input |
| `PyText.StripPadding` | app.py:97 | the input is the stripped text with only whitespace added on both sides |
| `PyText.StripIdempotent` | app.py:107 | stripping twice is stripping once |
| `PyText.ContainsIffOccurs` | evaluate_sql.py:80 | the `in` search on text agrees with "the pattern occurs at some position" |
| `PyText.RemoveFenceComplete` | app.py:109 | after `replace("```", "")` no fence is left, even where removed fences brought backticks together |
| `PyText.NatToStringRoundTrip` | bi_agent/bi_service.py:138 | the decimal digits of `str(n)` read back as `n` |
| `PyText.LowerMatchesWord` | bi_agent/tools.py:120-121 | `lower()` equals a lower-case word exactly when the text spells it in any letter case |
| `PyValues.Lookup` | app.py:114-128 | `dict.get` finds a key exactly when some member has it, and answers with the last such member |
| `PyValues.Records` | bi_agent/tools.py:67-69 | `to_dict(orient='records')` gives one record per row |
| `PyValues.InsertSpec` | bi_agent/tools.py:69 | storing a label in a record: it reads back the new cell, every other label reads as before, and labels stay distinct in first-insertion order |
| `PyValues.RowRecordSpec` | bi_agent/tools.py:69 | a row's record holds each column label once, in first-appearance order; a repeated label reads the cell of its last column; any other label is absent |
| `PyValues.RecordsRead` | bi_agent/tools.py:141 | record k of a frame has the frame's labels once each, in first-appearance order, each reading row k's cell under the last column carrying it |
| `PyValues.ColumnlessFrameRecords` | bi_agent/tools.py:139-141 | a frame with rows and no columns is empty, yet has one (empty) record per row |
| `DbConfig.OdbcSegments` | bi_agent/db_config.py:36-47 | split on ';', the connection string gives back the six key=value segments in order (when no value contains ';') |
| `DbConfig.CreateEngine` | bi_agent/db_config.py:13-57 | the connection string closes with `TrustServerCertificate=yes;` or `=no;` according to the flag |
| `DbConfig.ValidateConnection` | bi_agent/db_config.py:60-76 | success exactly when the probe answers; the message then holds the first 50 characters of the version followed by "..."; otherwise it is "Connection failed: " and the error |
| `PyText.DedupSpec` | bi_agent/db_config.py:114-125 | table names in first-appearance order: distinct, the same set as the input, first appearances kept in order |
| `DbConfig.GroupSpec` | bi_agent/db_config.py:114-133 | grouping rows by table gives one section per kept table, in first-appearance order, each with that table's columns in row order |
| `DbConfig.Document` | bi_agent/db_config.py:135-152 | the first `max_tables` tables are printed (all of them when fewer), and the overflow line appears exactly when more tables exist, with the count left out |
| `DbConfig.Render` | bi_agent/db_config.py:135-154 | the schema text opens with the header, and ends with the overflow line exactly when tables were left out |
| `DbConfig.RenderSections` | bi_agent/db_config.py:139-149 | after the header, each printed table's block appears in order, each starting where the previous one ends |
| `DbConfig.SectionLines` | bi_agent/db_config.py:141-147 | a table block lists every column line, in the table's column order, right after its heading |
| `DbConfig.ColumnLine` | bi_agent/db_config.py:145-147 | a column line says NULL exactly when `IS_NULLABLE` is "YES", and NOT NULL otherwise |
| `DbConfig.SchemaInfo` | bi_agent/db_config.py:79-157 | a failed catalogue query becomes "Error retrieving schema: " and the error; otherwise the text is the rendering of the grouped, capped document, so it opens with the schema header |
| `DbConfig.OverflowIff` | bi_agent/db_config.py:151-152 | the text ends with "... and k more tables" exactly when there are more tables than the cap, and k is the difference |
| `DbConfig.EmptyFilterIsNoFilter` | bi_agent/db_config.py:121 | an empty table filter selects every table, the same as no filter |
| `DbConfig.DefaultNeverPrinted` | bi_agent/db_config.py:127-147 | the column default is fetched but never changes the text |
| `Tools.TrustFlag` | bi_agent/tools.py:120-121 | an unset variable trusts the certificate; a set one does exactly when it spells "true" or "yes" in any case |
| `Tools.EnvEngine` | bi_agent/tools.py:113-133 | the engine the tools build ends its connection string with the trust setting read from the environment |
| `Tools.ExecuteSqlQuery` | bi_agent/tools.py:45-85 | executor exceptions propagate; a success passes the columns and row count through with no error, and carries one record per row, none for a missing frame; a failure passes the executor's error through, with no rows, columns or count |
| `Tools.ExecuteSqlAndFormat` | bi_agent/tools.py:88-171 | without the four credentials the reply is the credentials error; an engine, executor or serialisation exception becomes a "Tool error: " reply; otherwise the executor's success flag, columns, count and error pass through, and a success has no records exactly when the frame is missing or empty, and the frame's records otherwise |
| `Tools.Normalise` | bi_agent/tools.py:137-156 | a reply keeps the executor's success flag; a success carries its columns and row count and no error; a failure carries its error, with no data, no columns and a zero count |
| `Tools.NoCredentialsNoQuery` | bi_agent/tools.py:123-130 | without credentials the reply does not depend on the database: the query never runs |
| `Tools.EmptyFrameRulesDiffer` | bi_agent/tools.py:69 | the two tools differ on a column-less frame with rows: one sends empty records, the other none |
| `Tools.EnvelopeJson` | bi_agent/tools.py:143-162 | the serialised reply has five members; `success`, `error`, `row_count` read back as the reply's values; `data` holds one object per record and `columns` one string per label, in order |
| `Tools.EnvelopeRoundTrip` | bi_agent/tools.py:143-162 | reading the serialised reply back gives the reply |
| `Tools.GetDatabaseSchema` | bi_agent/tools.py:174-220 | without credentials, or on an engine or catalogue error, the fixed error texts; otherwise the rendering of the catalogue capped at a hundred tables |
| `Tools.SchemaToolCap` | bi_agent/tools.py:212 | the schema tool lists min(n, 100) tables and reports the overflow exactly when n > 100 |
| `BiService.NewService` | bi_agent/bi_service.py:20-47 | a new service stores its credentials and has neither engine nor schema |
| `BiService.Connect` | bi_agent/bi_service.py:49-70 | success exactly when the engine is built and the probe answers; the engine is stored even when validation fails; a construction error becomes "Connection error: " |
| `BiService.LoadSchema` | bi_agent/bi_service.py:72-86 | raises exactly when no engine is held; otherwise caches and returns the schema text of the held engine, changing nothing else |
| `BiService.ExecuteSql` | bi_agent/bi_service.py:88-107 | without an engine, a "Not connected to database" failure and no query; otherwise the executor's answer |
| `BiService.SchemaPrompt` | bi_agent/bi_service.py:157-173 | raises exactly when no schema is cached; otherwise the prompt opens with the schema and separator and ends with the question line |
| `BiService.SchemaPromptRoundTrip` | bi_agent/bi_service.py:170-173 | the question reads back out of the prompt |
| `BiService.ClosedService` | bi_agent/bi_service.py:175-179 | closing is idempotent; a closed service refuses to load, answers queries with the not-connected failure, and keeps its cached schema |
| `BiService.FailedValidationKeepsEngine` | bi_agent/bi_service.py:56-67 | after a failed validation, queries still run against the stored engine |
| `BiService.ConnectThenLoad` | bi_agent/bi_service.py:49-86 | after connecting, whatever validation said, the schema loads and the prompt starts with it |
| `BiService.PrepareData` | bi_agent/bi_service.py:109-155 | "No data available" exactly when the frame is missing or empty; otherwise the introduction, then the SQL line when a query is given |
| `BiService.PrepareDataSummary` | bi_agent/bi_service.py:131-140 | after the introduction and the SQL line, the printed row count reads back as the number of rows, followed by the column labels joined by ", " |
| `Runtime.PlaceholdersOfPieces` | bi_agent/agent.py:206 | scanning an instruction's text for `{key}` placeholders finds exactly the keys it reads, in order; doubled braces and punctuated contents are not reads |
| `Runtime.Inject` | bi_agent/agent.py:444 | injection succeeds exactly when every key the instruction reads is in the state |
| `Runtime.InjectAppend` | bi_agent/agent.py:444-451 | injecting two instruction parts in sequence succeeds exactly when both do, and gives the two texts joined |
| `Runtime.InjectReadsState` | bi_agent/agent.py:444-451 | wherever the instruction reads a key, the key is in the state and its value appears right after the text injected for the pieces before the read |
| `Runtime.InjectMissing` | bi_agent/agent.py:444-451 | when a read key is missing, injection raises the "Context variable not found" error naming the first missing key in reading order |
| `Runtime.RunFlatten` | bi_agent/agent.py:403-407 | running a sequential agent is running its leaf stages in order over one shared state |
| `Runtime.WellFormedRunsToEnd` | bi_agent/agent.py:508-517 | when every read is written earlier and the model always answers, each stage writes exactly its output key, in order, and the final state holds the initial keys plus all output keys |
| `BiAgents.RootStages` | bi_agent/agent.py:508-517 | the root pipeline's stages run in the order SQL generation, execution, visualisation, explanation |
| `BiAgents.ExecutorReads` | bi_agent/agent.py:417-458 | the executor's instruction reads `sql_query` and nothing else |
| `BiAgents.VisualizationReads` | bi_agent/agent.py:150-284 | the visualisation instruction reads exactly `query_results`; its brace-doubled code examples are not reads |
| `BiAgents.FormatterReads` | bi_agent/agent.py:465-501 | the formatter's instruction reads exactly `query_results` |
| `BiAgents.SilentStagesRead` | bi_agent/agent.py:21-140 | the text-to-SQL and explanation instructions read no state |
| `BiAgents.RootOutputs` | bi_agent/agent.py:139 | the root stages write `sql_query`, `query_results`, `chart_spec`, `explanation_text`, all distinct |
| `BiAgents.RootReadsWrittenEarlier` | bi_agent/agent.py:444-451 | from an empty session, every key a root stage reads was written by an earlier stage |
| `BiAgents.RootRun` | bi_agent/agent.py:508-520 | with a model that always answers, the root run ends without error, with one event per stage, and the state holds exactly the four output keys |
| `BiAgents.FormatterExcluded` | bi_agent/agent.py:508-517 | the data formatter is not a root stage, and `formatted_data` is never written |
| `BiAgents.FormatterWouldFit` | bi_agent/agent.py:465-501 | inserted after the executor, the formatter's reads would also be satisfied |
| `BiAgents.ToolBindings` | bi_agent/agent.py:138 | among the root stages, only the text-to-SQL agent has the schema tool and only the executor has the query tool |
| `BiAgents.InsightNeedsResults` | bi_agent/agent.py:403-410 | run on an empty session, the insight pipeline fails on the missing `query_results` |
| `App.MergeIsLastWrite` | app.py:70-74 | the merged results hold exactly the keys some event wrote, each with the value from the last event that wrote it |
| `App.MergeIsSessionState` | app.py:63-76 | the merged results equal the session state the run leaves, starting from an empty session |
| `App.CleanFence` | app.py:106-111 | the cleaned text is trimmed; a fenced reply leaves no fence; an unfenced one is only stripped |
| `App.CleanFenceIdempotent` | app.py:143-147 | cleaning twice is cleaning once |
| `App.CleanFenceRoundTrip` | app.py:108-109 | a trimmed, backtick-free query wrapped in a tagged fence comes back exactly |
| `App.CleanFenceKeepsBare` | app.py:107-111 | a trimmed, backtick-free query sent without fences is unchanged |
| `App.EnhancedPrompt` | app.py:50-55 | the prompt is the schema block followed by the question line, so the question reads back |
| `App.DecodeResults` | app.py:114-119 | a reply that fails to decode becomes the fixed "Failed to parse query results" failure object |
| `App.ProcessRequest` | app.py:79-174 | a blank question gives the fixed error outputs without running anything; a raised pipeline error appears as "Error: " on both text panels; a chart appears only with a table |
| `App.ExecutorFailureReply` | app.py:121-125 | a failure reply shows the cleaned SQL under an error banner and "Error executing query: " with the error, or `None` |
| `App.ExecutorNoRowsReply` | app.py:127-131 | a success without rows gives an empty table, no chart and the fixed explanation |
| `App.ExecutorRowsReply` | app.py:133-167 | a success with rows gives the frame, the cleaned SQL and the stored explanation; the chart is drawn only from non-empty chart code |
| `App.RowsReplyTo` | app.py:133-167 | for any SQL text, a successful reply with rows shows that frame, that SQL and the stored explanation, and draws a chart only from non-empty chart code |
| `App.UndecodableReply` | app.py:114-125 | an undecodable reply gives the cleaned SQL under the "-- Error executing query" banner with the parse error, no table, no chart, and "Error executing query: " with the parse error |
| `App.MissingReply` | app.py:114-125 | without a stored reply: the cleaned SQL under the error banner with "Unknown error", no table, no chart, and "Error executing query: Unknown error" |
| `App.NonObjectReply` | app.py:122-174 | a decoded reply that is not an object ends in the outer handler with the `AttributeError` text |
| `App.RootPipelineResults` | app.py:63-76 | with the root agent and a model that always answers, the merged results hold exactly the four output keys |
| `Evaluate.StreamSqlIsLastChange` | evaluate_sql.py:69-72 | the SQL read off a stream is the `sql_query` of the last event that changed state, or empty when none did |
| `Evaluate.GeneratorAnswerIsSql` | evaluate_sql.py:67-72 | a generator run whose model answers leaves that answer as the generated SQL |
| `Evaluate.Retry` | evaluate_sql.py:53-88 | at most three attempts; the waits are 20, 40, 60 seconds in turn; at most one attempt more than waits; the variable stays unbound only if it was unbound |
| `Evaluate.RetryBounds` | evaluate_sql.py:54-84 | from the start of a case: at most three attempts, and the waits are a prefix of 20, 40, 60 |
| `Evaluate.TryOnce` | evaluate_sql.py:57-88 | an attempt lets the loop go on exactly when it failed with a rate limit; any other error empties the SQL; a stream keeps the SQL it read; a rate limit before streaming keeps the previous value |
| `Evaluate.ErrorStopsRetry` | evaluate_sql.py:85-88 | an error other than a rate limit ends the retry loop at once, with one attempt, no wait and the SQL emptied |
| `Evaluate.RateLimitRetries` | evaluate_sql.py:77-84 | a rate limit waits 20 times the new retry count and, while retries remain, the next attempt runs |
| `Evaluate.Advance` | evaluate_sql.py:56-88 | after one more attempt, either the loop's whole result is known or the pauses so far plus the remaining attempts still make up the loop |
| `Evaluate.RetryLoop` | evaluate_sql.py:53-88 | the imperative loop computes what the recursive reference definition computes |
| `Evaluate.CasePrompt` | evaluate_sql.py:63 | the prompt opens with the schema block and ends with the question line |
| `Evaluate.CleanGenerated` | evaluate_sql.py:96 | the cleaned query is trimmed and contains no fence |
| `Evaluate.CleanGeneratedAgrees` | evaluate_sql.py:96 | on a stripped reply opening with a tagged fence, the script's cleanup agrees with the application's |
| `Evaluate.CleanGeneratedRoundTrip` | evaluate_sql.py:96 | a fenced backtick-free query comes back exactly |
| `Evaluate.ScoreCases` | evaluate_sql.py:42-116 | the loop ends with a score or a crash; a score is over all cases and gains at most one per case; with the per-case reset it never crashes and the score is exactly the number of cases whose own SQL is non-empty and, once cleaned, runs successfully, as does the reference query, with the same frame as a result; a case with empty SQL never scores |
| `Evaluate.Evaluation` | evaluate_sql.py:17-119 | a failed connection or a missing test set stops early; otherwise, with the per-case reset, the score is the number of matching cases, at most the number of cases that produced SQL |
| `Evaluate.StaleQueryScores` | evaluate_sql.py:56-92 | as written, a second case whose attempts are all rate-limited before streaming reuses the first case's SQL and scores 2 of 2 with one answered case; with the reset, 1 of 2 |
| `Evaluate.FirstCaseUnbound` | evaluate_sql.py:53-90 | as written, a first case whose attempts are all rate-limited before streaming stops on the unbound variable; with the reset it scores 0 of 1 |

## Left out

- Network, database, language-model and file I/O are left out. They appear only as parameters.
- Process and UI concerns are left out: `dotenv`, the Gradio layout, `print` and `traceback` output.
- `engine.dispose()` is left out, because it has no observable effect on the values modelled.
- Sleeps and the 30-second cool-down before each case are left out. The retry waits are recorded, not slept.
- The text produced by `json.dumps` is not modelled: a tool reply is modelled as the value it serialises (`Tools.EnvelopeJson`).
- `urllib.parse.quote_plus` in the SQLAlchemy URL is not modelled. The engine holds only the ODBC string.
- `str.lower()` and `str.isspace()` are modelled on ASCII and on the Unicode separators. Full Unicode case mapping is not.
- Floating-point JSON numbers and pandas dtypes are left out. Frame equality (`DataFrame.equals`) is modelled as equality of columns and cells.
- `BiService.PrepareData`: the data-type, sample and statistics block (pandas `dtypes`, `head(10)`, `describe()`) is a parameter, assumed not to raise. `BiService.PrepareData` states the introduction and the SQL line; `BiService.PrepareDataSummary` states the row count and the column list.
- `PyValues.Records`: pandas `to_dict` with a repeated column label is modelled as building the record with dictionary assignment: the label keeps its first position and takes the value of its last column. Cells are the decoded JSON values; pandas scalar types are not modelled.
- `Tools.ExecuteSqlAndFormat`: whether `json.dumps` raises on a reply (for date or decimal cells) is a parameter, since the model's cells are JSON values only.
- `PyValues.Repr` writes strings in single quotes without escaping, and `Str` of containers follows it.
- The ADK runtime internals are not modelled. Left out: session services, event identifiers, optional `{key?}` placeholders, `app:`/`user:`/`temp:` prefixes, and artifact reads. Only plain identifiers count as state reads, and any other brace text is kept verbatim.
- Instructions are modelled by their brace-carrying lines only. The rest of each prompt is brace-free prose with no effect on templating.
- A stage's model call is a parameter, given the stage name and the injected instruction. Tool calls made inside a stage are not modelled.
- The DataFrame constructor in the handler is a parameter that may raise.
- The chart `exec` is a parameter. It yields no chart when the code raises or defines no `chart`.
- `bi_agent/sql_executor.py` (`execute_query`) is not part of this model: it is reached only through the executor parameter.
- `text_to_sql_runner` and `insight_runner`, other than the root pipeline, are modelled only through the stages they run.
- `App.ProcessRequest`: its contract states the blank-question, pipeline-error and chart cases. The per-reply cases are stated by the `App.Executor…Reply`, `App.UndecodableReply`, `App.MissingReply` and `App.NonObjectReply` lemmas.
- `evaluate_sql.py`: a test case missing `question` or `ground_truth_sql` would raise `KeyError`. Test cases are modelled as records that always have both fields.

## Findings

| source | as written | input that shows it | evidently intended | confidence | as-written member | corrected member |
|---|---|---|---|---|---|---|
| evaluate_sql.py:53-92 | `generated_sql` is first assigned inside the attempt, after the session is created. If all three attempts fail with a rate limit while the session is being created, the variable keeps the previous case's cleaned query. On the first case it is unbound. | two cases; case 0 answers `SELECT 1`; every attempt of case 1 raises "429" in `create_session`; both queries return the same frame. The defect is latent: the runner is an `InMemoryRunner` (bi_agent/agent.py:143), whose in-memory session service does not make network calls, so a model's 429 arrives only while the stream is read, after `generated_sql = ""` (evaluate_sql.py:69). It shows only with a session service that can raise a rate limit | a case whose own attempts produce no SQL is skipped, as the "Failed after retries" message says | not executed (latent with the in-memory runner) | `Evaluate.StaleQueryScores` (scores 2 of 2 with one answered case), `Evaluate.FirstCaseUnbound` (as written: crash) | `Evaluate.ScoreCases` with the per-case reset: never crashes, and the score is exactly the number of cases whose own SQL matches, so at most the number of cases that produced SQL |
