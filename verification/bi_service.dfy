/**
 * `BIService` of `bi_agent/bi_service.py`: a connection holder with an
 * optional engine and an optional cached schema text. The object is modelled
 * as an immutable value; every operation that assigns an attribute returns
 * the updated service.
 */
module BiService {
  import opened Base
  import opened PyText
  import opened PyValues
  import opened DbConfig
  import opened Tools

  datatype Service = Service(
    server: string,
    database: string,
    username: string,
    password: string,
    driver: string,
    trust: bool,
    engine: Option<Engine>,
    schemaInfo: Option<string>)

  /** `BIService(...)`: credentials stored, nothing connected or loaded. */
  function NewService(server: string, database: string, username: string, password: string,
                      driver: string, trust: bool): (s: Service)
    ensures s.engine.None? && s.schemaInfo.None?
    ensures s.server == server && s.database == database && s.username == username
    ensures s.password == password && s.driver == driver && s.trust == trust
  {
    Service(server, database, username, password, driver, trust, None, None)
  }

  /** The engine `connect` builds from the stored credentials. */
  function ServiceEngine(s: Service): Engine {
    CreateEngine(s.driver, s.server, s.database, s.username, s.password, s.trust)
  }

  datatype Connected = Connected(service: Service, ok: bool, message: string)

  const ConnectionErrorPrefix: string := "Connection error: "

  /** `connect`. `createFault` is the message of an exception raised by
      `create_db_engine`, if any, and `probe` the version query run by
      `validate_connection`. The engine is stored before it is validated, so
      a failed validation still leaves the service holding it. */
  function Connect(s: Service, createFault: Option<string>, probe: Engine -> Result<string>): (c: Connected)
    ensures c.service.schemaInfo == s.schemaInfo
    ensures c.ok <==> createFault.None? && probe(ServiceEngine(s)).Ok?
    ensures createFault.Some? ==> c.service == s && c.message == ConnectionErrorPrefix + createFault.value
    ensures createFault.None? ==> c.service.engine == Some(ServiceEngine(s))
    ensures createFault.None? && !c.ok ==> c.message == "Connection failed: " + probe(ServiceEngine(s)).message
  {
    if createFault.Some? then Connected(s, false, ConnectionErrorPrefix + createFault.value)
    else
      var engine := ServiceEngine(s);
      var (ok, message) := ValidateConnection(engine, probe);
      Connected(s.(engine := Some(engine)), ok, message)
  }

  const NotConnectedRaise: string := "Not connected to database. Call connect() first."
  const LoadSchemaDefaultMaxTables: int := 20

  /** `load_schema`: refuses without an engine, otherwise caches and returns
      the schema text of the engine's catalogue. */
  function LoadSchema(s: Service, maxTables: int, catalog: Engine -> Catalog): (r: Result<(Service, string)>)
    ensures r.Raised? <==> s.engine.None?
    ensures r.Raised? ==> r.message == NotConnectedRaise
    ensures r.Ok? ==> var (s', text) := r.value;
                      && s'.schemaInfo == Some(text)
                      && s'.engine == s.engine
                      && s' == s.(schemaInfo := Some(text))
                      && text == SchemaInfo(catalog(s.engine.value), None, maxTables)
  {
    match s.engine
    case None => Raised(NotConnectedRaise)
    case Some(engine) =>
      var text := SchemaInfo(catalog(engine), None, maxTables);
      Ok((s.(schemaInfo := Some(text)), text))
  }

  const NotConnectedError: string := "Not connected to database"

  /** `execute_sql`: without an engine, a failure result and no query;
      otherwise whatever the executor answers, exceptions included. */
  function ExecuteSql(s: Service, sql: string, execute: (Engine, string) -> Result<QueryResult>): (r: Result<QueryResult>)
    ensures s.engine.None? ==> r == Ok(QueryResult(false, None, [], 0, Some(NotConnectedError)))
    ensures s.engine.Some? ==> r == execute(s.engine.value, sql)
  {
    match s.engine
    case None => Ok(QueryResult(false, None, [], 0, Some(NotConnectedError)))
    case Some(engine) => execute(engine, sql)
  }

  const SchemaNotLoaded: string := "Schema not loaded. Call load_schema() first."
  const QuestionSeparator: string := "\n\nUser Question: "

  /** `get_schema_for_sql_generation`: the cached schema, a separator line
      and the question. */
  function SchemaPrompt(s: Service, question: string): (r: Result<string>)
    ensures r.Raised? <==> s.schemaInfo.None?
    ensures r.Raised? ==> r.message == SchemaNotLoaded
    ensures r.Ok? ==> StartsWith(r.value, s.schemaInfo.value + QuestionSeparator)
                      && EndsWith(r.value, question + "\n")
  {
    match s.schemaInfo
    case None => Raised(SchemaNotLoaded)
    case Some(schema) =>
      var p := schema + QuestionSeparator + question + "\n";
      assert p[..|schema + QuestionSeparator|] == schema + QuestionSeparator;
      assert p[|p| - |question + "\n"|..] == question + "\n";
      Ok(p)
  }

  /** The question reads back from the prompt, given the schema it was built
      from. */
  function QuestionOf(prompt: string, schema: string): string
    requires |schema + QuestionSeparator| + 1 <= |prompt|
  {
    prompt[|schema + QuestionSeparator|..|prompt| - 1]
  }

  lemma SchemaPromptRoundTrip(s: Service, question: string)
    requires s.schemaInfo.Some?
    ensures var p := SchemaPrompt(s, question).value;
            |s.schemaInfo.value + QuestionSeparator| + 1 <= |p|
            && QuestionOf(p, s.schemaInfo.value) == question
  {
    var p := SchemaPrompt(s, question).value;
    var head := s.schemaInfo.value + QuestionSeparator;
    assert p == head + question + "\n";
    assert p[|head|..|p| - 1] == question;
  }

  /** `close`: drops the engine and keeps everything else. */
  function Close(s: Service): (s': Service)
    ensures s'.engine.None?
    ensures s'.schemaInfo == s.schemaInfo
    ensures s' == s.(engine := None)
  {
    s.(engine := None)
  }

  /** Closing twice is closing once, and a closed service refuses to load a
      schema and answers queries with the not-connected result without
      running them; the cached schema survives. */
  lemma ClosedService(s: Service, maxTables: int, catalog: Engine -> Catalog, sql: string,
                      execute: (Engine, string) -> Result<QueryResult>, question: string)
    ensures Close(Close(s)) == Close(s)
    ensures LoadSchema(Close(s), maxTables, catalog) == Raised(NotConnectedRaise)
    ensures ExecuteSql(Close(s), sql, execute).Ok? && !ExecuteSql(Close(s), sql, execute).value.success
    ensures SchemaPrompt(Close(s), question) == SchemaPrompt(s, question)
  {
  }

  /** A connection whose validation fails still leaves an engine in place,
      so later queries run against it instead of being refused. */
  lemma FailedValidationKeepsEngine(s: Service, probe: Engine -> Result<string>, sql: string,
                                    execute: (Engine, string) -> Result<QueryResult>)
    requires probe(ServiceEngine(s)).Raised?
    ensures var c := Connect(s, None, probe);
            && !c.ok
            && ExecuteSql(c.service, sql, execute) == execute(ServiceEngine(s), sql)
  {
  }

  /** Loading needs a connection; after `connect` (whatever validation said)
      the schema loads and the prompt can be built. */
  lemma ConnectThenLoad(s: Service, probe: Engine -> Result<string>, catalog: Engine -> Catalog,
                        question: string)
    ensures var c := Connect(s, None, probe);
            var loaded := LoadSchema(c.service, LoadSchemaDefaultMaxTables, catalog);
            && loaded.Ok?
            && SchemaPrompt(loaded.value.0, question).Ok?
            && StartsWith(SchemaPrompt(loaded.value.0, question).value, loaded.value.1)
  {
    var c := Connect(s, None, probe);
    var loaded := LoadSchema(c.service, LoadSchemaDefaultMaxTables, catalog);
    var text := loaded.value.1;
    var p := SchemaPrompt(loaded.value.0, question).value;
    assert StartsWith(p, text + QuestionSeparator);
    assert p[..|text|] == (text + QuestionSeparator)[..|text|];
  }

  const NoData: string := "No data available"
  const ResultsIntro: string := "Here are the query results:\n"

  /** `prepare_data_for_agents`. `details` stands for the part rendered by
      pandas and `json.dumps` (data types, the ten-row sample and, with
      numeric columns, the summary statistics). */
  function PrepareData(df: Option<Frame>, sql: string, details: Frame -> string): (r: string)
    ensures r == NoData <==> df.None? || df.value.Empty()
    ensures df.Some? && !df.value.Empty() ==>
              && StartsWith(r, ResultsIntro)
              && (sql != "" ==> StartsWith(r, ResultsIntro + "\nSQL Query: " + sql + "\n"))
  {
    match df
    case None => NoData
    case Some(f) =>
      if f.Empty() then NoData
      else
        var r := ResultsIntro + SqlLine(sql) + SummaryText(f) + details(f);
        HeadPrefixes(ResultsIntro, SqlLine(sql), SummaryText(f) + details(f));
        assert r[0] == 'H' && NoData[0] == 'N';
        r
  }

  lemma HeadPrefixes(intro: string, line: string, rest: string)
    ensures StartsWith(intro + line + rest, intro)
    ensures StartsWith(intro + line + rest, intro + line)
    ensures intro + line + rest == intro + (line + rest)
  {
    assert (intro + line + rest)[..|intro|] == intro;
    assert (intro + line + rest)[..|intro + line|] == intro + line;
  }

  /** The SQL line, present only when a query is given. */
  function SqlLine(sql: string): string {
    if sql != "" then "\nSQL Query: " + sql + "\n" else ""
  }

  /** The row count and column list lines of the summary. */
  function SummaryText(f: Frame): string {
    "\nResults: " + NatToString(|f.rows|) + " rows returned\n\n" + ("Columns: " + Join(", ", f.columns) + "\n")
  }

  /** After the introduction and the SQL line, the summary's row count reads
      back as the number of rows, and the column line lists the labels
      joined by ", ". */
  lemma PrepareDataSummary(f: Frame, sql: string, details: Frame -> string)
    requires !f.Empty()
    ensures var r := PrepareData(Some(f), sql, details);
            var digits := NatToString(|f.rows|);
            var at := |ResultsIntro + SqlLine(sql) + "\nResults: "|;
            && at + |digits| <= |r|
            && r[at..at + |digits|] == digits
            && DigitsValue(r[at..at + |digits|]) == |f.rows|
            && OccursAt(r, "Columns: " + Join(", ", f.columns) + "\n", at + |digits| + |" rows returned\n\n"|)
  {
    PrepareDataIs(f, sql, details);
    SummaryAt(ResultsIntro + SqlLine(sql), "\nResults: ", NatToString(|f.rows|), " rows returned\n\n",
              "Columns: " + Join(", ", f.columns) + "\n", details(f));
    NatToStringRoundTrip(|f.rows|);
  }

  lemma PrepareDataIs(f: Frame, sql: string, details: Frame -> string)
    requires !f.Empty()
    ensures PrepareData(Some(f), sql, details) == ResultsIntro + SqlLine(sql) + SummaryText(f) + details(f)
  {
  }

  lemma SummaryAt(head: string, title: string, digits: string, rows: string, cols: string, rest: string)
    ensures OccursAt(head + (title + digits + rows + cols) + rest, digits, |head| + |title|)
    ensures OccursAt(head + (title + digits + rows + cols) + rest, cols, |head| + |title| + |digits| + |rows|)
  {
    assert title + digits + rows + cols == title + digits + (rows + cols);
    InMiddle(head, title, digits, rows + cols, rest);
    assert title + digits + rows + cols == (title + digits + rows) + cols + "";
    InMiddle(head, title + digits + rows, cols, "", rest);
  }
}
