/**
 * The agent tools of `bi_agent/tools.py`: `DatabaseTools.execute_sql_query`,
 * the module functions `execute_sql_and_format` and `get_database_schema`,
 * and the environment reading they share.
 *
 * The tool replies are modelled as the value that gets serialised (an
 * `Envelope`, and its JSON image `EnvelopeJson`), not as JSON text.
 */
module Tools {
  import opened Base
  import opened PyText
  import opened PyValues
  import opened DbConfig

  /** The process environment, as `os.getenv` sees it. */
  type Env = map<string, string>

  function GetEnv(env: Env, key: string, default: string): string {
    if key in env then env[key] else default
  }

  /** `all([server, database, username, password])`: each of the four
      variables is set and not empty. */
  predicate CredentialsConfigured(env: Env) {
    && GetEnv(env, "MSSQL_SERVER", "") != ""
    && GetEnv(env, "MSSQL_DATABASE", "") != ""
    && GetEnv(env, "MSSQL_USERNAME", "") != ""
    && GetEnv(env, "MSSQL_PASSWORD", "") != ""
  }

  /** `TRUST_SERVER_CERTIFICATE` lower-cased is "true" or "yes"; an unset
      variable reads as "true". */
  function TrustFlag(env: Env): (b: bool)
    ensures "TRUST_SERVER_CERTIFICATE" !in env ==> b
    ensures "TRUST_SERVER_CERTIFICATE" in env ==>
              (b <==> var v := env["TRUST_SERVER_CERTIFICATE"];
                      SpellsIgnoringCase(v, "true") || SpellsIgnoringCase(v, "yes"))
  {
    var v := GetEnv(env, "TRUST_SERVER_CERTIFICATE", "true");
    LowerMatchesWord(v, "true");
    LowerMatchesWord(v, "yes");
    Lower(v) == "true" || Lower(v) == "yes"
  }

  /** The engine both module-level tools build from the environment. */
  function EnvEngine(env: Env): (e: Engine)
    ensures EndsWith(e.odbc, if TrustFlag(env) then "TrustServerCertificate=yes;"
                             else "TrustServerCertificate=no;")
  {
    CreateEngine(GetEnv(env, "MSSQL_DRIVER", DefaultDriver),
                 GetEnv(env, "MSSQL_SERVER", ""), GetEnv(env, "MSSQL_DATABASE", ""),
                 GetEnv(env, "MSSQL_USERNAME", ""), GetEnv(env, "MSSQL_PASSWORD", ""),
                 TrustFlag(env))
  }

  /** What `sql_executor.execute_query` returns. That module is not part of
      this model: it is reached through the `execute` parameter below. */
  datatype QueryResult = QueryResult(
    success: bool,
    data: Option<Frame>,
    columns: seq<string>,
    rowCount: int,
    error: Option<string>)

  /** The dictionary a tool replies with. */
  datatype Envelope = Envelope(
    success: bool,
    data: seq<seq<Field>>,
    columns: seq<string>,
    rowCount: int,
    error: Option<string>)

  /** Every failure reply carries no rows, no columns and a zero count. */
  predicate WellShaped(e: Envelope) {
    !e.success ==> e.data == [] && e.columns == [] && e.rowCount == 0
  }

  function Failure(error: Option<string>): (e: Envelope)
    ensures WellShaped(e) && !e.success && e.error == error
  {
    Envelope(false, [], [], 0, error)
  }

  const CredentialsMissing: string := "Database credentials not configured in environment variables"
  const ToolErrorPrefix: string := "Tool error: "

  /** The records a successful reply carries: `execute_sql_query` only turns
      a missing frame into no records, `execute_sql_and_format` also an
      empty one. */
  function RecordsOf(data: Option<Frame>, emptyMeansNone: bool): seq<seq<Field>> {
    match data
    case None => []
    case Some(f) => if emptyMeansNone && f.Empty() then [] else Records(f)
  }

  /** The shared normalisation of an executor result into a reply. */
  function Normalise(res: QueryResult, emptyMeansNone: bool): (e: Envelope)
    ensures WellShaped(e)
    ensures e.success == res.success
    ensures res.success ==> e.error.None? && e.columns == res.columns && e.rowCount == res.rowCount
    ensures !res.success ==> e.error == res.error
  {
    if res.success then Envelope(true, RecordsOf(res.data, emptyMeansNone), res.columns, res.rowCount, None)
    else Failure(res.error)
  }

  /** `DatabaseTools.execute_sql_query` on the tool object's engine. An
      exception raised by the executor is not caught and reaches the
      caller. */
  function ExecuteSqlQuery(engine: Engine, sql: string,
                           execute: (Engine, string) -> Result<QueryResult>): (r: Result<Envelope>)
    ensures execute(engine, sql).Raised? ==> r == Raised(execute(engine, sql).message)
    ensures execute(engine, sql).Ok? ==>
              var res := execute(engine, sql).value;
              && r.Ok? && WellShaped(r.value) && r.value.success == res.success
              && (res.success ==>
                    r.value.error.None? && r.value.columns == res.columns && r.value.rowCount == res.rowCount)
              && (!res.success ==> r.value.error == res.error)
              && (res.success && res.data.None? ==> r.value.data == [])
              && (res.success && res.data.Some? ==> r.value.data == Records(res.data.value))
  {
    match execute(engine, sql)
    case Raised(m) => Raised(m)
    case Ok(res) => Ok(Normalise(res, false))
  }

  /** `execute_sql_and_format`. `engineFault` is the message of an exception
      raised while building the engine, if any, and `dumpsFault` that of the
      `TypeError` `json.dumps` raises on a reply holding a cell it cannot
      serialise (a date or a decimal, which the model's cells do not
      represent). Every exception becomes a "Tool error: " reply. */
  function ExecuteSqlAndFormat(sql: string, env: Env, engineFault: Option<string>,
                               execute: (Engine, string) -> Result<QueryResult>,
                               dumpsFault: Envelope -> Option<string>): (e: Envelope)
    ensures WellShaped(e)
    ensures !CredentialsConfigured(env) ==> e == Failure(Some(CredentialsMissing))
    ensures CredentialsConfigured(env) && engineFault.Some? ==>
              e == Failure(Some(ToolErrorPrefix + engineFault.value))
    ensures CredentialsConfigured(env) && engineFault.None? ==>
              match execute(EnvEngine(env), sql)
              case Raised(m) => e == Failure(Some(ToolErrorPrefix + m))
              case Ok(res) =>
                var fault := dumpsFault(Normalise(res, true));
                && (fault.Some? ==> e == Failure(Some(ToolErrorPrefix + fault.value)))
                && (fault.None? ==>
                      && e.success == res.success
                      && (res.success ==>
                            && e.error.None? && e.columns == res.columns && e.rowCount == res.rowCount
                            && (e.data == [] <==> res.data.None? || res.data.value.Empty())
                            && (res.data.Some? && !res.data.value.Empty() ==> e.data == Records(res.data.value)))
                      && (!res.success ==> e.error == res.error))
  {
    if !CredentialsConfigured(env) then Failure(Some(CredentialsMissing))
    else if engineFault.Some? then Failure(Some(ToolErrorPrefix + engineFault.value))
    else
      match execute(EnvEngine(env), sql)
      case Raised(m) => Failure(Some(ToolErrorPrefix + m))
      case Ok(res) =>
        var reply := Normalise(res, true);
        match dumpsFault(reply)
        case Some(m) => Failure(Some(ToolErrorPrefix + m))
        case None => reply
  }

  /** Without credentials the reply does not depend on the executor: the
      query is never run. */
  lemma NoCredentialsNoQuery(sql: string, env: Env, fault: Option<string>,
                             execute: (Engine, string) -> Result<QueryResult>,
                             execute': (Engine, string) -> Result<QueryResult>,
                             dumpsFault: Envelope -> Option<string>)
    requires !CredentialsConfigured(env)
    ensures ExecuteSqlAndFormat(sql, env, fault, execute, dumpsFault) == ExecuteSqlAndFormat(sql, env, fault, execute', dumpsFault)
    ensures ExecuteSqlAndFormat(sql, env, fault, execute, dumpsFault).error == Some(CredentialsMissing)
  {
  }

  /** The two tools part ways on a successful result whose frame has rows but
      no columns: `execute_sql_query` sends one empty record per row,
      `execute_sql_and_format` sends none. */
  lemma EmptyFrameRulesDiffer(engine: Engine, sql: string, env: Env, n: nat)
    requires CredentialsConfigured(env) && n > 0
    ensures var f := DataFrame([], seq(n, _ => []));
            var exec := (e: Engine, q: string) => Ok(QueryResult(true, Some(f), [], n, None));
            && ExecuteSqlQuery(engine, sql, exec).value.data != []
            && ExecuteSqlAndFormat(sql, env, None, exec, (e: Envelope) => None).data == []
  {
    ColumnlessFrameRecords(n);
  }

  /** The JSON document a reply is serialised as, members in the order
      `execute_sql_and_format` builds the dictionary. */
  function EnvelopeJson(e: Envelope): (j: Json)
    ensures j.JObj? && |j.fields| == 5
    ensures Lookup(j.fields, "success") == Some(JBool(e.success))
    ensures Lookup(j.fields, "error") == Some(if e.error.Some? then JStr(e.error.value) else JNull)
    ensures Lookup(j.fields, "row_count") == Some(JInt(e.rowCount))
    ensures Lookup(j.fields, "data").Some? && Lookup(j.fields, "data").value.JArr?
    ensures |Lookup(j.fields, "data").value.items| == |e.data|
    ensures forall k :: 0 <= k < |e.data| ==> Lookup(j.fields, "data").value.items[k] == JObj(e.data[k])
    ensures Lookup(j.fields, "columns").Some? && Lookup(j.fields, "columns").value.JArr?
    ensures |Lookup(j.fields, "columns").value.items| == |e.columns|
    ensures forall k :: 0 <= k < |e.columns| ==> Lookup(j.fields, "columns").value.items[k] == JStr(e.columns[k])
  {
    var err := if e.error.Some? then JStr(e.error.value) else JNull;
    EnvelopeMembers(JBool(e.success), JArr(ObjectItems(e.data)), JArr(StringItems(e.columns)), JInt(e.rowCount), err);
    JObj(Members(JBool(e.success), JArr(ObjectItems(e.data)), JArr(StringItems(e.columns)), JInt(e.rowCount), err))
  }

  /** The five members of a reply document, in the order
      `execute_sql_and_format` builds the dictionary. */
  function Members(success: Json, data: Json, columns: Json, rowCount: Json, error: Json): seq<Field> {
    [Field("success", success), Field("data", data), Field("columns", columns),
     Field("row_count", rowCount), Field("error", error)]
  }

  /** Each member reads back by its key. */
  lemma EnvelopeMembers(success: Json, data: Json, columns: Json, rowCount: Json, error: Json)
    ensures var f := Members(success, data, columns, rowCount, error);
            && |f| == 5
            && Lookup(f, "success") == Some(success) && Lookup(f, "data") == Some(data)
            && Lookup(f, "columns") == Some(columns) && Lookup(f, "row_count") == Some(rowCount)
            && Lookup(f, "error") == Some(error)
  {
    var f := Members(success, data, columns, rowCount, error);
    LookupUnique(f, 0);
    LookupUnique(f, 1);
    LookupUnique(f, 2);
  }

  /** The records as a JSON list of objects. */
  function ObjectItems(data: seq<seq<Field>>): (r: seq<Json>)
    ensures |r| == |data|
  {
    seq(|data|, k requires 0 <= k < |data| => JObj(data[k]))
  }

  /** The column labels as a JSON list of strings. */
  function StringItems(xs: seq<string>): (r: seq<Json>)
    ensures |r| == |xs|
  {
    seq(|xs|, k requires 0 <= k < |xs| => JStr(xs[k]))
  }

  /** The members of a JSON list of objects, if every item is one. */
  function ObjectsOf(items: seq<Json>): Option<seq<seq<Field>>>
    decreases |items|
  {
    if |items| == 0 then Some([])
    else if !items[0].JObj? then None
    else
      match ObjectsOf(items[1..])
      case None => None
      case Some(rest) => Some([items[0].fields] + rest)
  }

  /** The texts of a JSON list of strings, if every item is one. */
  function StringsOf(items: seq<Json>): Option<seq<string>>
    decreases |items|
  {
    if |items| == 0 then Some([])
    else if !items[0].JStr? then None
    else
      match StringsOf(items[1..])
      case None => None
      case Some(rest) => Some([items[0].s] + rest)
  }

  /** A reply read back from its JSON document, as a client of the tool
      reads it; `None` when a member is missing or of the wrong kind. */
  function DecodeEnvelope(j: Json): Option<Envelope> {
    if !j.JObj? then None
    else
      var f := j.fields;
      match (Lookup(f, "success"), Lookup(f, "data"), Lookup(f, "columns"), Lookup(f, "row_count"), Lookup(f, "error"))
      case (Some(JBool(ok)), Some(JArr(items)), Some(JArr(labels)), Some(JInt(n)), Some(err)) =>
        (match (ObjectsOf(items), StringsOf(labels))
         case (Some(data), Some(columns)) =>
           if err.JNull? then Some(Envelope(ok, data, columns, n, None))
           else if err.JStr? then Some(Envelope(ok, data, columns, n, Some(err.s)))
           else None
         case _ => None)
      case _ => None
  }

  lemma {:induction false} ObjectItemsRoundTrip(data: seq<seq<Field>>)
    ensures ObjectsOf(ObjectItems(data)) == Some(data)
    decreases |data|
  {
    if |data| > 0 {
      assert ObjectItems(data)[1..] == ObjectItems(data[1..]);
      ObjectItemsRoundTrip(data[1..]);
      assert data == [data[0]] + data[1..];
    }
  }

  lemma {:induction false} StringItemsRoundTrip(xs: seq<string>)
    ensures StringsOf(StringItems(xs)) == Some(xs)
    decreases |xs|
  {
    if |xs| > 0 {
      assert StringItems(xs)[1..] == StringItems(xs[1..]);
      StringItemsRoundTrip(xs[1..]);
      assert xs == [xs[0]] + xs[1..];
    }
  }

  /** Serialising a reply loses nothing: reading the document back gives
      the reply. */
  lemma EnvelopeRoundTrip(e: Envelope)
    ensures DecodeEnvelope(EnvelopeJson(e)) == Some(e)
  {
    var err := if e.error.Some? then JStr(e.error.value) else JNull;
    var f := Members(JBool(e.success), JArr(ObjectItems(e.data)), JArr(StringItems(e.columns)), JInt(e.rowCount), err);
    EnvelopeMembers(JBool(e.success), JArr(ObjectItems(e.data)), JArr(StringItems(e.columns)), JInt(e.rowCount), err);
    assert EnvelopeJson(e) == JObj(f);
    ObjectItemsRoundTrip(e.data);
    StringItemsRoundTrip(e.columns);
    DecodeMembers(f, e);
  }

  lemma DecodeMembers(f: seq<Field>, e: Envelope)
    requires Lookup(f, "success") == Some(JBool(e.success))
    requires Lookup(f, "data").Some? && Lookup(f, "data").value.JArr?
    requires ObjectsOf(Lookup(f, "data").value.items) == Some(e.data)
    requires Lookup(f, "columns").Some? && Lookup(f, "columns").value.JArr?
    requires StringsOf(Lookup(f, "columns").value.items) == Some(e.columns)
    requires Lookup(f, "row_count") == Some(JInt(e.rowCount))
    requires Lookup(f, "error") == Some(if e.error.Some? then JStr(e.error.value) else JNull)
    ensures DecodeEnvelope(JObj(f)) == Some(e)
  {
  }

  const SchemaCredentialsMissing: string := "Error: " + CredentialsMissing
  const SchemaErrorPrefix: string := "Error retrieving schema: "

  /** The table cap `get_database_schema` asks for. */
  const SchemaToolMaxTables: int := 100

  /** `get_database_schema`: the schema text of up to a hundred tables, or an
      error text; it never raises. `catalog` stands for the catalogue query
      run on the engine. */
  function GetDatabaseSchema(env: Env, engineFault: Option<string>, catalog: Engine -> Catalog): (r: string)
    ensures !CredentialsConfigured(env) ==> r == SchemaCredentialsMissing
    ensures CredentialsConfigured(env) && engineFault.Some? ==> r == SchemaErrorPrefix + engineFault.value
    ensures CredentialsConfigured(env) && engineFault.None? && catalog(EnvEngine(env)).QueryFailed? ==>
              r == SchemaErrorPrefix + catalog(EnvEngine(env)).message
    ensures CredentialsConfigured(env) && engineFault.None? && catalog(EnvEngine(env)).Rows? ==>
              && r == Render(Document(catalog(EnvEngine(env)).rows, None, SchemaToolMaxTables))
              && StartsWith(r, Header)
  {
    if !CredentialsConfigured(env) then SchemaCredentialsMissing
    else if engineFault.Some? then SchemaErrorPrefix + engineFault.value
    else SchemaInfo(catalog(EnvEngine(env)), None, SchemaToolMaxTables)
  }

  /** With a working connection the schema tool lists every table when there
      are at most a hundred, and otherwise closes with the count of the
      tables it left out. */
  lemma SchemaToolCap(env: Env, catalog: Engine -> Catalog)
    requires CredentialsConfigured(env) && catalog(EnvEngine(env)).Rows?
    ensures var rows := catalog(EnvEngine(env)).rows;
            var n := |Dedup(KeptNames(rows, None))|;
            var r := GetDatabaseSchema(env, None, catalog);
            && (EndsWith(r, " more tables\n") <==> n > 100)
            && (n > 100 ==> EndsWith(r, OverflowLine(n - 100)))
            && |Document(rows, None, SchemaToolMaxTables).sections| == Min(n, 100)
  {
    var rows := catalog(EnvEngine(env)).rows;
    assert GetDatabaseSchema(env, None, catalog) == Render(Document(rows, None, SchemaToolMaxTables));
    CappedRender(rows, SchemaToolMaxTables);
  }
}
