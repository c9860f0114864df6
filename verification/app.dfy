/**
 * The request handler of `app.py`: it sends the question, prefixed with the
 * database schema, through the root pipeline, merges the state changes the
 * run reports, cleans the generated SQL and chart code of Markdown fences,
 * decodes the executor's JSON reply and assembles the four outputs shown in
 * the user interface (SQL, table, chart, explanation).
 *
 * The pipeline run, `json.loads`, the DataFrame constructor and the `exec`
 * of the chart code are parameters.
 */
module App {
  import opened Base
  import opened PyText
  import opened PyValues
  import opened Tools
  import opened Runtime
  import BiAgents

  /* ---------------------------------------------------------------------
     Collecting the run's state changes.
     --------------------------------------------------------------------- */

  /** The `results` dictionary of `run_bi_pipeline_async`: every event with a
      non-empty state delta writes its keys over the earlier ones. */
  function MergeDeltas(events: seq<Event>): (results: State)
    decreases |events|
  {
    if |events| == 0 then map[]
    else
      var earlier := MergeDeltas(events[..|events| - 1]);
      var delta := events[|events| - 1].delta;
      if |delta| > 0 then earlier + delta else earlier
  }

  /** The value of `k` in the last event that writes it, if any. */
  function LastWrite(events: seq<Event>, k: string): Option<string>
    decreases |events|
  {
    if |events| == 0 then None
    else if k in events[|events| - 1].delta then Some(events[|events| - 1].delta[k])
    else LastWrite(events[..|events| - 1], k)
  }

  /** The merged results hold exactly the keys some event wrote, each with the
      value of the last event that wrote it. */
  lemma {:induction false} MergeIsLastWrite(events: seq<Event>, k: string)
    ensures k in MergeDeltas(events) <==> LastWrite(events, k).Some?
    ensures k in MergeDeltas(events) ==> MergeDeltas(events)[k] == LastWrite(events, k).value
    decreases |events|
  {
    if |events| > 0 {
      MergeIsLastWrite(events[..|events| - 1], k);
    }
  }

  /** The merged results are the session state the run leaves behind, starting
      from the empty state of a new session. */
  lemma {:induction false} MergeIsSessionState(events: seq<Event>)
    ensures MergeDeltas(events) == ApplyDeltas(map[], events)
    decreases |events|
  {
    if |events| > 0 {
      var init := events[..|events| - 1];
      var last := events[|events| - 1];
      MergeIsSessionState(init);
      assert init + [last] == events;
      ApplyDeltasAppend(map[], init, [last]);
      ApplyOne(ApplyDeltas(map[], init), last);
    }
  }

  /** Applying one event merges its delta; an empty delta changes nothing. */
  lemma ApplyOne(state: State, e: Event)
    ensures ApplyDeltas(state, [e]) == state + e.delta
    ensures |e.delta| == 0 ==> state + e.delta == state
  {
    assert [e][1..] == [];
  }

  /** `results.get(key, default)` on the merged state. */
  function GetState(results: State, key: string, default: string): string {
    if key in results then results[key] else default
  }

  /* ---------------------------------------------------------------------
     Markdown fence cleanup.
     --------------------------------------------------------------------- */

  /** The cleanup applied to the SQL (`lang` = "sql") and to the chart code
      (`lang` = "python"): strip; if the text opens with a fence, remove the
      tagged opening fence and then every fence; strip again. */
  function CleanFence(s: string, lang: string): (r: string)
    ensures Trimmed(r)
    ensures StartsWith(Strip(s), Fence) ==> !Contains(r, Fence)
    ensures !StartsWith(Strip(s), Fence) ==> r == Strip(s)
  {
    var t := Strip(s);
    if StartsWith(t, Fence + lang) then
      var u := Replace(Replace(t, Fence + lang, ""), Fence, "");
      RemoveFenceComplete(Replace(t, Fence + lang, ""));
      NotContainsStrip(u, Fence);
      StartsWithPrefix(t, Fence, lang);
      Strip(u)
    else if StartsWith(t, Fence) then
      var u := Replace(t, Fence, "");
      RemoveFenceComplete(t);
      NotContainsStrip(u, Fence);
      Strip(u)
    else
      t
  }

  function CleanSql(s: string): (r: string)
    ensures Trimmed(r)
  {
    CleanFence(s, "sql")
  }

  function CleanChart(s: string): (r: string)
    ensures Trimmed(r)
  {
    CleanFence(s, "python")
  }

  /** A text that opens with `a + b` opens with `a`. */
  lemma StartsWithPrefix(r: string, a: string, b: string)
    requires StartsWith(r, a + b)
    ensures StartsWith(r, a)
  {
    assert r[..|a|] == (r[..|a + b|])[..|a|];
  }

  /** Cleaning twice is cleaning once. */
  lemma CleanFenceIdempotent(s: string, lang: string)
    ensures CleanFence(CleanFence(s, lang), lang) == CleanFence(s, lang)
  {
    var r := CleanFence(s, lang);
    StripTrimmed(r);
    assert !StartsWith(r, Fence);
  }

  /** Removing a pattern that opens with a backtick passes over a prefix free
      of backticks unchanged. */
  lemma {:induction false} ReplaceAfterPlain(a: string, b: string, pat: string)
    requires |pat| > 0 && pat[0] == '`' && '`' !in a
    ensures Replace(a + b, pat, "") == a + Replace(b, pat, "")
    decreases |a|
  {
    if |a| > 0 {
      var s := a + b;
      assert s[0] == a[0];
      assert s[1..] == a[1..] + b;
      ReplaceAfterPlain(a[1..], b, pat);
      if |s| < |pat| {
        ShortReplace(b, pat);
        ShortReplace(a[1..] + b, pat);
      } else {
        assert s[..|pat|][0] == a[0];
        assert s[..|pat|] != pat;
      }
    } else {
      assert a + b == b;
    }
  }

  lemma ShortReplace(s: string, pat: string)
    requires |pat| > 0 && |s| < |pat|
    ensures Replace(s, pat, "") == s
  {
  }

  /** A line, a text without surrounding whitespace and a line again strip to
      that text. */
  lemma StripPadded(q: string)
    requires Trimmed(q)
    ensures Strip("\n" + q + "\n") == q
  {
    var s := "\n" + q + "\n";
    assert s[1..] == q + "\n";
    if |q| == 0 {
      assert s[1..][1..] == [];
      assert LStrip(s) == [];
    } else {
      assert (q + "\n")[0] == q[0];
      assert LStrip(s) == q + "\n";
      assert (q + "\n")[..|q|] == q;
      assert RStrip(q + "\n") == RStrip(q);
    }
  }

  /** A query the model wrapped in a tagged fence comes back exactly. */
  lemma CleanFenceRoundTrip(q: string, lang: string)
    requires Trimmed(q) && '`' !in q && |lang| > 0
    ensures CleanFence(Fence + lang + "\n" + q + "\n" + Fence, lang) == q
  {
    var s := Fence + lang + "\n" + q + "\n" + Fence;
    FencedOpens(q, lang);
    FencesRemoved(q, lang);
    CleanTaggedBody(s, lang, q);
  }

  /** Removing the tagged fence and then every fence leaves the enclosed
      line. */
  lemma FencesRemoved(q: string, lang: string)
    requires '`' !in q && |lang| > 0
    ensures Replace(Replace(Fence + lang + "\n" + q + "\n" + Fence, Fence + lang, ""), Fence, "")
            == "\n" + q + "\n"
  {
    TagRemoved(q, lang);
    ClosingRemoved("\n" + q + "\n");
  }

  /** A stripped text opening with the tagged fence whose fences enclose a
      trimmed line cleans to that line. */
  lemma CleanTaggedBody(s: string, lang: string, q: string)
    requires Strip(s) == s && StartsWith(s, Fence + lang) && Trimmed(q)
    requires Replace(Replace(s, Fence + lang, ""), Fence, "") == "\n" + q + "\n"
    ensures CleanFence(s, lang) == q
  {
    CleanTagged(s, lang);
    StripPadded(q);
  }

  /** On a stripped text opening with the tagged fence, the cleanup removes
      that fence, then every fence, and strips. */
  lemma CleanTagged(s: string, lang: string)
    requires Strip(s) == s && StartsWith(s, Fence + lang)
    ensures CleanFence(s, lang) == Strip(Replace(Replace(s, Fence + lang, ""), Fence, ""))
  {
  }

  /** The wrapped text is already stripped and opens with the tagged fence. */
  lemma FencedOpens(q: string, lang: string)
    ensures var s := Fence + lang + "\n" + q + "\n" + Fence;
            Strip(s) == s && StartsWith(s, Fence + lang)
  {
    FencedStripped(q, lang);
    FencedTagged(q, lang);
  }

  lemma FencedStripped(q: string, lang: string)
    ensures Strip(Fence + lang + "\n" + q + "\n" + Fence) == Fence + lang + "\n" + q + "\n" + Fence
  {
    FencedTrimmed(q, lang);
    StripTrimmed(Fence + lang + "\n" + q + "\n" + Fence);
  }

  lemma FencedTagged(q: string, lang: string)
    ensures StartsWith(Fence + lang + "\n" + q + "\n" + Fence, Fence + lang)
  {
    var s := Fence + lang + "\n" + q + "\n" + Fence;
    assert s[..|Fence + lang|] == Fence + lang;
  }

  /** The wrapped text opens and closes with a backtick. */
  lemma FencedTrimmed(q: string, lang: string)
    ensures Trimmed(Fence + lang + "\n" + q + "\n" + Fence)
  {
    var s := Fence + lang + "\n" + q + "\n" + Fence;
    assert s == Fence + (lang + "\n" + q + "\n" + Fence);
    assert s[0] == Fence[0] == '`';
    assert s[|s| - 1] == Fence[2] == '`';
  }

  /** Removing the tagged fence leaves the body and the closing fence. */
  lemma TagRemoved(q: string, lang: string)
    requires '`' !in q && |lang| > 0
    ensures Replace(Fence + lang + "\n" + q + "\n" + Fence, Fence + lang, "") == "\n" + q + "\n" + Fence
  {
    var body := "\n" + q + "\n";
    var pat := Fence + lang;
    var s := Fence + lang + "\n" + q + "\n" + Fence;
    assert s == pat + (body + Fence);
    assert s[..|pat|] == pat;
    assert s[|pat|..] == body + Fence;
    assert Replace(s, pat, "") == Replace(body + Fence, pat, "");
    ReplaceAfterPlain(body, Fence, pat);
    ShortReplace(Fence, pat);
  }

  /** Removing every fence from a backtick-free body and a closing fence
      leaves the body. */
  lemma ClosingRemoved(body: string)
    requires '`' !in body
    ensures Replace(body + Fence, Fence, "") == body
  {
    ReplaceAfterPlain(body, Fence, Fence);
    assert Replace(Fence, Fence, "") == "" by {
      assert Fence[..|Fence|] == Fence && Fence[|Fence|..] == [];
    }
    assert body + "" == body;
  }

  /** A query sent without fences is left as it is. */
  lemma CleanFenceKeepsBare(q: string, lang: string)
    requires Trimmed(q) && '`' !in q
    ensures CleanFence(q, lang) == q
  {
    StripTrimmed(q);
    NoTickNoFence(q);
  }

  lemma NoTickNoFence(q: string)
    requires '`' !in q
    ensures !StartsWith(q, Fence)
  {
    if |q| >= |Fence| {
      assert q[0] in q;
      assert q[..|Fence|][0] == q[0];
    }
  }

  /* ---------------------------------------------------------------------
     The request handler.
     --------------------------------------------------------------------- */

  const SchemaLead: string := "\nHere is the Database Schema you must use:\n"
  const QuestionLead: string := "\n\nUser Question: "

  /** The message sent to the pipeline. */
  function EnhancedPrompt(schema: string, question: string): (p: string)
    ensures StartsWith(p, SchemaLead + schema + QuestionLead)
    ensures EndsWith(p, question + "\n")
    ensures |p| == |SchemaLead + schema + QuestionLead| + |question| + 1
  {
    var head := SchemaLead + schema + QuestionLead;
    var p := head + question + "\n";
    assert p[..|head|] == head;
    assert p[|p| - |question + "\n"|..] == question + "\n";
    p
  }

  /** The table output: nothing, an empty DataFrame, or the result rows. */
  datatype Table = NoTable | EmptyTable | TableOf(frame: Frame)

  /** The four outputs: SQL text, table, chart and explanation. */
  datatype Reply<C> = Reply(sql: string, table: Table, chart: Option<C>, explanation: string)

  const EmptyQuestionSql: string := "Error: Please enter a question"
  const EmptyQuestionExplanation: string := "Error: No question provided"
  const ErrorPrefix: string := "Error: "
  const FailedParseError: string := "Failed to parse query results"
  const UnknownError: string := "Unknown error"
  const ExecutionErrorHead: string := "-- Error executing query\n"
  const ExecutionErrorSep: string := "\n\n-- Error: "
  const ExecutionErrorExplanation: string := "Error executing query: "
  const NoRowsExplanation: string := "The query executed successfully but returned no data."

  /** What the outer handler turns an exception into. */
  function Failed<C>(message: string): (r: Reply<C>)
    ensures r.sql == r.explanation == ErrorPrefix + message
    ensures r.table == NoTable && r.chart.None?
  {
    Reply(ErrorPrefix + message, NoTable, None, ErrorPrefix + message)
  }

  /** The object substituted when the executor's reply does not decode. */
  const FailedParse: Json :=
    JObj([Field("success", JBool(false)), Field("data", JArr([])), Field("error", JStr(FailedParseError))])

  /** `json.loads` of the stored reply, with the substitute on failure. */
  function DecodeResults(text: string, parse: string -> Option<Json>): (j: Json)
    ensures parse(text).None? ==> j == FailedParse
    ensures parse(text).Some? ==> j == parse(text).value
  {
    parse(text).GetOr(FailedParse)
  }

  /** The message of the `AttributeError` raised by `.get` on a decoded value
      that is not an object. */
  function NoGetMessage(j: Json): string {
    "'" + TypeName(j) + "' object has no attribute 'get'"
  }

  /** `process_request_async`. `pipeline` stands for the root runner: given
      the prompt, the events it yields and the exception that ended it, if
      any. `parse` is `json.loads`, `toFrame` the DataFrame constructor and
      `draw` the execution of the chart code with the frame in scope (no
      chart when the code raises or defines no `chart`). */
  function ProcessRequest<C>(message: string, schema: string, pipeline: string -> Run,
                             parse: string -> Option<Json>, toFrame: Json -> Result<Frame>,
                             draw: (string, Frame) -> Option<C>): (r: Reply<C>)
    ensures AllSpace(message) ==>
              r == Reply(EmptyQuestionSql, NoTable, None, EmptyQuestionExplanation)
    ensures !AllSpace(message) && pipeline(EnhancedPrompt(schema, message)).failure.Some? ==>
              r == Failed(pipeline(EnhancedPrompt(schema, message)).failure.value)
    ensures r.table != NoTable ==> Trimmed(r.sql)
    ensures r.chart.Some? ==> r.table.TableOf?
  {
    if AllSpace(message) then Reply(EmptyQuestionSql, NoTable, None, EmptyQuestionExplanation)
    else
      var run := pipeline(EnhancedPrompt(schema, message));
      if run.failure.Some? then Failed(run.failure.value)
      else Respond(MergeDeltas(run.events), parse, toFrame, draw)
  }

  /** The part of the handler after a run that raised nothing: the outputs
      built from the merged results. */
  function Respond<C>(results: State, parse: string -> Option<Json>, toFrame: Json -> Result<Frame>,
                      draw: (string, Frame) -> Option<C>): (r: Reply<C>)
    ensures r.table != NoTable ==> Trimmed(r.sql)
    ensures r.chart.Some? ==> r.table.TableOf?
  {
    var sql := CleanSql(GetState(results, "sql_query", ""));
    var decoded := DecodeResults(GetState(results, "query_results", "{}"), parse);
    if decoded.JObj? then ReplyTo(decoded.fields, sql, results, toFrame, draw)
    else Failed(NoGetMessage(decoded))
  }

  /** The outputs for a decoded reply object `fields`, given the cleaned SQL. */
  function ReplyTo<C>(fields: seq<Field>, sql: string, results: State, toFrame: Json -> Result<Frame>,
                      draw: (string, Frame) -> Option<C>): (r: Reply<C>)
    ensures r.table != NoTable ==> r.sql == sql
    ensures r.chart.Some? ==> r.table.TableOf?
  {
    if !Truthy(Get(fields, "success", JBool(false))) then
      var err := Str(Get(fields, "error", JStr(UnknownError)));
      Reply(ExecutionErrorHead + sql + ExecutionErrorSep + err, NoTable, None,
            ExecutionErrorExplanation + err)
    else
      var dataList := Get(fields, "data", JArr([]));
      if !Truthy(dataList) then Reply(sql, EmptyTable, None, NoRowsExplanation)
      else
        match toFrame(dataList)
        case Raised(m) => Failed(m)
        case Ok(df) =>
          var spec := GetState(results, "chart_spec", "");
          var chart := if spec != "" then draw(CleanChart(spec), df) else None;
          Reply(sql, TableOf(df), chart, GetState(results, "explanation_text", ""))
  }

  /** After a run that raised nothing, the handler's outputs are those built
      from the merged results. */
  lemma RanResponds<C>(message: string, schema: string, pipeline: string -> Run,
                       parse: string -> Option<Json>, toFrame: Json -> Result<Frame>,
                       draw: (string, Frame) -> Option<C>, results: State)
    requires RanWith(message, schema, pipeline, results)
    ensures ProcessRequest(message, schema, pipeline, parse, toFrame, draw) == Respond(results, parse, toFrame, draw)
  {
  }

  /** A stored reply that decodes to an object is answered from its fields. */
  lemma RespondsToObject<C>(results: State, parse: string -> Option<Json>, toFrame: Json -> Result<Frame>,
                            draw: (string, Frame) -> Option<C>, fields: seq<Field>)
    requires "query_results" in results && parse(results["query_results"]) == Some(JObj(fields))
    ensures Respond(results, parse, toFrame, draw)
            == ReplyTo(fields, CleanSql(GetState(results, "sql_query", "")), results, toFrame, draw)
  {
  }

  /** The state a successful run leaves, and what the executor stage stored
      in it. */
  predicate RanWith(message: string, schema: string, pipeline: string -> Run, results: State) {
    && !AllSpace(message)
    && pipeline(EnhancedPrompt(schema, message)).failure.None?
    && MergeDeltas(pipeline(EnhancedPrompt(schema, message)).events) == results
  }

  /** The executor stage stored a failure reply: the SQL panel shows the
      cleaned query under an error banner and the explanation the error
      text (Python's `None` when the reply had no error). */
  lemma ExecutorFailureReply<C>(message: string, schema: string, pipeline: string -> Run,
                                parse: string -> Option<Json>, toFrame: Json -> Result<Frame>,
                                draw: (string, Frame) -> Option<C>, results: State, e: Envelope)
    requires RanWith(message, schema, pipeline, results)
    requires "query_results" in results && parse(results["query_results"]) == Some(EnvelopeJson(e))
    requires !e.success
    ensures var r := ProcessRequest(message, schema, pipeline, parse, toFrame, draw);
            var err := if e.error.Some? then e.error.value else "None";
            && r.table == NoTable && r.chart.None?
            && r.explanation == ExecutionErrorExplanation + err
            && r.sql == ExecutionErrorHead + CleanSql(GetState(results, "sql_query", "")) + ExecutionErrorSep + err
  {
    RanResponds(message, schema, pipeline, parse, toFrame, draw, results);
    RespondsToObject(results, parse, toFrame, draw, EnvelopeJson(e).fields);
    FailureEnvelope(e);
  }

  /** How the handler reads a failure reply: `success` is false and `error`
      prints as the error text, or `None`. */
  lemma FailureEnvelope(e: Envelope)
    requires !e.success
    ensures var fields := EnvelopeJson(e).fields;
            && !Truthy(Get(fields, "success", JBool(false)))
            && Str(Get(fields, "error", JStr(UnknownError))) == if e.error.Some? then e.error.value else "None"
  {
  }

  /** The executor stage stored a successful reply without rows: an empty
      table, no chart and the fixed explanation. */
  lemma ExecutorNoRowsReply<C>(message: string, schema: string, pipeline: string -> Run,
                               parse: string -> Option<Json>, toFrame: Json -> Result<Frame>,
                               draw: (string, Frame) -> Option<C>, results: State, e: Envelope)
    requires RanWith(message, schema, pipeline, results)
    requires "query_results" in results && parse(results["query_results"]) == Some(EnvelopeJson(e))
    requires e.success && e.data == []
    ensures ProcessRequest(message, schema, pipeline, parse, toFrame, draw)
            == Reply(CleanSql(GetState(results, "sql_query", "")), EmptyTable, None, NoRowsExplanation)
  {
    RanResponds(message, schema, pipeline, parse, toFrame, draw, results);
    RespondsToObject(results, parse, toFrame, draw, EnvelopeJson(e).fields);
    SuccessfulEnvelope(e);
  }

  /** The executor stage stored rows: the table is the frame built from
      them, the explanation the last explanation stage's text, and a chart
      is drawn only from non-empty chart code. */
  lemma ExecutorRowsReply<C>(message: string, schema: string, pipeline: string -> Run,
                             parse: string -> Option<Json>, toFrame: Json -> Result<Frame>,
                             draw: (string, Frame) -> Option<C>, results: State, e: Envelope, f: Frame)
    requires RanWith(message, schema, pipeline, results)
    requires "query_results" in results && parse(results["query_results"]) == Some(EnvelopeJson(e))
    requires e.success && |e.data| > 0
    requires toFrame(Lookup(EnvelopeJson(e).fields, "data").value) == Ok(f)
    ensures var r := ProcessRequest(message, schema, pipeline, parse, toFrame, draw);
            && r.table == TableOf(f)
            && r.sql == CleanSql(GetState(results, "sql_query", ""))
            && r.explanation == GetState(results, "explanation_text", "")
            && (GetState(results, "chart_spec", "") == "" ==> r.chart.None?)
            && (GetState(results, "chart_spec", "") != "" ==>
                  r.chart == draw(CleanChart(results["chart_spec"]), f))
  {
    RanResponds(message, schema, pipeline, parse, toFrame, draw, results);
    RespondsToObject(results, parse, toFrame, draw, EnvelopeJson(e).fields);
    RowsReplyTo(e, f, CleanSql(GetState(results, "sql_query", "")), results, toFrame, draw);
  }

  /** Rows in a successful reply become the table, and the chart and the
      explanation come from the state. */
  lemma RowsReplyTo<C>(e: Envelope, f: Frame, sql: string, results: State, toFrame: Json -> Result<Frame>,
                       draw: (string, Frame) -> Option<C>)
    requires e.success && |e.data| > 0
    requires toFrame(Lookup(EnvelopeJson(e).fields, "data").value) == Ok(f)
    ensures var r := ReplyTo(EnvelopeJson(e).fields, sql, results, toFrame, draw);
            && r.table == TableOf(f)
            && r.sql == sql
            && r.explanation == GetState(results, "explanation_text", "")
            && (GetState(results, "chart_spec", "") == "" ==> r.chart.None?)
            && (GetState(results, "chart_spec", "") != "" ==>
                  r.chart == draw(CleanChart(results["chart_spec"]), f))
  {
    SuccessfulEnvelope(e);
  }

  /** How the handler reads a successful reply: `success` is true and `data`
      is the list of records, truthy exactly when there are rows. */
  lemma SuccessfulEnvelope(e: Envelope)
    requires e.success
    ensures var fields := EnvelopeJson(e).fields;
            && Truthy(Get(fields, "success", JBool(false)))
            && Get(fields, "data", JArr([])) == Lookup(fields, "data").value
            && (Truthy(Get(fields, "data", JArr([]))) <==> |e.data| > 0)
  {
  }

  /** A reply that does not decode reads as a failed query: the SQL under
      the error banner, no table, no chart, and the parse error. */
  lemma UndecodableReply<C>(message: string, schema: string, pipeline: string -> Run,
                            parse: string -> Option<Json>, toFrame: Json -> Result<Frame>,
                            draw: (string, Frame) -> Option<C>, results: State)
    requires RanWith(message, schema, pipeline, results)
    requires "query_results" in results && parse(results["query_results"]).None?
    ensures ProcessRequest(message, schema, pipeline, parse, toFrame, draw)
            == Reply(ExecutionErrorHead + CleanSql(GetState(results, "sql_query", "")) + ExecutionErrorSep + FailedParseError,
                     NoTable, None, ExecutionErrorExplanation + FailedParseError)
  {
    RanResponds(message, schema, pipeline, parse, toFrame, draw, results);
    assert DecodeResults(GetState(results, "query_results", "{}"), parse) == FailedParse;
    FailedParseReply(CleanSql(GetState(results, "sql_query", "")), results, toFrame, draw);
  }

  /** The substitute object reads as a failed query with the parse error. */
  lemma FailedParseReply<C>(sql: string, results: State, toFrame: Json -> Result<Frame>,
                            draw: (string, Frame) -> Option<C>)
    ensures ReplyTo(FailedParse.fields, sql, results, toFrame, draw)
            == Reply(ExecutionErrorHead + sql + ExecutionErrorSep + FailedParseError,
                     NoTable, None, ExecutionErrorExplanation + FailedParseError)
  {
    var fields := FailedParse.fields;
    LookupUnique(fields, 0);
    LookupUnique(fields, 2);
  }

  /** With no stored reply the empty object is decoded, and the query counts
      as failed with the default error: the SQL under the error banner, no
      table and no chart. */
  lemma MissingReply<C>(message: string, schema: string, pipeline: string -> Run,
                        parse: string -> Option<Json>, toFrame: Json -> Result<Frame>,
                        draw: (string, Frame) -> Option<C>, results: State)
    requires RanWith(message, schema, pipeline, results)
    requires "query_results" !in results && parse("{}") == Some(JObj([]))
    ensures ProcessRequest(message, schema, pipeline, parse, toFrame, draw)
            == Reply(ExecutionErrorHead + CleanSql(GetState(results, "sql_query", "")) + ExecutionErrorSep + UnknownError,
                     NoTable, None, ExecutionErrorExplanation + UnknownError)
  {
    RanResponds(message, schema, pipeline, parse, toFrame, draw, results);
  }

  /** A decoded value that is not an object ends the request in the outer
      handler. */
  lemma NonObjectReply<C>(message: string, schema: string, pipeline: string -> Run,
                          parse: string -> Option<Json>, toFrame: Json -> Result<Frame>,
                          draw: (string, Frame) -> Option<C>, results: State, j: Json)
    requires RanWith(message, schema, pipeline, results)
    requires "query_results" in results && parse(results["query_results"]) == Some(j) && !j.JObj?
    ensures ProcessRequest(message, schema, pipeline, parse, toFrame, draw) == Failed(NoGetMessage(j))
  {
    RanResponds(message, schema, pipeline, parse, toFrame, draw, results);
  }

  /** Run by the root agent with a model that always answers, the request
      sees all four outputs in the merged results. */
  lemma RootPipelineResults(generate: (string, string) -> Result<string>)
    requires forall n, t :: generate(n, t).Ok?
    ensures var run := RunAgent(BiAgents.RootAgent, map[], generate);
            && run.failure.None?
            && MergeDeltas(run.events).Keys == {"sql_query", "query_results", "chart_spec", "explanation_text"}
  {
    BiAgents.RootRun(generate);
    MergeIsSessionState(RunAgent(BiAgents.RootAgent, map[], generate).events);
  }
}
