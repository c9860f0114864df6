/**
 * The offline accuracy evaluation of `evaluate_sql.py`: for each test case
 * the SQL generator is asked for a query, with up to three attempts when the
 * model reports a rate limit; the generated query and the case's reference
 * query are both run and the case scores when their result frames are equal.
 *
 * The generator's runs are the parameter `attempt` (indexed by prompt, case
 * and attempt number), the database is the executor parameter of
 * `BIService.execute_sql`, and the pauses are recorded as wait times rather
 * than slept.
 */
module Evaluate {
  import opened Base
  import opened PyText
  import opened PyValues
  import opened DbConfig
  import opened Tools
  import opened BiService
  import opened Runtime
  import App
  import BiAgents

  /* ---------------------------------------------------------------------
     One attempt of the generator.
     --------------------------------------------------------------------- */

  /** How one attempt ends: the session could not be created (nothing was
      streamed), or the run streamed some events and then finished or
      raised. */
  datatype Attempt =
    | SessionFailed(message: string)
    | Streamed(events: seq<Event>, failure: Option<string>)

  /** The exception text names HTTP status 429 or the quota error. */
  predicate IsRateLimit(message: string) {
    Contains(message, "429") || Contains(message, "RESOURCE_EXHAUSTED")
  }

  /** `generated_sql` after the `async for`: it starts empty and every event
      with a non-empty state delta overwrites it with that delta's
      `sql_query`, or with the empty text when the delta lacks it. */
  function StreamSql(events: seq<Event>): string
    decreases |events|
  {
    if |events| == 0 then ""
    else
      var delta := events[|events| - 1].delta;
      if |delta| > 0 then App.GetState(delta, "sql_query", "")
      else StreamSql(events[..|events| - 1])
  }

  /** The SQL read off a stream is the `sql_query` of the last event that
      changed the state; without such an event it is empty. */
  lemma {:induction false} StreamSqlIsLastChange(events: seq<Event>)
    ensures (forall i :: 0 <= i < |events| ==> |events[i].delta| == 0) ==> StreamSql(events) == ""
    ensures forall i :: 0 <= i < |events| && |events[i].delta| > 0
                        && (forall j :: i < j < |events| ==> |events[j].delta| == 0) ==>
                          StreamSql(events) == App.GetState(events[i].delta, "sql_query", "")
    decreases |events|
  {
    if |events| > 0 {
      var init := events[..|events| - 1];
      StreamSqlIsLastChange(init);
      forall i | 0 <= i < |events| && |events[i].delta| > 0
                 && (forall j :: i < j < |events| ==> |events[j].delta| == 0)
        ensures StreamSql(events) == App.GetState(events[i].delta, "sql_query", "")
      {
        if i < |events| - 1 {
          assert |events[|events| - 1].delta| == 0;
          assert forall j :: i < j < |init| ==> init[j] == events[j];
        }
      }
    }
  }

  /** A run of the SQL generator whose model answers leaves that answer as
      the generated SQL. */
  lemma GeneratorAnswerIsSql(generate: (string, string) -> Result<string>, answer: string)
    requires generate("text_to_sql_agent", "") == Ok(answer)
    ensures var run := RunAgent(BiAgents.TextToSqlAgent, map[], generate);
            run.failure.None? && StreamSql(run.events) == answer
  {
    var run := RunAgent(BiAgents.TextToSqlAgent, map[], generate);
    var delta := map["sql_query" := answer];
    assert run.events == [Event("text_to_sql_agent", delta)];
    assert "sql_query" in delta && |delta| > 0;
  }

  /* ---------------------------------------------------------------------
     The retry loop of one case.
     --------------------------------------------------------------------- */

  const MaxRetries: nat := 3
  const WaitStep: nat := 20

  /** What the retry loop leaves behind: the value of `generated_sql` (`None`
      while the variable has never been bound), the pauses taken in seconds
      and the number of attempts made. */
  datatype Tries = Tries(generated: Option<string>, waits: seq<nat>, attempts: nat)

  /** One attempt's effect on `generated_sql`, and whether the loop stops
      after it. */
  function AttemptStep(sql: Option<string>, a: Attempt): (Option<string>, bool) {
    match a
    case SessionFailed(m) => if IsRateLimit(m) then (sql, false) else (Some(""), true)
    case Streamed(events, failure) =>
      if failure.None? then (Some(StreamSql(events)), true)
      else if IsRateLimit(failure.value) then (Some(StreamSql(events)), false)
      else (Some(""), true)
  }

  /** The retry loop from `retry_count == count` on, `generated` being the
      variable's value on entry. A rate-limit error pauses `20 * retry_count`
      seconds after counting the retry; any other error empties the SQL and
      stops; a finished stream stops. An attempt that fails before streaming
      leaves `generated_sql` as it was. */
  function Retry(generated: Option<string>, count: nat, attempt: nat -> Attempt): (t: Tries)
    requires count <= MaxRetries
    ensures t.attempts <= MaxRetries - count
    ensures |t.waits| <= t.attempts <= |t.waits| + 1
    ensures forall i :: 0 <= i < |t.waits| ==> t.waits[i] == WaitStep * (count + i + 1)
    ensures t.generated.None? ==> generated.None?
    decreases MaxRetries - count
  {
    if count == MaxRetries then Tries(generated, [], 0)
    else
      var (next, stop) := AttemptStep(generated, attempt(count));
      if stop then Tries(next, [], 1) else Pause(count, Retry(next, count + 1, attempt))
  }

  /** A rate-limited attempt followed by the remaining ones. */
  function Pause(count: nat, rest: Tries): (t: Tries)
    ensures t.generated == rest.generated && t.attempts == rest.attempts + 1
    ensures t.waits == [WaitStep * (count + 1)] + rest.waits
  {
    Tries(rest.generated, [WaitStep * (count + 1)] + rest.waits, rest.attempts + 1)
  }

  /** At most three attempts, and the pauses grow 20, 40, 60 seconds. */
  lemma RetryBounds(generated: Option<string>, attempt: nat -> Attempt)
    ensures var t := Retry(generated, 0, attempt);
            && t.attempts <= 3
            && t.waits == [20, 40, 60][..|t.waits|]
  {
    var t := Retry(generated, 0, attempt);
    assert |t.waits| <= 3;
    assert forall i :: 0 <= i < |t.waits| ==> t.waits[i] == [20, 40, 60][i];
  }

  /** The recursive definition unfolded by one attempt. */
  lemma RetryStep(sql: Option<string>, count: nat, attempt: nat -> Attempt)
    requires count < MaxRetries
    ensures var (next, stop) := AttemptStep(sql, attempt(count));
            Retry(sql, count, attempt)
            == if stop then Tries(next, [], 1) else Pause(count, Retry(next, count + 1, attempt))
  {
  }

  /** The error an attempt ended with: raised before streaming, or while
      the stream was read. */
  function FailureOf(a: Attempt): Option<string> {
    match a
    case SessionFailed(m) => Some(m)
    case Streamed(_, failure) => failure
  }

  /** An error other than a rate limit, raised before or during the stream,
      ends the loop at once with the SQL emptied. */
  lemma ErrorStopsRetry(generated: Option<string>, count: nat, attempt: nat -> Attempt)
    requires count < MaxRetries
    requires FailureOf(attempt(count)).Some? && !IsRateLimit(FailureOf(attempt(count)).value)
    ensures Retry(generated, count, attempt) == Tries(Some(""), [], 1)
  {
  }

  /** A rate limit never ends the loop: it pauses `20 * (count + 1)` seconds
      and the next attempt runs, while attempts remain. */
  lemma RateLimitRetries(generated: Option<string>, count: nat, attempt: nat -> Attempt)
    requires count < MaxRetries
    requires FailureOf(attempt(count)).Some? && IsRateLimit(FailureOf(attempt(count)).value)
    ensures var t := Retry(generated, count, attempt);
            && |t.waits| > 0 && t.waits[0] == WaitStep * (count + 1)
            && (count + 1 < MaxRetries ==> t.attempts >= 2)
            && t == Pause(count, Retry(AttemptStep(generated, attempt(count)).0, count + 1, attempt))
  {
    var next := AttemptStep(generated, attempt(count)).0;
    if count + 1 < MaxRetries {
      AttemptsMade(next, count + 1, attempt);
    }
  }

  /** While attempts remain, at least one is made. */
  lemma AttemptsMade(generated: Option<string>, count: nat, attempt: nat -> Attempt)
    requires count < MaxRetries
    ensures Retry(generated, count, attempt).attempts >= 1
  {
  }

  /** The body of the `try`: run the attempt and classify its outcome. Only
      a rate limit keeps the loop going; any other error empties the SQL;
      a stream read to the end leaves its SQL. */
  method TryOnce(sql: Option<string>, outcome: Attempt) returns (next: Option<string>, stop: bool)
    ensures !stop <==> FailureOf(outcome).Some? && IsRateLimit(FailureOf(outcome).value)
    ensures FailureOf(outcome).Some? && !IsRateLimit(FailureOf(outcome).value) ==> next == Some("")
    ensures outcome.Streamed? && (FailureOf(outcome).None? || IsRateLimit(FailureOf(outcome).value)) ==>
              next == Some(StreamSql(outcome.events))
    ensures outcome.SessionFailed? && IsRateLimit(outcome.message) ==> next == sql
  {
    next := sql;
    stop := false;
    match outcome {
      case SessionFailed(m) =>
        if !IsRateLimit(m) {
          next := Some("");
          stop := true;
        }
      case Streamed(events, failure) =>
        next := Some(StreamSql(events));
        if failure.None? {
          stop := true;
        } else if !IsRateLimit(failure.value) {
          next := Some("");
          stop := true;
        }
    }
  }

  /** The loop invariant: the pauses taken so far, followed by what the
      remaining attempts do from `sql`, make up the whole loop. */
  predicate Accounted(generated: Option<string>, sql: Option<string>, count: nat, waits: seq<nat>,
                      attempt: nat -> Attempt)
    requires count <= MaxRetries
  {
    var rest := Retry(sql, count, attempt);
    Retry(generated, 0, attempt) == Tries(rest.generated, waits + rest.waits, count + rest.attempts)
  }

  /** A rate-limited attempt adds its pause and keeps the invariant. */
  lemma PauseKeepsAccount(generated: Option<string>, sql: Option<string>, count: nat, waits: seq<nat>,
                          attempt: nat -> Attempt, next: Option<string>)
    requires count < MaxRetries && Accounted(generated, sql, count, waits, attempt)
    requires AttemptStep(sql, attempt(count)) == (next, false)
    ensures Accounted(generated, next, count + 1, waits + [WaitStep * (count + 1)], attempt)
  {
    RetryStep(sql, count, attempt);
    var later := Retry(next, count + 1, attempt);
    assert waits + Pause(count, later).waits == (waits + [WaitStep * (count + 1)]) + later.waits;
  }

  /** Before the first attempt, the whole loop is still ahead. */
  lemma AccountStarts(generated: Option<string>, attempt: nat -> Attempt)
    ensures Accounted(generated, generated, 0, [], attempt)
  {
    assert [] + Retry(generated, 0, attempt).waits == Retry(generated, 0, attempt).waits;
  }

  /** After the last attempt nothing is left to do. */
  lemma AccountEnds(generated: Option<string>, sql: Option<string>, waits: seq<nat>, attempt: nat -> Attempt)
    requires Accounted(generated, sql, MaxRetries, waits, attempt)
    ensures Retry(generated, 0, attempt) == Tries(sql, waits, MaxRetries)
  {
    assert waits + [] == waits;
  }

  /** An attempt that stops the loop ends it with its own value. */
  lemma StopEndsAccount(generated: Option<string>, sql: Option<string>, count: nat, waits: seq<nat>,
                        attempt: nat -> Attempt, next: Option<string>)
    requires count < MaxRetries && Accounted(generated, sql, count, waits, attempt)
    requires AttemptStep(sql, attempt(count)) == (next, true)
    ensures Retry(generated, 0, attempt) == Tries(next, waits, count + 1)
  {
    RetryStep(sql, count, attempt);
    assert waits + [] == waits;
  }

  /** The `while retry_count < max_retries` loop itself. */
  method RetryLoop(generated: Option<string>, attempt: nat -> Attempt) returns (t: Tries)
    ensures t == Retry(generated, 0, attempt)
    ensures t.attempts <= MaxRetries
  {
    var sql := generated;
    var count: nat := 0;
    var waits: seq<nat> := [];
    AccountStarts(generated, attempt);
    while count < MaxRetries
      invariant count <= MaxRetries
      invariant Accounted(generated, sql, count, waits, attempt)
    {
      var next, stop := Advance(generated, sql, count, waits, attempt);
      if stop {
        return Tries(next, waits, count + 1);
      }
      sql := next;
      waits := waits + [WaitStep * (count + 1)];
      count := count + 1;
    }
    AccountEnds(generated, sql, waits, attempt);
    t := Tries(sql, waits, count);
  }

  /** One pass of the loop body: either the loop ends here with the whole
      result, or the invariant holds for the next pass. */
  method Advance(generated: Option<string>, sql: Option<string>, count: nat, waits: seq<nat>,
                 attempt: nat -> Attempt) returns (next: Option<string>, stop: bool)
    requires count < MaxRetries && Accounted(generated, sql, count, waits, attempt)
    ensures stop ==> Retry(generated, 0, attempt) == Tries(next, waits, count + 1)
    ensures !stop ==> Accounted(generated, next, count + 1, waits + [WaitStep * (count + 1)], attempt)
  {
    next, stop := TryOnce(sql, attempt(count));
    assert (next, stop) == AttemptStep(sql, attempt(count));
    if stop {
      StopEndsAccount(generated, sql, count, waits, attempt, next);
    } else {
      PauseKeepsAccount(generated, sql, count, waits, attempt, next);
    }
  }

  /* ---------------------------------------------------------------------
     Scoring.
     --------------------------------------------------------------------- */

  /** One entry of `evaluation_set.json`. */
  datatype Case = Case(question: string, groundTruth: string)

  /** The prompt of one case; unlike the application's, it puts no line
      breaks around the schema. */
  function CasePrompt(schema: string, question: string): (p: string)
    ensures StartsWith(p, "Here is the Database Schema you must use:" + schema)
    ensures EndsWith(p, "User Question: " + question)
  {
    var head := "Here is the Database Schema you must use:" + schema;
    var p := head + ("User Question: " + question);
    assert p[..|head|] == head;
    assert p[|head|..] == "User Question: " + question;
    p
  }

  /** The cleanup of a generated query: both fence forms removed everywhere,
      then stripped. */
  function CleanGenerated(sql: string): (r: string)
    ensures Trimmed(r) && !Contains(r, Fence)
  {
    var u := Replace(Replace(sql, Fence + "sql", ""), Fence, "");
    RemoveFenceComplete(Replace(sql, Fence + "sql", ""));
    NotContainsStrip(u, Fence);
    Strip(u)
  }

  /** On a stripped reply that opens with a tagged fence, the evaluation's
      cleanup and the application's agree. */
  lemma CleanGeneratedAgrees(sql: string)
    requires Trimmed(sql) && StartsWith(sql, Fence + "sql")
    ensures CleanGenerated(sql) == App.CleanSql(sql)
  {
    StripTrimmed(sql);
  }

  /** A query fenced the usual way comes back exactly. */
  lemma CleanGeneratedRoundTrip(q: string)
    requires Trimmed(q) && '`' !in q
    ensures CleanGenerated(Fence + "sql" + "\n" + q + "\n" + Fence) == q
  {
    var s := Fence + "sql" + "\n" + q + "\n" + Fence;
    App.CleanFenceRoundTrip(q, "sql");
    assert Trimmed(s) by {
      assert s[0] == '`' && s[|s| - 1] == '`';
    }
    assert StartsWith(s, Fence + "sql") by {
      assert s[..|Fence + "sql"|] == Fence + "sql";
    }
    CleanGeneratedAgrees(s);
  }

  /** `res_gen['success'] and res_truth['success']` and then
      `res_gen['data'].equals(res_truth['data'])`. An executor exception, or a
      generated result without a frame (whose `.equals` raises), is caught
      and the case does not score. */
  predicate Matches(s: Service, sql: string, truth: string, execute: (Engine, string) -> Result<QueryResult>) {
    var gen := ExecuteSql(s, sql, execute);
    && gen.Ok? && gen.value.success
    && var ref := ExecuteSql(s, truth, execute);
       && ref.Ok? && ref.value.success
       && gen.value.data.Some? && gen.value.data == ref.value.data
  }

  /** The evaluation's end: a failed connection, a missing test set, a crash,
      or the final score over the number of cases. */
  datatype Outcome =
    | NotConnected(message: string)
    | NoTestSet
    | Crashed(message: string)
    | Scored(score: nat, total: nat)

  /** The message of the `UnboundLocalError` raised by reading
      `generated_sql` before any assignment. */
  const UnboundSql: string := "cannot access local variable 'generated_sql' where it is not associated with a value"

  /** The per-case loop from case `i` on, `carried` being `generated_sql` as
      the previous case left it. With `reset` the variable is emptied before
      each case's retry loop; without it (the script as written) a case whose
      attempts all fail before streaming inherits the previous value. */
  function ScoreCases(s: Service, schema: string, cases: seq<Case>, i: nat, carried: Option<string>,
                      score: nat, attempt: (string, nat, nat) -> Attempt,
                      execute: (Engine, string) -> Result<QueryResult>, reset: bool): (r: Outcome)
    requires i <= |cases| && score <= i
    ensures r.Scored? || r.Crashed?
    ensures r.Scored? ==> r.total == |cases| && score <= r.score <= score + (|cases| - i)
    ensures reset || carried.Some? ==> r.Scored?
    ensures reset && r.Scored? ==> r.score == score + Matched(s, schema, cases, i, attempt, execute)
    ensures reset && r.Scored? ==> r.score <= score + Answered(schema, cases, i, attempt)
    decreases |cases| - i
  {
    if i == |cases| then Scored(score, |cases|)
    else
      var t := CaseTries(schema, cases, i, if reset then Some("") else carried, attempt);
      match t.generated
      case None => Crashed(UnboundSql)
      case Some(g) =>
        if g == "" then ScoreCases(s, schema, cases, i + 1, Some(g), score, attempt, execute, reset)
        else
          var sql := CleanGenerated(g);
          var point := if Matches(s, sql, cases[i].groundTruth, execute) then 1 else 0;
          ScoreCases(s, schema, cases, i + 1, Some(sql), score + point, attempt, execute, reset)
  }

  /** The retry loop of case `i`, entered with `generated_sql` equal to
      `start`. */
  function CaseTries(schema: string, cases: seq<Case>, i: nat, start: Option<string>,
                     attempt: (string, nat, nat) -> Attempt): (t: Tries)
    requires i < |cases|
    ensures t.attempts <= MaxRetries
  {
    var prompt := CasePrompt(schema, cases[i].question);
    Retry(start, 0, (k: nat) => attempt(prompt, i, k))
  }

  /** `evaluate()`: connect, read the test set, score every case. */
  function Evaluation(s: Service, createFault: Option<string>, probe: Engine -> Result<string>,
                      testSet: Option<seq<Case>>, schema: string, attempt: (string, nat, nat) -> Attempt,
                      execute: (Engine, string) -> Result<QueryResult>, reset: bool): (r: Outcome)
    ensures !Connect(s, createFault, probe).ok ==> r == NotConnected(Connect(s, createFault, probe).message)
    ensures Connect(s, createFault, probe).ok && testSet.None? ==> r == NoTestSet
    ensures r.Scored? ==> testSet.Some? && r.score <= r.total == |testSet.value|
    ensures reset && Connect(s, createFault, probe).ok && testSet.Some? ==>
              r.Scored? && r.score <= Answered(schema, testSet.value, 0, attempt)
    ensures reset && Connect(s, createFault, probe).ok && testSet.Some? ==>
              r.score == Matched(Connect(s, createFault, probe).service, schema, testSet.value, 0, attempt, execute)
  {
    var c := Connect(s, createFault, probe);
    if !c.ok then NotConnected(c.message)
    else
      match testSet
      case None => NoTestSet
      case Some(cases) => ScoreCases(c.service, schema, cases, 0, if reset then Some("") else None, 0, attempt, execute, reset)
  }

  /** The SQL a case's own attempts produce when it starts from an empty
      variable. */
  function OwnSql(schema: string, cases: seq<Case>, i: nat, attempt: (string, nat, nat) -> Attempt): string
    requires i < |cases|
  {
    CaseTries(schema, cases, i, Some(""), attempt).generated.GetOr("")
  }

  /** The number of cases from `i` on whose own attempts produce SQL. */
  function Answered(schema: string, cases: seq<Case>, i: nat, attempt: (string, nat, nat) -> Attempt): (n: nat)
    requires i <= |cases|
    ensures n <= |cases| - i
    decreases |cases| - i
  {
    if i == |cases| then 0
    else (if OwnSql(schema, cases, i, attempt) != "" then 1 else 0) + Answered(schema, cases, i + 1, attempt)
  }

  /** The number of cases from `i` on whose own attempts produce SQL that,
      once cleaned, runs and returns the same frame as the reference query. */
  function Matched(s: Service, schema: string, cases: seq<Case>, i: nat, attempt: (string, nat, nat) -> Attempt,
                   execute: (Engine, string) -> Result<QueryResult>): (n: nat)
    requires i <= |cases|
    ensures n <= Answered(schema, cases, i, attempt)
    decreases |cases| - i
  {
    if i == |cases| then 0
    else
      var own := OwnSql(schema, cases, i, attempt);
      (if own != "" && Matches(s, CleanGenerated(own), cases[i].groundTruth, execute) then 1 else 0)
      + Matched(s, schema, cases, i + 1, attempt, execute)
  }

  /* ---------------------------------------------------------------------
     The stale query.
     --------------------------------------------------------------------- */

  /** Every attempt hits the rate limit while the session is created. */
  function QuotaExhausted(): Attempt {
    SessionFailed("429")
  }

  const StaleSql: string := "SELECT 1"

  /** Case 0 gets an answer, case 1 only rate-limit failures. */
  function StaleAttempts(prompt: string, i: nat, k: nat): Attempt {
    if i == 0 then Streamed([Event("text_to_sql_agent", map["sql_query" := StaleSql])], None)
    else QuotaExhausted()
  }

  /** A database on which every query returns the same one-row frame. */
  function SameRows(e: Engine, sql: string): Result<QueryResult> {
    Ok(QueryResult(true, Some(DataFrame(["x"], [[JInt(1)]])), ["x"], 1, None))
  }

  lemma QuotaExhaustedRetries(start: Option<string>, attempt: nat -> Attempt)
    requires forall k :: attempt(k) == QuotaExhausted()
    ensures Retry(start, 0, attempt) == Tries(start, [20, 40, 60], 3)
  {
    assert IsRateLimit("429") by {
      assert StartsWith("429", "429");
    }
  }

  lemma StaleFirstCase(schema: string, cases: seq<Case>, start: Option<string>)
    requires |cases| > 0
    ensures CaseTries(schema, cases, 0, start, StaleAttempts) == Tries(Some(StaleSql), [], 1)
  {
    var delta := map["sql_query" := StaleSql];
    var events := [Event("text_to_sql_agent", delta)];
    assert StreamSql(events) == StaleSql by {
      assert |delta| > 0;
    }
    var prompt := CasePrompt(schema, cases[0].question);
    var a := (k: nat) => StaleAttempts(prompt, 0, k);
    assert a(0) == Streamed(events, None);
    assert Retry(start, 0, a) == Tries(Some(StreamSql(events)), [], 1);
  }

  lemma StaleSecondCase(schema: string, cases: seq<Case>, start: Option<string>)
    requires |cases| > 1
    ensures CaseTries(schema, cases, 1, start, StaleAttempts) == Tries(start, [20, 40, 60], 3)
  {
    var prompt := CasePrompt(schema, cases[1].question);
    QuotaExhaustedRetries(start, (k: nat) => StaleAttempts(prompt, 1, k));
  }

  /** As written, a second case whose three attempts are all rate-limited
      before streaming reuses the first case's query and scores, although it
      produced no SQL: two points for one answered case. With the variable
      reset per case it is skipped. */
  lemma StaleQueryScores(s: Service, schema: string, q0: string, t0: string, q1: string, t1: string)
    requires s.engine.Some?
    ensures var cases := [Case(q0, t0), Case(q1, t1)];
            && Answered(schema, cases, 0, StaleAttempts) == 1
            && ScoreCases(s, schema, cases, 0, None, 0, StaleAttempts, SameRows, false) == Scored(2, 2)
            && ScoreCases(s, schema, cases, 0, Some(""), 0, StaleAttempts, SameRows, true) == Scored(1, 2)
  {
    var cases := [Case(q0, t0), Case(q1, t1)];
    StaleAnswered(schema, cases);
    StaleAsWritten(s, schema, cases);
    StaleReset(s, schema, cases);
  }

  /** Only the first of the two cases produces SQL of its own. */
  lemma StaleAnswered(schema: string, cases: seq<Case>)
    requires |cases| == 2
    ensures Answered(schema, cases, 0, StaleAttempts) == 1
  {
    StaleFirstCase(schema, cases, Some(""));
    StaleSecondCase(schema, cases, Some(""));
    assert OwnSql(schema, cases, 1, StaleAttempts) == "";
    assert OwnSql(schema, cases, 0, StaleAttempts) == StaleSql;
  }

  /** As written, both cases score with the first case's query. */
  lemma StaleAsWritten(s: Service, schema: string, cases: seq<Case>)
    requires s.engine.Some? && |cases| == 2
    ensures ScoreCases(s, schema, cases, 0, None, 0, StaleAttempts, SameRows, false) == Scored(2, 2)
  {
    StaleFirstCase(schema, cases, None);
    StaleMatches(s, cases[0].groundTruth);
    StaleSecondScores(s, schema, cases);
  }

  /** As written, the second case inherits the query and scores it. */
  lemma StaleSecondScores(s: Service, schema: string, cases: seq<Case>)
    requires s.engine.Some? && |cases| == 2
    ensures ScoreCases(s, schema, cases, 1, Some(StaleSql), 1, StaleAttempts, SameRows, false) == Scored(2, 2)
  {
    StaleSecondCase(schema, cases, Some(StaleSql));
    StaleMatches(s, cases[1].groundTruth);
    assert ScoreCases(s, schema, cases, 2, Some(StaleSql), 2, StaleAttempts, SameRows, false) == Scored(2, 2);
  }

  /** The stale query survives the cleanup and matches on a database where
      every query returns the same rows. */
  lemma StaleMatches(s: Service, truth: string)
    requires s.engine.Some?
    ensures CleanGenerated(StaleSql) == StaleSql && Matches(s, StaleSql, truth, SameRows)
  {
    NoTickNoFenceSql();
  }

  /** With the reset, the second case is skipped. */
  lemma StaleReset(s: Service, schema: string, cases: seq<Case>)
    requires s.engine.Some? && |cases| == 2
    ensures ScoreCases(s, schema, cases, 0, Some(""), 0, StaleAttempts, SameRows, true) == Scored(1, 2)
  {
    StaleFirstCase(schema, cases, Some(""));
    StaleMatches(s, cases[0].groundTruth);
    StaleSecondSkipped(s, schema, cases);
  }

  /** With the reset, the second case produces nothing and is skipped. */
  lemma StaleSecondSkipped(s: Service, schema: string, cases: seq<Case>)
    requires s.engine.Some? && |cases| == 2
    ensures ScoreCases(s, schema, cases, 1, Some(StaleSql), 1, StaleAttempts, SameRows, true) == Scored(1, 2)
  {
    StaleSecondCase(schema, cases, Some(""));
    assert ScoreCases(s, schema, cases, 2, Some(""), 1, StaleAttempts, SameRows, true) == Scored(1, 2);
  }

  /** The stale query passes through the cleanup unchanged. */
  lemma NoTickNoFenceSql()
    ensures CleanGenerated(StaleSql) == StaleSql
  {
    NoTickNoMatch(StaleSql, Fence + "sql");
    NoTickNoMatch(StaleSql, Fence);
    ReplaceAbsent(StaleSql, Fence + "sql", "");
    ReplaceAbsent(StaleSql, Fence, "");
    StripTrimmed(StaleSql);
  }

  /** As written, when every attempt of the first case is rate-limited before
      streaming, the script stops on the unbound variable; with the reset it
      scores zero of one. */
  lemma FirstCaseUnbound(s: Service, schema: string, q: string, truth: string,
                         execute: (Engine, string) -> Result<QueryResult>)
    ensures ScoreCases(s, schema, [Case(q, truth)], 0, None, 0, (p, i, k) => QuotaExhausted(), execute, false)
            == Crashed(UnboundSql)
    ensures ScoreCases(s, schema, [Case(q, truth)], 0, Some(""), 0, (p, i, k) => QuotaExhausted(), execute, true)
            == Scored(0, 1)
  {
    QuotaCase(schema, [Case(q, truth)], None);
    QuotaCase(schema, [Case(q, truth)], Some(""));
    assert ScoreCases(s, schema, [Case(q, truth)], 1, Some(""), 0, (p, i, k) => QuotaExhausted(), execute, true)
           == Scored(0, 1);
  }

  /** A case whose every attempt is rate-limited keeps the query it was
      entered with. */
  lemma QuotaCase(schema: string, cases: seq<Case>, start: Option<string>)
    requires |cases| > 0
    ensures CaseTries(schema, cases, 0, start, (p, i, k) => QuotaExhausted()) == Tries(start, [20, 40, 60], 3)
  {
    var p := CasePrompt(schema, cases[0].question);
    var attempt: (string, nat, nat) -> Attempt := (p, i, k) => QuotaExhausted();
    QuotaExhaustedRetries(start, (k: nat) => attempt(p, 0, k));
  }
}
