/**
 * The agents `bi_agent/agent.py` declares and the root pipeline it wires
 * from them. Each instruction keeps only the prompt lines that carry braces;
 * the rest of every prompt is brace-free text.
 */
module BiAgents {
  import opened Base
  import opened PyText
  import opened Runtime

  /** The question-to-SQL stage. Its prompt reads no state; the question and
      the schema arrive in the user message. */
  const TextToSqlAgent: Agent :=
    Llm("text_to_sql_agent", [], [GetDatabaseSchemaTool], "sql_query")

  const BarExample1: string := "\"category\": [\"A\", \"B\", \"C\"], "
  const BarExample2: string := "\"value\": [10, 20, 15]"
  const BarExample: string := BarExample1 + BarExample2

  const BarCode1: string := "'category': ['A', 'B', 'C'], "
  const BarCode2: string := "'value': [10, 20, 15]"
  const BarCode: string := BarCode1 + BarCode2

  const LineExample1: string := "\"date\": [\"2024-01-01\", "
  const LineExample2: string := "\"2024-01-02\", \"2024-01-03\"], "
  const LineExample3: string := "\"sales\": [100, 150, 130]"
  const LineExample: string := LineExample1 + LineExample2 + LineExample3

  const LineCode1: string := "'date': ['2024-01-01', "
  const LineCode2: string := "'2024-01-02', '2024-01-03'], "
  const LineCode3: string := "'sales': [100, 150, 130]"
  const LineCode: string := LineCode1 + LineCode2 + LineCode3

  const MultiExample1: string := "\"product\": [\"Bike\", \"Helmet\", "
  const MultiExample2: string := "\"Bottle\"], \"quantity\": [45, "
  const MultiExample3: string := "120, 89], \"revenue\": [22500, "
  const MultiExample4: string := "3600, 1780]"
  const MultiExample: string := MultiExample1 + MultiExample2 + MultiExample3 + MultiExample4

  const MultiCode1: string := "'product': ['Bike', 'Helmet', "
  const MultiCode2: string := "'Bottle'], 'quantity': [45, "
  const MultiCode3: string := "120, 89], 'revenue': [22500, "
  const MultiCode4: string := "3600, 1780]"
  const MultiCode: string := MultiCode1 + MultiCode2 + MultiCode3 + MultiCode4

  const InputData: string := "Input Data: "
  const ExampleData: string := "\n      Data: "
  const ExampleCode: string := "\ndata = "

  /** One worked example of the chart prompt: the data as the model sees
      it, then as the code writes it, each in doubled braces. */
  function ExampleBlock(data: string, code: string): seq<Piece> {
    [Text(ExampleData), Escaped(data), Text(ExampleCode), Escaped(code)]
  }

  /** The chart-code stage: it reads the executor's results, and its worked
      examples show data literals in doubled braces. */
  const VisualizationAgent: Agent :=
    Llm("visualization_agent",
        [Text(InputData), Read("query_results")]
        + ExampleBlock(BarExample, BarCode)
        + ExampleBlock(LineExample, LineCode)
        + ExampleBlock(MultiExample, MultiCode),
        [], "chart_spec")

  /** The plain-language stage. Its prompt reads no state. */
  const ExplanationAgent: Agent :=
    Llm("explanation_agent", [], [], "explanation_text")

  const InsightPipeline: Agent :=
    Sequential("insight_pipeline", [VisualizationAgent, ExplanationAgent])

  const ExecutorRule: string := "2. The SQL query is provided "
  const ExecutorRuleEnd: string := "in the state variable: "
  const ExecutorStep: string := "\n1. Retrieve the SQL query "
  const ExecutorStepEnd: string := "from state: "

  const SqlExecutorAgent: Agent :=
    Llm("sql_executor_agent",
        [Text(ExecutorRule), Text(ExecutorRuleEnd), Read("sql_query"),
         Text(ExecutorStep), Text(ExecutorStepEnd), Read("sql_query")],
        [ExecuteSqlAndFormatTool], "query_results")

  const FormatterStep: string := "1. Parse the query results from: "

  /** Declared, but not part of the root pipeline. */
  const DataFormatterAgent: Agent :=
    Llm("data_formatter_agent",
        [Text(FormatterStep), Read("query_results")],
        [], "formatted_data")

  const RootAgent: Agent :=
    Sequential("root_agent", [TextToSqlAgent, SqlExecutorAgent, InsightPipeline])

  /** The stage order of a root run. */
  lemma RootStages()
    ensures Flatten(RootAgent) == [TextToSqlAgent, SqlExecutorAgent, VisualizationAgent, ExplanationAgent]
  {
    assert Flatten(TextToSqlAgent) == [TextToSqlAgent];
    assert Flatten(SqlExecutorAgent) == [SqlExecutorAgent];
    assert Flatten(VisualizationAgent) == [VisualizationAgent];
    assert Flatten(ExplanationAgent) == [ExplanationAgent];
    assert FlattenAll([ExplanationAgent]) == [ExplanationAgent] by {
      assert [ExplanationAgent][1..] == [];
    }
    assert [VisualizationAgent, ExplanationAgent][1..] == [ExplanationAgent];
    assert Flatten(InsightPipeline) == [VisualizationAgent, ExplanationAgent];
    assert FlattenAll([InsightPipeline]) == [VisualizationAgent, ExplanationAgent] by {
      assert [InsightPipeline][1..] == [];
    }
    var subs := [TextToSqlAgent, SqlExecutorAgent, InsightPipeline];
    assert subs[1..] == [SqlExecutorAgent, InsightPipeline];
    assert subs[1..][1..] == [InsightPipeline];
    assert FlattenAll(subs[1..]) == [SqlExecutorAgent, VisualizationAgent, ExplanationAgent];
  }

  /* Facts about the prompt literals, one per literal: each is brace-free,
     and each doubled-brace block starts with a quote. */

  lemma InputDataPlain() ensures NoBraces(InputData) { }
  lemma ExampleDataPlain() ensures NoBraces(ExampleData) { }
  lemma ExampleCodePlain() ensures NoBraces(ExampleCode) { }
  lemma ExecutorRulePlain() ensures NoBraces(ExecutorRule) { }
  lemma ExecutorRuleEndPlain() ensures NoBraces(ExecutorRuleEnd) { }
  lemma ExecutorStepPlain() ensures NoBraces(ExecutorStep) { }
  lemma ExecutorStepEndPlain() ensures NoBraces(ExecutorStepEnd) { }
  lemma FormatterStepPlain() ensures NoBraces(FormatterStep) { }

  lemma BarExample1Plain() ensures NoBraces(BarExample1) { }
  lemma BarExample2Plain() ensures NoBraces(BarExample2) { }
  lemma BarExampleWellFormed()
    ensures NoBraces(BarExample) && HasPunctuation(BarExample)
  {
    BarExample1Plain();
    BarExample2Plain();
    NoBracesAppend(BarExample1, BarExample2);
    assert BarExample[0] == '"';
  }

  lemma BarCode1Plain() ensures NoBraces(BarCode1) { }
  lemma BarCode2Plain() ensures NoBraces(BarCode2) { }
  lemma BarCodeWellFormed()
    ensures NoBraces(BarCode) && HasPunctuation(BarCode)
  {
    BarCode1Plain();
    BarCode2Plain();
    NoBracesAppend(BarCode1, BarCode2);
    assert BarCode[0] == '\'';
  }

  lemma LineExample1Plain() ensures NoBraces(LineExample1) { }
  lemma LineExample2Plain() ensures NoBraces(LineExample2) { }
  lemma LineExample3Plain() ensures NoBraces(LineExample3) { }
  lemma LineExampleWellFormed()
    ensures NoBraces(LineExample) && HasPunctuation(LineExample)
  {
    LineExample1Plain();
    LineExample2Plain();
    LineExample3Plain();
    NoBracesAppend(LineExample1, LineExample2);
    NoBracesAppend(LineExample1 + LineExample2, LineExample3);
    assert LineExample[0] == '"';
  }

  lemma LineCode1Plain() ensures NoBraces(LineCode1) { }
  lemma LineCode2Plain() ensures NoBraces(LineCode2) { }
  lemma LineCode3Plain() ensures NoBraces(LineCode3) { }
  lemma LineCodeWellFormed()
    ensures NoBraces(LineCode) && HasPunctuation(LineCode)
  {
    LineCode1Plain();
    LineCode2Plain();
    LineCode3Plain();
    NoBracesAppend(LineCode1, LineCode2);
    NoBracesAppend(LineCode1 + LineCode2, LineCode3);
    assert LineCode[0] == '\'';
  }

  lemma MultiExample1Plain() ensures NoBraces(MultiExample1) { }
  lemma MultiExample2Plain() ensures NoBraces(MultiExample2) { }
  lemma MultiExample3Plain() ensures NoBraces(MultiExample3) { }
  lemma MultiExample4Plain() ensures NoBraces(MultiExample4) { }
  lemma MultiExampleWellFormed()
    ensures NoBraces(MultiExample) && HasPunctuation(MultiExample)
  {
    MultiExample1Plain();
    MultiExample2Plain();
    MultiExample3Plain();
    MultiExample4Plain();
    NoBracesAppend(MultiExample1, MultiExample2);
    NoBracesAppend(MultiExample1 + MultiExample2, MultiExample3);
    NoBracesAppend(MultiExample1 + MultiExample2 + MultiExample3, MultiExample4);
    assert MultiExample[0] == '"';
  }

  lemma MultiCode1Plain() ensures NoBraces(MultiCode1) { }
  lemma MultiCode2Plain() ensures NoBraces(MultiCode2) { }
  lemma MultiCode3Plain() ensures NoBraces(MultiCode3) { }
  lemma MultiCode4Plain() ensures NoBraces(MultiCode4) { }
  lemma MultiCodeWellFormed()
    ensures NoBraces(MultiCode) && HasPunctuation(MultiCode)
  {
    MultiCode1Plain();
    MultiCode2Plain();
    MultiCode3Plain();
    MultiCode4Plain();
    NoBracesAppend(MultiCode1, MultiCode2);
    NoBracesAppend(MultiCode1 + MultiCode2, MultiCode3);
    NoBracesAppend(MultiCode1 + MultiCode2 + MultiCode3, MultiCode4);
    assert MultiCode[0] == '\'';
  }

  /** The state keys each declared stage reads, found by scanning its
      template: the example data in doubled braces reads nothing. */
  lemma SilentStagesRead()
    ensures Reads(TextToSqlAgent) == [] && Reads(ExplanationAgent) == []
  {
  }

  lemma ExecutorReads()
    ensures WellFormedPieces(SqlExecutorAgent.instruction)
    ensures forall k :: k in PieceReads(SqlExecutorAgent.instruction) <==> k == "sql_query"
    ensures forall k :: k in Reads(SqlExecutorAgent) <==> k == "sql_query"
  {
    ExecutorPieces();
    PlaceholdersOfPieces(SqlExecutorAgent.instruction);
  }

  /** The executor's template pieces are well formed and read only the
      query. */
  lemma ExecutorPieces()
    ensures WellFormedPieces(SqlExecutorAgent.instruction)
    ensures forall k :: k in PieceReads(SqlExecutorAgent.instruction) <==> k == "sql_query"
  {
    ExecutorRulePlain();
    ExecutorRuleEndPlain();
    ExecutorStepPlain();
    ExecutorStepEndPlain();
    assert SqlExecutorAgent.instruction[2] == Read("sql_query");
  }

  lemma FormatterReads()
    ensures WellFormedPieces(DataFormatterAgent.instruction)
    ensures PieceReads(DataFormatterAgent.instruction) == ["query_results"]
    ensures Reads(DataFormatterAgent) == ["query_results"]
  {
    FormatterStepPlain();
    PlaceholdersOfPieces(DataFormatterAgent.instruction);
    var ps := DataFormatterAgent.instruction;
    assert ps[1..][1..] == [];
    assert PieceReads(ps[1..][1..]) == [];
    assert PieceReads(ps[1..]) == ["query_results"];
  }

  /** A worked example is well formed and reads nothing. */
  lemma ExampleBlockReadsNothing(data: string, code: string)
    requires NoBraces(data) && HasPunctuation(data)
    requires NoBraces(code) && HasPunctuation(code)
    ensures WellFormedPieces(ExampleBlock(data, code))
    ensures PieceReads(ExampleBlock(data, code)) == []
  {
    ExampleDataPlain();
    ExampleCodePlain();
    var b := ExampleBlock(data, code);
    assert b[1..][1..][1..][1..] == [];
    assert PieceReads(b[1..][1..][1..]) == [];
    assert PieceReads(b[1..][1..]) == [];
    assert PieceReads(b[1..]) == [];
  }

  lemma VisualizationReads()
    ensures WellFormedPieces(VisualizationAgent.instruction)
    ensures PieceReads(VisualizationAgent.instruction) == ["query_results"]
    ensures Reads(VisualizationAgent) == ["query_results"]
  {
    var intro := [Text(InputData), Read("query_results")];
    IntroReads();
    BarBlock();
    LineBlock();
    MultiBlock();
    JoinQuiet(intro, ExampleBlock(BarExample, BarCode), ExampleBlock(LineExample, LineCode),
              ExampleBlock(MultiExample, MultiCode));
    PlaceholdersOfPieces(VisualizationAgent.instruction);
  }

  lemma IntroReads()
    ensures WellFormedPieces([Text(InputData), Read("query_results")])
    ensures PieceReads([Text(InputData), Read("query_results")]) == ["query_results"]
  {
    var intro := [Text(InputData), Read("query_results")];
    InputDataPlain();
    assert intro[1..] == [Read("query_results")];
    assert intro[1..][1..] == [];
    assert PieceReads(intro[1..][1..]) == [];
    assert PieceReads(intro[1..]) == ["query_results"];
  }

  lemma BarBlock()
    ensures WellFormedPieces(ExampleBlock(BarExample, BarCode))
    ensures PieceReads(ExampleBlock(BarExample, BarCode)) == []
  {
    BarExampleWellFormed();
    BarCodeWellFormed();
    ExampleBlockReadsNothing(BarExample, BarCode);
  }

  lemma LineBlock()
    ensures WellFormedPieces(ExampleBlock(LineExample, LineCode))
    ensures PieceReads(ExampleBlock(LineExample, LineCode)) == []
  {
    LineExampleWellFormed();
    LineCodeWellFormed();
    ExampleBlockReadsNothing(LineExample, LineCode);
  }

  lemma MultiBlock()
    ensures WellFormedPieces(ExampleBlock(MultiExample, MultiCode))
    ensures PieceReads(ExampleBlock(MultiExample, MultiCode)) == []
  {
    MultiExampleWellFormed();
    MultiCodeWellFormed();
    ExampleBlockReadsNothing(MultiExample, MultiCode);
  }

  /** Appending well-formed pieces that read nothing keeps the reads. */
  lemma JoinQuiet(a: seq<Piece>, b: seq<Piece>, c: seq<Piece>, d: seq<Piece>)
    requires WellFormedPieces(a) && WellFormedPieces(b) && WellFormedPieces(c) && WellFormedPieces(d)
    requires PieceReads(b) == [] && PieceReads(c) == [] && PieceReads(d) == []
    ensures WellFormedPieces(a + b + c + d)
    ensures PieceReads(a + b + c + d) == PieceReads(a)
  {
    WellFormedAppend(a, b);
    WellFormedAppend(a + b, c);
    WellFormedAppend(a + b + c, d);
    PieceReadsAppend(a, b);
    PieceReadsAppend(a + b, c);
    PieceReadsAppend(a + b + c, d);
  }

  /* ---------------------------------------------------------------------
     The root pipeline.
     --------------------------------------------------------------------- */

  const RootOutputKeys: seq<string> := ["sql_query", "query_results", "chart_spec", "explanation_text"]

  /** Each stage of the root pipeline writes its own key, in stage order,
      and no two stages write the same key. */
  lemma RootOutputs()
    ensures OutputKeys(Flatten(RootAgent)) == RootOutputKeys
    ensures forall i, j :: 0 <= i < j < |RootOutputKeys| ==> RootOutputKeys[i] != RootOutputKeys[j]
  {
    RootStages();
  }

  /** The first two stages: SQL generation, then execution reading the
      generated query. */
  lemma ExecutorAfterGenerator()
    ensures ReadsWrittenEarlier([TextToSqlAgent, SqlExecutorAgent], {})
    ensures OutputKeys([TextToSqlAgent, SqlExecutorAgent]) == ["sql_query", "query_results"]
  {
    var s1 := [TextToSqlAgent];
    GeneratorFirst();
    ExecutorPieces();
    ReadsWrittenEarlierSnoc(s1, SqlExecutorAgent, {});
    assert s1 + [SqlExecutorAgent] == [TextToSqlAgent, SqlExecutorAgent];
  }

  /** The first stage reads nothing and writes the query. */
  lemma GeneratorFirst()
    ensures ReadsWrittenEarlier([TextToSqlAgent], {})
    ensures OutputKeys([TextToSqlAgent]) == ["sql_query"]
  {
    ReadsWrittenEarlierSnoc([], TextToSqlAgent, {});
    assert [] + [TextToSqlAgent] == [TextToSqlAgent];
  }

  /** Every key a root stage reads is written by an earlier stage, starting
      from an empty session. */
  lemma RootReadsWrittenEarlier()
    ensures ReadsWrittenEarlier(Flatten(RootAgent), {})
  {
    ExecutorAfterGenerator();
    var s2 := [TextToSqlAgent, SqlExecutorAgent];
    assert OutputKeys(s2)[1] == "query_results";
    InsightsAfter(s2);
    RootStages();
    assert s2 + [VisualizationAgent] + [ExplanationAgent] == Flatten(RootAgent);
  }

  /** Whatever the model answers, a root run on a fresh session fails only
      if a model call fails; otherwise it ends with exactly the four output
      keys in the state, one event per stage in stage order. */
  lemma RootRun(generate: (string, string) -> Result<string>)
    requires forall n, t :: generate(n, t).Ok?
    ensures var r := RunAgent(RootAgent, map[], generate);
            && r.failure.None?
            && |r.events| == 4
            && r.events[0].author == "text_to_sql_agent"
            && r.events[1].author == "sql_executor_agent"
            && r.events[2].author == "visualization_agent"
            && r.events[3].author == "explanation_agent"
            && ApplyDeltas(map[], r.events).Keys == {"sql_query", "query_results", "chart_spec", "explanation_text"}
  {
    var stages := Flatten(RootAgent);
    RunFlatten(RootAgent, map[], generate);
    RootStagesRun(generate);
    RootNames();
    RootKeySet();
    var r := RunAll(stages, map[], generate);
    assert r.events[0].author == stages[0].name;
    assert r.events[1].author == stages[1].name;
    assert r.events[2].author == stages[2].name;
    assert r.events[3].author == stages[3].name;
  }

  /** The root stages run in order on a fresh session, each writing its
      key. */
  lemma RootStagesRun(generate: (string, string) -> Result<string>)
    requires forall n, t :: generate(n, t).Ok?
    ensures var stages := Flatten(RootAgent);
            var r := RunAll(stages, map[], generate);
            && r.failure.None?
            && |r.events| == |stages|
            && (forall i :: 0 <= i < |stages| ==> r.events[i].author == stages[i].name)
            && ApplyDeltas(map[], r.events).Keys == OutputKeySet(stages)
  {
    var empty: State := map[];
    assert empty.Keys == {};
    RootReadsWrittenEarlier();
    WellFormedRunsToEnd(Flatten(RootAgent), empty, generate);
  }

  /** The names of the root stages, in order. */
  lemma RootNames()
    ensures var stages := Flatten(RootAgent);
            && |stages| == 4
            && stages[0].name == "text_to_sql_agent"
            && stages[1].name == "sql_executor_agent"
            && stages[2].name == "visualization_agent"
            && stages[3].name == "explanation_agent"
  {
    RootStages();
  }

  /** The set of keys the root stages write. */
  lemma RootKeySet()
    ensures OutputKeySet(Flatten(RootAgent)) == {"sql_query", "query_results", "chart_spec", "explanation_text"}
  {
    RootStages();
    var stages := Flatten(RootAgent);
    assert stages[0].outputKey == "sql_query";
    assert stages[1].outputKey == "query_results";
    assert stages[2].outputKey == "chart_spec";
    assert stages[3].outputKey == "explanation_text";
  }

  /** The formatter stage is declared but never runs: no root stage is it,
      and nothing in a root run writes its key. */
  lemma FormatterExcluded(generate: (string, string) -> Result<string>)
    requires forall n, t :: generate(n, t).Ok?
    ensures DataFormatterAgent !in Flatten(RootAgent)
    ensures "formatted_data" !in ApplyDeltas(map[], RunAgent(RootAgent, map[], generate).events)
  {
    RootStages();
    RootRun(generate);
  }

  /** Only the first stage can look up the schema and only the second can
      run SQL. */
  lemma ToolBindings()
    ensures forall a :: a in Flatten(RootAgent) ==>
              (GetDatabaseSchemaTool in a.tools <==> a.name == "text_to_sql_agent")
    ensures forall a :: a in Flatten(RootAgent) ==>
              (ExecuteSqlAndFormatTool in a.tools <==> a.name == "sql_executor_agent")
  {
    RootStages();
  }

  /** The insight pipeline on its own cannot start on a fresh session: its
      first stage reads the executor's results. */
  lemma InsightNeedsResults(generate: (string, string) -> Result<string>)
    ensures RunAgent(InsightPipeline, map[], generate) == Run([], Some(MissingKeyMessage("query_results")))
  {
    var ps := VisualizationAgent.instruction;
    assert ps[0] == Text(InputData);
    assert ps[1..][0] == Read("query_results");
    assert Inject(ps[1..], map[]) == Raised(MissingKeyMessage("query_results"));
    assert RunAgent(VisualizationAgent, map[], generate) == Run([], Some(MissingKeyMessage("query_results")));
  }

  /** Put back at the third position, the formatter would find the
      executor's results in place. */
  lemma FormatterWouldFit()
    ensures ReadsWrittenEarlier([TextToSqlAgent, SqlExecutorAgent, DataFormatterAgent,
                                 VisualizationAgent, ExplanationAgent], {})
  {
    var s2 := [TextToSqlAgent, SqlExecutorAgent];
    ExecutorAfterGenerator();
    assert OutputKeys(s2)[1] == "query_results";
    FormatterAfter(s2);
    InsightsAfter(s2 + [DataFormatterAgent]);
    assert s2 + [DataFormatterAgent] + [VisualizationAgent] + [ExplanationAgent]
           == [TextToSqlAgent, SqlExecutorAgent, DataFormatterAgent, VisualizationAgent, ExplanationAgent];
  }

  /** The formatter fits after any well-formed prefix that writes the query
      results, and the results stay written. */
  lemma FormatterAfter(s2: seq<Agent>)
    requires forall i :: 0 <= i < |s2| ==> s2[i].Llm?
    requires ReadsWrittenEarlier(s2, {})
    requires "query_results" in OutputKeys(s2)
    ensures ReadsWrittenEarlier(s2 + [DataFormatterAgent], {})
    ensures "query_results" in OutputKeys(s2 + [DataFormatterAgent])
  {
    FormatterReads();
    ReadsWrittenEarlierSnoc(s2, DataFormatterAgent, {});
    assert OutputKeys(s2 + [DataFormatterAgent]) == OutputKeys(s2) + [DataFormatterAgent.outputKey];
  }

  /** The insight stages fit after any well-formed prefix that writes the
      query results. */
  lemma InsightsAfter(s3: seq<Agent>)
    requires forall i :: 0 <= i < |s3| ==> s3[i].Llm?
    requires ReadsWrittenEarlier(s3, {})
    requires "query_results" in OutputKeys(s3)
    ensures ReadsWrittenEarlier(s3 + [VisualizationAgent] + [ExplanationAgent], {})
  {
    VisualizationReads();
    ReadsWrittenEarlierSnoc(s3, VisualizationAgent, {});
    ReadsWrittenEarlierSnoc(s3 + [VisualizationAgent], ExplanationAgent, {});
  }
}
