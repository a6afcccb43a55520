/** The accuracy benchmark of the routing pipeline (backend/benchmark_mlx.py):
    every test question goes through the router, the tool fallback and the
    specialist exactly as the server sends it, the summariser runs for the
    tools whose results need words, and each attempt is graded on the
    router's choice, the specialist's call and the parameters it names. */
module Benchmark {
  import opened Wrappers
  import opened Text
  import ToolPrompts
  import Pipeline

  // ---------------------------------------------------------------------------
  // extract_tool_name (backend/benchmark_mlx.py:309-319)

  /** The router's tool name as the benchmark reads it: "NONE" for an empty
      output, otherwise the first word without backticks or quotes, trimmed;
      `None` where a blank but non-empty output makes Python raise
      `IndexError`. */
  function ExtractToolName(raw: string): (r: Option<string>)
    ensures raw == "" ==> r == Some("NONE")
    ensures raw != "" ==> r == Pipeline.RouterToken(raw)
  {
    if raw == "" then Some("NONE")
    else
      match FirstToken(raw)
      case None => None
      case Some(t) =>
        var u := Pipeline.Unquote(t);
        assert forall i :: 0 <= i < |u| ==> u[i] in t;
        StripSetOfStable(u, Whitespace);
        Some(Strip(u))
  }

  /** `generate_mlx` strips the router's output, so the benchmark never meets
      the blank output that would raise. */
  lemma StrippedOutputHasName(out: string)
    ensures ExtractToolName(Strip(out)).Some?
  {
    var s := Strip(out);
    if s != "" {
      assert s[0] !in Whitespace;
    }
  }

  // ---------------------------------------------------------------------------
  // grade (backend/benchmark_mlx.py:81-85, 326-354)

  /** A test question: the tool it expects and the `name=` texts the
      specialist's call must contain. The regular expression the call is
      matched against is left to a parameter. */
  datatype TestCase = TestCase(id: string, question: string, tool: string, params: seq<string>)

  /** `GRADE_WEIGHTS` in hundredths. */
  const RouterWeight: nat := 30
  const FnWeight: nat := 50
  const ParamWeight: nat := 20

  datatype Grades = Grades(routerOk: bool, fnOk: bool, paramOk: bool, composite: nat)

  function Points(ok: bool, weight: nat): nat {
    if ok then weight else 0
  }

  /** Every expected parameter text occurs in the output, ignoring case. */
  predicate ParamsPresent(params: seq<string>, out: string) {
    forall i :: 0 <= i < |params| ==> ContainsIgnoringCase(out, params[i])
  }

  /** The grade of one attempt, the composite in hundredths. */
  function Grade(tc: TestCase, routerTool: string, specOut: string, fnOk: bool): (g: Grades)
    ensures g.routerOk <==> Lower(Strip(routerTool)) == Lower(tc.tool)
    ensures g.fnOk == fnOk
    ensures g.paramOk <==> forall i :: 0 <= i < |tc.params| ==> Contains(Lower(specOut), Lower(tc.params[i]))
    ensures |tc.params| == 0 ==> g.paramOk
    ensures g.composite <= 100
    ensures g.composite == 100 <==> g.routerOk && g.fnOk && g.paramOk
    ensures g.composite == 0 <==> !g.routerOk && !g.fnOk && !g.paramOk
  {
    var routerOk := Lower(Strip(routerTool)) == Lower(tc.tool);
    var paramOk := if |tc.params| > 0 then ParamsPresent(tc.params, specOut) else true;
    Grades(routerOk, fnOk, paramOk,
           Points(routerOk, RouterWeight) + Points(fnOk, FnWeight) + Points(paramOk, ParamWeight))
  }

  /** Passing more of the checks never lowers the composite. */
  lemma GradeMonotone(tc: TestCase, a: string, b: string, outA: string, outB: string, fnA: bool, fnB: bool)
    requires Grade(tc, a, outA, fnA).routerOk ==> Grade(tc, b, outB, fnB).routerOk
    requires fnA ==> fnB
    requires Grade(tc, a, outA, fnA).paramOk ==> Grade(tc, b, outB, fnB).paramOk
    ensures Grade(tc, a, outA, fnA).composite <= Grade(tc, b, outB, fnB).composite
  {
  }

  /** The parameter check does not see the case of the output. */
  lemma ParamCheckIgnoresCase(tc: TestCase, out: string, fnOk: bool)
    ensures Grade(tc, "", Lower(out), fnOk).paramOk == Grade(tc, "", out, fnOk).paramOk
  {
    LowerIdempotent(out);
  }

  // ---------------------------------------------------------------------------
  // One attempt (backend/benchmark_mlx.py:438-478)

  /** The model under test: `generate_mlx` for one repetition, answering the
      messages or raising (the text of the exception). */
  type Chat = (nat, seq<Pipeline.Message>) -> Result<string, string>

  /** What the benchmark runs against: the model, the regular expression
      check of the specialist's call, the router and summary prompt files
      (empty when missing), the category list, today's date and the
      registry's wording. */
  datatype Bench = Bench(
    chat: Chat,
    fnMatch: (TestCase, string) -> bool,
    routerPrompt: string,
    summaryPrompt: string,
    metadata: string,
    today: string,
    wording: ToolPrompts.Wording)

  /** `_SUMMARY_TOOLS` */
  const SummaryTools: set<string> := {"calculate_statistics", "get_top_expenses"}

  /** One attempt at a question: the name read from the router, the tool
      after the fallback, the specialist's call, whether that call raised
      with a message, and whether the summariser ran. */
  datatype Attempt = Attempt(
    detected: string,
    tool: ToolPrompts.Tool,
    specOut: string,
    specFailed: bool,
    summarised: bool)

  /** `generate_mlx`'s output: the stripped answer, or "" with the error. */
  function Reply(r: Result<string, string>): (out: string)
    ensures r.Err? ==> out == ""
    ensures r.Ok? ==> out == Strip(r.value)
  {
    if r.Ok? then Strip(r.value) else ""
  }

  function Ask(b: Bench, rep: nat, system: string, question: string): Result<string, string> {
    b.chat(rep, [Pipeline.Message("system", system), Pipeline.Message("user", question)])
  }

  /** A failed call as `run_benchmark` sees it: the error is `str(exc)`,
      and only a non-empty text counts as an error. */
  predicate Raised(r: Result<string, string>) {
    r.Err? && r.error != ""
  }

  /** One attempt as `run_benchmark` makes it: the router's name (or
      "ERROR" when the call raised with a message), the fallback to `calculate_total` for a
      name outside the registry, the two-pass system prompt, the specialist's
      answer, and the summariser for the tools whose results need words. */
  function RunAttempt(tc: TestCase, rep: nat, b: Bench): (a: Attempt)
    requires ToolPrompts.GoodWording(b.wording)
    ensures Raised(Ask(b, rep, b.routerPrompt, tc.question)) ==> a.detected == "ERROR"
    ensures Ask(b, rep, b.routerPrompt, tc.question) == Err("") ==> a.detected == "NONE"
    ensures var reply := Ask(b, rep, b.routerPrompt, tc.question);
      reply.Ok? ==> ExtractToolName(Strip(reply.value)) == Some(a.detected)
    ensures a.detected in ToolPrompts.Registry <==> ToolPrompts.Name(a.tool) == a.detected
    ensures a.detected !in ToolPrompts.Registry ==> a.tool == ToolPrompts.CalculateTotal
    ensures a.summarised <==> ToolPrompts.Name(a.tool) in SummaryTools && !a.specFailed && b.summaryPrompt != ""
    ensures a.specFailed ==> a.specOut == ""
  {
    var routerReply := Ask(b, rep, b.routerPrompt, tc.question);
    StrippedOutputHasName(if routerReply.Ok? then routerReply.value else "");
    var detected := if Raised(routerReply) then "ERROR" else ExtractToolName(Reply(routerReply)).value;
    var routed := Pipeline.ResolveTool(detected, b.wording);
    ToolPrompts.PromptNamesTool(routed.tool, b.wording, b.metadata, b.today);
    var system := ToolPrompts.SecondPass(routed.template, b.metadata, b.today).value;
    var specReply := Ask(b, rep, system, tc.question);
    var summarised := ToolPrompts.Name(routed.tool) in SummaryTools && !Raised(specReply) && b.summaryPrompt != "";
    Attempt(detected, routed.tool, Reply(specReply), Raised(specReply), summarised)
  }

  /** A router answer whose first word is a tool's name, quoted or not,
      sends the question to that tool, as the server would. */
  lemma AttemptFollowsRouter(tc: TestCase, rep: nat, b: Bench, t: ToolPrompts.Tool)
    requires ToolPrompts.GoodWording(b.wording)
    requires Ask(b, rep, b.routerPrompt, tc.question).Ok?
    requires Pipeline.RouterToken(Strip(Ask(b, rep, b.routerPrompt, tc.question).value)) == Some(ToolPrompts.Name(t))
    ensures RunAttempt(tc, rep, b).detected == ToolPrompts.Name(t)
    ensures RunAttempt(tc, rep, b).tool == t
  {
    ToolPrompts.RegistryIsTheTools();
  }

  /** The attempt graded as the benchmark grades it: against the tool after
      the fallback. */
  function GradeAsWritten(tc: TestCase, rep: nat, b: Bench): (g: Grades)
    requires ToolPrompts.GoodWording(b.wording)
    ensures var a := RunAttempt(tc, rep, b);
      g.routerOk <==> Lower(Strip(ToolPrompts.Name(a.tool))) == Lower(tc.tool)
  {
    var a := RunAttempt(tc, rep, b);
    Grade(tc, ToolPrompts.Name(a.tool), a.specOut, b.fnMatch(tc, a.specOut))
  }

  /** Graded against the tool after the fallback, a question that expects
      `calculate_total` scores the router's part even when the router call
      failed outright. */
  lemma FallbackCreditsFailedRouter(tc: TestCase, rep: nat, b: Bench)
    requires ToolPrompts.GoodWording(b.wording)
    requires tc.tool == "calculate_total"
    requires Ask(b, rep, b.routerPrompt, tc.question).Err?
    ensures RunAttempt(tc, rep, b).detected == "ERROR" || RunAttempt(tc, rep, b).detected == "NONE"
    ensures GradeAsWritten(tc, rep, b).routerOk
  {
    ErrorIsNoToolName();
    NoneIsNoToolName();
    CalculateTotalReadsAsItself();
  }

  lemma ErrorIsNoToolName()
    ensures "ERROR" !in ToolPrompts.Registry
    ensures Strip("ERROR") == "ERROR"
  {
    StripSetOfStable("ERROR", Whitespace);
  }

  lemma NoneIsNoToolName()
    ensures "NONE" !in ToolPrompts.Registry
    ensures Strip("NONE") == "NONE"
  {
    StripSetOfStable("NONE", Whitespace);
  }

  lemma CalculateTotalReadsAsItself()
    ensures Strip(ToolPrompts.Name(ToolPrompts.CalculateTotal)) == "calculate_total"
  {
    var n := "calculate_total";
    assert ToolPrompts.Name(ToolPrompts.CalculateTotal) == n;
    StripSetOfStable(n, Whitespace);
  }

  /** The attempt graded against the name the router gave. */
  function GradeAttempt(tc: TestCase, rep: nat, b: Bench): (g: Grades)
    requires ToolPrompts.GoodWording(b.wording)
    ensures var a := RunAttempt(tc, rep, b);
      g.routerOk <==> Lower(Strip(a.detected)) == Lower(tc.tool)
  {
    var a := RunAttempt(tc, rep, b);
    Grade(tc, a.detected, a.specOut, b.fnMatch(tc, a.specOut))
  }

  /** The router's part is scored only when the router answered, and
      answered with the expected name. */
  lemma RouterCreditNeedsRouterAnswer(tc: TestCase, rep: nat, b: Bench)
    requires ToolPrompts.GoodWording(b.wording)
    requires Lower(tc.tool) != Lower("ERROR") && Lower(tc.tool) != Lower("NONE")
    requires GradeAttempt(tc, rep, b).routerOk
    ensures Ask(b, rep, b.routerPrompt, tc.question).Ok?
    ensures Lower(Strip(RunAttempt(tc, rep, b).detected)) == Lower(tc.tool)
  {
    ErrorIsNoToolName();
    NoneIsNoToolName();
  }

  // ---------------------------------------------------------------------------
  // The run (backend/benchmark_mlx.py:392-536)

  /** `WARMUP_REPS` */
  const WarmupReps: nat := 1

  /** A checkpoint row: the question, the repetition counted from 1 after the
      warm-up, the tool the question went to after the fallback (the
      `Detected_Tool` column) and the grades. */
  datatype Row = Row(tcId: string, repetition: nat, routedTo: string, grades: Grades)

  /** The per-question sums of the console report. */
  datatype Stats = Stats(tcId: string, routerOk: nat, fnOk: nat, paramOk: nat, composite: nat, reps: nat)

  /** The row of counted repetition `j` (from 0) of a question: the attempt
      numbered `j + WARMUP_REPS`, recorded as repetition `j + 1`, so that no
      warm-up attempt is ever recorded. */
  function RowOf(tc: TestCase, j: nat, b: Bench): (r: Row)
    requires ToolPrompts.GoodWording(b.wording)
    ensures r.tcId == tc.id && r.repetition == j + 1
    ensures r.routedTo == ToolPrompts.Name(RunAttempt(tc, j + WarmupReps, b).tool)
    ensures r.grades == GradeAttempt(tc, j + WarmupReps, b)
    ensures r.grades.composite <= 100
  {
    var rep := j + WarmupReps;
    Row(tc.id, rep - WarmupReps + 1, ToolPrompts.Name(RunAttempt(tc, rep, b).tool), GradeAttempt(tc, rep, b))
  }

  /** Where the rows come from: question and counted repetition to row. */
  type RowSource = (TestCase, nat) -> Row

  /** The benchmark's own rows. */
  function Recorder(b: Bench): (row: RowSource)
    requires ToolPrompts.GoodWording(b.wording)
    ensures forall tc, j :: row(tc, j) == RowOf(tc, j, b)
  {
    (tc: TestCase, j: nat) => RowOf(tc, j, b)
  }

  /** The rows of the first `n` counted repetitions of a question. */
  function CaseRows(tc: TestCase, n: nat, row: RowSource): (rows: seq<Row>)
    ensures |rows| == n
  {
    seq(n, j requires 0 <= j < n => row(tc, j))
  }

  /** One more counted repetition appends its row. */
  lemma CaseRowsStep(tc: TestCase, n: nat, row: RowSource)
    ensures CaseRows(tc, n + 1, row) == CaseRows(tc, n, row) + [row(tc, n)]
  {
    var longer := CaseRows(tc, n + 1, row);
    var shorter := CaseRows(tc, n, row);
    assert forall j :: 0 <= j < n ==> longer[j] == shorter[j];
  }

  /** Row `j` of a question's rows in a run is repetition `j + 1`, read off
      attempt `j + WARMUP_REPS`. */
  lemma RecordedRowsSkipWarmup(tc: TestCase, n: nat, b: Bench)
    requires ToolPrompts.GoodWording(b.wording)
    ensures forall j :: 0 <= j < n ==>
      && CaseRows(tc, n, Recorder(b))[j].repetition == j + 1
      && CaseRows(tc, n, Recorder(b))[j].grades == GradeAttempt(tc, j + WarmupReps, b)
  {
  }

  /** The rows of all questions, in order. */
  function AllRows(cases: seq<TestCase>, reps: nat, row: RowSource): seq<Row> {
    if |cases| == 0 then []
    else AllRows(cases[..|cases| - 1], reps, row) + CaseRows(cases[|cases| - 1], reps, row)
  }

  /** Each question contributes exactly `reps` rows. */
  lemma {:induction false} AllRowsLength(cases: seq<TestCase>, reps: nat, row: RowSource)
    ensures |AllRows(cases, reps, row)| == |cases| * reps
  {
    if |cases| > 0 {
      var n := |cases| - 1;
      AllRowsLength(cases[..n], reps, row);
      assert |AllRows(cases, reps, row)| == n * reps + reps;
      assert n * reps + reps == (n + 1) * reps;
    }
  }

  function RouterOkCount(rows: seq<Row>): (n: nat)
    ensures n <= |rows|
  {
    if |rows| == 0 then 0 else RouterOkCount(rows[..|rows| - 1]) + Points(rows[|rows| - 1].grades.routerOk, 1)
  }

  function FnOkCount(rows: seq<Row>): (n: nat)
    ensures n <= |rows|
  {
    if |rows| == 0 then 0 else FnOkCount(rows[..|rows| - 1]) + Points(rows[|rows| - 1].grades.fnOk, 1)
  }

  function ParamOkCount(rows: seq<Row>): (n: nat)
    ensures n <= |rows|
  {
    if |rows| == 0 then 0 else ParamOkCount(rows[..|rows| - 1]) + Points(rows[|rows| - 1].grades.paramOk, 1)
  }

  function CompositeSum(rows: seq<Row>): nat {
    if |rows| == 0 then 0 else CompositeSum(rows[..|rows| - 1]) + rows[|rows| - 1].grades.composite
  }

  /** The console statistics of a question's counted rows. */
  function StatsOf(tc: TestCase, rows: seq<Row>): Stats {
    Stats(tc.id, RouterOkCount(rows), FnOkCount(rows), ParamOkCount(rows), CompositeSum(rows), |rows|)
  }

  /** With every composite at most 100, the sum is at most 100 per row, and
      reaches it exactly when every attempt passed everything. */
  lemma {:induction false} CompositeBound(rows: seq<Row>)
    requires forall i :: 0 <= i < |rows| ==> rows[i].grades.composite <= 100
    ensures CompositeSum(rows) <= 100 * |rows|
    ensures CompositeSum(rows) == 100 * |rows| <==> forall i :: 0 <= i < |rows| ==> rows[i].grades.composite == 100
  {
    if |rows| > 0 {
      var init := rows[..|rows| - 1];
      CompositeBound(init);
      assert forall i :: 0 <= i < |init| ==> init[i] == rows[i];
    }
  }

  /** `run_benchmark` for one model: every question `reps + WARMUP_REPS`
      times, the warm-up attempts run but neither checkpointed nor counted. */
  method RunBenchmark(cases: seq<TestCase>, reps: nat, b: Bench) returns (rows: seq<Row>, stats: seq<Stats>)
    requires ToolPrompts.GoodWording(b.wording)
    ensures rows == AllRows(cases, reps, Recorder(b))
    ensures |rows| == |cases| * reps
    ensures |stats| == |cases|
    ensures forall i :: 0 <= i < |cases| ==>
      stats[i] == StatsOf(cases[i], CaseRows(cases[i], reps, Recorder(b))) && stats[i].reps == reps
      && stats[i].composite <= 100 * reps
  {
    rows, stats := RunWith(cases, reps, Recorder(b));
  }

  /** The loops of `run_benchmark`, for any source of graded rows. */
  method RunWith(cases: seq<TestCase>, reps: nat, row: RowSource) returns (rows: seq<Row>, stats: seq<Stats>)
    requires forall tc, j :: row(tc, j).grades.composite <= 100
    ensures rows == AllRows(cases, reps, row)
    ensures |rows| == |cases| * reps
    ensures |stats| == |cases|
    ensures forall i :: 0 <= i < |cases| ==>
      stats[i] == StatsOf(cases[i], CaseRows(cases[i], reps, row)) && stats[i].reps == reps
      && stats[i].composite <= 100 * reps
  {
    rows := [];
    stats := [];
    var i := 0;
    while i < |cases|
      invariant 0 <= i <= |cases|
      invariant rows == AllRows(cases[..i], reps, row)
      invariant |stats| == i
      invariant forall k :: 0 <= k < i ==>
        stats[k] == StatsOf(cases[k], CaseRows(cases[k], reps, row)) && stats[k].composite <= 100 * reps
    {
      var caseRows, st := RunCase(cases[i], reps, row);
      assert cases[..i + 1][..i] == cases[..i];
      rows := rows + caseRows;
      stats := stats + [st];
      i := i + 1;
    }
    assert cases[..|cases|] == cases;
    AllRowsLength(cases, reps, row);
  }

  /** One question: `reps + WARMUP_REPS` attempts, of which the first
      `WARMUP_REPS` are neither checkpointed nor counted. */
  method RunCase(tc: TestCase, reps: nat, row: RowSource) returns (caseRows: seq<Row>, st: Stats)
    requires forall tc, j :: row(tc, j).grades.composite <= 100
    ensures caseRows == CaseRows(tc, reps, row)
    ensures st == StatsOf(tc, caseRows) && st.reps == reps
    ensures st.composite <= 100 * reps
  {
    caseRows := [];
    var routerOk, fnOk, paramOk, composite := 0, 0, 0, 0;
    var rep := 0;
    while rep < reps + WarmupReps
      invariant 0 <= rep <= reps + WarmupReps
      invariant caseRows == CaseRows(tc, if rep <= WarmupReps then 0 else rep - WarmupReps, row)
      invariant routerOk == RouterOkCount(caseRows) && fnOk == FnOkCount(caseRows)
      invariant paramOk == ParamOkCount(caseRows) && composite == CompositeSum(caseRows)
    {
      if rep >= WarmupReps {
        var r := row(tc, rep - WarmupReps);
        CaseRowsStep(tc, rep - WarmupReps, row);
        var before := caseRows;
        caseRows := caseRows + [r];
        assert caseRows[..|caseRows| - 1] == before;
        routerOk := routerOk + Points(r.grades.routerOk, 1);
        fnOk := fnOk + Points(r.grades.fnOk, 1);
        paramOk := paramOk + Points(r.grades.paramOk, 1);
        composite := composite + r.grades.composite;
      }
      rep := rep + 1;
    }
    CompositeBound(caseRows);
    st := Stats(tc.id, routerOk, fnOk, paramOk, composite, |caseRows|);
  }
}
