/** The filter-and-aggregate logic of three analytical tools
    (backend/utils/analysis_tools.py): `calculate_total`,
    `plot_comparison_bars` and `get_top_expenses`. Each tool returns an
    optional figure and a message, or raises. */
module Analysis {
  import opened Wrappers
  import opened Text
  import opened Values
  import opened Frames
  import opened Sorting
  import opened ToolArgs

  /** The figures the tools draw, reduced to the data they show. */
  datatype Figure =
    | Pie(slices: seq<(string, int)>)
    | Bars(first: string, second: string)
    | Plotted

  datatype ToolOutput = ToolOutput(fig: Option<Figure>, msg: string)

  /** `f"¥{x:,.0f}"` for a whole amount. */
  function Yen(x: int): string {
    "¥" + Grouped(x)
  }

  // ---------------------------------------------------------------------------
  // calculate_total

  /** What `calculate_total` found: nothing, or the sum and count of the
      selected rows. */
  datatype TotalReport =
    | NoneFound(subject: string, period: string)
    | Found(subject: string, period: string, total: int, count: nat)

  /** The selection `calculate_total` makes: the one time filter and the one
      category filter its priority chains pick, applied to every row. */
  function TotalSelection(rows: seq<Txn>, kw: Kwargs): (r: Result<TotalReport, ToolError>)
    ensures r.Ok? <==> TotalTime(kw).Ok? && CategoryArg(kw, "Total").Ok?
    ensures TotalTime(kw).Err? ==> r == Err(TotalTime(kw).error)
    ensures r.Ok? ==>
      var tc, cc := TotalTime(kw).value, CategoryArg(kw, "Total").value;
      && r.value.subject == cc.caption && r.value.period == tc.caption
      && (r.value.NoneFound? <==> MatchingCount(rows, tc.filter, cc.filter) == 0)
      && (r.value.Found? ==>
            && r.value.total == MatchingTotal(rows, tc.filter, cc.filter)
            && r.value.count == MatchingCount(rows, tc.filter, cc.filter))
  {
    var tc :- TotalTime(kw);
    var cc :- CategoryArg(kw, "Total");
    var data := Select(rows, tc.filter, cc.filter);
    SelectTotal(rows, tc.filter, cc.filter);
    if |data| == 0 then Ok(NoneFound(cc.caption, tc.caption))
    else Ok(Found(cc.caption, tc.caption, Total(data), |data|))
  }

  /** The message for a report; the average is rounded half to even. */
  function TotalMessage(rep: TotalReport): string {
    match rep
    case NoneFound(subject, period) =>
      "No transactions found for " + (subject + " in " + period + ".")
    case Found(subject, period, total, count) =>
      Label(subject, period) + Figures(total, count)
  }

  /** "subject in period: " */
  function Label(subject: string, period: string): string {
    subject + (" in " + period + ": ")
  }

  /** "¥total (n=count, avg ¥average)" */
  function Figures(total: int, count: nat): string {
    var avg := if count > 0 then RoundHalfEven(total, count) else 0;
    Yen(total) + " (n=" + IntToString(count) + ", avg " + Yen(avg) + ")"
  }

  /** `calculate_total`: never a figure. */
  function CalculateTotal(rows: seq<Txn>, kw: Kwargs): (r: Result<ToolOutput, ToolError>)
    ensures r.Ok? <==> TotalSelection(rows, kw).Ok?
    ensures r.Ok? ==> r.value.fig.None?
  {
    var rep :- TotalSelection(rows, kw);
    Ok(ToolOutput(None, TotalMessage(rep)))
  }

  /** The message of a successful report leads with its label, so a total
      over all categories reads "Total in ...". */
  lemma TotalMessageLeadsWithLabel(rep: TotalReport)
    ensures rep.Found? ==> StartsWith(TotalMessage(rep), Label(rep.subject, rep.period))
    ensures rep.Found? ==> StartsWith(TotalMessage(rep), rep.subject)
    ensures rep.NoneFound? ==> StartsWith(TotalMessage(rep), "No transactions found for ")
  {
    match rep
    case Found(subject, period, total, count) =>
      StartsWithAppend(Label(subject, period), Figures(total, count));
      StartsWithAppend(subject, " in " + period + ": ");
      StartsWithTransitive(TotalMessage(rep), Label(subject, period), subject);
    case NoneFound(subject, period) =>
      StartsWithAppend("No transactions found for ", subject + " in " + period + ".");
  }

  /** Without any category argument and with matching rows the message starts
      with "Total". */
  lemma UnfilteredTotalSaysTotal(rows: seq<Txn>, kw: Kwargs)
    requires !Truthy(Get(kw, "category")) && !Truthy(Get(kw, "major_category")) && !Truthy(Get(kw, "remarks"))
    requires TotalTime(kw).Ok?
    requires MatchingCount(rows, TotalTime(kw).value.filter, AnyCategory) > 0
    ensures CalculateTotal(rows, kw).Ok?
    ensures StartsWith(CalculateTotal(rows, kw).value.msg, "Total")
  {
    var rep := TotalSelection(rows, kw).value;
    assert rep.subject == "Total";
    TotalMessageLeadsWithLabel(rep);
  }

  // ---------------------------------------------------------------------------
  // plot_comparison_bars

  /** The first day a period covers, for ordering periods. */
  function Start(f: TimeFilter): (int, int, int) {
    match f
    case OnDay(y, m, d) => (y, m, d)
    case InMonth(y, m) => (y, m, 1)
    case InYear(y) => (y, 1, 1)
    case YearSpan(a, _) => (a, 1, 1)
    case AnyTime => (0, 1, 1)
  }

  predicate StartsBefore(a: TimeFilter, b: TimeFilter) {
    var (y1, m1, d1) := Start(a);
    var (y2, m2, d2) := Start(b);
    DateBefore(y1, m1, d1, y2, m2, d2)
  }

  /** The two periods as the arguments give them, before any swap: two days
      when both day arguments are truthy, else two months when both month
      arguments are, else two years. */
  function ArgumentPeriods(kw: Kwargs): (r: Result<(TimeChoice, TimeChoice), ToolError>)
    ensures r.Ok? && Truthy(Get(kw, "d1")) && Truthy(Get(kw, "d2")) ==>
      r.value.0.filter.OnDay? && r.value.1.filter.OnDay?
    ensures r.Ok? && !(Truthy(Get(kw, "d1")) && Truthy(Get(kw, "d2")))
                  && Truthy(Get(kw, "m1")) && Truthy(Get(kw, "m2")) ==>
      r.value.0.filter.InMonth? && r.value.1.filter.InMonth?
    ensures r.Ok? && !(Truthy(Get(kw, "d1")) && Truthy(Get(kw, "d2")))
                  && !(Truthy(Get(kw, "m1")) && Truthy(Get(kw, "m2"))) ==>
      r.value.0.filter.InYear? && r.value.1.filter.InYear?
    ensures r.Ok? && r.value.0.filter.OnDay? ==>
      ValidTimestamp(r.value.0.filter.y, r.value.0.filter.m, r.value.0.filter.d)
      && ValidTimestamp(r.value.1.filter.y, r.value.1.filter.m, r.value.1.filter.d)
  {
    var y1, m1, d1 := Get(kw, "y1"), Get(kw, "m1"), Get(kw, "d1");
    var y2, m2, d2 := Get(kw, "y2"), Get(kw, "m2"), Get(kw, "d2");
    if Truthy(d1) && Truthy(d2) then
      var a :- IntArg(y1);
      var b :- IntArg(m1);
      var c :- IntArg(d1);
      var _ :- Timestamp(a, b, c);
      var e :- IntArg(y2);
      var f :- IntArg(m2);
      var g :- IntArg(d2);
      var _ :- Timestamp(e, f, g);
      Ok((TimeChoice(OnDay(a, b, c), DateText(a, b, c)), TimeChoice(OnDay(e, f, g), DateText(e, f, g))))
    else if Truthy(m1) && Truthy(m2) then
      var a :- IntArg(y1);
      var b :- IntArg(m1);
      var _ :- Timestamp(a, b, 1);
      var e :- IntArg(y2);
      var f :- IntArg(m2);
      var _ :- Timestamp(e, f, 1);
      var p :- Pad2Arg(m1);
      var q :- Pad2Arg(m2);
      Ok((TimeChoice(InMonth(a, b), ToStr(y1) + "-" + p), TimeChoice(InMonth(e, f), ToStr(y2) + "-" + q)))
    else
      var a :- IntArg(y1);
      var e :- IntArg(y2);
      Ok((TimeChoice(InYear(a), ToStr(y1)), TimeChoice(InYear(e), ToStr(y2))))
  }

  /** The periods in display order: swapped exactly when the second starts
      strictly before the first. */
  function ComparisonPeriods(kw: Kwargs): (r: Result<(TimeChoice, TimeChoice), ToolError>)
    ensures r.Ok? <==> ArgumentPeriods(kw).Ok?
    ensures r.Ok? ==> !StartsBefore(r.value.1.filter, r.value.0.filter)
    ensures r.Ok? ==>
      var (p, q) := ArgumentPeriods(kw).value;
      if StartsBefore(q.filter, p.filter) then r.value == (q, p) else r.value == (p, q)
  {
    var (p, q) :- ArgumentPeriods(kw);
    if StartsBefore(q.filter, p.filter) then Ok((q, p)) else Ok((p, q))
  }

  /** Changing the argument order of two distinct-starting periods changes
      nothing in the display order. */
  lemma ComparisonOrderIrrelevant(p: TimeChoice, q: TimeChoice)
    requires Start(p.filter) != Start(q.filter)
    ensures (if StartsBefore(q.filter, p.filter) then (q, p) else (p, q))
         == (if StartsBefore(p.filter, q.filter) then (p, q) else (q, p))
  {
  }

  datatype Direction = Increase | Decrease | NoChange

  /** The direction word as written: a percentage against `total1` when it is
      positive, else 100 when `total2` is positive and 0 otherwise. */
  function ChangeDirection(total1: int, total2: int): (d: Direction)
    ensures total1 > 0 ==> (d == Increase <==> total2 > total1) && (d == Decrease <==> total2 < total1)
    ensures total1 <= 0 ==> (d == Increase <==> total2 > 0) && d != Decrease
  {
    if total1 > 0 then
      (if total2 > total1 then Increase else if total2 < total1 then Decrease else NoChange)
    else if total2 > 0 then Increase
    else NoChange
  }

  /** For totals that are not negative the word matches the sign of
      `total2 - total1`, including a zero first total. */
  lemma DirectionOfNonNegativeTotals(total1: int, total2: int)
    requires total1 >= 0 && total2 >= 0
    ensures ChangeDirection(total1, total2) == Increase <==> total2 > total1
    ensures ChangeDirection(total1, total2) == Decrease <==> total2 < total1
    ensures ChangeDirection(total1, total2) == NoChange <==> total2 == total1
  {
  }

  /** `abs(change_pct)` in tenths of a percent, as `:.1f` shows it. */
  function ChangeTenths(total1: int, total2: int): (t: nat)
    ensures total1 > 0 ==> total1 * (2 * t - 1) <= 2000 * Abs(total2 - total1) <= total1 * (2 * t + 1)
    ensures total1 <= 0 ==> t == (if total2 > 0 then 1000 else 0)
  {
    if total1 > 0 then
      var x := RoundHalfEven(Abs(total2 - total1) * 1000, total1);
      if x < 0 then 0 else x
    else if total2 > 0 then 1000
    else 0
  }

  function Abs(x: int): nat {
    if x < 0 then -x else x
  }

  /** A count of tenths as `"12.3"`. */
  function TenthsText(t: nat): string {
    IntToString(t / 10) + "." + [DigitChar(t % 10)]
  }

  function DirectionWord(d: Direction): string {
    match d
    case Increase => "increase"
    case Decrease => "decrease"
    case NoChange => "no change"
  }

  /** What the comparison found: a period without rows, or the two totals in
      display order. */
  datatype ComparisonReport =
    | Insufficient(first: string, second: string)
    | Compared(first: string, second: string, total1: int, total2: int)

  /** The comparison's selection: the category filter (default "All
      Categories") is applied to both periods after they are ordered. */
  function ComparisonSelection(rows: seq<Txn>, kw: Kwargs): (r: Result<ComparisonReport, ToolError>)
    ensures r.Ok? <==> ComparisonPeriods(kw).Ok? && CategoryArg(kw, "All Categories").Ok?
    ensures ComparisonPeriods(kw).Err? ==> r == Err(ComparisonPeriods(kw).error)
    ensures r.Ok? ==>
      var (p, q) := ComparisonPeriods(kw).value;
      var cf := CategoryArg(kw, "All Categories").value.filter;
      && r.value.first == p.caption && r.value.second == q.caption
      && (r.value.Insufficient? <==>
            MatchingCount(rows, p.filter, cf) == 0 || MatchingCount(rows, q.filter, cf) == 0)
      && (r.value.Compared? ==>
            r.value.total1 == MatchingTotal(rows, p.filter, cf)
            && r.value.total2 == MatchingTotal(rows, q.filter, cf))
  {
    var (p, q) :- ComparisonPeriods(kw);
    var cc :- CategoryArg(kw, "All Categories");
    var data1 := Select(rows, p.filter, cc.filter);
    var data2 := Select(rows, q.filter, cc.filter);
    SelectTotal(rows, p.filter, cc.filter);
    SelectTotal(rows, q.filter, cc.filter);
    if |data1| == 0 || |data2| == 0 then Ok(Insufficient(p.caption, q.caption))
    else Ok(Compared(p.caption, q.caption, Total(data1), Total(data2)))
  }

  function ComparisonMessage(rep: ComparisonReport): string {
    match rep
    case Insufficient(p, q) => "Insufficient data to compare " + p + " and " + q + "."
    case Compared(p, q, t1, t2) =>
      "Comparison: " + p + " (" + Yen(t1) + ") vs " + q + " (" + Yen(t2) + ") | Change: "
        + TenthsText(ChangeTenths(t1, t2)) + "% " + DirectionWord(ChangeDirection(t1, t2))
  }

  /** `plot_comparison_bars`: a bar chart of the two ordered periods, or no
      figure when one of them has no rows. */
  function PlotComparisonBars(rows: seq<Txn>, kw: Kwargs): (r: Result<ToolOutput, ToolError>)
    ensures r.Ok? <==> ComparisonSelection(rows, kw).Ok?
    ensures r.Ok? ==> (r.value.fig.None? <==> ComparisonSelection(rows, kw).value.Insufficient?)
    ensures r.Ok? && r.value.fig.Some? ==>
      r.value.fig.value == Bars(ComparisonPeriods(kw).value.0.caption, ComparisonPeriods(kw).value.1.caption)
  {
    var rep :- ComparisonSelection(rows, kw);
    match rep
    case Insufficient(_, _) => Ok(ToolOutput(None, ComparisonMessage(rep)))
    case Compared(p, q, _, _) => Ok(ToolOutput(Some(Bars(p, q)), ComparisonMessage(rep)))
  }

  // ---------------------------------------------------------------------------
  // get_top_expenses

  /** `n` as `nlargest` receives it: 10 when not given, an integer as it
      is, and `False`, which `nlargest` reads as asking for no rows. `True`
      reaches a positional slice, which refuses a boolean, and any other
      value is refused too. */
  function CountArg(kw: Kwargs): (r: Result<Value, ToolError>)
    ensures "n" !in kw ==> r == Ok(VInt(10))
    ensures "n" in kw ==> (r.Ok? <==> kw["n"].VInt? || kw["n"] == VBool(false))
    ensures "n" in kw && r.Ok? ==> r.value == kw["n"]
    ensures r.Err? ==> r == Err(Raised("TypeError"))
  {
    if "n" !in kw then Ok(VInt(10))
    else match kw["n"]
      case VInt(_) => Ok(kw["n"])
      case VBool(b) => if b then Err(Raised("TypeError")) else Ok(VBool(false))
      case _ => Err(Raised("TypeError"))
  }

  /** How many rows `nlargest(n)` is asked for: `False` asks for none. */
  function Wanted(n: Value): int {
    if n.VInt? then n.i else 0
  }

  /** The rows whose expense is at least `floor`. */
  function AtLeast(rows: seq<Txn>, floor: int): (r: seq<Txn>)
    ensures |r| <= |rows|
    ensures forall t :: t in r <==> t in rows && t.expense >= floor
    ensures multiset(r) <= multiset(rows)
    ensures forall t :: multiset(r)[t] == if t.expense >= floor then multiset(rows)[t] else 0
  {
    if |rows| == 0 then []
    else
      assert rows == [rows[0]] + rows[1..];
      var rest := AtLeast(rows[1..], floor);
      if rows[0].expense >= floor then [rows[0]] + rest else rest
  }

  /** What `get_top_expenses` found. */
  datatype TopReport =
    | NoExpenses(subject: string, period: string)
    | Top(subject: string, period: string, n: Value, rows: seq<Txn>)

  function Expense(t: Txn): int {
    t.expense
  }

  /** `min_amount`: no floor when it is falsy, its number otherwise. */
  function AmountFloor(kw: Kwargs): (r: Result<Option<int>, ToolError>)
    ensures !Truthy(Get(kw, "min_amount")) ==> r == Ok(None)
    ensures Truthy(Get(kw, "min_amount")) ==>
      (r.Ok? <==> IntOf(Get(kw, "min_amount")).Some?) && (r.Ok? ==> r.value == IntOf(Get(kw, "min_amount")))
  {
    var m := Get(kw, "min_amount");
    if !Truthy(m) then Ok(None)
    else match IntOf(m)
      case Some(floor) => Ok(Some(floor))
      case None => Err(Raised("ValueError"))
  }

  /** Whether a row clears an optional floor. */
  predicate Clears(t: Txn, floor: Option<int>) {
    floor.Some? ==> t.expense >= floor.value
  }

  /** Whether a row passes the listing's time, category and amount filters. */
  predicate Candidate(t: Txn, tc: TimeChoice, cc: CategoryChoice, floor: Option<int>) {
    InTime(t, tc.filter) && InCategory(t, cc.filter) && Clears(t, floor)
  }

  /** The rows the listing chooses from: month or year, then category, then
      the amount floor. */
  function TopCandidates(rows: seq<Txn>, kw: Kwargs): (r: Result<(TimeChoice, CategoryChoice, seq<Txn>), ToolError>)
    ensures r.Ok? <==> MonthOrYear(kw, "all time").Ok? && CategoryArg(kw, "all expenses").Ok? && AmountFloor(kw).Ok?
    ensures MonthOrYear(kw, "all time").Err? ==> r == Err(MonthOrYear(kw, "all time").error)
    ensures r.Ok? ==> r.value.0 == MonthOrYear(kw, "all time").value && r.value.1 == CategoryArg(kw, "all expenses").value
    ensures r.Ok? ==> forall t :: t in r.value.2 <==> t in rows && Candidate(t, r.value.0, r.value.1, AmountFloor(kw).value)
    ensures r.Ok? ==> forall t :: multiset(r.value.2)[t] == if Candidate(t, r.value.0, r.value.1, AmountFloor(kw).value) then multiset(rows)[t] else 0
  {
    var tc :- MonthOrYear(kw, "all time");
    var cc :- CategoryArg(kw, "all expenses");
    var floor :- AmountFloor(kw);
    var kept := Select(rows, tc.filter, cc.filter);
    SelectKeepsCopies(rows, tc.filter, cc.filter);
    Ok((tc, cc, if floor.Some? then AtLeast(kept, floor.value) else kept))
  }

  /** `get_top_expenses` before the listing is written: nothing when no row
      is left, else the `n` largest left, largest first. */
  function TopSelection(rows: seq<Txn>, kw: Kwargs): (r: Result<TopReport, ToolError>)
    ensures TopCandidates(rows, kw).Err? ==> r == Err(TopCandidates(rows, kw).error)
    ensures r.Ok? <==> TopCandidates(rows, kw).Ok? && (|TopCandidates(rows, kw).value.2| > 0 ==> CountArg(kw).Ok?)
    ensures r.Ok? ==>
      var data := TopCandidates(rows, kw).value.2;
      && (r.value.NoExpenses? <==> |data| == 0)
      && (r.value.Top? ==>
            && CountArg(kw) == Ok(r.value.n)
            && |r.value.rows| == (if Wanted(r.value.n) <= 0 then 0 else if Wanted(r.value.n) < |data| then Wanted(r.value.n) else |data|)
            && SortedDesc(r.value.rows, Expense)
            && multiset(r.value.rows) <= multiset(data)
            && (forall i, x :: 0 <= i < |r.value.rows| && x in multiset(data) - multiset(r.value.rows) ==>
                  r.value.rows[i].expense >= x.expense))
  {
    var (tc, cc, data) :- TopCandidates(rows, kw);
    if |data| == 0 then Ok(NoExpenses(cc.caption, tc.caption))
    else
      var n :- CountArg(kw);
      Ok(Top(cc.caption, tc.caption, n, Largest(data, Wanted(n), Expense)))
  }

  /** Python's `min(n, count)`: the first argument unless the second is
      strictly smaller, so `min(False, 0)` is `False`. */
  function MinCount(n: Value, count: nat): (m: Value)
    ensures m == n || m == VInt(count)
    ensures n.VInt? ==> m.VInt? && m.i <= n.i && m.i <= count && (m.i == n.i || m.i == count)
    ensures !n.VInt? ==> m == n
  {
    if n.VInt? && count < n.i then VInt(count) else n
  }

  /** The header line; its count is `min(n, len(top))`. */
  function TopHeader(subject: string, period: string, n: Value, count: nat): string {
    "Top " + ToStr(MinCount(n, count)) + " expenses for " + subject + " in " + period + ":\n"
  }

  /** One line of the listing, with the remark appended when there is one. */
  function TopLine(t: Txn): (s: string)
    ensures t.remarks.Some? ==> EndsWith(s, " - " + t.remarks.value + "\n")
    ensures t.remarks.None? ==> EndsWith(s, " (" + t.category + ")\n")
  {
    var head := "• " + DateText(t.year, t.month, t.day) + ": " + Yen(t.expense);
    if t.remarks.Some? then
      var tail := " - " + t.remarks.value + "\n";
      EndsWithAppend(head + " (" + t.category + ")", tail);
      head + " (" + t.category + ")" + tail
    else
      var tail := " (" + t.category + ")\n";
      EndsWithAppend(head, tail);
      head + tail
  }

  /** The listing's lines, one per selected row. */
  function TopLines(top: seq<Txn>): (ls: seq<string>)
    ensures |ls| == |top|
    ensures forall i :: 0 <= i < |top| ==> ls[i] == TopLine(top[i])
  {
    seq(|top|, i requires 0 <= i < |top| => TopLine(top[i]))
  }

  /** The parts written one after another. */
  function Concat(parts: seq<string>): string {
    if |parts| == 0 then "" else parts[0] + Concat(parts[1..])
  }

  /** The listing as intended: the header, one line per selected row. */
  function TopMessage(rep: TopReport): string {
    match rep
    case NoExpenses(subject, period) => "No expenses found for " + subject + " in " + period + "."
    case Top(subject, period, n, top) => Strip(TopHeader(subject, period, n, |top|) + Concat(TopLines(top)))
  }

  /** The listing as written: the remark is read from a column `'rema rks'`
      that does not exist, so any selected row with a remark raises. */
  function TopMessageAsWritten(rep: TopReport): (r: Result<string, ToolError>)
    ensures r.Err? <==> rep.Top? && exists i :: 0 <= i < |rep.rows| && rep.rows[i].remarks.Some?
    ensures r.Ok? ==> r.value == TopMessage(rep)
  {
    match rep
    case NoExpenses(_, _) => Ok(TopMessage(rep))
    case Top(_, _, _, top) =>
      if exists i :: 0 <= i < |top| && top[i].remarks.Some? then Err(Raised("KeyError"))
      else Ok(TopMessage(rep))
  }

  /** `get_top_expenses` with the listing as intended: never a figure. */
  function GetTopExpenses(rows: seq<Txn>, kw: Kwargs): (r: Result<ToolOutput, ToolError>)
    ensures r.Ok? <==> TopSelection(rows, kw).Ok?
    ensures r.Ok? ==> r.value.fig.None?
  {
    var rep :- TopSelection(rows, kw);
    Ok(ToolOutput(None, TopMessage(rep)))
  }

  /** `n=False` lists no rows, and the header's count reads "False". */
  lemma FalseCountListsNothing(rows: seq<Txn>, kw: Kwargs)
    requires "n" in kw && kw["n"] == VBool(false)
    requires TopSelection(rows, kw).Ok? && TopSelection(rows, kw).value.Top?
    ensures TopSelection(rows, kw).value.rows == []
    ensures var rep := TopSelection(rows, kw).value;
      TopMessage(rep) == Strip("Top False expenses for " + rep.subject + " in " + rep.period + ":\n")
  {
    var rep := TopSelection(rows, kw).value;
    assert rep.n == VBool(false);
    assert |rep.rows| == 0;
    EmptyListing(rep.subject, rep.period, rep.n, rep.rows);
  }

  /** A listing without rows is its stripped header alone. */
  lemma EmptyListing(subject: string, period: string, n: Value, top: seq<Txn>)
    requires top == [] && n == VBool(false)
    ensures TopMessage(Top(subject, period, n, top)) == Strip("Top False expenses for " + subject + " in " + period + ":\n")
  {
    var ls := TopLines(top);
    assert |ls| == 0;
    assert Concat(ls) == "";
    assert ToStr(MinCount(n, 0)) == "False";
    assert TopHeader(subject, period, n, |top|) + Concat(ls) == "Top False expenses for " + subject + " in " + period + ":\n";
  }

  /** `n=True` raises `TypeError` once some row is left to list. */
  lemma TrueCountRaises(rows: seq<Txn>, kw: Kwargs)
    requires "n" in kw && kw["n"] == VBool(true)
    requires TopCandidates(rows, kw).Ok? && |TopCandidates(rows, kw).value.2| > 0
    ensures TopSelection(rows, kw) == Err(Raised("TypeError"))
    ensures GetTopExpenses(rows, kw) == Err(Raised("TypeError"))
  {
  }

  /** An integer `n` lists min(n, count) rows, and the header shows that number. */
  lemma IntCountShown(rows: seq<Txn>, kw: Kwargs)
    requires "n" in kw && kw["n"].VInt? && kw["n"].i >= 0
    requires TopSelection(rows, kw).Ok? && TopSelection(rows, kw).value.Top?
    ensures var rep := TopSelection(rows, kw).value;
      MinCount(rep.n, |rep.rows|) == VInt(|rep.rows|)
  {
  }

  /** Every part occurs in the concatenation. */
  lemma {:induction false} ConcatHasEachPart(parts: seq<string>, i: nat) returns (k: nat)
    requires i < |parts|
    ensures OccursAt(Concat(parts), parts[i], k)
  {
    var rest := Concat(parts[1..]);
    assert Concat(parts) == parts[0] + rest;
    if i == 0 {
      k := 0;
      assert Concat(parts)[..|parts[0]|] == parts[0];
    } else {
      var k' := ConcatHasEachPart(parts[1..], i - 1);
      assert parts[1..][i - 1] == parts[i];
      k := |parts[0]| + k';
      assert Concat(parts)[k..k + |parts[i]|] == rest[k'..k' + |parts[i]|];
    }
  }

  /** The intended listing names the remark of every selected row that has
      one (unless the remark ends in whitespace the final strip removes). */
  lemma TopMessageNamesEveryRemark(rep: TopReport, i: nat)
    requires rep.Top? && i < |rep.rows| && rep.rows[i].remarks.Some?
    requires var r := rep.rows[i].remarks.value; |r| > 0 && r[|r| - 1] !in Whitespace
    ensures Contains(TopMessage(rep), "- " + rep.rows[i].remarks.value)
  {
    var r := rep.rows[i].remarks.value;
    var lines := TopLines(rep.rows);
    var p := "- " + r;
    RemarkText(r);
    ListingNamesLine(TopHeader(rep.subject, rep.period, rep.n, |rep.rows|), lines, i, p);
  }

  /** A stripped listing contains the inner text of each of its lines. */
  lemma ListingNamesLine(header: string, lines: seq<string>, i: nat, p: string)
    requires i < |lines| && EndsWith(lines[i], " " + p + "\n")
    requires |p| > 0 && p[0] !in Whitespace && p[|p| - 1] !in Whitespace
    ensures Contains(Strip(header + Concat(lines)), p)
  {
    var k := ConcatHasEachPart(lines, i);
    var j := TailOccurs(lines[i], p);
    var k2 := OccursWithin(Concat(lines), lines[i], p, k, j);
    var k3 := OccursAfter(header, Concat(lines), p, k2);
    StripKeepsInterior(header + Concat(lines), p, k3);
  }

  lemma RemarkText(r: string)
    requires |r| > 0
    ensures " " + ("- " + r) + "\n" == " - " + r + "\n"
    ensures ("- " + r)[0] !in Whitespace
    ensures ("- " + r)[|"- " + r| - 1] == r[|r| - 1]
  {
  }

  /** `p` occurs in a line ending with `" " + p + "\n"`. */
  lemma TailOccurs(line: string, p: string) returns (j: nat)
    requires EndsWith(line, " " + p + "\n")
    ensures OccursAt(line, p, j)
  {
    j := |line| - |p| - 1;
    var tail := " " + p + "\n";
    assert line[|line| - |tail|..] == tail;
    assert line[j..j + |p|] == tail[1..1 + |p|];
  }

  /** An occurrence inside an occurrence. */
  lemma OccursWithin(s: string, a: string, p: string, k: nat, j: nat) returns (m: nat)
    requires OccursAt(s, a, k) && OccursAt(a, p, j)
    ensures OccursAt(s, p, m)
  {
    m := k + j;
    assert s[m..m + |p|] == s[k..k + |a|][j..j + |p|];
  }

  /** An occurrence survives a prefix. */
  lemma OccursAfter(h: string, s: string, p: string, k: nat) returns (m: nat)
    requires OccursAt(s, p, k)
    ensures OccursAt(h + s, p, m)
  {
    m := |h| + k;
    assert (h + s)[m..m + |p|] == s[k..k + |p|];
  }

  /** The finding: a selected row with a remark makes the written listing
      raise `KeyError`, where the intended listing names the remark. */
  lemma RemarkBreaksTopListing(rep: TopReport, i: nat)
    requires rep.Top? && i < |rep.rows| && rep.rows[i].remarks.Some?
    requires var r := rep.rows[i].remarks.value; |r| > 0 && r[|r| - 1] !in Whitespace
    ensures TopMessageAsWritten(rep) == Err(Raised("KeyError"))
    ensures Contains(TopMessage(rep), "- " + rep.rows[i].remarks.value)
  {
    TopMessageNamesEveryRemark(rep, i);
  }

  /** Stripping keeps any occurrence that ends before trailing whitespace and
      starts after leading whitespace. */
  lemma StripKeepsInterior(s: string, p: string, i: nat)
    requires |p| > 0 && p[0] !in Whitespace && p[|p| - 1] !in Whitespace
    requires OccursAt(s, p, i)
    ensures Contains(Strip(s), p)
  {
    var lead := LeadingRun(s, Whitespace);
    var r := Strip(s);
    assert lead <= i by {
      assert s[i] == p[0];
    }
    assert i + |p| <= lead + |r| by {
      assert s[i + |p| - 1] == p[|p| - 1];
    }
    assert OccursAt(r, p, i - lead) by {
      forall m | 0 <= m < |p| ensures r[i - lead + m] == p[m] {
        assert r[i - lead + m] == s[lead..lead + |r|][i - lead + m] == s[i + m];
        assert s[i..i + |p|][m] == s[i + m];
      }
      assert r[i - lead..i - lead + |p|] == p;
    }
    ContainsIff(r, p);
  }
}
