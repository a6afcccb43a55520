/** The `auto_validate` decorator (backend/utils/analysis_tools.py:117-136):
    every analytical tool first passes its keyword arguments through the
    category validator, then runs on the cleaned arguments only, and hands
    the body's figure and message back unchanged. */
module Tools {
  import opened Wrappers
  import opened Text
  import opened Values
  import opened Frames
  import opened ToolArgs
  import opened Validation
  import ToolPrompts
  import opened Analysis
  import opened Distribution

  /** The keyword parameters each tool's signature declares after `df`. */
  function Params(t: ToolPrompts.Tool): (ps: set<string>)
    ensures "category" in ps && "major_category" in ps && "remarks" in ps
  {
    match t
    case PlotTimeSeries =>
      {"category", "major_category", "remarks", "year", "month", "start_year", "end_year", "months", "title"}
    case PlotDistribution =>
      {"year", "month", "major_category", "category", "remarks", "title"}
    case PlotComparisonBars =>
      {"category", "major_category", "remarks", "y1", "m1", "d1", "y2", "m2", "d2", "show_avg", "title"}
    case CalculateTotal =>
      {"category", "major_category", "year", "month", "day", "start_year", "end_year", "remarks"}
    case CalculateStatistics =>
      {"category", "major_category", "remarks", "y1", "m1", "d1", "y2", "m2", "d2", "compare"}
    case GetTopExpenses =>
      {"n", "category", "major_category", "remarks", "year", "month", "min_amount"}
  }

  /** The bodies this model does not spell out (`plot_time_series`,
      `calculate_statistics`), as a function of tool, rows and arguments. */
  type Unmodelled = (ToolPrompts.Tool, seq<Txn>, Kwargs) -> Result<ToolOutput, ToolError>

  /** The undecorated tool bodies: the text tools never draw, and each
      modelled tool fails exactly when its selection does. `get_top_expenses`
      is the listing as intended (see the remark finding). */
  function Body(t: ToolPrompts.Tool, rows: seq<Txn>, kw: Kwargs, other: Unmodelled): (r: Result<ToolOutput, ToolError>)
    ensures t == ToolPrompts.CalculateTotal ==> (r.Ok? <==> TotalSelection(rows, kw).Ok?)
    ensures t == ToolPrompts.GetTopExpenses ==> (r.Ok? <==> TopSelection(rows, kw).Ok?)
    ensures t == ToolPrompts.PlotDistribution ==> (r.Ok? <==> DistributionSelection(rows, kw).Ok?)
    ensures t == ToolPrompts.PlotComparisonBars ==> (r.Ok? <==> ComparisonSelection(rows, kw).Ok?)
    ensures (t == ToolPrompts.CalculateTotal || t == ToolPrompts.GetTopExpenses) && r.Ok? ==> r.value.fig.None?
  {
    match t
    case PlotDistribution => PlotDistribution(rows, kw)
    case PlotComparisonBars => PlotComparisonBars(rows, kw)
    case CalculateTotal => CalculateTotal(rows, kw)
    case GetTopExpenses => GetTopExpenses(rows, kw)
    case PlotTimeSeries => other(t, rows, kw)
    case CalculateStatistics => other(t, rows, kw)
  }

  /** A decorated tool call: validate, then call the body with the cleaned
      arguments; an argument the signature does not declare is a
      `TypeError`. The validator's warning is only logged. */
  function AutoValidate(t: ToolPrompts.Tool, f: Frame, kw: Kwargs, ratio: (string, string) -> real, other: Unmodelled)
    : (r: Result<ToolOutput, ToolError>)
    ensures var cleaned := ValidateAndFixParams(kw, f, ratio).params;
      cleaned.Keys <= Params(t) ==> r == Body(t, f.rows, cleaned, other)
    ensures kw.Keys <= Params(t) ==> r == Body(t, f.rows, ValidateAndFixParams(kw, f, ratio).params, other)
    ensures !(kw.Keys <= Params(t)) ==> r == Err(Raised("TypeError"))
  {
    var v := ValidateAndFixParams(kw, f, ratio);
    CleanedKeysBound(kw, v.params, Params(t));
    if v.params.Keys <= Params(t) then Body(t, f.rows, v.params, other)
    else Err(Raised("TypeError"))
  }

  /** The validator adds no argument outside the three category-like ones and
      removes none outside them, so a call binds after validation exactly
      when it bound before. */
  lemma CleanedKeysBound(before: Kwargs, after: Kwargs, ps: set<string>)
    requires OthersKept(before, after)
    requires "category" in ps && "major_category" in ps && "remarks" in ps
    ensures after.Keys <= ps <==> before.Keys <= ps
  {
    if before.Keys <= ps {
      forall k | k in after ensures k in ps {
        if !IsCategoryKey(k) {
          assert k in before;
        }
      }
    }
    if after.Keys <= ps {
      forall k | k in before ensures k in ps {
        if !IsCategoryKey(k) {
          assert k in after;
        }
      }
    }
  }

  /** After validation the category filter of `calculate_total`,
      `plot_comparison_bars` and `get_top_expenses` is the name the validator
      chose, or the remarks search it fell back to (a remark that is not a
      string raises). */
  lemma ValidatedCategoryFilter(kw: Kwargs, f: Frame, ratio: (string, string) -> real, noFilter: string)
    ensures var o := Classify(kw, f, ratio);
      var p := ValidateAndFixParams(kw, f, ratio).params;
      && (o.ToCategory? && o.name != "" ==> CategoryArg(p, noFilter) == Ok(CategoryChoice(CategoryIs(o.name), o.name)))
      && (o.ToMajor? && o.name != "" ==> CategoryArg(p, noFilter) == Ok(CategoryChoice(MajorIs(o.name), o.name)))
      && (o.ToRemarks? && o.text.VStr? ==>
            CategoryArg(p, noFilter) == Ok(CategoryChoice(RemarksContain(o.text.s), "'" + o.text.s + "'")))
      && (o.ToRemarks? && !o.text.VStr? ==> CategoryArg(p, noFilter) == Err(Raised("TypeError")))
  {
    var o := Classify(kw, f, ratio);
    RewrittenCategoryFilter(kw, InputCategory(kw), o, noFilter);
  }

  lemma RewrittenCategoryFilter(kw: Kwargs, input: Value, o: Outcome, noFilter: string)
    requires o.ToRemarks? ==> Truthy(o.text)
    ensures var p := Rewrite(kw, input, o).params;
      && (o.ToCategory? && o.name != "" ==> CategoryArg(p, noFilter) == Ok(CategoryChoice(CategoryIs(o.name), o.name)))
      && (o.ToMajor? && o.name != "" ==> CategoryArg(p, noFilter) == Ok(CategoryChoice(MajorIs(o.name), o.name)))
      && (o.ToRemarks? && o.text.VStr? ==>
            CategoryArg(p, noFilter) == Ok(CategoryChoice(RemarksContain(o.text.s), "'" + o.text.s + "'")))
      && (o.ToRemarks? && !o.text.VStr? ==> CategoryArg(p, noFilter) == Err(Raised("TypeError")))
  {
    var p := Rewrite(kw, input, o).params;
    if o.ToCategory? && o.name != "" {
      assert Get(p, "category") == VStr(o.name);
    } else if o.ToMajor? && o.name != "" {
      assert Get(p, "category") == VNone;
      assert Get(p, "major_category") == VStr(o.name);
    } else if o.ToRemarks? {
      assert Get(p, "category") == VNone && Get(p, "major_category") == VNone;
      assert Get(p, "remarks") == o.text;
    }
  }

  /** A name the validator resolved to is spelled as some row spells it, so
      the resulting filter selects at least that row. */
  lemma ResolvedNameMatchesARow(kw: Kwargs, f: Frame, ratio: (string, string) -> real)
    ensures var o := Classify(kw, f, ratio);
      && (o.ToCategory? ==> exists i :: 0 <= i < |f.rows| && InCategory(f.rows[i], CategoryIs(o.name)))
      && (o.ToMajor? ==> exists i :: 0 <= i < |f.rows| && InCategory(f.rows[i], MajorIs(o.name)))
  {
    var o := Classify(kw, f, ratio);
    var md := GetMetadataLists(f);
    if o.ToCategory? {
      var k :| k in md.categories.table && md.categories.table[k] == o.name;
      CategoryFilterFindsColumnName(f.rows, o.name);
    }
    if o.ToMajor? {
      var k :| k in md.majors.table && md.majors.table[k] == o.name;
      MajorFilterFindsColumnName(f.rows, o.name);
    }
  }

  lemma CategoryFilterFindsColumnName(rows: seq<Txn>, name: string)
    requires name in CategoryColumn(rows)
    ensures exists i :: 0 <= i < |rows| && InCategory(rows[i], CategoryIs(name))
  {
    var i :| 0 <= i < |rows| && CategoryColumn(rows)[i] == name;
    assert InCategory(rows[i], CategoryIs(name));
  }

  lemma MajorFilterFindsColumnName(rows: seq<Txn>, name: string)
    requires name in MajorColumn(rows)
    ensures exists i :: 0 <= i < |rows| && InCategory(rows[i], MajorIs(name))
  {
    var i :| 0 <= i < |rows| && MajorColumn(rows)[i] == name;
    assert InCategory(rows[i], MajorIs(name));
  }
}
