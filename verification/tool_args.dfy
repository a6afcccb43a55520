/** How the analytical tools read their keyword arguments
    (backend/utils/analysis_tools.py): the time filter and the category filter
    each come from a fixed priority chain over the arguments that are truthy,
    and the labels in the messages are formatted from the raw arguments. */
module ToolArgs {
  import opened Wrappers
  import opened Values
  import opened Frames

  /** A Python exception escaping a tool body. */
  datatype ToolError = Raised(exception: string)

  /** `int(v)`: `TypeError` for `None`, `ValueError` for a non-numeric string. */
  function IntArg(v: Value): (r: Result<int, ToolError>)
    ensures r.Ok? <==> IntOf(v).Some?
    ensures r.Ok? ==> r.value == IntOf(v).value
  {
    match IntOf(v)
    case Some(i) => Ok(i)
    case None => Err(Raised(if v.VNone? then "TypeError" else "ValueError"))
  }

  /** `f"{v:02d}"`: `ValueError` where the format code does not apply. */
  function Pad2Arg(v: Value): (r: Result<string, ToolError>)
    ensures r.Ok? <==> Pad2(v).Some?
    ensures r.Ok? ==> r.value == Pad2(v).value
  {
    match Pad2(v)
    case Some(s) => Ok(s)
    case None => Err(Raised("ValueError"))
  }

  /** `n` printed with at least `width` digits, a minus sign before them when
      negative. */
  function PadInt(i: int, width: nat): string {
    if i < 0 then "-" + PadNat(-i, width) else PadNat(i, width)
  }

  /** `strftime('%Y-%m-%d')` */
  function DateText(y: int, m: int, d: int): string {
    PadInt(y, 4) + "-" + PadInt(m, 2) + "-" + PadInt(d, 2)
  }

  /** `pd.Timestamp(year=y, month=m, day=d)`: `ValueError` outside the calendar
      or the nanosecond range. */
  function Timestamp(y: int, m: int, d: int): (r: Result<(int, int, int), ToolError>)
    ensures r.Ok? <==> ValidTimestamp(y, m, d)
    ensures r.Ok? ==> r.value == (y, m, d)
  {
    if ValidTimestamp(y, m, d) then Ok((y, m, d)) else Err(Raised("ValueError"))
  }

  /** A time filter with the text the messages call it by. */
  datatype TimeChoice = TimeChoice(filter: TimeFilter, caption: string)

  /** A category filter with the text the messages call it by. */
  datatype CategoryChoice = CategoryChoice(filter: CategoryFilter, caption: string)

  // ---------------------------------------------------------------------------
  // Time filters

  /** `calculate_total`: a day, then a month, then a year, then a span of
      years, then all time, the first whose arguments are all truthy. */
  function TotalTime(kw: Kwargs): (r: Result<TimeChoice, ToolError>)
    ensures var y, m, d := Get(kw, "year"), Get(kw, "month"), Get(kw, "day");
      Truthy(y) && Truthy(m) && Truthy(d) ==>
        && (r.Ok? <==> IntOf(y).Some? && IntOf(m).Some? && IntOf(d).Some?
                       && ValidTimestamp(IntOf(y).value, IntOf(m).value, IntOf(d).value))
        && (r.Ok? ==> r.value.filter == OnDay(IntOf(y).value, IntOf(m).value, IntOf(d).value))
    ensures var y, m, d := Get(kw, "year"), Get(kw, "month"), Get(kw, "day");
      Truthy(y) && Truthy(m) && !Truthy(d) ==>
        && (r.Ok? <==> IntOf(y).Some? && IntOf(m).Some? && Pad2(m).Some?)
        && (r.Ok? ==> r.value == TimeChoice(InMonth(IntOf(y).value, IntOf(m).value), ToStr(y) + "-" + Pad2(m).value))
    ensures var y := Get(kw, "year");
      Truthy(y) && !Truthy(Get(kw, "month")) ==>
        && (r.Ok? <==> IntOf(y).Some?)
        && (r.Ok? ==> r.value == TimeChoice(InYear(IntOf(y).value), ToStr(y)))
    ensures var a, b := Get(kw, "start_year"), Get(kw, "end_year");
      !Truthy(Get(kw, "year")) && Truthy(a) && Truthy(b) ==>
        && (r.Ok? <==> IntOf(a).Some? && IntOf(b).Some?)
        && (r.Ok? ==> r.value == TimeChoice(YearSpan(IntOf(a).value, IntOf(b).value), ToStr(a) + "-" + ToStr(b)))
    ensures !Truthy(Get(kw, "year")) && !(Truthy(Get(kw, "start_year")) && Truthy(Get(kw, "end_year"))) ==>
      r == Ok(TimeChoice(AnyTime, "all time"))
  {
    var y, m, d := Get(kw, "year"), Get(kw, "month"), Get(kw, "day");
    var a, b := Get(kw, "start_year"), Get(kw, "end_year");
    if Truthy(y) && Truthy(m) && Truthy(d) then
      var yi :- IntArg(y);
      var mi :- IntArg(m);
      var di :- IntArg(d);
      var _ :- Timestamp(yi, mi, di);
      Ok(TimeChoice(OnDay(yi, mi, di), DateText(yi, mi, di)))
    else if Truthy(y) && Truthy(m) then
      var yi :- IntArg(y);
      var mi :- IntArg(m);
      var mm :- Pad2Arg(m);
      Ok(TimeChoice(InMonth(yi, mi), ToStr(y) + "-" + mm))
    else if Truthy(y) then
      var yi :- IntArg(y);
      Ok(TimeChoice(InYear(yi), ToStr(y)))
    else if Truthy(a) && Truthy(b) then
      var ai :- IntArg(a);
      var bi :- IntArg(b);
      Ok(TimeChoice(YearSpan(ai, bi), ToStr(a) + "-" + ToStr(b)))
    else
      Ok(TimeChoice(AnyTime, "all time"))
  }

  /** `get_top_expenses` and `plot_distribution`: a month, then a year, then
      all time; the two tools spell "all time" differently. */
  function MonthOrYear(kw: Kwargs, allTime: string): (r: Result<TimeChoice, ToolError>)
    ensures var y, m := Get(kw, "year"), Get(kw, "month");
      Truthy(y) && Truthy(m) ==>
        && (r.Ok? <==> IntOf(y).Some? && IntOf(m).Some? && Pad2(m).Some?)
        && (r.Ok? ==> r.value == TimeChoice(InMonth(IntOf(y).value, IntOf(m).value), ToStr(y) + "-" + Pad2(m).value))
    ensures var y := Get(kw, "year");
      Truthy(y) && !Truthy(Get(kw, "month")) ==>
        && (r.Ok? <==> IntOf(y).Some?)
        && (r.Ok? ==> r.value == TimeChoice(InYear(IntOf(y).value), ToStr(y)))
    ensures !Truthy(Get(kw, "year")) ==> r == Ok(TimeChoice(AnyTime, allTime))
  {
    var y, m := Get(kw, "year"), Get(kw, "month");
    if Truthy(y) && Truthy(m) then
      var yi :- IntArg(y);
      var mi :- IntArg(m);
      var mm :- Pad2Arg(m);
      Ok(TimeChoice(InMonth(yi, mi), ToStr(y) + "-" + mm))
    else if Truthy(y) then
      var yi :- IntArg(y);
      Ok(TimeChoice(InYear(yi), ToStr(y)))
    else
      Ok(TimeChoice(AnyTime, allTime))
  }

  // ---------------------------------------------------------------------------
  // Category filters

  /** `category`, then `major_category`, then `remarks`, then none. Equality
      needs a string to lower-case (`AttributeError` otherwise), and the
      substring search a string pattern (`TypeError` otherwise). */
  function CategoryArg(kw: Kwargs, noFilter: string): (r: Result<CategoryChoice, ToolError>)
    ensures var c := Get(kw, "category");
      Truthy(c) ==> (r.Ok? <==> c.VStr?) && (r.Ok? ==> r.value == CategoryChoice(CategoryIs(c.s), c.s))
    ensures var c, mc := Get(kw, "category"), Get(kw, "major_category");
      !Truthy(c) && Truthy(mc) ==> (r.Ok? <==> mc.VStr?) && (r.Ok? ==> r.value == CategoryChoice(MajorIs(mc.s), mc.s))
    ensures var c, mc, rm := Get(kw, "category"), Get(kw, "major_category"), Get(kw, "remarks");
      !Truthy(c) && !Truthy(mc) && Truthy(rm) ==>
        (r.Ok? <==> rm.VStr?) && (r.Ok? ==> r.value == CategoryChoice(RemarksContain(rm.s), "'" + rm.s + "'"))
    ensures !Truthy(Get(kw, "category")) && !Truthy(Get(kw, "major_category")) && !Truthy(Get(kw, "remarks")) ==>
      r == Ok(CategoryChoice(AnyCategory, noFilter))
  {
    var c, mc, rm := Get(kw, "category"), Get(kw, "major_category"), Get(kw, "remarks");
    if Truthy(c) then
      if c.VStr? then Ok(CategoryChoice(CategoryIs(c.s), c.s)) else Err(Raised("AttributeError"))
    else if Truthy(mc) then
      if mc.VStr? then Ok(CategoryChoice(MajorIs(mc.s), mc.s)) else Err(Raised("AttributeError"))
    else if Truthy(rm) then
      if rm.VStr? then Ok(CategoryChoice(RemarksContain(rm.s), "'" + rm.s + "'")) else Err(Raised("TypeError"))
    else
      Ok(CategoryChoice(AnyCategory, noFilter))
  }
}
