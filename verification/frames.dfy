/** The transaction table the analytical tools work on, after the server has
    normalised it (backend/main.py:124-136): one row per transaction with its
    calendar date, amount, specific category, broad ("major") category and an
    optional free-text remark. */
module Frames {
  import opened Wrappers
  import opened Text

  datatype Txn = Txn(
    year: int, month: int, day: int,
    expense: int,
    category: string,
    major: string,
    remarks: Option<string>)

  /** The table, with the two category columns' presence recorded: the
      validator behaves differently when a column is missing. */
  datatype Frame = Frame(hasCategory: bool, hasMajor: bool, rows: seq<Txn>)

  /** `df['category']` in row order. */
  function CategoryColumn(rows: seq<Txn>): (r: seq<string>)
    ensures |r| == |rows|
    ensures forall i :: 0 <= i < |rows| ==> r[i] == rows[i].category
  {
    seq(|rows|, i requires 0 <= i < |rows| => rows[i].category)
  }

  /** `df['major category']` in row order. */
  function MajorColumn(rows: seq<Txn>): (r: seq<string>)
    ensures |r| == |rows|
    ensures forall i :: 0 <= i < |rows| ==> r[i] == rows[i].major
  {
    seq(|rows|, i requires 0 <= i < |rows| => rows[i].major)
  }

  // ---------------------------------------------------------------------------
  // Calendar dates as pandas `Timestamp`s

  predicate IsLeapYear(y: int) {
    (y % 4 == 0 && y % 100 != 0) || y % 400 == 0
  }

  function DaysInMonth(y: int, m: int): int
    requires 1 <= m <= 12
  {
    if m == 2 then (if IsLeapYear(y) then 29 else 28)
    else if m == 4 || m == 6 || m == 9 || m == 11 then 30
    else 31
  }

  /** `(y1, m1, d1) < (y2, m2, d2)` in calendar order. */
  predicate DateBefore(y1: int, m1: int, d1: int, y2: int, m2: int, d2: int) {
    y1 < y2 || (y1 == y2 && (m1 < m2 || (m1 == m2 && d1 < d2)))
  }

  /** `pd.Timestamp(year=y, month=m, day=d)` succeeds: a real calendar day
      inside the nanosecond range of pandas, 1677-09-22 .. 2262-04-11. */
  predicate ValidTimestamp(y: int, m: int, d: int) {
    && 1 <= m <= 12
    && 1 <= d <= DaysInMonth(y, m)
    && !DateBefore(y, m, d, 1677, 9, 22)
    && !DateBefore(2262, 4, 11, y, m, d)
  }

  // ---------------------------------------------------------------------------
  // Row filters

  /** The one time filter a tool applies. */
  datatype TimeFilter =
    | OnDay(y: int, m: int, d: int)
    | InMonth(y: int, m: int)
    | InYear(y: int)
    | YearSpan(first: int, last: int)
    | AnyTime

  /** The one category filter a tool applies. */
  datatype CategoryFilter =
    | CategoryIs(name: string)
    | MajorIs(name: string)
    | RemarksContain(text: string)
    | AnyCategory

  predicate InTime(t: Txn, f: TimeFilter) {
    match f
    case OnDay(y, m, d) => t.year == y && t.month == m && t.day == d
    case InMonth(y, m) => t.year == y && t.month == m
    case InYear(y) => t.year == y
    case YearSpan(a, b) => a <= t.year <= b
    case AnyTime => true
  }

  /** Category equality ignores case; a remark matches when it contains the
      text ignoring case, and a missing remark never matches (`na=False`). */
  predicate InCategory(t: Txn, f: CategoryFilter) {
    match f
    case CategoryIs(c) => Lower(t.category) == Lower(c)
    case MajorIs(c) => Lower(t.major) == Lower(c)
    case RemarksContain(s) => t.remarks.Some? && ContainsIgnoringCase(t.remarks.value, s)
    case AnyCategory => true
  }

  /** `data[time mask][category mask]`: the rows passing both filters, in
      their original order. */
  function Select(rows: seq<Txn>, tf: TimeFilter, cf: CategoryFilter): (r: seq<Txn>)
    ensures |r| <= |rows|
    ensures forall t :: t in r <==> t in rows && InTime(t, tf) && InCategory(t, cf)
  {
    if |rows| == 0 then []
    else
      var rest := Select(rows[1..], tf, cf);
      if InTime(rows[0], tf) && InCategory(rows[0], cf) then [rows[0]] + rest else rest
  }

  /** `data['Expense'].sum()` */
  function Total(rows: seq<Txn>): int {
    if |rows| == 0 then 0 else rows[0].expense + Total(rows[1..])
  }

  /** Total of the selected rows, counted row by row over the whole table:
      the sum a selection reports is the sum of exactly the matching rows. */
  function MatchingTotal(rows: seq<Txn>, tf: TimeFilter, cf: CategoryFilter): int {
    if |rows| == 0 then 0
    else
      var own := if InTime(rows[0], tf) && InCategory(rows[0], cf) then rows[0].expense else 0;
      own + MatchingTotal(rows[1..], tf, cf)
  }

  /** Number of matching rows, counted over the whole table. */
  function MatchingCount(rows: seq<Txn>, tf: TimeFilter, cf: CategoryFilter): nat {
    if |rows| == 0 then 0
    else
      var own := if InTime(rows[0], tf) && InCategory(rows[0], cf) then 1 else 0;
      own + MatchingCount(rows[1..], tf, cf)
  }

  lemma {:induction false} SelectTotal(rows: seq<Txn>, tf: TimeFilter, cf: CategoryFilter)
    ensures Total(Select(rows, tf, cf)) == MatchingTotal(rows, tf, cf)
    ensures |Select(rows, tf, cf)| == MatchingCount(rows, tf, cf)
  {
    if |rows| > 0 {
      var rest := Select(rows[1..], tf, cf);
      SelectTotal(rows[1..], tf, cf);
      if InTime(rows[0], tf) && InCategory(rows[0], cf) {
        var r := [rows[0]] + rest;
        assert r[0] == rows[0] && r[1..] == rest;
        assert Select(rows, tf, cf) == r;
      } else {
        assert Select(rows, tf, cf) == rest;
      }
    }
  }

  /** The selection keeps every copy of each matching row. */
  lemma {:induction false} SelectKeepsCopies(rows: seq<Txn>, tf: TimeFilter, cf: CategoryFilter)
    ensures forall t :: multiset(Select(rows, tf, cf))[t] == if InTime(t, tf) && InCategory(t, cf) then multiset(rows)[t] else 0
  {
    if |rows| > 0 {
      assert rows == [rows[0]] + rows[1..];
      SelectKeepsCopies(rows[1..], tf, cf);
    }
  }

  lemma {:induction false} TotalAppend(a: seq<Txn>, b: seq<Txn>)
    ensures Total(a + b) == Total(a) + Total(b)
  {
    if |a| > 0 {
      assert (a + b)[1..] == a[1..] + b;
      TotalAppend(a[1..], b);
    } else {
      assert a + b == b;
    }
  }

  /** A total of amounts that are all non-negative is non-negative. */
  lemma {:induction false} TotalNonNegative(rows: seq<Txn>)
    requires forall i :: 0 <= i < |rows| ==> rows[i].expense >= 0
    ensures Total(rows) >= 0
  {
    if |rows| > 0 {
      TotalNonNegative(rows[1..]);
    }
  }
}
