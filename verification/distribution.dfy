/** `plot_distribution` (backend/utils/analysis_tools.py:308-452): the rows
    of one month, year or all time, narrowed by one category-like argument,
    summed per group and drawn as a pie whose small slices are folded into
    "Others". */
module Distribution {
  import opened Wrappers
  import opened Text
  import opened Values
  import opened Frames
  import opened Sorting
  import opened ToolArgs
  import opened Analysis

  /** The column the slices are grouped by. */
  datatype Grouping = ByCategory | ByRemarks | ByMajor

  /** The filter and its wording: `remarks` first, then `category`, then
      `major_category`, unlike the other tools. */
  function DistributionFilter(kw: Kwargs): (r: Result<CategoryChoice, ToolError>)
    ensures var rm := Get(kw, "remarks");
      Truthy(rm) ==> ((r.Ok? <==> rm.VStr?)
        && (r.Ok? ==> r.value == CategoryChoice(RemarksContain(rm.s), "remarks containing '" + rm.s + "'")))
    ensures var rm, c := Get(kw, "remarks"), Get(kw, "category");
      !Truthy(rm) && Truthy(c) ==> ((r.Ok? <==> c.VStr?)
        && (r.Ok? ==> r.value == CategoryChoice(CategoryIs(c.s), "category '" + c.s + "'")))
    ensures var rm, c, mc := Get(kw, "remarks"), Get(kw, "category"), Get(kw, "major_category");
      !Truthy(rm) && !Truthy(c) && Truthy(mc) ==> ((r.Ok? <==> mc.VStr?)
        && (r.Ok? ==> r.value == CategoryChoice(MajorIs(mc.s), "major category '" + mc.s + "'")))
    ensures !Truthy(Get(kw, "remarks")) && !Truthy(Get(kw, "category")) && !Truthy(Get(kw, "major_category")) ==>
      r == Ok(CategoryChoice(AnyCategory, "all expenses"))
  {
    var rm, c, mc := Get(kw, "remarks"), Get(kw, "category"), Get(kw, "major_category");
    if Truthy(rm) then
      if rm.VStr? then Ok(CategoryChoice(RemarksContain(rm.s), "remarks containing '" + rm.s + "'"))
      else Err(Raised("TypeError"))
    else if Truthy(c) then
      if c.VStr? then Ok(CategoryChoice(CategoryIs(c.s), "category '" + c.s + "'"))
      else Err(Raised("AttributeError"))
    else if Truthy(mc) then
      if mc.VStr? then Ok(CategoryChoice(MajorIs(mc.s), "major category '" + mc.s + "'"))
      else Err(Raised("AttributeError"))
    else Ok(CategoryChoice(AnyCategory, "all expenses"))
  }

  /** Some row carries a remark. */
  predicate AnyRemark(data: seq<Txn>) {
    exists i :: 0 <= i < |data| && data[i].remarks.Some?
  }

  /** A category filter shows remarks when the selection has any, otherwise
      categories; a remarks or broad-group filter shows categories; no filter
      shows broad groups. */
  function GroupingFor(cf: CategoryFilter, data: seq<Txn>): Grouping {
    match cf
    case RemarksContain(_) => ByCategory
    case CategoryIs(_) => if AnyRemark(data) then ByRemarks else ByCategory
    case MajorIs(_) => ByCategory
    case AnyCategory => ByMajor
  }

  /** The row's group, or none when its remark is missing (`groupby` drops
      missing keys). */
  function GroupKey(t: Txn, g: Grouping): Option<string> {
    match g
    case ByCategory => Some(t.category)
    case ByMajor => Some(t.major)
    case ByRemarks => t.remarks
  }

  // ---------------------------------------------------------------------------
  // Groups as (name, amount) pairs

  type Slice = (string, int)

  predicate HasKey(gs: seq<Slice>, k: string) {
    exists i :: 0 <= i < |gs| && gs[i].0 == k
  }

  predicate DistinctKeys(gs: seq<Slice>) {
    forall i, j :: 0 <= i < j < |gs| ==> gs[i].0 != gs[j].0
  }

  function Sum(gs: seq<Slice>): int {
    if |gs| == 0 then 0 else gs[0].1 + Sum(gs[1..])
  }

  lemma {:induction false} SumAppend(a: seq<Slice>, b: seq<Slice>)
    ensures Sum(a + b) == Sum(a) + Sum(b)
  {
    if |a| == 0 {
      assert a + b == b;
    } else {
      assert (a + b)[1..] == a[1..] + b;
      SumAppend(a[1..], b);
    }
  }

  /** `r` is `gs` with `x` added to group `k`, the group opened at the end
      if it is new. */
  ghost predicate Added(gs: seq<Slice>, k: string, x: int, r: seq<Slice>) {
    && |r| == (if HasKey(gs, k) then |gs| else |gs| + 1)
    && (forall i :: 0 <= i < |gs| ==> r[i] == (gs[i].0, gs[i].1 + (if gs[i].0 == k then x else 0)))
    && (!HasKey(gs, k) ==> r[|gs|] == (k, x))
    && Sum(r) == Sum(gs) + x
  }

  /** Adds `x` to group `k`, opening the group at the end if it is new. */
  function AddTo(gs: seq<Slice>, k: string, x: int): (r: seq<Slice>)
    requires DistinctKeys(gs)
    ensures Added(gs, k, x, r)
  {
    if |gs| == 0 then [(k, x)]
    else if gs[0].0 == k then
      AddAtHead(gs, k, x);
      [(k, gs[0].1 + x)] + gs[1..]
    else
      DistinctTail(gs);
      var rest := AddTo(gs[1..], k, x);
      AddBehindHead(gs, k, x, rest);
      [gs[0]] + rest
  }

  /** Group `k` in front: its amount grows, nothing else changes. */
  lemma AddAtHead(gs: seq<Slice>, k: string, x: int)
    requires DistinctKeys(gs) && |gs| > 0 && gs[0].0 == k
    ensures Added(gs, k, x, [(k, gs[0].1 + x)] + gs[1..])
  {
    var r := [(k, gs[0].1 + x)] + gs[1..];
    assert r[1..] == gs[1..];
    assert forall i :: 0 < i < |gs| ==> gs[i].0 != k;
  }

  /** An untouched head in front of the updated tail. */
  lemma AddBehindHead(gs: seq<Slice>, k: string, x: int, rest: seq<Slice>)
    requires |gs| > 0 && gs[0].0 != k
    requires Added(gs[1..], k, x, rest)
    ensures Added(gs, k, x, [gs[0]] + rest)
  {
    HasKeyCons(gs, k);
    var r := [gs[0]] + rest;
    assert r[1..] == rest;
    forall i | 0 <= i < |gs| ensures r[i] == (gs[i].0, gs[i].1 + (if gs[i].0 == k then x else 0)) {
      if i > 0 {
        var j := i - 1;
        assert r[i] == rest[j] && gs[i] == gs[1..][j];
      }
    }
  }

  /** Adding keeps the keys distinct and adds just `k` to them. */
  lemma AddToKeys(gs: seq<Slice>, k: string, x: int)
    requires DistinctKeys(gs)
    ensures DistinctKeys(AddTo(gs, k, x))
    ensures forall k' :: HasKey(AddTo(gs, k, x), k') <==> HasKey(gs, k') || k' == k
  {
    var r := AddTo(gs, k, x);
    if HasKey(gs, k) {
      KeysOfSameNames(gs, r);
    } else {
      forall i, j | 0 <= i < j < |r| ensures r[i].0 != r[j].0 {
        assert r[i].0 == gs[i].0;
      }
      forall k' ensures HasKey(r, k') <==> HasKey(gs, k') || k' == k {
        if HasKey(gs, k') {
          var i :| 0 <= i < |gs| && gs[i].0 == k';
          assert r[i].0 == k';
        }
        if HasKey(r, k') {
          var i :| 0 <= i < |r| && r[i].0 == k';
          assert i < |gs| ==> gs[i].0 == k';
        }
        assert r[|gs|].0 == k;
      }
    }
  }

  lemma DistinctTail(gs: seq<Slice>)
    requires |gs| > 0 && DistinctKeys(gs)
    ensures DistinctKeys(gs[1..])
    ensures !HasKey(gs[1..], gs[0].0)
  {
  }

  /** Membership in a non-empty sequence: the head or the tail. */
  lemma HasKeyCons(gs: seq<Slice>, k: string)
    requires |gs| > 0
    ensures HasKey(gs, k) <==> gs[0].0 == k || HasKey(gs[1..], k)
  {
    if HasKey(gs, k) && gs[0].0 != k {
      var i :| 0 <= i < |gs| && gs[i].0 == k;
      assert gs[1..][i - 1].0 == k;
    }
    if HasKey(gs[1..], k) {
      var i :| 0 <= i < |gs[1..]| && gs[1..][i].0 == k;
      assert gs[i + 1].0 == k;
    }
  }

  /** Same names in the same places: same distinctness, same keys. */
  lemma KeysOfSameNames(a: seq<Slice>, b: seq<Slice>)
    requires |a| == |b| && forall i :: 0 <= i < |a| ==> a[i].0 == b[i].0
    ensures DistinctKeys(a) ==> DistinctKeys(b)
    ensures forall k :: HasKey(a, k) <==> HasKey(b, k)
  {
    forall k ensures HasKey(a, k) <==> HasKey(b, k) {
      if HasKey(a, k) {
        var i :| 0 <= i < |a| && a[i].0 == k;
        assert b[i].0 == k;
      }
      if HasKey(b, k) {
        var i :| 0 <= i < |b| && b[i].0 == k;
        assert a[i].0 == k;
      }
    }
  }

  /** Sum of the rows in group `k`. */
  function GroupTotal(data: seq<Txn>, g: Grouping, k: string): int {
    if |data| == 0 then 0
    else
      var last := data[|data| - 1];
      GroupTotal(data[..|data| - 1], g, k) + (if GroupKey(last, g) == Some(k) then last.expense else 0)
  }

  /** Sum of the rows that have a group. */
  function GroupedTotal(data: seq<Txn>, g: Grouping): int {
    if |data| == 0 then 0
    else
      var last := data[|data| - 1];
      GroupedTotal(data[..|data| - 1], g) + (if GroupKey(last, g).Some? then last.expense else 0)
  }

  /** Some row belongs to group `k`. */
  predicate InData(data: seq<Txn>, g: Grouping, k: string) {
    exists j :: 0 <= j < |data| && GroupKey(data[j], g) == Some(k)
  }

  /** The sums of `data.groupby(column)['Expense'].sum()`: one pair per
      group, collected in order of first appearance; `SortByKey` then puts
      them in the name order `groupby` returns. */
  function GroupSums(data: seq<Txn>, g: Grouping): (r: seq<Slice>)
    ensures DistinctKeys(r)
    ensures forall i :: 0 <= i < |r| ==> r[i].1 == GroupTotal(data, g, r[i].0)
    ensures forall k :: HasKey(r, k) <==> InData(data, g, k)
    ensures Sum(r) == GroupedTotal(data, g)
  {
    if |data| == 0 then []
    else
      var init := data[..|data| - 1];
      var last := data[|data| - 1];
      var prev := GroupSums(init, g);
      InDataLast(data, g);
      match GroupKey(last, g)
      case None => prev
      case Some(k) =>
        var r := AddTo(prev, k, last.expense);
        AddToKeys(prev, k, last.expense);
        GroupTotalsStep(data, g, prev, r);
        r
  }

  // ---------------------------------------------------------------------------
  // Groups in key order: `groupby` sorts its result by group name

  /** `a`'s group name sorts before `b`'s, as Python compares strings. */
  predicate KeyBefore(a: Slice, b: Slice) {
    StrLess(a.0, b.0)
  }

  /** Group names strictly increasing. */
  ghost predicate KeysAscending(gs: seq<Slice>) {
    forall i, j :: 0 <= i < j < |gs| ==> StrLess(gs[i].0, gs[j].0)
  }

  /** Puts `x` in front of the first group whose name sorts after its own. */
  function InsertByKey(x: Slice, gs: seq<Slice>): (r: seq<Slice>)
    requires KeysAscending(gs) && !HasKey(gs, x.0)
    ensures |r| == |gs| + 1
    ensures KeysAscending(r)
    ensures multiset(r) == multiset(gs) + multiset{x}
    ensures r[0] == x || (|gs| > 0 && r[0] == gs[0])
  {
    if |gs| == 0 || StrLess(x.0, gs[0].0) then
      NameInFront(x, gs);
      [x] + gs
    else
      assert gs[0].0 != x.0;
      StrLessTotal(x.0, gs[0].0);
      AscendingTail(gs, x.0);
      var rest := InsertByKey(x, gs[1..]);
      NameBehindHead(x, gs, rest);
      assert gs == [gs[0]] + gs[1..];
      [gs[0]] + rest
  }

  lemma NameInFront(x: Slice, gs: seq<Slice>)
    requires KeysAscending(gs)
    requires |gs| == 0 || StrLess(x.0, gs[0].0)
    ensures KeysAscending([x] + gs)
  {
    var r := [x] + gs;
    forall i, j | 0 <= i < j < |r|
      ensures StrLess(r[i].0, r[j].0)
    {
      assert r[j] == gs[j - 1];
      if i == 0 {
        if j > 1 {
          StrLessTransitive(x.0, gs[0].0, gs[j - 1].0);
        }
      } else {
        assert r[i] == gs[i - 1];
      }
    }
  }

  lemma NameBehindHead(x: Slice, gs: seq<Slice>, rest: seq<Slice>)
    requires |gs| > 0 && KeysAscending(gs) && StrLess(gs[0].0, x.0)
    requires KeysAscending(rest) && |rest| > 0
    requires rest[0] == x || (|gs| > 1 && rest[0] == gs[1])
    ensures KeysAscending([gs[0]] + rest)
  {
    var r := [gs[0]] + rest;
    assert StrLess(gs[0].0, rest[0].0);
    forall i, j | 0 <= i < j < |r|
      ensures StrLess(r[i].0, r[j].0)
    {
      assert r[j] == rest[j - 1];
      if i == 0 {
        if j > 1 {
          StrLessTransitive(gs[0].0, rest[0].0, rest[j - 1].0);
        }
      } else {
        assert r[i] == rest[i - 1];
      }
    }
  }

  lemma AscendingTail(gs: seq<Slice>, k: string)
    requires |gs| > 0 && KeysAscending(gs) && !HasKey(gs, k)
    ensures KeysAscending(gs[1..]) && !HasKey(gs[1..], k)
  {
    var tail := gs[1..];
    forall i, j | 0 <= i < j < |tail|
      ensures StrLess(tail[i].0, tail[j].0)
    {
      assert tail[i] == gs[i + 1] && tail[j] == gs[j + 1];
    }
  }

  /** The groups sorted by name (`groupby`'s default `sort=True`). */
  function SortByKey(gs: seq<Slice>): (r: seq<Slice>)
    requires DistinctKeys(gs)
    ensures |r| == |gs|
    ensures KeysAscending(r)
    ensures multiset(r) == multiset(gs)
  {
    if |gs| == 0 then []
    else
      DistinctTail(gs);
      var rest := SortByKey(gs[1..]);
      KeyStaysAbsent(gs[0].0, gs[1..], rest);
      assert gs == [gs[0]] + gs[1..];
      InsertByKey(gs[0], rest)
  }

  /** Reordering neither adds nor removes a group name. */
  lemma KeyStaysAbsent(k: string, a: seq<Slice>, b: seq<Slice>)
    requires multiset(a) == multiset(b) && !HasKey(a, k)
    ensures !HasKey(b, k)
  {
    forall i | 0 <= i < |b|
      ensures b[i].0 != k
    {
      assert b[i] in multiset(a);
    }
  }

  /** Names in increasing order leave every tie of amounts in name order. */
  lemma AscendingTies(gs: seq<Slice>)
    requires KeysAscending(gs)
    ensures TiesIn(gs, Amount, KeyBefore)
  {
  }

  /** A row more: its group joins the groups seen. */
  lemma InDataLast(data: seq<Txn>, g: Grouping)
    requires |data| > 0
    ensures forall k :: InData(data, g, k) <==>
      InData(data[..|data| - 1], g, k) || GroupKey(data[|data| - 1], g) == Some(k)
  {
    var init := data[..|data| - 1];
    forall k ensures InData(data, g, k) <==> InData(init, g, k) || GroupKey(data[|data| - 1], g) == Some(k) {
      if InData(init, g, k) {
        var j :| 0 <= j < |init| && GroupKey(init[j], g) == Some(k);
        assert data[j] == init[j];
      }
      if InData(data, g, k) {
        var j :| 0 <= j < |data| && GroupKey(data[j], g) == Some(k);
        if j < |init| {
          assert init[j] == data[j];
        }
      }
    }
  }

  /** A row more, with a group: the group totals stay right. */
  lemma GroupTotalsStep(data: seq<Txn>, g: Grouping, prev: seq<Slice>, r: seq<Slice>)
    requires |data| > 0 && GroupKey(data[|data| - 1], g).Some?
    requires DistinctKeys(prev)
    requires forall i :: 0 <= i < |prev| ==> prev[i].1 == GroupTotal(data[..|data| - 1], g, prev[i].0)
    requires forall k :: HasKey(prev, k) <==> InData(data[..|data| - 1], g, k)
    requires r == AddTo(prev, GroupKey(data[|data| - 1], g).value, data[|data| - 1].expense)
    ensures forall i :: 0 <= i < |r| ==> r[i].1 == GroupTotal(data, g, r[i].0)
  {
    var init := data[..|data| - 1];
    var last := data[|data| - 1];
    var k := GroupKey(last, g).value;
    forall i | 0 <= i < |r| ensures r[i].1 == GroupTotal(data, g, r[i].0) {
      var name := r[i].0;
      assert GroupTotal(data, g, name)
        == GroupTotal(init, g, name) + (if GroupKey(last, g) == Some(name) then last.expense else 0);
      if i < |prev| {
        assert name == prev[i].0;
        assert r[i].1 == prev[i].1 + (if name == k then last.expense else 0);
      } else {
        assert !HasKey(prev, k);
        assert r[i] == (k, last.expense);
        GroupTotalAbsent(init, g, k);
      }
    }
  }

  /** A group no earlier row belongs to has nothing in it yet. */
  lemma {:induction false} GroupTotalAbsent(data: seq<Txn>, g: Grouping, k: string)
    requires !InData(data, g, k)
    ensures GroupTotal(data, g, k) == 0
  {
    if |data| > 0 {
      InDataLast(data, g);
      GroupTotalAbsent(data[..|data| - 1], g, k);
    }
  }

  /** Grouping by a column every row has loses no row's amount. */
  lemma {:induction false} GroupedTotalIsTotal(data: seq<Txn>, g: Grouping)
    ensures g != ByRemarks ==> GroupedTotal(data, g) == Total(data)
  {
    if |data| > 0 && g != ByRemarks {
      var init := data[..|data| - 1];
      GroupedTotalIsTotal(init, g);
      assert data == init + [data[|data| - 1]];
      TotalAppend(init, [data[|data| - 1]]);
    }
  }

  // ---------------------------------------------------------------------------
  // Folding small slices into "Others"

  function Amount(s: Slice): int {
    s.1
  }

  /** At least three percent of `total` (exactly, without rounding). */
  predicate Large(s: Slice, total: int) {
    100 * s.1 >= 3 * total
  }

  /** `grouped[grouped['Expense'] >= threshold]`: the large slices, every
      copy of each, in their order. */
  function LargeOnes(gs: seq<Slice>, total: int): (r: seq<Slice>)
    ensures forall i :: 0 <= i < |r| ==> Large(r[i], total)
    ensures |r| <= |gs|
    ensures forall s :: multiset(r)[s] == if Large(s, total) then multiset(gs)[s] else 0
  {
    if |gs| == 0 then []
    else
      assert gs == [gs[0]] + gs[1..];
      if Large(gs[0], total) then [gs[0]] + LargeOnes(gs[1..], total)
      else LargeOnes(gs[1..], total)
  }

  /** `grouped[grouped['Expense'] < threshold]`: the small slices, every
      copy of each, in their order. */
  function SmallOnes(gs: seq<Slice>, total: int): (r: seq<Slice>)
    ensures forall i :: 0 <= i < |r| ==> !Large(r[i], total)
    ensures |r| <= |gs|
    ensures forall s :: multiset(r)[s] == if Large(s, total) then 0 else multiset(gs)[s]
  {
    if |gs| == 0 then []
    else
      assert gs == [gs[0]] + gs[1..];
      if Large(gs[0], total) then SmallOnes(gs[1..], total)
      else [gs[0]] + SmallOnes(gs[1..], total)
  }

  /** The large-slice filter keeps order: filtering a concatenation filters
      each part. */
  lemma {:induction false} LargeOnesAppend(a: seq<Slice>, b: seq<Slice>, total: int)
    ensures LargeOnes(a + b, total) == LargeOnes(a, total) + LargeOnes(b, total)
  {
    if |a| == 0 {
      assert a + b == b;
    } else {
      var ab := a + b;
      assert ab[0] == a[0] && ab[1..] == a[1..] + b;
      LargeOnesAppend(a[1..], b, total);
      var rest := LargeOnes(a[1..], total);
      if Large(a[0], total) {
        assert LargeOnes(ab, total) == [a[0]] + LargeOnes(a[1..] + b, total);
        assert [a[0]] + (rest + LargeOnes(b, total)) == ([a[0]] + rest) + LargeOnes(b, total);
      } else {
        assert LargeOnes(ab, total) == LargeOnes(a[1..] + b, total);
      }
    }
  }

  /** The small-slice filter keeps order in the same way. */
  lemma {:induction false} SmallOnesAppend(a: seq<Slice>, b: seq<Slice>, total: int)
    ensures SmallOnes(a + b, total) == SmallOnes(a, total) + SmallOnes(b, total)
  {
    if |a| == 0 {
      assert a + b == b;
    } else {
      var ab := a + b;
      assert ab[0] == a[0] && ab[1..] == a[1..] + b;
      SmallOnesAppend(a[1..], b, total);
      var rest := SmallOnes(a[1..], total);
      if !Large(a[0], total) {
        assert SmallOnes(ab, total) == [a[0]] + SmallOnes(a[1..] + b, total);
        assert [a[0]] + (rest + SmallOnes(b, total)) == ([a[0]] + rest) + SmallOnes(b, total);
      } else {
        assert SmallOnes(ab, total) == SmallOnes(a[1..] + b, total);
      }
    }
  }

  /** Together the two filters hold every slice. */
  lemma FiltersPartition(gs: seq<Slice>, total: int)
    ensures multiset(LargeOnes(gs, total)) + multiset(SmallOnes(gs, total)) == multiset(gs)
  {
    var l, m := multiset(LargeOnes(gs, total)), multiset(SmallOnes(gs, total));
    forall s ensures (l + m)[s] == multiset(gs)[s] {
    }
  }

  /** Where every slice is large, the large ones are all of them. */
  lemma {:induction false} AllLargeKept(gs: seq<Slice>, total: int)
    requires forall i :: 0 <= i < |gs| ==> Large(gs[i], total)
    ensures LargeOnes(gs, total) == gs
  {
    if |gs| > 0 {
      assert Large(gs[0], total);
      AllLargeKept(gs[1..], total);
    }
  }

  /** The large and small slices partition the amounts. */
  lemma {:induction false} SplitKeepsSum(gs: seq<Slice>, total: int)
    ensures Sum(LargeOnes(gs, total)) + Sum(SmallOnes(gs, total)) == Sum(gs)
    ensures |LargeOnes(gs, total)| + |SmallOnes(gs, total)| == |gs|
  {
    if |gs| > 0 {
      SplitKeepsSum(gs[1..], total);
    }
  }

  lemma {:induction false} SumNonNegative(gs: seq<Slice>)
    ensures (forall i :: 0 <= i < |gs| ==> gs[i].1 >= 0) ==> Sum(gs) >= 0
  {
    if |gs| > 0 {
      SumNonNegative(gs[1..]);
      assert (forall i :: 0 <= i < |gs| ==> gs[i].1 >= 0) ==> (forall i :: 0 <= i < |gs[1..]| ==> gs[1..][i].1 >= 0) by {
        if forall i :: 0 <= i < |gs| ==> gs[i].1 >= 0 {
          forall i | 0 <= i < |gs[1..]| ensures gs[1..][i].1 >= 0 {
            assert gs[1..][i] == gs[i + 1];
          }
        }
      }
    }
  }

  /** The slices drawn: for remarks more than ten become the first ten and
      "Others" (dropped when it would be zero or less); otherwise more than
      twelve become those of at least three percent and "Others" (when any
      was smaller). */
  function FoldOthers(gs: seq<Slice>, g: Grouping): (r: seq<Slice>)
    ensures g == ByRemarks && |gs| > 10 ==>
      10 <= |r| <= 11 && r[..10] == gs[..10] && (|r| == 11 <==> Sum(gs[10..]) > 0)
    ensures g == ByRemarks && |gs| > 10 && |r| == 11 ==> r[10] == ("Others", Sum(gs[10..]))
    ensures !(g == ByRemarks && |gs| > 10) && |gs| > 12 ==>
      forall i :: 0 <= i < |r| && r[i].0 != "Others" ==> Large(r[i], Sum(gs))
    ensures !(g == ByRemarks && |gs| > 10) && |gs| > 12 ==>
      var small := SmallOnes(gs, Sum(gs));
      r == LargeOnes(gs, Sum(gs)) + (if |small| > 0 then [("Others", Sum(small))] else [])
    ensures !(g == ByRemarks && |gs| > 10) && |gs| <= 12 ==> r == gs
    ensures !(g == ByRemarks && |gs| > 10) ==> Sum(r) == Sum(gs)
    ensures (forall i :: 0 <= i < |gs| ==> gs[i].1 >= 0) ==> Sum(r) == Sum(gs)
  {
    if g == ByRemarks && |gs| > 10 then TopTen(gs)
    else if |gs| > 12 then FoldSmall(gs)
    else gs
  }

  /** More than ten remarks: the first ten, and "Others" for the rest when
      they sum to more than zero. */
  function TopTen(gs: seq<Slice>): (r: seq<Slice>)
    requires |gs| > 10
    ensures 10 <= |r| <= 11 && r[..10] == gs[..10] && (|r| == 11 <==> Sum(gs[10..]) > 0)
    ensures |r| == 11 ==> r[10] == ("Others", Sum(gs[10..]))
    ensures (forall i :: 0 <= i < |gs| ==> gs[i].1 >= 0) ==> Sum(r) == Sum(gs)
  {
    var others := Sum(gs[10..]);
    assert gs == gs[..10] + gs[10..];
    SumAppend(gs[..10], gs[10..]);
    SumNonNegative(gs[10..]);
    if others > 0 then
      SumAppend(gs[..10], [("Others", others)]);
      gs[..10] + [("Others", others)]
    else gs[..10]
  }

  /** More than twelve groups: the slices of at least three percent, and
      "Others" holding the sum of the smaller ones when there are any. */
  function FoldSmall(gs: seq<Slice>): (r: seq<Slice>)
    ensures forall i :: 0 <= i < |r| && r[i].0 != "Others" ==> Large(r[i], Sum(gs))
    ensures var small := SmallOnes(gs, Sum(gs));
      r == LargeOnes(gs, Sum(gs)) + (if |small| > 0 then [("Others", Sum(small))] else [])
    ensures Sum(r) == Sum(gs)
  {
    var total := Sum(gs);
    var small := SmallOnes(gs, total);
    SplitKeepsSum(gs, total);
    if |small| > 0 then
      var large := LargeOnes(gs, total);
      SumAppend(large, [("Others", Sum(small))]);
      large + [("Others", Sum(small))]
    else
      FoldWithoutSmall(gs, total);
      AllLargeKept(gs, total);
      gs
  }

  /** With no small slice every slice is large. */
  lemma FoldWithoutSmall(gs: seq<Slice>, total: int)
    requires |SmallOnes(gs, total)| == 0
    ensures forall i :: 0 <= i < |gs| ==> Large(gs[i], total)
  {
    forall i | 0 <= i < |gs| ensures Large(gs[i], total) {
      if !Large(gs[i], total) {
        SmallContains(gs, total, i);
      }
    }
  }

  lemma {:induction false} SmallContains(gs: seq<Slice>, total: int, i: nat)
    requires i < |gs| && !Large(gs[i], total)
    ensures |SmallOnes(gs, total)| > 0
  {
    if i > 0 && Large(gs[0], total) {
      SmallContains(gs[1..], total, i - 1);
    }
  }

  // ---------------------------------------------------------------------------
  // The tool

  /** What the distribution found. */
  datatype DistributionReport =
    | NoData(subject: string, period: string)
    | Drawn(subject: string, count: nat, total: int, slices: seq<Slice>)

  function DistributionSelection(rows: seq<Txn>, kw: Kwargs): (r: Result<DistributionReport, ToolError>)
    ensures r.Ok? <==> MonthOrYear(kw, "All Time").Ok? && DistributionFilter(kw).Ok?
    ensures MonthOrYear(kw, "All Time").Err? ==> r == Err(MonthOrYear(kw, "All Time").error)
    ensures r.Ok? ==>
      var tf, cf := MonthOrYear(kw, "All Time").value.filter, DistributionFilter(kw).value.filter;
      var data := Select(rows, tf, cf);
      && (r.value.NoData? <==> MatchingCount(rows, tf, cf) == 0)
      && (r.value.Drawn? ==> r.value.count == MatchingCount(rows, tf, cf))
      && (r.value.Drawn? && GroupingFor(cf, data) != ByRemarks ==>
            r.value.total == MatchingTotal(rows, tf, cf) && Sum(r.value.slices) == r.value.total)
      && (r.value.Drawn? ==>
            var g := GroupingFor(cf, data);
            exists sorted :: && multiset(sorted) == multiset(GroupSums(data, g))
                             && SortedDesc(sorted, Amount)
                             && TiesIn(sorted, Amount, KeyBefore)
                             && r.value.slices == FoldOthers(sorted, g))
  {
    var tc :- MonthOrYear(kw, "All Time");
    var cc :- DistributionFilter(kw);
    var data := Select(rows, tc.filter, cc.filter);
    SelectTotal(rows, tc.filter, cc.filter);
    if |data| == 0 then Ok(NoData(cc.caption, tc.caption))
    else
      var g := GroupingFor(cc.filter, data);
      var grouped := GroupSums(data, g);
      var byKey := SortByKey(grouped);
      var sorted := SortDesc(byKey, Amount);
      AscendingTies(byKey);
      SortDescKeepsTies(byKey, Amount, KeyBefore);
      SortedSum(grouped, sorted);
      GroupedTotalIsTotal(data, g);
      Ok(Drawn(cc.caption, |data|, Sum(sorted), FoldOthers(sorted, g)))
  }

  /** Amounts from largest to smallest, ties by name, fix the order of the
      slices completely: any two such orderings of the same groups agree. */
  lemma {:induction false} PieOrderDetermined(a: seq<Slice>, b: seq<Slice>)
    requires multiset(a) == multiset(b)
    requires SortedDesc(a, Amount) && TiesIn(a, Amount, KeyBefore)
    requires SortedDesc(b, Amount) && TiesIn(b, Amount, KeyBefore)
    ensures a == b
    decreases |a|
  {
    assert |a| == |multiset(a)| == |b|;
    if |a| > 0 {
      SameHead(a, b);
      TailKeepsOrder(a, Amount, KeyBefore);
      TailKeepsOrder(b, Amount, KeyBefore);
      SameTails(a, b);
      PieOrderDetermined(a[1..], b[1..]);
      HeadAndTail(a, b);
    }
  }

  lemma SameTails(a: seq<Slice>, b: seq<Slice>)
    requires |a| > 0 && |b| > 0 && a[0] == b[0] && multiset(a) == multiset(b)
    ensures multiset(a[1..]) == multiset(b[1..])
  {
    assert multiset(a[1..]) == multiset(a) - multiset{a[0]} by {
      assert a == [a[0]] + a[1..];
    }
    assert multiset(b[1..]) == multiset(b) - multiset{b[0]} by {
      assert b == [b[0]] + b[1..];
    }
  }

  lemma HeadAndTail(a: seq<Slice>, b: seq<Slice>)
    requires |a| > 0 && |b| > 0 && a[0] == b[0] && a[1..] == b[1..]
    ensures a == b
  {
    assert a == [a[0]] + a[1..];
    assert b == [b[0]] + b[1..];
  }

  /** Both orderings start with the same slice. */
  lemma SameHead(a: seq<Slice>, b: seq<Slice>)
    requires |a| > 0 && |b| > 0 && multiset(a) == multiset(b)
    requires SortedDesc(a, Amount) && TiesIn(a, Amount, KeyBefore)
    requires SortedDesc(b, Amount) && TiesIn(b, Amount, KeyBefore)
    ensures a[0] == b[0]
  {
    assert a[0] in multiset(b);
    var j :| 0 <= j < |b| && b[j] == a[0];
    assert b[0] in multiset(a);
    var i :| 0 <= i < |a| && a[i] == b[0];
    if i > 0 && j > 0 {
      assert Amount(a[0]) >= Amount(a[i]) && Amount(b[0]) >= Amount(b[j]);
      assert KeyBefore(a[0], a[i]) && KeyBefore(b[0], b[j]);
      StrLessTransitive(a[0].0, b[0].0, a[0].0);
      StrLessIrreflexive(a[0].0);
      assert false;
    }
  }

  /** Reordering keeps the sum. */
  lemma SortedSum(a: seq<Slice>, b: seq<Slice>)
    requires multiset(a) == multiset(b)
    ensures Sum(a) == Sum(b)
  {
    MultisetSum(a, b);
  }

  lemma {:induction false} MultisetSum(a: seq<Slice>, b: seq<Slice>)
    requires multiset(a) == multiset(b)
    ensures Sum(a) == Sum(b)
    decreases |a|
  {
    if |a| > 0 {
      var x := a[0];
      assert x in multiset(b);
      var j :| 0 <= j < |b| && b[j] == x;
      var b' := b[..j] + b[j + 1..];
      SumRemoveAt(b, j);
      MultisetRemoveAt(b, j);
      assert multiset(a[1..]) == multiset(a) - multiset{x} by {
        assert a == [x] + a[1..];
      }
      MultisetSum(a[1..], b');
    } else {
      assert |b| == 0;
    }
  }

  /** Taking out one element takes its amount off the sum. */
  lemma SumRemoveAt(b: seq<Slice>, j: nat)
    requires j < |b|
    ensures Sum(b) == b[j].1 + Sum(b[..j] + b[j + 1..])
  {
    var pre, x, post := b[..j], b[j], b[j + 1..];
    assert b == pre + ([x] + post);
    SumAppend(pre, [x] + post);
    assert ([x] + post)[1..] == post;
    SumAppend(pre, post);
  }

  /** Taking out one element takes it off the multiset. */
  lemma MultisetRemoveAt(b: seq<Slice>, j: nat)
    requires j < |b|
    ensures multiset(b[..j] + b[j + 1..]) == multiset(b) - multiset{b[j]}
  {
    var pre, x, post := b[..j], b[j], b[j + 1..];
    assert b == pre + [x] + post;
    assert multiset(b) == multiset(pre) + multiset{x} + multiset(post);
  }

  function DistributionMessage(rep: DistributionReport, period: string): string {
    match rep
    case NoData(subject, p) => "No data found for " + subject + " in " + p + "."
    case Drawn(subject, count, total, slices) =>
      "Distribution for " + subject + ": " + Yen(total)
        + " (n=" + IntToString(count) + " across " + IntToString(|slices|) + " items)"
  }

  /** `plot_distribution`: a pie of the folded slices, or no figure when no
      row is selected. */
  function PlotDistribution(rows: seq<Txn>, kw: Kwargs): (r: Result<ToolOutput, ToolError>)
    ensures r.Ok? <==> DistributionSelection(rows, kw).Ok?
    ensures r.Ok? ==> (r.value.fig.None? <==> DistributionSelection(rows, kw).value.NoData?)
    ensures r.Ok? && r.value.fig.Some? ==> r.value.fig.value == Pie(DistributionSelection(rows, kw).value.slices)
  {
    var rep :- DistributionSelection(rows, kw);
    var when := MonthOrYear(kw, "All Time").value.caption;
    match rep
    case NoData(_, _) => Ok(ToolOutput(None, DistributionMessage(rep, when)))
    case Drawn(_, _, _, slices) => Ok(ToolOutput(Some(Pie(slices)), DistributionMessage(rep, when)))
  }
}
