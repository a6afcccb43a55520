/** The fuzzy category resolver that sits between the model-extracted
    arguments and every analytical tool (backend/utils/llm_input_validation.py).
    The one category-like argument is resolved to a broad ("major") category,
    a specific category, or, failing both, a free-text search in the remarks. */
module Validation {
  import opened Wrappers
  import opened Text
  import opened Values
  import opened Frames

  // ---------------------------------------------------------------------------
  // Case-insensitive lookups

  /** A Python dict from lower-cased name to the name as it appears in the
      data; `keys` is the dict's insertion order. */
  datatype Lookup = Lookup(keys: seq<string>, table: map<string, string>)

  predicate WellFormed(l: Lookup) {
    && (forall i :: 0 <= i < |l.keys| ==> l.keys[i] in l.table)
    && (forall k :: k in l.table ==> k in l.keys)
    && (forall k :: k in l.table ==> Lower(l.table[k]) == k)
    && (forall i, j :: 0 <= i < j < |l.keys| ==> l.keys[i] != l.keys[j])
  }

  const EmptyLookup: Lookup := Lookup([], map[])

  /** `{str(c).lower(): c for c in names}`; when two names differ only in
      case, the later one is kept. */
  function BuildLookup(names: seq<string>): (l: Lookup)
    ensures WellFormed(l)
    ensures l.table.Keys == KeysOf(names)
    ensures forall k :: k in l.table ==> l.table[k] in names
    decreases |names|
  {
    if |names| == 0 then EmptyLookup
    else
      var prev := BuildLookup(names[..|names| - 1]);
      var l := AddName(prev, names[|names| - 1]);
      AddNameKeys(names, names[..|names| - 1], prev, l);
      l
  }

  /** The names, lower-cased. */
  function KeysOf(names: seq<string>): set<string> {
    set i | 0 <= i < |names| :: Lower(names[i])
  }

  /** The keys after the last name are the keys of the earlier names plus its own. */
  lemma AddNameKeys(names: seq<string>, front: seq<string>, prev: Lookup, l: Lookup)
    requires |names| > 0 && front == names[..|names| - 1]
    requires prev.table.Keys == KeysOf(front)
    requires forall k :: k in prev.table ==> prev.table[k] in front
    requires l.table.Keys == prev.table.Keys + {Lower(names[|names| - 1])}
    requires l.table[Lower(names[|names| - 1])] == names[|names| - 1]
    requires forall k :: k in prev.table && k != Lower(names[|names| - 1]) ==> l.table[k] == prev.table[k]
    ensures l.table.Keys == KeysOf(names)
    ensures forall k :: k in l.table ==> l.table[k] in names
  {
    KeysOfSnoc(names);
    AddNameValues(names, front, prev, l);
  }

  /** One more name adds just its own key. */
  lemma KeysOfSnoc(names: seq<string>)
    requires |names| > 0
    ensures KeysOf(names) == KeysOf(names[..|names| - 1]) + {Lower(names[|names| - 1])}
  {
    var front := names[..|names| - 1];
    forall k | k in KeysOf(names) ensures k in KeysOf(front) + {Lower(names[|names| - 1])} {
      var i :| 0 <= i < |names| && Lower(names[i]) == k;
      if i < |front| {
        assert front[i] == names[i];
      }
    }
    forall k | k in KeysOf(front) ensures k in KeysOf(names) {
      var i :| 0 <= i < |front| && Lower(front[i]) == k;
      assert names[i] == front[i];
    }
  }

  lemma AddNameValues(names: seq<string>, front: seq<string>, prev: Lookup, l: Lookup)
    requires |names| > 0 && front == names[..|names| - 1]
    requires forall k :: k in prev.table ==> prev.table[k] in front
    requires l.table.Keys == prev.table.Keys + {Lower(names[|names| - 1])}
    requires l.table[Lower(names[|names| - 1])] == names[|names| - 1]
    requires forall k :: k in prev.table && k != Lower(names[|names| - 1]) ==> l.table[k] == prev.table[k]
    ensures forall k :: k in l.table ==> l.table[k] in names
  {
    var last := |names| - 1;
    forall k | k in l.table ensures l.table[k] in names {
      if k != Lower(names[last]) {
        var j :| 0 <= j < |front| && front[j] == prev.table[k];
        assert names[j] == l.table[k];
      }
    }
  }

  /** One more dict entry: a new key goes to the end of the order, an
      existing key keeps its place and takes the new name. */
  function AddName(prev: Lookup, c: string): (l: Lookup)
    requires WellFormed(prev)
    ensures WellFormed(l)
    ensures l.table.Keys == prev.table.Keys + {Lower(c)}
    ensures l.table[Lower(c)] == c
    ensures forall k :: k in prev.table && k != Lower(c) ==> l.table[k] == prev.table[k]
  {
    var k := Lower(c);
    var l := Lookup(if k in prev.table then prev.keys else prev.keys + [k], prev.table[k := c]);
    AddKeepsWellFormed(prev, c, l);
    l
  }

  lemma AddKeepsWellFormed(prev: Lookup, c: string, l: Lookup)
    requires WellFormed(prev)
    requires l == Lookup(if Lower(c) in prev.table then prev.keys else prev.keys + [Lower(c)], prev.table[Lower(c) := c])
    ensures WellFormed(l)
  {
    LowerIdempotent(c);
  }

  datatype Metadata = Metadata(categories: Lookup, majors: Lookup)

  /** `get_metadata_lists`: both lookups are empty without a `category`
      column; the major lookup is empty without a `major category` column.
      The names are enumerated in row order (the source enumerates a set). */
  function GetMetadataLists(f: Frame): (md: Metadata)
    ensures WellFormed(md.categories) && WellFormed(md.majors)
    ensures !f.hasCategory ==> md.categories.table == map[] && md.majors.table == map[]
    ensures !f.hasMajor ==> md.majors.table == map[]
    ensures f.hasCategory ==> md.categories.table.Keys == KeysOf(CategoryColumn(f.rows))
    ensures f.hasCategory && f.hasMajor ==> md.majors.table.Keys == KeysOf(MajorColumn(f.rows))
    ensures forall k :: k in md.categories.table ==> md.categories.table[k] in CategoryColumn(f.rows)
    ensures forall k :: k in md.majors.table ==> md.majors.table[k] in MajorColumn(f.rows)
  {
    if !f.hasCategory then Metadata(EmptyLookup, EmptyLookup)
    else
      var cats := BuildLookup(CategoryColumn(f.rows));
      if f.hasMajor then
        Metadata(cats, BuildLookup(MajorColumn(f.rows)))
      else Metadata(cats, EmptyLookup)
  }

  // ---------------------------------------------------------------------------
  // Similarity search (difflib.get_close_matches with n=1, cutoff=0.8)

  /** The similarity cutoff of the fuzzy tier. */
  const Cutoff: real := 0.8

  /** `(ratio(a, w), a) >= (ratio(b, w), b)`: the order in which
      `get_close_matches` ranks candidates, ties going to the larger string. */
  predicate RanksAtLeast(a: string, b: string, word: string, ratio: (string, string) -> real) {
    ratio(a, word) > ratio(b, word) || (ratio(a, word) == ratio(b, word) && !StrLess(a, b))
  }

  lemma RanksTotal(a: string, b: string, word: string, ratio: (string, string) -> real)
    ensures RanksAtLeast(a, b, word, ratio) || RanksAtLeast(b, a, word, ratio)
  {
    StrLessTotal(a, b);
    if StrLess(a, b) && StrLess(b, a) {
      StrLessTransitive(a, b, a);
      StrLessIrreflexive(a);
    }
    if a == b {
      StrLessIrreflexive(a);
    }
  }

  lemma RanksTransitive(a: string, b: string, c: string, word: string, ratio: (string, string) -> real)
    requires RanksAtLeast(a, b, word, ratio) && RanksAtLeast(b, c, word, ratio)
    ensures RanksAtLeast(a, c, word, ratio)
  {
    if ratio(a, word) == ratio(b, word) == ratio(c, word) && StrLess(a, c) {
      StrLessTotal(b, c);
      if StrLess(c, b) {
        StrLessTransitive(a, c, b);
      }
    }
  }

  /** The best-ranked key whose similarity to `word` reaches the cutoff. */
  function CloseMatch(word: string, keys: seq<string>, ratio: (string, string) -> real): (r: Option<string>)
    ensures r.Some? <==> exists i :: 0 <= i < |keys| && ratio(keys[i], word) >= Cutoff
    ensures r.Some? ==> r.value in keys && ratio(r.value, word) >= Cutoff
    ensures r.Some? ==> forall i :: 0 <= i < |keys| && ratio(keys[i], word) >= Cutoff ==>
      RanksAtLeast(r.value, keys[i], word, ratio)
  {
    if |keys| == 0 then None
    else
      var rest := CloseMatch(word, keys[1..], ratio);
      var k := keys[0];
      assert forall i :: 1 <= i < |keys| ==> keys[i] == keys[1..][i - 1];
      if ratio(k, word) < Cutoff then rest
      else if rest.None? then
        StrLessIrreflexive(k);
        Some(k)
      else
        RanksTotal(k, rest.value, word, ratio);
        if RanksAtLeast(k, rest.value, word, ratio) then
          assert forall i :: 1 <= i < |keys| && ratio(keys[i], word) >= Cutoff ==>
            RanksAtLeast(rest.value, keys[i], word, ratio);
          RanksAllBelow(k, rest.value, keys, word, ratio);
          Some(k)
        else rest
  }

  lemma RanksAllBelow(k: string, b: string, keys: seq<string>, word: string, ratio: (string, string) -> real)
    requires RanksAtLeast(k, b, word, ratio)
    requires forall i :: 1 <= i < |keys| && ratio(keys[i], word) >= Cutoff ==> RanksAtLeast(b, keys[i], word, ratio)
    requires |keys| > 0 && keys[0] == k
    ensures forall i :: 0 <= i < |keys| && ratio(keys[i], word) >= Cutoff ==> RanksAtLeast(k, keys[i], word, ratio)
  {
    forall i | 0 <= i < |keys| && ratio(keys[i], word) >= Cutoff
      ensures RanksAtLeast(k, keys[i], word, ratio)
    {
      if i == 0 {
        RanksTotal(k, k, word, ratio);
      } else {
        RanksTransitive(k, b, keys[i], word, ratio);
      }
    }
  }

  // ---------------------------------------------------------------------------
  // The tiered matcher (find_best_match)

  /** A match and its confidence in tenths: 10 exact, 9 plural, 8 similar. */
  datatype Match = Match(name: Option<string>, score: nat)

  /** `s[:-1]` for a string ending in `s`, the singular the first heuristic tries. */
  function DropS(v: string): string
    requires EndsWith(v, "s")
  {
    v[..|v| - 1]
  }

  /** `s[:-3] + 'y'` for a string ending in `ies`. */
  function IesToY(v: string): string
    requires EndsWith(v, "ies")
  {
    v[..|v| - 3] + "y"
  }

  /** The lower-cased text the matcher compares: `str(value).lower()`. */
  function Key(value: Value): string {
    Lower(ToStr(value))
  }

  function FindBestMatch(value: Value, l: Lookup, ratio: (string, string) -> real): (m: Match)
    requires WellFormed(l)
    ensures m.score == 0 || m.score == 8 || m.score == 9 || m.score == 10
    ensures m.score > 0 <==> m.name.Some?
    ensures m.name.Some? ==> Lower(m.name.value) in l.table && l.table[Lower(m.name.value)] == m.name.value
    ensures !Truthy(value) ==> m == Match(None, 0)
    ensures Truthy(value) ==> (m.score == 10 <==> Key(value) in l.table)
    ensures m.score == 10 ==> m.name == Some(l.table[Key(value)])
    ensures m.score == 9 ==> (Key(value) !in l.table
      && ((EndsWith(Key(value), "s") && Lower(m.name.value) == DropS(Key(value)))
          || (EndsWith(Key(value), "ies") && Lower(m.name.value) == IesToY(Key(value)))))
    ensures m.score == 8 ==> ratio(Lower(m.name.value), Key(value)) >= Cutoff
    ensures m.score == 8 ==>
      && Key(value) !in l.table
      && (EndsWith(Key(value), "s") ==> DropS(Key(value)) !in l.table)
      && (EndsWith(Key(value), "ies") ==> IesToY(Key(value)) !in l.table)
    ensures Truthy(value) && m.score == 0 ==>
      && Key(value) !in l.table
      && (EndsWith(Key(value), "s") ==> DropS(Key(value)) !in l.table)
      && (EndsWith(Key(value), "ies") ==> IesToY(Key(value)) !in l.table)
      && forall k :: k in l.table ==> ratio(k, Key(value)) < Cutoff
  {
    if !Truthy(value) then Match(None, 0)
    else
      var v := Key(value);
      if v in l.table then Match(Some(l.table[v]), 10)
      else if EndsWith(v, "s") && DropS(v) in l.table then Match(Some(l.table[DropS(v)]), 9)
      else if EndsWith(v, "ies") && IesToY(v) in l.table then Match(Some(l.table[IesToY(v)]), 9)
      else
        match CloseMatch(v, l.keys, ratio)
        case Some(k) => Match(Some(l.table[k]), 8)
        case None =>
          assert forall k :: k in l.table ==> exists i :: 0 <= i < |l.keys| && l.keys[i] == k;
          Match(None, 0)
  }

  // ---------------------------------------------------------------------------
  // validate_and_fix_params

  /** `params.get('category') or params.get('major_category')` */
  function RawInput(params: Kwargs): Value {
    var c := Get(params, "category");
    if Truthy(c) then c else Get(params, "major_category")
  }

  /** `.strip('`').strip("'").strip('"').strip()` */
  function CleanText(s: string): string {
    Strip(StripChar(StripChar(StripChar(s, '`'), '\''), '"'))
  }

  /** The category argument after stripping (only strings are stripped). */
  function InputCategory(params: Kwargs): Value {
    match RawInput(params)
    case VStr(s) => VStr(CleanText(s))
    case v => v
  }

  /** Which of the three rewrites applies. */
  datatype Outcome =
    | NoCategory
    | ToMajor(name: string)
    | ToCategory(name: string)
    | ToRemarks(text: Value)

  /** A broad group wins when it matches with a score of at least 0.8 and at
      least as confidently as the best specific category. */
  predicate MajorWins(major: Match, cat: Match) {
    major.score >= 8 && major.score >= cat.score
  }

  /** The decision table: a broad group wins when it matches at least as
      confidently as a specific category; a specific category needs a match
      of its own; anything else is a search term. */
  function Classify(params: Kwargs, f: Frame, ratio: (string, string) -> real): (o: Outcome)
    ensures o.NoCategory? <==> !Truthy(InputCategory(params))
    ensures o.ToMajor? ==> o.name in GetMetadataLists(f).majors.table.Values
    ensures o.ToCategory? ==> o.name in GetMetadataLists(f).categories.table.Values
    ensures o.ToRemarks? ==> o.text == InputCategory(params)
    ensures o.ToRemarks? <==> (
      && Truthy(InputCategory(params))
      && FindBestMatch(InputCategory(params), GetMetadataLists(f).majors, ratio).score == 0
      && FindBestMatch(InputCategory(params), GetMetadataLists(f).categories, ratio).score == 0)
    ensures var major := FindBestMatch(InputCategory(params), GetMetadataLists(f).majors, ratio);
      var cat := FindBestMatch(InputCategory(params), GetMetadataLists(f).categories, ratio);
      && (o.ToMajor? <==> (Truthy(InputCategory(params)) && MajorWins(major, cat)))
      && (o.ToMajor? ==> Some(o.name) == major.name)
      && (o.ToCategory? <==> (Truthy(InputCategory(params)) && !MajorWins(major, cat) && cat.score >= 8))
      && (o.ToCategory? ==> Some(o.name) == cat.name)
  {
    Decide(InputCategory(params), GetMetadataLists(f), ratio)
  }

  /** The decision on a cleaned input against both lookups. */
  function Decide(input: Value, md: Metadata, ratio: (string, string) -> real): (o: Outcome)
    requires WellFormed(md.categories) && WellFormed(md.majors)
    ensures o.NoCategory? <==> !Truthy(input)
    ensures o.ToMajor? ==> o.name in md.majors.table.Values
    ensures o.ToCategory? ==> o.name in md.categories.table.Values
    ensures o.ToRemarks? ==> o.text == input
    ensures o.ToRemarks? <==> (
      && Truthy(input)
      && FindBestMatch(input, md.majors, ratio).score == 0
      && FindBestMatch(input, md.categories, ratio).score == 0)
    ensures var major := FindBestMatch(input, md.majors, ratio);
      var cat := FindBestMatch(input, md.categories, ratio);
      && (o.ToMajor? <==> (Truthy(input) && MajorWins(major, cat)))
      && (o.ToMajor? ==> Some(o.name) == major.name)
      && (o.ToCategory? <==> (Truthy(input) && !MajorWins(major, cat) && cat.score >= 8))
      && (o.ToCategory? ==> Some(o.name) == cat.name)
  {
    if !Truthy(input) then NoCategory
    else
      var major := FindBestMatch(input, md.majors, ratio);
      var cat := FindBestMatch(input, md.categories, ratio);
      if MajorWins(major, cat) then ToMajor(major.name.value)
      else if cat.score >= 8 then ToCategory(cat.name.value)
      else ToRemarks(input)
  }

  datatype Validated = Validated(params: Kwargs, warning: Option<string>)

  /** Every argument other than the three category-like ones is kept. */
  predicate OthersKept(before: Kwargs, after: Kwargs) {
    && (forall k :: k in before && !IsCategoryKey(k) ==> k in after && after[k] == before[k])
    && (forall k :: k in after && !IsCategoryKey(k) ==> k in before)
  }

  /** The three arguments the validator may rewrite. */
  predicate IsCategoryKey(k: string) {
    k == "category" || k == "major_category" || k == "remarks"
  }

  /** Drops some category-like arguments and sets one of them. */
  function Replace(params: Kwargs, drop: set<string>, key: string, v: Value): (p: Kwargs)
    requires IsCategoryKey(key)
    requires forall d :: d in drop ==> IsCategoryKey(d)
    ensures OthersKept(params, p)
    ensures key in p && p[key] == v
    ensures forall d :: d in drop && d != key ==> d !in p
    ensures forall k :: k !in drop && k != key ==> Get(p, k) == Get(params, k)
  {
    (params - drop)[key := v]
  }

  /** Applies an outcome to the arguments: the chosen name replaces both
      category arguments, or the input moves to `remarks`. */
  function Rewrite(params: Kwargs, input: Value, o: Outcome): (r: Validated)
    ensures OthersKept(params, r.params)
    ensures o.NoCategory? ==> r == Validated(params, None)
    ensures o.ToMajor? ==>
      && "category" !in r.params
      && "major_category" in r.params && r.params["major_category"] == VStr(o.name)
      && Get(r.params, "remarks") == Get(params, "remarks")
      && (r.warning.None? <==> input == VStr(o.name))
    ensures o.ToCategory? ==>
      && "major_category" !in r.params
      && "category" in r.params && r.params["category"] == VStr(o.name)
      && Get(r.params, "remarks") == Get(params, "remarks")
      && (r.warning.None? <==> input == VStr(o.name))
    ensures o.ToRemarks? ==>
      && "category" !in r.params && "major_category" !in r.params
      && "remarks" in r.params && r.params["remarks"] == o.text
      && r.warning.Some?
  {
    match o
    case NoCategory => Validated(params, None)
    case ToMajor(m) =>
      Validated(Replace(params, {"category"}, "major_category", VStr(m)),
        if input == VStr(m) then None
        else Some("Mapped '" + ToStr(input) + "' to broad group '" + m + "'"))
    case ToCategory(c) =>
      Validated(Replace(params, {"major_category"}, "category", VStr(c)),
        if input == VStr(c) then None
        else Some("Corrected '" + ToStr(input) + "' to category '" + c + "'"))
    case ToRemarks(text) =>
      Validated(Replace(params, {"category", "major_category"}, "remarks", text),
        Some("'" + ToStr(input) + "' not a category. Searching in remarks instead."))
  }

  /** `validate_and_fix_params`: classify, then rewrite. */
  function ValidateAndFixParams(params: Kwargs, f: Frame, ratio: (string, string) -> real): Validated {
    Rewrite(params, InputCategory(params), Classify(params, f, ratio))
  }

  // ---------------------------------------------------------------------------
  // Properties of the validator

  /** A name that matched in one lookup matches at least as well in any other
      lookup that also knows it: the tiers only look at the matched key. */
  lemma MatchCarriesOver(value: Value, l1: Lookup, l2: Lookup, ratio: (string, string) -> real)
    requires WellFormed(l1) && WellFormed(l2)
    requires FindBestMatch(value, l1, ratio).name.Some?
    requires Lower(FindBestMatch(value, l1, ratio).name.value) in l2.table
    ensures FindBestMatch(value, l2, ratio).score >= FindBestMatch(value, l1, ratio).score
  {
    var m1 := FindBestMatch(value, l1, ratio);
    var m2 := FindBestMatch(value, l2, ratio);
    if m1.score == 10 {
      assert Lower(m1.name.value) == Key(value);
    }
  }

  /** A truthy input that is already a broad group's name, exactly as the
      data spells it, maps to that group. */
  lemma ExactMajorKept(params: Kwargs, f: Frame, ratio: (string, string) -> real, m: string)
    requires InputCategory(params) == VStr(m) && m != ""
    requires Lower(m) in GetMetadataLists(f).majors.table
    requires GetMetadataLists(f).majors.table[Lower(m)] == m
    ensures Classify(params, f, ratio) == ToMajor(m)
    ensures ValidateAndFixParams(params, f, ratio).warning.None?
  {
    DecideExactMajor(m, GetMetadataLists(f), ratio);
  }

  lemma DecideExactMajor(m: string, md: Metadata, ratio: (string, string) -> real)
    requires WellFormed(md.categories) && WellFormed(md.majors) && m != ""
    requires Lower(m) in md.majors.table && md.majors.table[Lower(m)] == m
    ensures Decide(VStr(m), md, ratio) == ToMajor(m)
  {
    ExactNameMatches(VStr(m), md.majors, ratio);
  }

  /** A name spelled as the lookup spells it matches itself with full score. */
  lemma ExactNameMatches(input: Value, l: Lookup, ratio: (string, string) -> real)
    requires WellFormed(l) && input.VStr? && input.s != ""
    requires Lower(input.s) in l.table && l.table[Lower(input.s)] == input.s
    ensures FindBestMatch(input, l, ratio) == Match(Some(input.s), 10)
  {
    assert Key(input) == Lower(input.s);
  }

  /** A truthy input that is already a category's name, exactly as the data
      spells it, and not also a broad group, is kept as that category. */
  lemma ExactCategoryKept(params: Kwargs, f: Frame, ratio: (string, string) -> real, c: string)
    requires InputCategory(params) == VStr(c) && c != ""
    requires Lower(c) in GetMetadataLists(f).categories.table
    requires GetMetadataLists(f).categories.table[Lower(c)] == c
    requires Lower(c) !in GetMetadataLists(f).majors.table
    ensures Classify(params, f, ratio) == ToCategory(c)
    ensures ValidateAndFixParams(params, f, ratio).warning.None?
  {
    DecideExactCategory(c, GetMetadataLists(f), ratio);
  }

  lemma DecideExactCategory(c: string, md: Metadata, ratio: (string, string) -> real)
    requires WellFormed(md.categories) && WellFormed(md.majors) && c != ""
    requires Lower(c) in md.categories.table && md.categories.table[Lower(c)] == c
    requires Lower(c) !in md.majors.table
    ensures Decide(VStr(c), md, ratio) == ToCategory(c)
  {
    ExactNameMatches(VStr(c), md.categories, ratio);
    assert Key(VStr(c)) == Lower(c);
  }

  /** Without a `category` column nothing is a category: every truthy input
      becomes a remarks search. */
  lemma NoCategoryColumnSearchesRemarks(params: Kwargs, f: Frame, ratio: (string, string) -> real)
    requires !f.hasCategory && Truthy(InputCategory(params))
    ensures Classify(params, f, ratio) == ToRemarks(InputCategory(params))
  {
  }

  /** Every category and broad-group name in the data is already stripped of
      quotes, backticks and whitespace. */
  predicate CleanNames(f: Frame) {
    forall i :: 0 <= i < |f.rows| ==>
      CleanText(f.rows[i].category) == f.rows[i].category && CleanText(f.rows[i].major) == f.rows[i].major
  }

  /** A name the validator chose is one of the data's names, hence clean. */
  lemma ChosenNameIsClean(f: Frame, name: string)
    requires CleanNames(f)
    requires name in MajorColumn(f.rows) || name in CategoryColumn(f.rows)
    ensures CleanText(name) == name
  {
    if name in MajorColumn(f.rows) {
      var i :| 0 <= i < |f.rows| && MajorColumn(f.rows)[i] == name;
    } else {
      var i :| 0 <= i < |f.rows| && CategoryColumn(f.rows)[i] == name;
    }
  }

  /** Removing an absent key and re-storing a present value is no change. */
  lemma UpdateSame(p: Kwargs, absent: string, key: string, v: Value)
    requires absent !in p && key in p && p[key] == v
    ensures (p - {absent})[key := v] == p
  {
    assert (p - {absent}).Keys == p.Keys;
  }

  /** Arguments that already name a broad group validate to themselves. */
  lemma AgainAfterMajor(p: Kwargs, f: Frame, ratio: (string, string) -> real, m: string)
    requires CleanText(m) == m
    requires "category" !in p && "major_category" in p && p["major_category"] == VStr(m)
    requires m != "" ==> Lower(m) in GetMetadataLists(f).majors.table
    requires m != "" ==> GetMetadataLists(f).majors.table[Lower(m)] == m
    ensures ValidateAndFixParams(p, f, ratio) == Validated(p, None)
  {
    HeldMajor(p, m);
    if m != "" {
      ExactMajorKept(p, f, ratio, m);
    }
  }

  /** Arguments that already name a category that is not a broad group
      validate to themselves. */
  lemma AgainAfterCategory(p: Kwargs, f: Frame, ratio: (string, string) -> real, c: string)
    requires CleanText(c) == c && c != ""
    requires "major_category" !in p && "category" in p && p["category"] == VStr(c)
    requires Lower(c) in GetMetadataLists(f).categories.table
    requires GetMetadataLists(f).categories.table[Lower(c)] == c
    requires Lower(c) !in GetMetadataLists(f).majors.table
    ensures ValidateAndFixParams(p, f, ratio) == Validated(p, None)
  {
    HeldCategory(p, c);
    ExactCategoryKept(p, f, ratio, c);
  }

  /** A clean broad-group name held under `major_category` alone is the
      input, and rewriting to it changes nothing and warns of nothing. */
  lemma HeldMajor(p: Kwargs, m: string)
    requires CleanText(m) == m
    requires "category" !in p && "major_category" in p && p["major_category"] == VStr(m)
    ensures InputCategory(p) == VStr(m)
    ensures Rewrite(p, VStr(m), ToMajor(m)) == Validated(p, None)
  {
    assert RawInput(p) == VStr(m);
    UpdateSame(p, "category", "major_category", VStr(m));
  }

  /** A clean category name held under `category` alone is the input, and
      rewriting to it changes nothing and warns of nothing. */
  lemma HeldCategory(p: Kwargs, c: string)
    requires CleanText(c) == c && c != ""
    requires "major_category" !in p && "category" in p && p["category"] == VStr(c)
    ensures InputCategory(p) == VStr(c)
    ensures Rewrite(p, VStr(c), ToCategory(c)) == Validated(p, None)
  {
    assert RawInput(p) == VStr(c);
    UpdateSame(p, "major_category", "category", VStr(c));
  }

  /** Arguments without a truthy category-like value pass through. */
  lemma EmptyInputUnchanged(p: Kwargs, f: Frame, ratio: (string, string) -> real)
    requires !Truthy(Get(p, "category")) && !Truthy(Get(p, "major_category"))
    ensures ValidateAndFixParams(p, f, ratio) == Validated(p, None)
  {
    assert !Truthy(InputCategory(p));
  }

  /** A category is only chosen when its name is not also a broad group:
      otherwise the broad group would have matched at least as well. */
  lemma ChosenCategoryIsNotMajor(params: Kwargs, f: Frame, ratio: (string, string) -> real, c: string)
    requires Classify(params, f, ratio) == ToCategory(c)
    ensures Lower(c) !in GetMetadataLists(f).majors.table
  {
    DecidedCategoryIsNotMajor(InputCategory(params), GetMetadataLists(f), ratio, c);
  }

  lemma DecidedCategoryIsNotMajor(input: Value, md: Metadata, ratio: (string, string) -> real, c: string)
    requires WellFormed(md.categories) && WellFormed(md.majors)
    requires Decide(input, md, ratio) == ToCategory(c)
    ensures Lower(c) !in md.majors.table
  {
    if Lower(c) in md.majors.table {
      MatchCarriesOver(input, md.categories, md.majors, ratio);
    }
  }

  /** Validating a second time changes nothing and warns about nothing. */
  lemma ValidateIdempotent(params: Kwargs, f: Frame, ratio: (string, string) -> real)
    requires CleanNames(f)
    ensures var r := ValidateAndFixParams(params, f, ratio);
      ValidateAndFixParams(r.params, f, ratio) == Validated(r.params, None)
  {
    var r := ValidateAndFixParams(params, f, ratio);
    match Classify(params, f, ratio)
    case NoCategory =>
      assert r == Validated(params, None);
    case ToRemarks(_) =>
      EmptyInputUnchanged(r.params, f, ratio);
    case ToMajor(m) =>
      IdempotentAfterMajor(params, f, ratio, m);
    case ToCategory(c) =>
      IdempotentAfterCategory(params, f, ratio, c);
  }

  lemma IdempotentAfterMajor(params: Kwargs, f: Frame, ratio: (string, string) -> real, m: string)
    requires CleanNames(f) && Classify(params, f, ratio) == ToMajor(m)
    ensures var r := ValidateAndFixParams(params, f, ratio);
      ValidateAndFixParams(r.params, f, ratio) == Validated(r.params, None)
  {
    var r := ValidateAndFixParams(params, f, ratio);
    var md := GetMetadataLists(f);
    var k :| k in md.majors.table && md.majors.table[k] == m;
    ChosenNameIsClean(f, m);
    AgainAfterMajor(r.params, f, ratio, m);
  }

  lemma IdempotentAfterCategory(params: Kwargs, f: Frame, ratio: (string, string) -> real, c: string)
    requires CleanNames(f) && Classify(params, f, ratio) == ToCategory(c)
    ensures var r := ValidateAndFixParams(params, f, ratio);
      ValidateAndFixParams(r.params, f, ratio) == Validated(r.params, None)
  {
    var r := ValidateAndFixParams(params, f, ratio);
    var md := GetMetadataLists(f);
    KnownName(md.categories, c);
    ChosenNameIsClean(f, c);
    CategorySet(params, f, ratio, c);
    if c == "" {
      EmptyInputUnchanged(r.params, f, ratio);
    } else {
      ChosenCategoryIsNotMajor(params, f, ratio, c);
      AgainAfterCategory(r.params, f, ratio, c);
    }
  }

  /** A name a well-formed lookup holds is found under its lower-cased key. */
  lemma KnownName(l: Lookup, name: string)
    requires WellFormed(l) && name in l.table.Values
    ensures Lower(name) in l.table && l.table[Lower(name)] == name
  {
    var k :| k in l.table && l.table[k] == name;
  }

  /** Choosing a category leaves it alone under `category`. */
  lemma CategorySet(params: Kwargs, f: Frame, ratio: (string, string) -> real, c: string)
    requires Classify(params, f, ratio) == ToCategory(c)
    ensures var r := ValidateAndFixParams(params, f, ratio);
      && "major_category" !in r.params && "category" in r.params && r.params["category"] == VStr(c)
      && (c == "" ==> !Truthy(Get(r.params, "category")) && !Truthy(Get(r.params, "major_category")))
  {
    var r := ValidateAndFixParams(params, f, ratio);
    assert r == Rewrite(params, InputCategory(params), ToCategory(c));
    if c == "" {
      assert Get(r.params, "category") == VStr("");
    }
  }
}
