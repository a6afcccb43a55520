/** The streaming analysis endpoint of the server (backend/main.py:73-304):
    normalise the table, ask a router model which tool fits the question, ask
    a specialist model for a call of that tool, clean the call up, run it, and
    put the result into words when it needs them. Every step is reported to
    the client as a server-sent event. The language models, the prompt files,
    the clock and Python's `exec` are parameters of the model. */
module Pipeline {
  import opened Wrappers
  import opened Text
  import opened Values
  import opened Frames
  import ToolPrompts
  import ToolArgs
  import Analysis

  // ---------------------------------------------------------------------------
  // Table normalisation (backend/main.py:124-136)

  /** A row of the request's `data` as pandas reads it, its `category`
      already passed through `astype(str)` (a missing value reads "nan"). */
  datatype RawRow = RawRow(
    year: int, month: int, day: int,
    expense: int,
    category: string,
    remarks: Option<string>)

  /** A category as the tools compare it: lower-case and stripped. */
  predicate Normalised(c: string) {
    Lower(c) == c && Strip(c) == c
  }

  /** `.str.lower().str.strip()` */
  function CleanCategory(raw: string): (c: string)
    ensures Normalised(c)
  {
    LowerOfStrippedLower(raw, Whitespace);
    StripSetIdempotent(Lower(raw), Whitespace);
    Strip(Lower(raw))
  }

  /** The major category a normalised category gets: `CATEGORY_MAPPING`'s
      entry, "Miscellaneous" for an unknown one, blank for a blank or missing
      category. */
  function MajorOf(category: string, mapping: map<string, string>): (major: string)
    ensures (forall k :: k in mapping ==> mapping[k] != "") ==>
      (major == "" <==> category == "" || category == "nan")
  {
    if category == "nan" || category == "" then ""
    else if category in mapping then mapping[category]
    else "Miscellaneous"
  }

  /** One row of the table the tools see. Without a `category` column both
      category columns are blank. */
  function EnrichRow(raw: RawRow, hasCategory: bool, mapping: map<string, string>): (t: Txn)
    ensures t.year == raw.year && t.month == raw.month && t.day == raw.day
    ensures t.expense == raw.expense && t.remarks == raw.remarks
    ensures Normalised(t.category)
    ensures t.category == if hasCategory then Strip(Lower(raw.category)) else ""
    ensures t.major == MajorOf(t.category, mapping)
  {
    var c := if hasCategory then CleanCategory(raw.category) else "";
    Txn(raw.year, raw.month, raw.day, raw.expense, c, MajorOf(c, mapping), raw.remarks)
  }

  /** The table the tools see (`df` after backend/main.py:129-136). */
  function Enrich(data: seq<RawRow>, hasCategory: bool, mapping: map<string, string>): (rows: seq<Txn>)
    ensures |rows| == |data|
    ensures forall i :: 0 <= i < |data| ==> rows[i] == EnrichRow(data[i], hasCategory, mapping)
    ensures forall i, j :: 0 <= i < |rows| && 0 <= j < |rows| && rows[i].category == rows[j].category ==>
      rows[i].major == rows[j].major
    ensures (forall k :: k in mapping ==> mapping[k] != "") ==>
      forall i :: 0 <= i < |rows| ==> (rows[i].major == "" <==> rows[i].category == "" || rows[i].category == "nan")
  {
    seq(|data|, i requires 0 <= i < |data| => EnrichRow(data[i], hasCategory, mapping))
  }

  /** A normalised row read back as request data. */
  function Raw(t: Txn): RawRow {
    RawRow(t.year, t.month, t.day, t.expense, t.category, t.remarks)
  }

  /** Normalising a normalised table changes nothing. */
  lemma EnrichIdempotent(data: seq<RawRow>, hasCategory: bool, mapping: map<string, string>)
    ensures var rows := Enrich(data, hasCategory, mapping);
      Enrich(seq(|rows|, i requires 0 <= i < |rows| => Raw(rows[i])), hasCategory, mapping) == rows
  {
    var rows := Enrich(data, hasCategory, mapping);
    var again := Enrich(seq(|rows|, i requires 0 <= i < |rows| => Raw(rows[i])), hasCategory, mapping);
    forall i | 0 <= i < |rows|
      ensures again[i] == rows[i]
    {
      assert Normalised(rows[i].category);
    }
  }

  // ---------------------------------------------------------------------------
  // generate_text (backend/main.py:73-85)

  datatype Backend = Mlx | Ollama

  /** `os.path.isabs(model) or "mlx" in model.lower()`, on a POSIX host. */
  predicate LooksLikeMlx(model: string) {
    StartsWith(model, "/") || Contains(Lower(model), "mlx")
  }

  /** MLX when asked for, or when the model name looks like an MLX model. */
  function ChooseBackend(provider: Option<string>, model: string): (b: Backend)
    ensures b == Mlx <==> provider == Some("mlx") || LooksLikeMlx(model)
  {
    if provider == Some("mlx") || LooksLikeMlx(model) then Mlx else Ollama
  }

  /** The choice of back-end does not depend on the case of the model name. */
  lemma BackendIgnoresCase(provider: Option<string>, model: string)
    ensures ChooseBackend(provider, Lower(model)) == ChooseBackend(provider, model)
  {
    LowerIdempotent(model);
    if |model| > 0 {
      assert Lower(model)[..1] == [LowerChar(model[0])];
      assert model[..1] == [model[0]];
    }
  }

  datatype Message = Message(role: string, content: string)

  /** The two model back-ends: each answers a chat or raises (the text of the
      exception). MLX receives a temperature, Ollama the raw options. */
  datatype Llm = Llm(
    mlx: (string, seq<Message>, real) -> Result<string, string>,
    ollama: (string, seq<Message>, Option<map<string, real>>) -> Result<string, string>)

  /** `options.get('temperature', 0.0) if options else 0.0` */
  function Temperature(options: Option<map<string, real>>): (t: real)
    ensures options.Some? && "temperature" in options.value ==> t == options.value["temperature"]
    ensures !(options.Some? && "temperature" in options.value) ==> t == 0.0
  {
    match options
    case None => 0.0
    case Some(o) => if |o| == 0 then 0.0 else if "temperature" in o then o["temperature"] else 0.0
  }

  /** One chat with the chosen back-end; Ollama's answer is stripped. */
  function GenerateText(llm: Llm, provider: Option<string>, model: string, messages: seq<Message>,
                        options: Option<map<string, real>>): (r: Result<string, string>)
    ensures ChooseBackend(provider, model) == Mlx ==> r == llm.mlx(model, messages, Temperature(options))
    ensures ChooseBackend(provider, model) == Ollama ==>
      && (r.Ok? <==> llm.ollama(model, messages, options).Ok?)
      && (r.Ok? ==> Strip(r.value) == r.value && r.value == Strip(llm.ollama(model, messages, options).value))
      && (r.Err? ==> r == llm.ollama(model, messages, options))
  {
    if ChooseBackend(provider, model) == Mlx then
      llm.mlx(model, messages, Temperature(options))
    else
      match llm.ollama(model, messages, options)
      case Ok(answer) =>
        StripSetIdempotent(answer, Whitespace);
        Ok(Strip(answer))
      case Err(e) => Err(e)
  }

  // ---------------------------------------------------------------------------
  // The router's answer (backend/main.py:165)

  /** `.replace("`", "").replace("'", "").replace('"', "")` */
  function Unquote(s: string): (r: string)
    ensures '`' !in r && '\'' !in r && '"' !in r
    ensures forall c :: c in r ==> c in s
  {
    RemoveChar(RemoveChar(RemoveChar(s, '`'), '\''), '"')
  }

  lemma UnquoteAppend(a: string, b: string)
    ensures Unquote(a + b) == Unquote(a) + Unquote(b)
  {
    RemoveCharAppend(a, b, '`');
    RemoveCharAppend(RemoveChar(a, '`'), RemoveChar(b, '`'), '\'');
    RemoveCharAppend(RemoveChar(RemoveChar(a, '`'), '\''), RemoveChar(RemoveChar(b, '`'), '\''), '"');
  }

  /** The tool name the router answered: its first word without backticks or
      quotes; `None` for a blank answer, where Python raises `IndexError`. */
  function RouterToken(answer: string): (r: Option<string>)
    ensures r.None? <==> forall i :: 0 <= i < |answer| ==> answer[i] in Whitespace
    ensures r.Some? ==> '`' !in r.value && '\'' !in r.value && '"' !in r.value
    ensures r.Some? ==> forall i :: 0 <= i < |r.value| ==> r.value[i] !in Whitespace
  {
    match FirstToken(answer)
    case None => None
    case Some(t) =>
      var u := Unquote(t);
      assert forall i :: 0 <= i < |u| ==> u[i] in t;
      Some(u)
  }

  /** The characters of tool names and of the quotes around them. */
  predicate WordChar(c: char) {
    'a' <= c <= 'z' || c == '_' || c == '`' || c == '\'' || c == '"'
  }

  lemma WordCharIsNotSpace(c: char)
    requires WordChar(c)
    ensures c !in Whitespace
  {
  }

  /** Tool names are lower-case words joined by underscores. */
  lemma NameChars(t: ToolPrompts.Tool)
    ensures |ToolPrompts.Name(t)| > 0
    ensures forall i :: 0 <= i < |ToolPrompts.Name(t)| ==> 'a' <= ToolPrompts.Name(t)[i] <= 'z' || ToolPrompts.Name(t)[i] == '_'
  {
  }

  /** A router that answers with a tool's name, bare or in backticks or
      quotes, after any blank lines and before any further words, is read as
      that name. */
  lemma RouterReadsToolName(t: ToolPrompts.Tool, pre: string, q: string, post: string)
    requires forall i :: 0 <= i < |pre| ==> pre[i] in Whitespace
    requires q == "" || q == "`" || q == "'" || q == "\""
    requires |post| == 0 || post[0] in Whitespace
    ensures RouterToken(pre + (q + ToolPrompts.Name(t) + q) + post) == Some(ToolPrompts.Name(t))
  {
    NameChars(t);
    RouterReadsWord(pre, q, ToolPrompts.Name(t), post);
  }

  lemma RouterReadsWord(pre: string, q: string, name: string, post: string)
    requires forall i :: 0 <= i < |pre| ==> pre[i] in Whitespace
    requires q == "" || q == "`" || q == "'" || q == "\""
    requires |name| > 0 && forall i :: 0 <= i < |name| ==> 'a' <= name[i] <= 'z' || name[i] == '_'
    requires |post| == 0 || post[0] in Whitespace
    ensures RouterToken(pre + (q + name + q) + post) == Some(name)
  {
    var word := q + name + q;
    QuotedWordHasNoSpace(q, name);
    FirstTokenOf(pre, word, post);
    assert RouterToken(pre + word + post) == Some(Unquote(word));
    UnquoteQuotedName(q, name);
  }

  lemma QuotedWordHasNoSpace(q: string, name: string)
    requires q == "" || q == "`" || q == "'" || q == "\""
    requires forall i :: 0 <= i < |name| ==> 'a' <= name[i] <= 'z' || name[i] == '_'
    ensures forall i :: 0 <= i < |q + name + q| ==> (q + name + q)[i] !in Whitespace
  {
    var word := q + name + q;
    forall i | 0 <= i < |word|
      ensures word[i] !in Whitespace
    {
      if i < |q| {
        assert word[i] == q[i];
      } else if i < |q| + |name| {
        assert word[i] == name[i - |q|];
      } else {
        assert word[i] == q[i - |q| - |name|];
      }
      WordCharIsNotSpace(word[i]);
    }
  }

  lemma UnquoteQuotedName(q: string, name: string)
    requires q == "" || q == "`" || q == "'" || q == "\""
    requires forall i :: 0 <= i < |name| ==> 'a' <= name[i] <= 'z' || name[i] == '_'
    ensures Unquote(q + name + q) == name
  {
    UnquoteAppend(q + name, q);
    UnquoteAppend(q, name);
    assert '`' !in name && '\'' !in name && '"' !in name;
    RemoveAbsentChar(name, '`');
    RemoveAbsentChar(name, '\'');
    RemoveAbsentChar(name, '"');
    assert Unquote(q) == "";
  }

  // ---------------------------------------------------------------------------
  // Tool resolution (backend/main.py:168-173)

  /** The tool the specialist is asked to call, with its prompt. */
  datatype Routed = Routed(tool: ToolPrompts.Tool, template: string)

  /** `get_tool_prompt(tool_name)`, falling back to `calculate_total` when
      the name is not a registered tool. */
  function ResolveTool(name: string, w: ToolPrompts.Wording): (r: Routed)
    requires ToolPrompts.GoodWording(w)
    ensures name in ToolPrompts.Registry <==> ToolPrompts.Name(r.tool) == name
    ensures name !in ToolPrompts.Registry ==> r.tool == ToolPrompts.CalculateTotal
    ensures ToolPrompts.GetToolPrompt(ToolPrompts.Name(r.tool), w) == Some(r.template)
    ensures Contains(r.template, ToolPrompts.FormatLine(ToolPrompts.Name(r.tool)))
  {
    ToolPrompts.RegistryIsTheTools();
    var found := ToolPrompts.GetToolPrompt(name, w);
    FallbackIffUnregistered(name, w);
    if found.None? || found.value == "" then
      var t := ToolPrompts.CalculateTotal;
      ToolPrompts.PromptNamesTool(t, w, "", "");
      Routed(t, ToolPrompts.GetToolPrompt(ToolPrompts.Name(t), w).value)
    else
      var t := ToolPrompts.FromName(name).value;
      ToolPrompts.PromptNamesTool(t, w, "", "");
      Routed(t, found.value)
  }

  /** A registered tool's prompt is never empty, so the fallback replaces
      exactly the names outside the registry. */
  lemma FallbackIffUnregistered(name: string, w: ToolPrompts.Wording)
    requires ToolPrompts.GoodWording(w)
    ensures var found := ToolPrompts.GetToolPrompt(name, w);
      found.None? || found.value == "" <==> name !in ToolPrompts.Registry
  {
    ToolPrompts.RegistryIsTheTools();
    if name in ToolPrompts.Registry {
      var t := ToolPrompts.FromName(name).value;
      ToolPrompts.PromptNamesTool(t, w, "", "");
      var p := ToolPrompts.GetToolPrompt(name, w).value;
      var k := IndexOf(p, ToolPrompts.FormatLine(name)).value;
      assert OccursAt(p, ToolPrompts.FormatLine(name), k);
    }
  }

  // ---------------------------------------------------------------------------
  // Code extraction (backend/main.py:201-213)

  const Fence: string := "```"
  const PythonFence: string := "```python"

  /** The code inside the first fenced block (a `python` block first), or the
      answer without surrounding backticks, or the answer as it stands. */
  function ExtractCode(content: string): (code: string)
    ensures !Contains(code, Fence)
    ensures Contains(content, Fence) || (StartsWith(content, "`") && EndsWith(content, "`")) ==> Strip(code) == code
    ensures !Contains(content, Fence) && !(StartsWith(content, "`") && EndsWith(content, "`")) ==> code == content
  {
    FenceWithinPythonFence(content);
    if Contains(content, PythonFence) then
      FencedPart(Split(content, PythonFence)[1])
    else if Contains(content, Fence) then
      FencedPart(Split(content, Fence)[1])
    else if StartsWith(content, "`") && EndsWith(content, "`") then
      var inner := StripChar(content, '`');
      StripSetKeepsAbsence(content, {'`'}, Fence);
      StripSetKeepsAbsence(inner, Whitespace, Fence);
      StripSetIdempotent(inner, Whitespace);
      Strip(inner)
    else
      content
  }

  /** `.split("```")[0].strip()` */
  function FencedPart(after: string): (code: string)
    ensures !Contains(code, Fence) && Strip(code) == code
  {
    var part := Split(after, Fence)[0];
    StripSetKeepsAbsence(part, Whitespace, Fence);
    StripSetIdempotent(part, Whitespace);
    Strip(part)
  }

  lemma FenceWithinPythonFence(s: string)
    ensures Contains(s, PythonFence) ==> Contains(s, Fence)
  {
    if Contains(s, PythonFence) {
      var k := IndexOf(s, PythonFence).value;
      assert s[k..k + 3] == s[k..k + 9][..3];
      assert OccursAt(s, Fence, k);
      ContainsIff(s, Fence);
    }
  }

  /** A block fenced as ```` ```python ```` on its own line gives back its
      code, whatever prose without backticks surrounds it. */
  lemma ExtractFencedCode(before: string, code: string, after: string)
    requires '`' !in before && '`' !in after
    requires !Contains(code, Fence) && Strip(code) == code
    ensures ExtractCode(before + PythonFence + "\n" + code + "\n" + Fence + after) == code
  {
    var rest := "\n" + code + "\n" + Fence + after;
    var s := before + PythonFence + rest;
    assert s == before + PythonFence + "\n" + code + "\n" + Fence + after;
    OpeningFenceSplit(before, rest);
    ClosingFenceSplit(code, after);
    StripNewlines(code);
  }

  /** A plain ```` ``` ```` block gives back its code when the answer has no
      ```` ```python ```` block, whatever comes after the closing fence. */
  lemma ExtractPlainFencedCode(before: string, code: string, after: string)
    requires '`' !in before
    requires !Contains(code, Fence) && Strip(code) == code
    requires !Contains(before + Fence + "\n" + code + "\n" + Fence + after, PythonFence)
    ensures ExtractCode(before + Fence + "\n" + code + "\n" + Fence + after) == code
  {
    var c := "\n" + code + "\n";
    var rest := c + Fence + after;
    var s := before + Fence + rest;
    assert s == before + Fence + "\n" + code + "\n" + Fence + after;
    PlainFenceSplit(before, code, after);
    LinesWithoutFence(code);
    SplitWithout(c, Fence);
    StripNewlines(code);
  }

  /** The part after the first plain fence runs up to the closing fence. */
  lemma PlainFenceSplit(before: string, code: string, after: string)
    requires '`' !in before
    requires !Contains(code, Fence)
    ensures var c := "\n" + code + "\n";
      var s := before + Fence + (c + Fence + after);
      Contains(s, Fence) && Split(s, Fence)[1] == c
  {
    var c := "\n" + code + "\n";
    var rest := c + Fence + after;
    var s := before + Fence + rest;
    forall j | 0 <= j < |before|
      ensures !OccursAt(s, Fence, j)
    {
      assert s[j] == before[j];
    }
    SplitAfter(before, Fence, rest);
    NoFenceInLines(code, after);
    assert rest[|c|..|c| + 3] == Fence;
    SplitFirstAt(rest, Fence, |c|);
    assert rest[..|c|] == c;
  }

  /** An answer wrapped in single backticks gives back what they wrap. */
  lemma ExtractBacktickedCode(code: string)
    requires !Contains(code, Fence) && Strip(code) == code
    requires |code| > 0 ==> code[0] != '`' && code[|code| - 1] != '`'
    ensures ExtractCode("`" + code + "`") == code
  {
    var s := "`" + code + "`";
    BacktickedHasNoFence(code);
    FenceWithinPythonFence(s);
    StripBackticks(code);
    assert StartsWith(s, "`") && EndsWith(s, "`");
  }

  lemma BacktickedHasNoFence(code: string)
    requires !Contains(code, Fence)
    requires |code| > 0 ==> code[0] != '`' && code[|code| - 1] != '`'
    ensures !Contains("`" + code + "`", Fence)
  {
    var s := "`" + code + "`";
    ContainsIff(code, Fence);
    forall j: nat
      ensures !OccursAt(s, Fence, j)
    {
      FenceIsThreeBackticks(s, j);
      if j + 3 <= |s| && 0 < j && j + 3 <= |code| + 1 {
        FenceIsThreeBackticks(code, j - 1);
        assert s[j] == code[j - 1] && s[j + 1] == code[j] && s[j + 2] == code[j + 1];
      } else if j + 3 <= |s| && 0 < j {
        assert s[j + 1] == code[|code| - 1];
      } else if j + 3 <= |s| {
        assert s[1] == code[0];
      }
    }
    ContainsIff(s, Fence);
  }

  /** A fence is three backticks in a row. */
  lemma FenceIsThreeBackticks(s: string, j: nat)
    ensures OccursAt(s, Fence, j) <==> j + 3 <= |s| && s[j] == '`' && s[j + 1] == '`' && s[j + 2] == '`'
  {
    if j + 3 <= |s| {
      assert s[j..j + 3][0] == s[j] && s[j..j + 3][1] == s[j + 1] && s[j..j + 3][2] == s[j + 2];
    }
  }

  lemma StripBackticks(code: string)
    requires |code| > 0 ==> code[0] != '`' && code[|code| - 1] != '`'
    ensures StripChar("`" + code + "`", '`') == code
  {
    var s := "`" + code + "`";
    if |code| == 0 {
      assert LeadingRun(s, {'`'}) == 2;
    } else {
      assert s[1..][0] == code[0];
      assert LeadingRun(s, {'`'}) == 1;
      var rest := s[1..];
      assert rest == code + "`";
      assert rest[..|rest| - 1] == code;
      assert TrailingRun(rest, {'`'}) == 1;
    }
  }

  /** Prose without backticks before the opening fence is the first part. */
  lemma OpeningFenceSplit(before: string, rest: string)
    requires '`' !in before
    ensures Contains(before + PythonFence + rest, PythonFence)
    ensures Contains(before + PythonFence + rest, PythonFence) &&
      Split(before + PythonFence + rest, PythonFence)[1] == Split(rest, PythonFence)[0]
  {
    var s := before + PythonFence + rest;
    assert s[|before|..|before| + |PythonFence|] == PythonFence;
    assert OccursAt(s, PythonFence, |before|);
    ContainsIff(s, PythonFence);
    forall j | 0 <= j < |before|
      ensures !OccursAt(s, PythonFence, j)
    {
      assert s[j] == before[j];
      assert PythonFence[0] == '`';
    }
    SplitAfter(before, PythonFence, rest);
  }

  /** The code up to the closing fence is the first part, however the text
      after the opening fence is split. */
  lemma ClosingFenceSplit(code: string, after: string)
    requires '`' !in after
    requires !Contains(code, Fence)
    ensures var c := "\n" + code + "\n";
      Split(Split(c + Fence + after, PythonFence)[0], Fence)[0] == c
  {
    var c := "\n" + code + "\n";
    var rest := c + Fence + after;
    NoFenceInLines(code, after);
    if Contains(rest, PythonFence) {
      LaterPythonFence(code, after);
      LinesWithoutFence(code);
      SplitWithout(c, Fence);
    } else {
      SplitWithout(rest, PythonFence);
      SplitAfter(c, Fence, after);
    }
  }

  /** A ```` ```python ```` after the code can only start at the closing
      fence. */
  lemma LaterPythonFence(code: string, after: string)
    requires '`' !in after
    requires !Contains(code, Fence)
    requires Contains("\n" + code + "\n" + Fence + after, PythonFence)
    ensures Split("\n" + code + "\n" + Fence + after, PythonFence)[0] == "\n" + code + "\n"
  {
    var c := "\n" + code + "\n";
    var rest := c + Fence + after;
    PythonFenceAtClose(code, after);
    SplitFirstAt(rest, PythonFence, |c|);
    assert rest[..|c|] == c;
  }

  lemma PythonFenceAtClose(code: string, after: string)
    requires '`' !in after
    requires !Contains(code, Fence)
    requires Contains("\n" + code + "\n" + Fence + after, PythonFence)
    ensures IndexOf("\n" + code + "\n" + Fence + after, PythonFence) == Some(|code| + 2)
  {
    var c := "\n" + code + "\n";
    var rest := c + Fence + after;
    NoFenceInLines(code, after);
    var k := IndexOf(rest, PythonFence).value;
    assert rest[k..k + 3] == rest[k..k + 9][..3];
    assert OccursAt(rest, Fence, k);
    assert rest[k + 2] == rest[k..k + 9][2];
    assert forall i :: |c| + 3 <= i < |rest| ==> rest[i] == after[i - |c| - 3];
    assert k == |c|;
  }

  lemma LinesWithoutFence(code: string)
    requires !Contains(code, Fence)
    ensures !Contains("\n" + code + "\n", Fence)
  {
    var c := "\n" + code + "\n";
    var rest := c + Fence + "";
    NoFenceInLines(code, "");
    forall j: nat
      ensures !OccursAt(c, Fence, j)
    {
      if j + 3 <= |c| {
        assert c[j..j + 3] == rest[j..j + 3];
        assert !OccursAt(rest, Fence, j);
      }
    }
    ContainsIff(c, Fence);
  }

  /** Between the opening line and the closing fence no fence starts. */
  lemma NoFenceInLines(code: string, after: string)
    requires !Contains(code, Fence)
    ensures var c := "\n" + code + "\n";
      forall j :: 0 <= j < |c| ==> !OccursAt(c + Fence + after, Fence, j)
  {
    var c := "\n" + code + "\n";
    var rest := c + Fence + after;
    ContainsIff(code, Fence);
    forall j | 0 <= j < |c|
      ensures !OccursAt(rest, Fence, j)
    {
      if j == 0 {
        assert rest[0] == '\n';
      } else if j + 3 <= |code| + 1 {
        assert rest[j..j + 3] == code[j - 1..j + 2];
        assert !OccursAt(code, Fence, j - 1);
      } else {
        assert rest[|code| + 1] == '\n';
        assert j + 3 <= |rest| ==> rest[j..j + 3][|code| + 1 - j] == '\n';
      }
    }
  }

  /** The newlines around a stripped text strip away. */
  lemma StripNewlines(code: string)
    requires Strip(code) == code
    ensures Strip("\n" + code + "\n") == code
  {
    var s := "\n" + code + "\n";
    if |code| == 0 {
      assert s == "\n\n";
      assert LeadingRun(s, Whitespace) == 2;
    } else {
      assert code[0] !in Whitespace && code[|code| - 1] !in Whitespace;
      assert s == "\n" + (code + "\n");
      LeadingRunOf("\n", code + "\n", Whitespace);
      var rest := s[1..];
      assert rest == code + "\n";
      assert rest[..|rest| - 1] == code;
      assert TrailingRun(code, Whitespace) == 0;
      assert TrailingRun(rest, Whitespace) == 1;
    }
  }

  /** The assignment the generated code must make. */
  const Assignment: string := "fig, result"

  /** `fig, result = ` is put in front of a bare call of the routed tool. */
  function AddPrefix(code: string, tool: string): (r: string)
    ensures r == code || r == "fig, result = " + code
    ensures !Contains(code, Fence) ==> !Contains(r, Fence)
    ensures Contains(code, Assignment) ==> r == code
    ensures StartsWith(code, tool) ==> Contains(r, Assignment)
    ensures StartsWith(r, tool) ==> Contains(r, Assignment)
    ensures r != code <==> StartsWith(code, tool) && !Contains(code, Assignment)
  {
    if StartsWith(code, tool) && !Contains(code, Assignment) then
      var r := "fig, result = " + code;
      assert r[..|Assignment|] == Assignment;
      assert OccursAt(r, Assignment, 0);
      ContainsIff(r, Assignment);
      if !Contains(code, Fence) then
        PrefixKeepsAbsence("fig, result = ", code, Fence);
        r
      else
        r
    else
      code
  }

  /** Fixing the assignment twice is fixing it once. */
  lemma AddPrefixIdempotent(code: string, tool: string)
    ensures AddPrefix(AddPrefix(code, tool), tool) == AddPrefix(code, tool)
  {
  }

  // ---------------------------------------------------------------------------
  // Summarising (backend/main.py:259-291)

  /** A summary is requested for a result without a figure whose text does
      not already lead with a total or an average. */
  predicate ShouldSummarize(fig: Option<string>, result: Option<string>) {
    fig.None? && result.Some? && !StartsWith(result.value, "Total") && !StartsWith(result.value, "Average")
  }

  /** The text of the result event when no summary is made. */
  function DirectText(result: Option<string>): (t: string)
    ensures result.Some? ==> t == result.value
    ensures result.None? ==> t == "Analysis complete."
  {
    if result.Some? then result.value else "Analysis complete."
  }

  /** The total over all categories speaks for itself and is never sent to
      the summariser; the message that nothing matched is. */
  lemma TotalsAreNotSummarised(rows: seq<Txn>, kw: Kwargs)
    requires !Truthy(Get(kw, "category")) && !Truthy(Get(kw, "major_category")) && !Truthy(Get(kw, "remarks"))
    requires ToolArgs.TotalTime(kw).Ok?
    ensures Analysis.CalculateTotal(rows, kw).Ok?
    ensures var out := Analysis.CalculateTotal(rows, kw).value;
      && out.fig.None?
      && (MatchingCount(rows, ToolArgs.TotalTime(kw).value.filter, AnyCategory) > 0 <==> !ShouldSummarize(None, Some(out.msg)))
  {
    var out := Analysis.CalculateTotal(rows, kw).value;
    if MatchingCount(rows, ToolArgs.TotalTime(kw).value.filter, AnyCategory) > 0 {
      Analysis.UnfilteredTotalSaysTotal(rows, kw);
    } else {
      var rep := Analysis.TotalSelection(rows, kw).value;
      Analysis.TotalMessageLeadsWithLabel(rep);
      NothingFoundIsSummarised(out.msg);
    }
  }

  /** The message that nothing matched is neither a total nor an average. */
  lemma NothingFoundIsSummarised(msg: string)
    requires StartsWith(msg, "No transactions found for ")
    ensures ShouldSummarize(None, Some(msg))
  {
    assert msg[0] == 'N';
  }

  // ---------------------------------------------------------------------------
  // The event stream (backend/main.py:107-304)

  /** The stages the client is told about, in their order. */
  datatype Stage = Routing | Specialising | Executing | Summarizing

  function StageNumber(s: Stage): nat {
    match s
    case Routing => 0
    case Specialising => 1
    case Executing => 2
    case Summarizing => 3
  }

  /** The server-sent events. A status names its stage and, where the server
      sends them, the model, its provider and the tool. */
  datatype Event =
    | Status(stage: Stage, model: Option<string>, provider: Option<string>, tool: Option<string>)
    | Failure(error: string, failedCode: Option<string>)
    | Final(result: string, fig: Option<string>, code: string)

  /** What running the generated code left behind: the exception's text, or
      the figure as JSON and `str(result)` (`None` where unset). */
  datatype ExecOutcome = ExecFailed(message: string) | Executed(fig: Option<string>, result: Option<string>)

  datatype Request = Request(
    data: seq<RawRow>, hasCategory: bool,
    prompt: string,
    model: string, chatModel: Option<string>, routerModel: Option<string>,
    metadata: string,
    options: Option<map<string, real>>,
    routerProvider: Option<string>, specialistProvider: Option<string>, summarizerProvider: Option<string>)

  /** Everything outside the request: the models, the two prompt files
      (empty when unreadable), the registry's wording, `CATEGORY_MAPPING`,
      today's date and Python's `exec` of the code over the table. */
  datatype Host = Host(
    llm: Llm,
    routerPrompt: string, summaryPrompt: string,
    wording: ToolPrompts.Wording,
    mapping: map<string, string>,
    today: string,
    exec: (string, seq<Txn>) -> ExecOutcome)

  /** `choice if choice else model` */
  function OrModel(choice: Option<string>, model: string): (m: string)
    ensures choice.Some? && choice.value != "" ==> m == choice.value
    ensures !(choice.Some? && choice.value != "") ==> m == model
  {
    if choice.Some? && choice.value != "" then choice.value else model
  }

  /** Statuses for consecutive stages from stage `first` on, then exactly one
      closing event. */
  ghost predicate StagesFrom(events: seq<Event>, first: nat) {
    && |events| >= 1
    && (forall i :: 0 <= i < |events| - 1 ==> events[i].Status? && StageNumber(events[i].stage) == first + i)
    && !events[|events| - 1].Status?
  }

  /** A stream the client can follow: routing first, then the later stages
      in order, then the result or the error. */
  ghost predicate WellFormedStream(events: seq<Event>) {
    |events| >= 2 && StagesFrom(events, 0)
  }

  /** The closing event of a stream. */
  function Last(events: seq<Event>): Event
    requires |events| > 0
  {
    events[|events| - 1]
  }

  /** One more stage in front of a stream. */
  lemma StageBefore(e: Event, rest: seq<Event>, k: nat)
    requires e.Status? && StageNumber(e.stage) == k
    requires StagesFrom(rest, k + 1)
    ensures StagesFrom([e] + rest, k)
    ensures Last([e] + rest) == Last(rest)
  {
    var es := [e] + rest;
    forall i | 0 <= i < |es| - 1
      ensures es[i].Status? && StageNumber(es[i].stage) == k + i
    {
      if i > 0 {
        assert es[i] == rest[i - 1];
      }
    }
  }

  /** `analyze_stream`: the whole exchange with one client. Any exception
      outside the execution of the generated code ends the stream with its
      text; an exception inside it ends the stream with the code as well. */
  function AnalyzeStream(req: Request, host: Host): (events: seq<Event>)
    requires ToolPrompts.GoodWording(host.wording)
    ensures WellFormedStream(events)
    ensures events[0] == Status(Routing, Some(OrModel(req.routerModel, req.model)), req.routerProvider, None)
    ensures |events| > 2 ==> events[1].tool.Some? && events[1].tool.value in ToolPrompts.Registry
    ensures Last(events).Failure? ==> (Last(events).failedCode.Some? <==> |events| == 4)
    ensures Last(events).Final? ==>
      && |events| >= 4
      && !Contains(Last(events).code, Fence)
      && (StartsWith(Last(events).code, events[1].tool.value) ==> Contains(Last(events).code, Assignment))
  {
    var rows := Enrich(req.data, req.hasCategory, host.mapping);
    var router := OrModel(req.routerModel, req.model);
    var first := Status(Routing, Some(router), req.routerProvider, None);
    var reply := GenerateText(host.llm, req.routerProvider, router,
                              [Message("system", host.routerPrompt), Message("user", req.prompt)], req.options);
    var rest := RouterStage(req, host, rows, reply);
    assert first.Status? && StageNumber(first.stage) == 0;
    StageBefore(first, rest, 0);
    [first] + rest
  }

  /** What follows the router's reply: the error it raised, the error of a
      blank reply, or the specialist's stages for the tool it names. */
  function RouterStage(req: Request, host: Host, rows: seq<Txn>, reply: Result<string, string>): (events: seq<Event>)
    requires ToolPrompts.GoodWording(host.wording)
    ensures StagesFrom(events, 1)
    ensures |events| > 1 ==> events[0].tool.Some? && events[0].tool.value in ToolPrompts.Registry
    ensures Last(events).Failure? ==> (Last(events).failedCode.Some? <==> |events| == 3)
    ensures Last(events).Final? ==>
      && |events| >= 3
      && !Contains(Last(events).code, Fence)
      && (StartsWith(Last(events).code, events[0].tool.value) ==> Contains(Last(events).code, Assignment))
  {
    match reply
    case Err(e) => [Failure(e, None)]
    case Ok(answer) =>
      match RouterToken(answer)
      case None => [Failure("list index out of range", None)]
      case Some(name) =>
        ToolPrompts.RegistryIsTheTools();
        SpecialistStage(req, host, rows, ResolveTool(name, host.wording))
  }

  /** From the specialist's status on: the system prompt for the routed
      tool, the specialist's answer, the cleaned-up code and its run. */
  function SpecialistStage(req: Request, host: Host, rows: seq<Txn>, routed: Routed): (events: seq<Event>)
    requires ToolPrompts.GoodWording(host.wording)
    requires ToolPrompts.GetToolPrompt(ToolPrompts.Name(routed.tool), host.wording) == Some(routed.template)
    ensures StagesFrom(events, 1) && |events| >= 2
    ensures events[0].tool == Some(ToolPrompts.Name(routed.tool))
    ensures Last(events).Failure? ==> (Last(events).failedCode.Some? <==> |events| == 3)
    ensures Last(events).Final? ==>
      && |events| >= 3
      && !Contains(Last(events).code, Fence)
      && (StartsWith(Last(events).code, ToolPrompts.Name(routed.tool)) ==> Contains(Last(events).code, Assignment))
  {
    var tool := ToolPrompts.Name(routed.tool);
    ToolPrompts.PromptNamesTool(routed.tool, host.wording, req.metadata, host.today);
    var system := ToolPrompts.SecondPass(routed.template, req.metadata, host.today).value;
    var status := Status(Specialising, Some(req.model), req.specialistProvider, Some(tool));
    var reply := GenerateText(host.llm, req.specialistProvider, req.model,
                              [Message("system", system), Message("user", req.prompt)], req.options);
    var rest := CodeStage(req, host, rows, tool, reply);
    assert StageNumber(status.stage) == 1;
    StageBefore(status, rest, 1);
    [status] + rest
  }

  /** What follows the specialist's reply: the error it raised, or the
      executing status and the run of the code cleaned out of the reply. */
  function CodeStage(req: Request, host: Host, rows: seq<Txn>, tool: string, reply: Result<string, string>)
    : (events: seq<Event>)
    ensures StagesFrom(events, 2)
    ensures Last(events).Failure? ==> (Last(events).failedCode.Some? <==> |events| == 2)
    ensures Last(events).Final? ==>
      && |events| >= 2
      && !Contains(Last(events).code, Fence)
      && (StartsWith(Last(events).code, tool) ==> Contains(Last(events).code, Assignment))
  {
    match reply
    case Err(e) => [Failure(e, None)]
    case Ok(content) =>
      var code := AddPrefix(ExtractCode(content), tool);
      assert !Contains(code, Fence) && (StartsWith(code, tool) ==> Contains(code, Assignment));
      var running := Status(Executing, None, None, None);
      var rest := ExecutionStage(req, host, code, host.exec(code, rows));
      assert StageNumber(running.stage) == 2;
      StageBefore(running, rest, 2);
      [running] + rest
  }

  /** After the run: the execution error with the code, or the result, put
      into words first when it needs them. */
  function ExecutionStage(req: Request, host: Host, code: string, outcome: ExecOutcome): (events: seq<Event>)
    ensures StagesFrom(events, 3)
    ensures Last(events).Failure? ==> (Last(events).failedCode.Some? <==> |events| == 1)
    ensures Last(events).Final? ==> Last(events).code == code
    ensures outcome.ExecFailed? ==> events == [Failure("Execution error: " + outcome.message, Some(code))]
    ensures outcome.Executed? ==> (|events| == 1 <==> !ShouldSummarize(outcome.fig, outcome.result))
    ensures outcome.Executed? && !ShouldSummarize(outcome.fig, outcome.result) ==>
      && events[0].Final? && events[0].fig == outcome.fig && events[0].code == code
      && (outcome.result.Some? ==> events[0].result == outcome.result.value)
      && (outcome.result.None? ==> events[0].result == "Analysis complete.")
    ensures outcome.Executed? && ShouldSummarize(outcome.fig, outcome.result) ==>
      && |events| == 2
      && events[0].model == Some(OrModel(req.chatModel, req.model))
      && (events[1].Failure? ==> events[1].failedCode.None?)
      && (events[1].Final? ==> events[1].fig.None? && events[1].code == code)
  {
    match outcome
    case ExecFailed(message) => [Failure("Execution error: " + message, Some(code))]
    case Executed(fig, result) =>
      if ShouldSummarize(fig, result) then
        var chat := OrModel(req.chatModel, req.model);
        var status := Status(Summarizing, Some(chat), req.summarizerProvider, None);
        var question := "User Question: " + req.prompt + "\n Analysis Result: " + result.value;
        match GenerateText(host.llm, req.summarizerProvider, chat,
                           [Message("system", host.summaryPrompt), Message("user", question)], req.options)
        case Err(e) => [status, Failure(e, None)]
        case Ok(summary) => [status, Final(summary, fig, code)]
      else
        [Final(DirectText(result), fig, code)]
  }

  /** The stream is the router's status followed by what its reply leads to. */
  lemma AnalyzeStreamUnfolds(req: Request, host: Host, reply: Result<string, string>)
    requires ToolPrompts.GoodWording(host.wording)
    requires GenerateText(host.llm, req.routerProvider, OrModel(req.routerModel, req.model),
                          [Message("system", host.routerPrompt), Message("user", req.prompt)], req.options) == reply
    ensures AnalyzeStream(req, host)[1..] == RouterStage(req, host, Enrich(req.data, req.hasCategory, host.mapping), reply)
  {
  }

  /** A reply that names a word goes on to the specialist for the tool that
      word resolves to. */
  lemma RouterStageResolves(req: Request, host: Host, rows: seq<Txn>, answer: string, name: string)
    requires ToolPrompts.GoodWording(host.wording)
    requires RouterToken(answer) == Some(name)
    ensures ToolPrompts.GetToolPrompt(ToolPrompts.Name(ResolveTool(name, host.wording).tool), host.wording)
      == Some(ResolveTool(name, host.wording).template)
    ensures RouterStage(req, host, rows, Ok(answer)) == SpecialistStage(req, host, rows, ResolveTool(name, host.wording))
  {
  }

  /** The routed tool's name: the router's word when registered, else `calculate_total`. */
  lemma RoutedName(name: string, w: ToolPrompts.Wording)
    requires ToolPrompts.GoodWording(w)
    ensures ToolPrompts.Name(ResolveTool(name, w).tool) == if name in ToolPrompts.Registry then name else "calculate_total"
  {
    if name !in ToolPrompts.Registry {
      assert ToolPrompts.Name(ToolPrompts.CalculateTotal) == "calculate_total";
    }
  }

  /** The specialist is asked for the tool the router named, when it is a
      registered one, and for `calculate_total` otherwise. */
  lemma StreamFollowsRouter(req: Request, host: Host, answer: string, name: string)
    requires ToolPrompts.GoodWording(host.wording)
    requires GenerateText(host.llm, req.routerProvider, OrModel(req.routerModel, req.model),
                          [Message("system", host.routerPrompt), Message("user", req.prompt)], req.options) == Ok(answer)
    requires RouterToken(answer) == Some(name)
    ensures var events := AnalyzeStream(req, host);
      && |events| >= 3
      && events[1].tool == Some(if name in ToolPrompts.Registry then name else "calculate_total")
  {
    var rows := Enrich(req.data, req.hasCategory, host.mapping);
    AnalyzeStreamUnfolds(req, host, Ok(answer));
    RouterStageResolves(req, host, rows, answer, name);
    RoutedName(name, host.wording);
    var events := AnalyzeStream(req, host);
    var rest := SpecialistStage(req, host, rows, ResolveTool(name, host.wording));
    assert events[1..] == rest;
    assert events[1] == rest[0];
  }
}
