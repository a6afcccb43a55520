/** The specialist's prompt registry (backend/utils/tool_prompts.py): six tool
    names, each with a definition and examples, and one base template that
    Python's `str.format` fills in two passes. The first pass fixes the tool;
    the second, at request time, fills in the metadata and today's date. */
module ToolPrompts {
  import opened Wrappers
  import opened Text

  // ---------------------------------------------------------------------------
  // The six tools

  datatype Tool =
    | PlotTimeSeries
    | PlotDistribution
    | PlotComparisonBars
    | CalculateTotal
    | CalculateStatistics
    | GetTopExpenses

  function Name(t: Tool): string {
    match t
    case PlotTimeSeries => "plot_time_series"
    case PlotDistribution => "plot_distribution"
    case PlotComparisonBars => "plot_comparison_bars"
    case CalculateTotal => "calculate_total"
    case CalculateStatistics => "calculate_statistics"
    case GetTopExpenses => "get_top_expenses"
  }

  /** The tool a registry key names, if any. */
  function FromName(s: string): (r: Option<Tool>)
    ensures r.Some? ==> Name(r.value) == s
    ensures r.None? ==> forall t: Tool :: Name(t) != s
  {
    if s == "plot_time_series" then Some(PlotTimeSeries)
    else if s == "plot_distribution" then Some(PlotDistribution)
    else if s == "plot_comparison_bars" then Some(PlotComparisonBars)
    else if s == "calculate_total" then Some(CalculateTotal)
    else if s == "calculate_statistics" then Some(CalculateStatistics)
    else if s == "get_top_expenses" then Some(GetTopExpenses)
    else None
  }

  lemma FromNameOfName(t: Tool)
    ensures FromName(Name(t)) == Some(t)
  {
  }

  /** The keys of `TOOL_PROMPTS`. */
  const Registry: set<string> := {
    "plot_time_series", "plot_distribution", "plot_comparison_bars",
    "calculate_total", "calculate_statistics", "get_top_expenses"
  }

  /** The registry is exactly the six tools' names, and no two tools share
      a name. */
  lemma RegistryIsTheTools()
    ensures forall s :: s in Registry <==> FromName(s).Some?
    ensures forall t: Tool :: Name(t) in Registry
    ensures forall t: Tool, u: Tool :: Name(t) == Name(u) ==> t == u
  {
    forall t: Tool, u: Tool | Name(t) == Name(u) ensures t == u {
      FromNameOfName(t);
      FromNameOfName(u);
    }
  }

  // ---------------------------------------------------------------------------
  // Python's `str.format` with keyword arguments

  datatype FormatError =
    | MissingField(name: string) // KeyError
    | Unbalanced                 // ValueError: a lone `{` or `}`

  function Prepend(p: string, r: Result<string, FormatError>): (q: Result<string, FormatError>)
    ensures q.Ok? <==> r.Ok?
    ensures r.Ok? ==> q.value == p + r.value
    ensures r.Err? ==> q.error == r.error
  {
    match r
    case Ok(v) => Ok(p + v)
    case Err(e) => Err(e)
  }

  lemma PrependTwice(p: string, q: string, r: Result<string, FormatError>)
    ensures Prepend(p, Prepend(q, r)) == Prepend(p + q, r)
  {
    if r.Ok? {
      assert p + (q + r.value) == (p + q) + r.value;
    }
  }

  /** `s.format(**env)` for plain `{name}` fields: `{{` and `}}` are escaped
      braces, a field's replacement text is not scanned again. */
  function Format(s: string, env: map<string, string>): Result<string, FormatError>
    decreases |s|
  {
    if |s| == 0 then Ok("")
    else if |s| > 1 && s[0] == '{' && s[1] == '{' then Prepend("{", Format(s[2..], env))
    else if |s| > 1 && s[0] == '}' && s[1] == '}' then Prepend("}", Format(s[2..], env))
    else if s[0] == '}' then Err(Unbalanced)
    else if s[0] == '{' then
      match IndexOf(s[1..], "}")
      case None => Err(Unbalanced)
      case Some(j) =>
        var name := s[1..1 + j];
        if '{' in name then Err(Unbalanced)
        else if name !in env then Err(MissingField(name))
        else Prepend(env[name], Format(s[j + 2..], env))
    else Prepend(s[..1], Format(s[1..], env))
  }

  predicate BraceFree(s: string) {
    '{' !in s && '}' !in s
  }

  /** Text without braces passes through `format` unchanged. */
  lemma {:induction false} FormatLiteral(a: string, rest: string, env: map<string, string>)
    requires BraceFree(a)
    ensures Format(a + rest, env) == Prepend(a, Format(rest, env))
    decreases |a|
  {
    if |a| == 0 {
      assert a + rest == rest;
      if Format(rest, env).Ok? {
        assert a + Format(rest, env).value == Format(rest, env).value;
      }
    } else {
      var s := a + rest;
      assert a[0] in a;
      assert s[0] == a[0] && s[0] != '{' && s[0] != '}';
      assert s[..1] == [a[0]];
      assert s[1..] == a[1..] + rest;
      assert BraceFree(a[1..]) by {
        forall c | c in a[1..] ensures c in a {
        }
      }
      FormatLiteral(a[1..], rest, env);
      assert [a[0]] + a[1..] == a;
      assert Format(s, env) == Prepend([a[0]], Prepend(a[1..], Format(rest, env)));
      PrependTwice([a[0]], a[1..], Format(rest, env));
    }
  }

  /** The first closing brace after a brace-free name is the one right after
      it. */
  lemma FieldCloses(name: string, rest: string)
    requires BraceFree(name)
    ensures IndexOf(name + "}" + rest, "}") == Some(|name|)
  {
    var tail := name + "}" + rest;
    assert OccursAt(tail, "}", |name|);
    forall j | 0 <= j < |name| ensures !OccursAt(tail, "}", j) {
      assert tail[j] == name[j];
      assert tail[j..j + 1] == [name[j]];
    }
  }

  /** A field `{name}` is replaced by its value, or fails with `KeyError`. */
  lemma FormatField(name: string, rest: string, env: map<string, string>)
    requires BraceFree(name)
    ensures Format("{" + name + "}" + rest, env) ==
      if name in env then Prepend(env[name], Format(rest, env)) else Err(MissingField(name))
  {
    var s := "{" + name + "}" + rest;
    var tail := s[1..];
    assert tail == name + "}" + rest;
    FieldCloses(name, rest);
    assert s[1..1 + |name|] == name;
    assert s[|name| + 2..] == rest;
    assert s[0] == '{';
    if |name| > 0 {
      assert s[1] == name[0] && name[0] in name;
    } else {
      assert s[1] == '}';
    }
  }

  // ---------------------------------------------------------------------------
  // Templates

  /** The placeholders of the base template. */
  datatype Field = ToolNameField | MetadataField | CurrentDateField | DefinitionField | ExamplesField

  function FieldName(f: Field): (r: string)
    ensures BraceFree(r)
  {
    match f
    case ToolNameField => "tool_name"
    case MetadataField => "metadata"
    case CurrentDateField => "current_date"
    case DefinitionField => "function_definition"
    case ExamplesField => "examples"
  }

  lemma FieldNameInjective(f: Field, g: Field)
    requires FieldName(f) == FieldName(g)
    ensures f == g
  {
  }

  /** A template is literal text interleaved with placeholders. */
  datatype Piece = Lit(text: string) | Hole(field: Field)
  type Template = seq<Piece>

  /** The template as a format string: a placeholder reads `{name}`. */
  function Render(t: Template): string {
    if |t| == 0 then "" else Spelling(t[0]) + Render(t[1..])
  }

  /** One piece as format-string text. */
  function Spelling(p: Piece): string {
    match p
    case Lit(s) => s
    case Hole(f) => "{" + FieldName(f) + "}"
  }

  /** The placeholders still present. */
  function Fields(t: Template): set<Field> {
    if |t| == 0 then {}
    else (if t[0].Hole? then {t[0].field} else {}) + Fields(t[1..])
  }

  predicate LiteralsBraceFree(t: Template) {
    forall i :: 0 <= i < |t| && t[i].Lit? ==> BraceFree(t[i].text)
  }

  /** Fills every placeholder that `env` names; the others stay. */
  function Substitute(t: Template, env: map<string, string>): (r: Template)
    ensures |r| == |t|
    ensures Fields(r) == set f | f in Fields(t) && FieldName(f) !in env
  {
    if |t| == 0 then []
    else
      var head := match t[0]
        case Lit(s) => Lit(s)
        case Hole(f) => if FieldName(f) in env then Lit(env[FieldName(f)]) else Hole(f);
      [head] + Substitute(t[1..], env)
  }

  lemma {:induction false} RenderAppend(a: Template, b: Template)
    ensures Render(a + b) == Render(a) + Render(b)
  {
    if |a| > 0 {
      assert (a + b)[1..] == a[1..] + b;
      RenderAppend(a[1..], b);
      AppendAssociative(Spelling(a[0]), Render(a[1..]), Render(b));
    } else {
      assert a + b == b;
    }
  }

  lemma {:induction false} SubstituteAppend(a: Template, b: Template, env: map<string, string>)
    ensures Substitute(a + b, env) == Substitute(a, env) + Substitute(b, env)
  {
    if |a| > 0 {
      assert (a + b)[1..] == a[1..] + b;
      SubstituteAppend(a[1..], b, env);
    } else {
      assert a + b == b;
    }
  }

  /** Formatting the rendered template fills the placeholders, and fails with
      `KeyError` exactly when one of them has no value. */
  lemma {:induction false} FormatRender(t: Template, env: map<string, string>)
    requires LiteralsBraceFree(t)
    ensures (forall f :: f in Fields(t) ==> FieldName(f) in env) ==>
      Format(Render(t), env) == Ok(Render(Substitute(t, env)))
    ensures (exists f :: f in Fields(t) && FieldName(f) !in env) ==>
      Format(Render(t), env).Err? && Format(Render(t), env).error.MissingField?
  {
    if |t| > 0 {
      FormatRender(t[1..], env);
      match t[0]
      case Lit(s) =>
        FormatLiteral(s, Render(t[1..]), env);
      case Hole(f) =>
        assert Render(t) == "{" + FieldName(f) + "}" + Render(t[1..]);
        FormatField(FieldName(f), Render(t[1..]), env);
    }
  }

  /** Filling a placeholder with its own `{name}` spelling renders the same
      text as leaving it in place. */
  lemma {:induction false} SelfPlaceholder(t: Template, env: map<string, string>, f: Field)
    requires FieldName(f) in env && env[FieldName(f)] == "{" + FieldName(f) + "}"
    ensures Render(Substitute(t, env)) == Render(Substitute(t, env - {FieldName(f)}))
  {
    if |t| > 0 {
      SelfPlaceholder(t[1..], env, f);
      if t[0].Hole? && t[0].field != f {
        assert FieldName(t[0].field) != FieldName(f) by {
          if FieldName(t[0].field) == FieldName(f) {
            FieldNameInjective(t[0].field, f);
          }
        }
      }
    }
  }

  /** Two passes fill the template as one pass would, the first pass's values
      taking precedence. */
  lemma {:induction false} SubstituteTwice(t: Template, first: map<string, string>, second: map<string, string>)
    ensures Substitute(Substitute(t, first), second) == Substitute(t, second + first)
  {
    if |t| > 0 {
      SubstituteTwice(t[1..], first, second);
    }
  }

  // ---------------------------------------------------------------------------
  // BASE_INSTRUCTIONS and TOOL_PROMPTS

  /** The prose blocks of the prompts. Their wording is a parameter of the
      model: all that matters about it is that, like every text of the
      registry, it contains no brace. */
  datatype Block =
    | Preamble          // role, up to the first tool name
    | ContextOpen       // up to the metadata
    | ContextClose      // currency and "Today: "
    | DateRulesOpen     // up to the first date inside the rules
    | DateRulesMiddle   // up to the second date inside the rules
    | DefinitionHeading // closes the date rules
    | ExamplesHeading
    | RulesHeading      // up to the format rule
    | RulesTail         // the remaining rules
    | Definition(tool: Tool)
    | Examples(tool: Tool)

  type Wording = Block -> string

  ghost predicate GoodWording(w: Wording) {
    forall b :: BraceFree(w(b))
  }

  /** The fixed part of rule 1 around the tool name. */
  const FormatRule: string := "Format: `fig, result = "
  const FormatCallTail: string := "(df, ...)`"

  lemma RuleTextBraceFree()
    ensures BraceFree(FormatRule) && BraceFree(FormatCallTail)
  {
  }

  /** The rule that names the tool in the output format. */
  function FormatLine(tool: string): string {
    FormatRule + tool + FormatCallTail
  }

  /** A prose block followed by a placeholder. */
  function Chunk(w: Wording, b: Block, f: Field): (c: Template)
    requires GoodWording(w)
    ensures LiteralsBraceFree(c)
  {
    [Lit(w(b)), Hole(f)]
  }

  lemma LiteralsBraceFreeAppend(a: Template, b: Template)
    requires LiteralsBraceFree(a) && LiteralsBraceFree(b)
    ensures LiteralsBraceFree(a + b)
  {
  }

  /** BASE_INSTRUCTIONS up to rule 1's format line. */
  function BaseHead(w: Wording): (t: Template)
    requires GoodWording(w)
    ensures LiteralsBraceFree(t)
    ensures |t| == 15 && t[3] == Hole(MetadataField) && t[5] == Hole(CurrentDateField)
  {
    var c1 := Chunk(w, Preamble, ToolNameField);
    var c2 := Chunk(w, ContextOpen, MetadataField);
    var c3 := Chunk(w, ContextClose, CurrentDateField);
    var c4 := Chunk(w, DateRulesOpen, CurrentDateField);
    var c5 := Chunk(w, DateRulesMiddle, CurrentDateField);
    var c6 := Chunk(w, DefinitionHeading, DefinitionField);
    var c7 := Chunk(w, ExamplesHeading, ExamplesField);
    var c8: Template := [Lit(w(RulesHeading))];
    LiteralsBraceFreeAppend(c1, c2);
    LiteralsBraceFreeAppend(c1 + c2, c3);
    LiteralsBraceFreeAppend(c1 + c2 + c3, c4);
    LiteralsBraceFreeAppend(c1 + c2 + c3 + c4, c5);
    LiteralsBraceFreeAppend(c1 + c2 + c3 + c4 + c5, c6);
    LiteralsBraceFreeAppend(c1 + c2 + c3 + c4 + c5 + c6, c7);
    LiteralsBraceFreeAppend(c1 + c2 + c3 + c4 + c5 + c6 + c7, c8);
    c1 + c2 + c3 + c4 + c5 + c6 + c7 + c8
  }

  /** Rule 1's format line, with the tool name open. */
  const RulePieces: Template := [Lit(FormatRule), Hole(ToolNameField), Lit(FormatCallTail)]

  /** BASE_INSTRUCTIONS: the tool name twice, the metadata once, today's date
      three times, the definition and the examples once each. */
  function Base(w: Wording): (t: Template)
    requires GoodWording(w)
    ensures LiteralsBraceFree(t)
    ensures MetadataField in Fields(t) && CurrentDateField in Fields(t)
  {
    var head := BaseHead(w);
    var tail: Template := RulePieces + [Lit(w(RulesTail))];
    RuleTextBraceFree();
    assert LiteralsBraceFree(tail);
    LiteralsBraceFreeAppend(head, tail);
    var t := head + tail;
    HoleInFields(t, 3);
    HoleInFields(t, 5);
    t
  }

  /** A placeholder at any position is among the template's fields. */
  lemma {:induction false} HoleInFields(t: Template, i: nat)
    requires i < |t| && t[i].Hole?
    ensures t[i].field in Fields(t)
  {
    if i > 0 {
      HoleInFields(t[1..], i - 1);
    }
  }

  /** The first pass's arguments: the tool, its definition and examples, and
      the two request-time fields spelled as their own placeholders. */
  function FirstEnv(t: Tool, w: Wording): map<string, string> {
    map[
      "tool_name" := Name(t),
      "metadata" := "{metadata}",
      "current_date" := "{current_date}",
      "function_definition" := w(Definition(t)),
      "examples" := w(Examples(t))]
  }

  /** What the first pass fixes for good. */
  function ToolEnv(t: Tool, w: Wording): map<string, string> {
    map["tool_name" := Name(t), "function_definition" := w(Definition(t)), "examples" := w(Examples(t))]
  }

  /** The prompt of a registered tool with the request-time fields open. */
  function Partial(t: Tool, w: Wording): (p: Template)
    requires GoodWording(w)
    ensures Fields(p) == {MetadataField, CurrentDateField}
  {
    var p := Substitute(Base(w), ToolEnv(t, w));
    assert forall f: Field :: FieldName(f) !in ToolEnv(t, w) ==> f == MetadataField || f == CurrentDateField;
    p
  }

  /** `get_tool_prompt(tool_name)`: `None` for a name outside the registry,
      otherwise BASE_INSTRUCTIONS formatted for that tool. */
  function GetToolPrompt(name: string, w: Wording): (r: Option<string>)
    requires GoodWording(w)
    ensures r.None? <==> name !in Registry
    ensures r.Some? ==> Format(Render(Base(w)), FirstEnv(FromName(name).value, w)) == Ok(r.value)
  {
    RegistryIsTheTools();
    match FromName(name)
    case None => None
    case Some(t) =>
      FirstEnvNamesEveryField(t, w);
      FormatRender(Base(w), FirstEnv(t, w));
      Some(Render(Substitute(Base(w), FirstEnv(t, w))))
  }

  lemma FirstEnvNamesEveryField(t: Tool, w: Wording)
    ensures forall f: Field :: FieldName(f) in FirstEnv(t, w)
  {
    var env := FirstEnv(t, w);
    forall f: Field ensures FieldName(f) in env {
      match f
      case ToolNameField =>
      case MetadataField =>
      case CurrentDateField =>
      case DefinitionField =>
      case ExamplesField =>
    }
  }

  /** The first pass leaves exactly the metadata and date placeholders. */
  lemma FirstPassLeavesPlaceholders(t: Tool, w: Wording)
    requires GoodWording(w)
    ensures GetToolPrompt(Name(t), w) == Some(Render(Partial(t, w)))
    ensures Fields(Partial(t, w)) == {MetadataField, CurrentDateField}
  {
    FromNameOfName(t);
    var env := FirstEnv(t, w);
    PlaceholderSpellings();
    SelfPlaceholder(Base(w), env, MetadataField);
    var env2 := env - {"metadata"};
    SelfPlaceholder(Base(w), env2, CurrentDateField);
    FirstEnvWithoutPlaceholders(t, w);
  }

  /** How the two request-time placeholders are written. */
  lemma PlaceholderSpellings()
    ensures "{" + FieldName(MetadataField) + "}" == "{metadata}"
    ensures "{" + FieldName(CurrentDateField) + "}" == "{current_date}"
  {
  }

  lemma FirstEnvWithoutPlaceholders(t: Tool, w: Wording)
    ensures FirstEnv(t, w) - {"metadata"} - {"current_date"} == ToolEnv(t, w)
  {
  }

  lemma SecondEnvThenToolEnv(t: Tool, w: Wording, metadata: string, date: string, prompt: string)
    ensures map["metadata" := metadata, "current_date" := date, "function_definition" := prompt] + ToolEnv(t, w)
      == FullEnv(t, w, metadata, date)
  {
  }

  /** The request-time pass (backend/main.py, benchmark): metadata, today's
      date and, unused, the prompt itself as `function_definition`. */
  function SecondPass(prompt: string, metadata: string, date: string): Result<string, FormatError> {
    Format(prompt, map["metadata" := metadata, "current_date" := date, "function_definition" := prompt])
  }

  /** All five fields at once. */
  function FullEnv(t: Tool, w: Wording, metadata: string, date: string): map<string, string> {
    map[
      "tool_name" := Name(t),
      "metadata" := metadata,
      "current_date" := date,
      "function_definition" := w(Definition(t)),
      "examples" := w(Examples(t))]
  }

  lemma NameBraceFree(t: Tool)
    ensures BraceFree(Name(t))
  {
    match t
    case PlotTimeSeries => LowercaseBraceFree(Name(t));
    case PlotDistribution => LowercaseBraceFree(Name(t));
    case PlotComparisonBars => LowercaseBraceFree(Name(t));
    case CalculateTotal => LowercaseBraceFree(Name(t));
    case CalculateStatistics => LowercaseBraceFree(Name(t));
    case GetTopExpenses => LowercaseBraceFree(Name(t));
  }

  /** Lower-case letters and underscores are no braces. */
  lemma LowercaseBraceFree(s: string)
    requires forall i :: 0 <= i < |s| ==> 'a' <= s[i] <= 'z' || s[i] == '_'
    ensures BraceFree(s)
  {
  }

  /** The two passes succeed for every registered tool and every metadata
      text, and agree with filling the base template in one pass. */
  lemma TwoPassesAreOne(t: Tool, w: Wording, metadata: string, date: string)
    requires GoodWording(w)
    ensures SecondPass(GetToolPrompt(Name(t), w).value, metadata, date)
      == Ok(Render(Substitute(Base(w), FullEnv(t, w, metadata, date))))
  {
    FirstPassLeavesPlaceholders(t, w);
    var prompt := GetToolPrompt(Name(t), w).value;
    var second := map["metadata" := metadata, "current_date" := date, "function_definition" := prompt];
    var p := Partial(t, w);
    PartialBraceFree(t, w);
    assert forall f :: f in Fields(p) ==> FieldName(f) in second;
    FormatRender(p, second);
    SubstituteTwice(Base(w), ToolEnv(t, w), second);
    SecondEnvThenToolEnv(t, w, metadata, date, prompt);
  }

  /** The prompt after the first pass still has brace-free literals. */
  lemma PartialBraceFree(t: Tool, w: Wording)
    requires GoodWording(w)
    ensures LiteralsBraceFree(Partial(t, w))
  {
    NameBraceFree(t);
    SubstituteBraceFree(Base(w), ToolEnv(t, w));
  }

  /** Filling with brace-free values keeps the literals brace-free. */
  lemma {:induction false} SubstituteBraceFree(t: Template, env: map<string, string>)
    requires LiteralsBraceFree(t)
    requires forall k :: k in env ==> BraceFree(env[k])
    ensures LiteralsBraceFree(Substitute(t, env))
  {
    if |t| > 0 {
      SubstituteBraceFree(t[1..], env);
    }
  }

  lemma SubstituteRule(env: map<string, string>)
    requires "tool_name" in env
    ensures Substitute(RulePieces, env) == [Lit(FormatRule), Lit(env["tool_name"]), Lit(FormatCallTail)]
    ensures Render(Substitute(RulePieces, env)) == FormatLine(env["tool_name"])
  {
    var r := RulePieces;
    assert r[1..] == [Hole(ToolNameField), Lit(FormatCallTail)];
    assert r[1..][1..] == [Lit(FormatCallTail)];
    assert Substitute(r[1..][1..], env) == [Lit(FormatCallTail)];
    assert FieldName(ToolNameField) == "tool_name";
    assert Substitute(r[1..], env) == [Lit(env["tool_name"])] + [Lit(FormatCallTail)];
    var lits: Template := [Lit(FormatRule), Lit(env["tool_name"]), Lit(FormatCallTail)];
    assert lits[1..] == [Lit(env["tool_name"]), Lit(FormatCallTail)];
    assert lits[1..][1..] == [Lit(FormatCallTail)];
    assert Render(lits[1..][1..]) == FormatCallTail;
  }

  /** Rule 1 of every filled-in prompt names the tool that fills it. */
  lemma FormatLineNamesTool(w: Wording, env: map<string, string>, tool: string)
    requires GoodWording(w)
    requires "tool_name" in env && env["tool_name"] == tool
    ensures Contains(Render(Substitute(Base(w), env)), FormatLine(tool))
  {
    var head := BaseHead(w);
    var mid := RulePieces;
    var tail: Template := [Lit(w(RulesTail))];
    assert Base(w) == head + (mid + tail);
    assert head + (mid + tail) == head + mid + tail;
    SubstituteAppend(head + mid, tail, env);
    SubstituteAppend(head, mid, env);
    var sh := Substitute(head, env);
    var sm := Substitute(mid, env);
    var st := Substitute(tail, env);
    SubstituteRule(env);
    RenderAppend(sh + sm, st);
    RenderAppend(sh, sm);
    assert Render(sm) == FormatLine(tool);
    var whole := Render(sh) + FormatLine(tool) + Render(st);
    assert whole[|Render(sh)|..|Render(sh)| + |FormatLine(tool)|] == FormatLine(tool);
    assert OccursAt(whole, FormatLine(tool), |Render(sh)|);
    ContainsIff(whole, FormatLine(tool));
  }

  /** The prompt `get_tool_prompt` returns, and the system prompt after the
      second pass, both tell the model to call the tool it was routed to. */
  lemma PromptNamesTool(t: Tool, w: Wording, metadata: string, date: string)
    requires GoodWording(w)
    ensures Contains(GetToolPrompt(Name(t), w).value, FormatLine(Name(t)))
    ensures SecondPass(GetToolPrompt(Name(t), w).value, metadata, date).Ok?
    ensures Contains(SecondPass(GetToolPrompt(Name(t), w).value, metadata, date).value, FormatLine(Name(t)))
  {
    FromNameOfName(t);
    FormatLineNamesTool(w, FirstEnv(t, w), Name(t));
    TwoPassesAreOne(t, w, metadata, date);
    FormatLineNamesTool(w, FullEnv(t, w, metadata, date), Name(t));
  }
}
