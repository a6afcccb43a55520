# ExpenseSense analysis core, in Dafny

ExpenseSense answers questions about a table of expenses in two model
calls. A router model names one of six analysis tools. A specialist model
writes a one-line Python call of that tool. The server runs the call and
sends back the result. It puts the result into words only when the result
needs them.

This project models the deterministic code around those model calls:

- the category validator every tool call goes through
  (`backend/utils/llm_input_validation.py`);
- the `auto_validate` decorator and the filter and aggregate logic of
  `calculate_total`, `plot_comparison_bars`, `get_top_expenses` and
  `plot_distribution` (`backend/utils/analysis_tools.py`);
- the tool prompt registry and its two formatting passes
  (`backend/utils/tool_prompts.py`);
- the streaming pipeline of `backend/main.py`, which covers:
  - row enrichment;
  - the choice of back-end;
  - the router token;
  - the tool fallback;
  - code extraction and the `fig, result =` prefix;
  - the summarise-or-not decision;
  - the order of the stage events;
- the accuracy benchmark's name extraction, grading, fallback, summariser
  gating and warm-up handling (`backend/benchmark_mlx.py`).

## Modules

| file | module | contents |
|---|---|---|
| wrappers.dfy | Wrappers | `Option` and `Result` |
| text.dfy | Text | Python string operations: `lower`, `strip`, `split`, `replace`, `in` |
| values.dfy | Values | keyword argument values, truthiness, `str`, `int`, number formats |
| frames.dfy | Frames | the expense table as `seq<Txn>`, time and category filters, totals |
| sorting.dfy | Sorting | `nlargest`, and a descending sort that keeps ties in their original order |
| tool_args.dfy | ToolArgs | the tools' time and category argument priority chains |
| validation.dfy | Validation | `get_metadata_lists`, `find_best_match`, `validate_and_fix_params` |
| analysis.dfy | Analysis | `calculate_total`, `plot_comparison_bars`, `get_top_expenses` |
| distribution.dfy | Distribution | `plot_distribution`: grouping, and the folding of small slices into "Others" |
| tool_prompts.dfy | ToolPrompts | the six tools, `str.format`, `BASE_INSTRUCTIONS`, `get_tool_prompt` |
| tools.dfy | Tools | `auto_validate` and the dispatch over the six tools |
| pipeline.dfy | Pipeline | `generate_text` and `analyze_stream` |
| benchmark.dfy | Benchmark | `extract_tool_name`, `grade`, `run_benchmark` |

External effects are parameters, as follows:

- The model calls, `exec` and `difflib`'s similarity ratio are function
  parameters. A model call answers a text or raises the text of an
  exception. `exec` gives a figure and result, or an error.
- Today's date, the category mapping, the prompt files and the prose of
  `BASE_INSTRUCTIONS` are also parameters.
- Amounts are whole yen.

## Model

| member | source | states |
|---|---|---|
| Validation.BuildLookup | backend/utils/llm_input_validation.py:17-18 | the lookup's keys are exactly the lower-cased names, and each key maps to one of the names spelled that way |
| Validation.GetMetadataLists | backend/utils/llm_input_validation.py:5-20 | without a `category` column both lookups are empty, and without `major category` the broad-group lookup is empty; otherwise the keys are exactly the lower-cased column values, and every value is spelled as some row spells it |
| Validation.CloseMatch | backend/utils/llm_input_validation.py:60 | a key is found iff some key reaches the 0.8 cutoff; the key found reaches it and ranks at least as high as every other key that does |
| Validation.FindBestMatch | backend/utils/llm_input_validation.py:44-64 | the score is 0, 0.8, 0.9 or 1.0, and it is positive iff a name from the lookup is returned; a falsy value gives no match; 1.0 iff the lower-cased value is a key; 0.9 only for the singular formed by dropping `s` or by replacing `ies` with `y`; 0.8 only for a similar key when the earlier tiers failed; 0 means no tier applied |
| Validation.Classify | backend/utils/llm_input_validation.py:33-94 | no category iff the stripped input is falsy; otherwise a broad group iff its match reaches 0.8 and scores at least as high as the category match, naming that group; else a category iff its match reaches 0.8, naming it; else a remarks search, which happens iff both matchers scored 0 and carries the stripped input |
| Validation.Decide | backend/utils/llm_input_validation.py:71-94 | the same decision table on a cleaned input and two given lookups: each chosen name is the one its matcher returned and a value of that lookup |
| Validation.Rewrite | backend/utils/llm_input_validation.py:28-97 | all other arguments are kept; a broad group removes `category` and sets `major_category`; a category removes `major_category` and sets `category`; a remarks search removes both and sets `remarks`; there is a warning iff the input differs from the chosen name, and always one for a remarks search |
| Validation.MatchCarriesOver | backend/utils/llm_input_validation.py:44-64 | a name matched in one lookup scores at least as high in any lookup that also knows it |
| Validation.ExactMajorKept | backend/utils/llm_input_validation.py:75-80 | an input that is a broad group's exact name maps to that group without a warning |
| Validation.ExactCategoryKept | backend/utils/llm_input_validation.py:82-87 | an input that is a category's exact name, and not also a broad group's, stays that category without a warning |
| Validation.NoCategoryColumnSearchesRemarks | backend/utils/llm_input_validation.py:7-94 | with no `category` column every truthy input becomes a remarks search |
| Validation.EmptyInputUnchanged | backend/utils/llm_input_validation.py:33-41 | arguments without a truthy category-like value come back unchanged and without a warning |
| Validation.ChosenCategoryIsNotMajor | backend/utils/llm_input_validation.py:75-82 | a category is chosen only when its name is not also a broad group's |
| Validation.AgainAfterMajor | backend/utils/llm_input_validation.py:75-80 | arguments that already name a broad group validate to themselves |
| Validation.AgainAfterCategory | backend/utils/llm_input_validation.py:82-87 | arguments that already name a category that is not a broad group validate to themselves |
| Validation.ValidateIdempotent | backend/utils/llm_input_validation.py:22-97 | validating the validator's output changes nothing and warns about nothing |
| Tools.Body | backend/utils/analysis_tools.py:117-136 | the undecorated tool bodies: `calculate_total` and `get_top_expenses` never draw, and each of the four modelled tools fails exactly when its selection does |
| Tools.AutoValidate | backend/utils/analysis_tools.py:117-136 | a decorated call runs the tool body on the validated arguments and hands back its result unchanged; an argument the signature does not declare raises `TypeError` |
| Tools.CleanedKeysBound | backend/utils/analysis_tools.py:122-129 | the validated arguments fit the signature iff the original ones did |
| Tools.ValidatedCategoryFilter | backend/utils/analysis_tools.py:122-129 | after validation, the tool filters on the category or broad group the validator chose, or on the remarks search it fell back to |
| Tools.ResolvedNameMatchesARow | backend/utils/llm_input_validation.py:10-18 | a name the validator resolves to selects at least one row of the table |
| ToolArgs.TotalTime | backend/utils/analysis_tools.py:723-737 | one time filter, chosen by priority: a day, then a month, then a year, then a span of years, then all time; each has its label, and each raises where `int`, the `02d` format or `Timestamp` would |
| ToolArgs.MonthOrYear | backend/utils/analysis_tools.py:884-891 | a month, then a year, then all time, with their labels and errors |
| ToolArgs.CategoryArg | backend/utils/analysis_tools.py:740-750 | one category filter, chosen by priority: `category`, then `major_category`, then `remarks`, then none; labels as in the message; `TypeError` when the chosen argument is not a string |
| Frames.Select | backend/utils/analysis_tools.py:725-747 | a row is kept iff it passes both the time filter and the category filter |
| Frames.SelectKeepsCopies | backend/utils/analysis_tools.py:725-747 | each kept row occurs in the selection as often as it does in the table |
| Frames.SelectTotal | backend/utils/analysis_tools.py:755-756 | the sum and count of the selected rows are those of the matching rows |
| Analysis.TotalSelection | backend/utils/analysis_tools.py:719-757 | the report succeeds iff both argument chains do; nothing is found iff no row matches; otherwise the total and count are those of the matching rows |
| Analysis.CalculateTotal | backend/utils/analysis_tools.py:703-761 | never a figure; fails exactly when the selection fails |
| Analysis.TotalMessageLeadsWithLabel | backend/utils/analysis_tools.py:752-759 | a found report's message starts with "label in period: ", and an empty one's with "No transactions found for " |
| Analysis.UnfilteredTotalSaysTotal | backend/utils/analysis_tools.py:749-759 | without category arguments and with matching rows, the message starts with "Total" |
| Analysis.ComparisonPeriods | backend/utils/analysis_tools.py:480-518 | the periods are swapped iff the second starts strictly before the first, so the first shown never starts after the second |
| Analysis.ComparisonOrderIrrelevant | backend/utils/analysis_tools.py:474-518 | for periods with different starts, the display order does not depend on the argument order |
| Analysis.ChangeDirection | backend/utils/analysis_tools.py:685-694 | with a positive first total: "increase" iff the second is larger, and "decrease" iff it is smaller; otherwise "increase" iff the second total is positive, and never "decrease" |
| Analysis.DirectionOfNonNegativeTotals | backend/utils/analysis_tools.py:682-694 | for totals that are not negative: increase, decrease or no change exactly as the second total is above, below or equal to the first, a zero first total included |
| Analysis.ChangeTenths | backend/utils/analysis_tools.py:685-698 | the change in tenths of a percent is the nearest to 1000·\|t2−t1\|/t1, and 100.0 or 0.0 when the first total is not positive |
| Analysis.ComparisonSelection | backend/utils/analysis_tools.py:476-542 | the category filter is applied to both ordered periods; "insufficient data" iff either period has no matching rows; otherwise the totals are the periods' matching totals |
| Analysis.PlotComparisonBars | backend/utils/analysis_tools.py:541-700 | a bar chart of the two ordered periods, and no figure exactly when the data are insufficient |
| Analysis.CountArg | backend/utils/analysis_tools.py:870-914 | `n` defaults to 10; an integer is used as it is; `False` is accepted and asks `nlargest` for no rows; `True` and every other value raise `TypeError` |
| Analysis.FalseCountListsNothing | backend/utils/analysis_tools.py:914-916 | with `n=False` the listing has no rows and its header reads "Top False expenses for …" |
| Analysis.TrueCountRaises | backend/utils/analysis_tools.py:914 | with `n=True` and some candidate row, the tool raises `TypeError` |
| Analysis.IntCountShown | backend/utils/analysis_tools.py:914-916 | for a non-negative integer `n` the header shows the number of rows listed |
| Analysis.AmountFloor | backend/utils/analysis_tools.py:906-908 | no floor when `min_amount` is falsy; otherwise its number, or an error where it does not parse |
| Analysis.AtLeast | backend/utils/analysis_tools.py:907-908 | keeps exactly the rows whose expense reaches the floor, with every copy of each such row |
| Analysis.TopCandidates | backend/utils/analysis_tools.py:883-908 | a row is a candidate iff it passes the time filter, the category filter and the amount floor, and each candidate occurs as often as it does in the table |
| Analysis.TopSelection | backend/utils/analysis_tools.py:910-916 | "no expenses" iff no row is a candidate; otherwise min(n, count) rows in non-increasing order of expense, drawn from the candidates, none smaller than a candidate left out |
| Analysis.TopMessageAsWritten | backend/utils/analysis_tools.py:917-921 | the listing as written raises iff a selected row has a remark, and is the intended listing otherwise |
| Analysis.GetTopExpenses | backend/utils/analysis_tools.py:870-921 | never a figure; fails exactly when the selection fails |
| Analysis.TopMessageNamesEveryRemark | backend/utils/analysis_tools.py:919-920 | the intended listing names the remark of every selected row that has one |
| Analysis.RemarkBreaksTopListing | backend/utils/analysis_tools.py:919 | a selected row with a remark makes the written listing raise `KeyError`, where the intended one names the remark |
| Sorting.Largest | backend/utils/analysis_tools.py:914 | `nlargest`: min(n, len) rows, sorted non-increasing, a sub-multiset of the input, none smaller than a row left out |
| Sorting.SortDescOfSorted | backend/utils/analysis_tools.py:914 | rows already in non-increasing order stay where they are |
| Distribution.DistributionFilter | backend/utils/analysis_tools.py:341-369 | one filter by priority, here `remarks` first, then `category`, then `major_category`, then none, with the message's wording |
| Distribution.GroupSums | backend/utils/analysis_tools.py:375 | one slice per group, with no two slices for one group, each holding its group's total; a group has a slice iff some grouped row has it; the slices sum to the total of the grouped rows |
| Distribution.SortByKey | backend/utils/analysis_tools.py:375 | the groups in ascending name order, as `groupby` returns them: a permutation of its input |
| Sorting.SortDescKeepsTies | backend/utils/analysis_tools.py:376 | the model's descending sort keeps rows with equal amounts in the order they came in, an order the model chooses |
| Distribution.GroupedTotalIsTotal | backend/utils/analysis_tools.py:375-379 | grouping by a column every row has keeps every row's amount |
| Distribution.FoldOthers | backend/utils/analysis_tools.py:382-398 | remarks with more than 10 groups: the top 10, plus "Others" with the rest's sum iff that sum is above 0; otherwise more than 12 groups: the slices of at least 3% in their order, then "Others" with the sum of the smaller ones iff there are any; 12 or fewer: unchanged; the total is kept whenever the amounts are not negative |
| Distribution.TopTen | backend/utils/analysis_tools.py:383-390 | the first ten slices, then "Others" with the rest's sum iff that sum is above 0 |
| Distribution.FoldSmall | backend/utils/analysis_tools.py:391-398 | the large slices in order, then "Others" with the small slices' sum iff some slice is small; the total is kept |
| Distribution.LargeOnes | backend/utils/analysis_tools.py:393 | every slice of at least 3%, each as often as in the input |
| Distribution.SmallOnes | backend/utils/analysis_tools.py:394 | every slice under 3%, each as often as in the input |
| Distribution.LargeOnesAppend | backend/utils/analysis_tools.py:393 | the large-slice filter keeps order: filtering a concatenation filters each part |
| Distribution.SmallOnesAppend | backend/utils/analysis_tools.py:394 | the small-slice filter keeps order in the same way |
| Distribution.FiltersPartition | backend/utils/analysis_tools.py:393-394 | the large and the small slices together are exactly the input's slices |
| Distribution.DistributionSelection | backend/utils/analysis_tools.py:327-398 | no data iff no row matches; otherwise the count of matching rows, and slices that are the folded ordering of the group sums by descending amount, with equal amounts in name order (the model's choice); when the grouping column is not `remarks` the slices sum to the matching total |
| Distribution.PieOrderDetermined | backend/utils/analysis_tools.py:375-376 | descending amounts with ties in name order fix the order of the slices: two such orderings of the same groups are equal |
| Distribution.PlotDistribution | backend/utils/analysis_tools.py:309-372 | a pie of the folded slices, and no figure exactly when no row matches |
| ToolPrompts.FromName | backend/utils/tool_prompts.py:38-151 | the names of the six registered tools, and nothing else |
| ToolPrompts.RegistryIsTheTools | backend/utils/tool_prompts.py:38-151 | the registry is exactly the six tools' names, and no two tools share a name |
| ToolPrompts.FormatRender | backend/utils/tool_prompts.py:159-165 | `str.format` fills every placeholder, and fails with `KeyError` iff a placeholder has no value |
| ToolPrompts.SubstituteTwice | backend/utils/tool_prompts.py:159-165 | two formatting passes fill the template as one pass would, the first pass's values winning |
| ToolPrompts.GetToolPrompt | backend/utils/tool_prompts.py:153-165 | `None` iff the name is not registered; otherwise the base instructions formatted for that tool |
| ToolPrompts.FirstPassLeavesPlaceholders | backend/utils/tool_prompts.py:159-165 | the returned prompt still holds exactly the `{metadata}` and `{current_date}` placeholders |
| ToolPrompts.TwoPassesAreOne | backend/utils/tool_prompts.py:159-165 | for every tool and metadata text the request-time pass succeeds, and equals filling all five fields at once |
| ToolPrompts.PromptNamesTool | backend/utils/tool_prompts.py:3-36 | rule 1 of the prompt, before and after the second pass, names the tool it was fetched for |
| Pipeline.EnrichRow | backend/main.py:129-136 | the category is lower-cased and stripped, or blank without the column; the broad group is the mapped one or "Miscellaneous", blank for "nan" and ""; the other fields are unchanged |
| Pipeline.Enrich | backend/main.py:129-136 | one enriched row per input row; rows with the same category have the same broad group; with non-blank mapping values the group is blank iff the category is "" or "nan" |
| Pipeline.EnrichIdempotent | backend/main.py:129-136 | enriching an enriched table changes nothing |
| Pipeline.BackendIgnoresCase | backend/main.py:76 | the choice of back-end (`Pipeline.ChooseBackend`) does not depend on the case of the model name |
| Pipeline.GenerateText | backend/main.py:73-85 | MLX is asked, with the options' temperature defaulting to 0.0, exactly when the provider is "mlx", the model is an absolute path or its name contains "mlx" in any case; otherwise Ollama's answer comes back stripped; errors pass through |
| Pipeline.RouterToken | backend/main.py:165 | nothing iff the answer is blank, where `split()[0]` raises; otherwise a word without whitespace, backticks or quotes |
| Pipeline.RouterReadsToolName | backend/main.py:165 | an answer whose first word is a tool's name, bare or in backticks or quotes, reads as that name |
| Pipeline.ResolveTool | backend/main.py:168-173 | the routed tool is the named one iff the name is registered, and `calculate_total` otherwise; its template is that tool's prompt, which names the tool |
| Pipeline.FallbackIffUnregistered | backend/main.py:169-173 | the fallback is taken iff the name is not registered |
| Pipeline.ExtractCode | backend/main.py:202-209 | the code never contains a fence; it is stripped when fenced or wrapped in backticks; otherwise it is the answer unchanged; its round trips are the three lemmas below |
| Pipeline.ExtractFencedCode | backend/main.py:204-205 | a ```` ```python ```` block surrounded by prose gives back exactly its code |
| Pipeline.ExtractPlainFencedCode | backend/main.py:206-207 | a plain ```` ``` ```` block, with backtick-free prose before it and no `python` fence anywhere, gives back exactly its code |
| Pipeline.ExtractBacktickedCode | backend/main.py:208-209 | stripped code that neither starts nor ends with a backtick, wrapped in single backticks, comes back exactly |
| Pipeline.AddPrefix | backend/main.py:211-213 | the result is the code with `fig, result = ` put in front when the code starts with the tool's name and does not contain `fig, result`, and the code unchanged otherwise |
| Pipeline.AddPrefixIdempotent | backend/main.py:211-213 | adding the prefix twice is adding it once |
| Pipeline.TotalsAreNotSummarised | backend/main.py:260-264 | an unfiltered `calculate_total` with matching rows is never summarised, and its "No transactions found" message always is |
| Pipeline.AnalyzeStream | backend/main.py:117-304 | the status stages only move forward; the stream opens with the router status and ends with one result or one error; the specialist's tool is registered; an error carries the code iff it came from running it; the code of a result has no fence and carries the assignment when it starts with the tool's name |
| Pipeline.ExecutionStage | backend/main.py:239-300 | an execution error ends the stream with the code; otherwise a single event iff the result is not summarised, and then it is the final event with the figure, the code and the result as it stands, or "Analysis complete." when there is none; a summarised result follows a status that names the chat model |
| Pipeline.StreamFollowsRouter | backend/main.py:165-181 | the specialist is asked for the tool the router named when it is registered, and for `calculate_total` otherwise |
| Benchmark.ExtractToolName | backend/benchmark_mlx.py:309-319 | "NONE" for an empty output; otherwise the same word the server reads |
| Benchmark.StrippedOutputHasName | backend/benchmark_mlx.py:297-319 | a stripped output always yields a name, so the benchmark never meets a blank one |
| Benchmark.Grade | backend/benchmark_mlx.py:326-354 | the router is right iff the trimmed, lower-cased names agree; the parameters are right iff each occurs in the output in any case, and trivially when there are none; the composite is 30/50/20 hundredths, at most 100, 100 iff all three checks pass, and 0 iff none does |
| Benchmark.ParamCheckIgnoresCase | backend/benchmark_mlx.py:341 | the parameter check does not see the case of the output |
| Benchmark.RunAttempt | backend/benchmark_mlx.py:438-476 | "ERROR" when the router call raises with a message; "NONE" when it raises with an empty one, since `str(exc)` is then falsy; otherwise the name the server would read; the server's fallback to `calculate_total`; the summariser runs iff the tool is `calculate_statistics` or `get_top_expenses`, the specialist did not raise with a message and there is a summary prompt; a failed specialist leaves an empty answer |
| Benchmark.AttemptFollowsRouter | backend/benchmark_mlx.py:444-452 | a router answer naming a tool sends the question to that tool |
| Benchmark.GradeAsWritten | backend/benchmark_mlx.py:448-480 | the router is graded against the tool after the fallback |
| Benchmark.FallbackCreditsFailedRouter | backend/benchmark_mlx.py:444-480 | a failed router call reads as "ERROR" or "NONE", and still earns the router's credit on a `calculate_total` question |
| Benchmark.GradeAttempt | backend/benchmark_mlx.py:441-480 | the router is graded against the name it gave |
| Benchmark.RouterCreditNeedsRouterAnswer | backend/benchmark_mlx.py:441-480 | for an expected tool other than "ERROR" or "NONE", router credit means the router answered, with the expected name |
| Benchmark.RowOf | backend/benchmark_mlx.py:500-533 | counted repetition j is attempt j + `WARMUP_REPS`, recorded as repetition j + 1 |
| Benchmark.AllRowsLength | backend/benchmark_mlx.py:416-536 | every question contributes exactly `reps` rows |
| Benchmark.CompositeBound | backend/benchmark_mlx.py:508 | a question's composite sum is at most 100 per row, and reaches it iff every attempt passed everything |
| Benchmark.RunBenchmark | backend/benchmark_mlx.py:391-536 | the rows are every question's counted attempts in order, `reps` each; the statistics are the sums over those rows; warm-up attempts are neither checkpointed nor counted |
| Benchmark.RunCase | backend/benchmark_mlx.py:435-533 | the rows and sums of one question after its warm-up attempts |

## Left out

- Model inference: `mlx_model.chat` and `ollama.chat` are function parameters. So are `exec`, the two prompt files, `categories.json`, today's date and the prose of the tool prompts. `backend/utils/mlx_utils.py` is not part of this model.
- FastAPI routing, the SSE encoding, logging, timings, the CSV and Excel output, plotting and memory management are left out. The events are data.
- `plot_time_series` and `calculate_statistics`: their bodies are one function parameter (`Tools.Unmodelled`). They depend on the clock and on floating-point statistics.
- Tools.AutoValidate: positional arguments are not modelled, because every tool is called with keywords.
- Tools.AutoValidate: `get_top_expenses` runs the corrected listing (`Analysis.GetTopExpenses`), where the program raises `KeyError` for a selected row with a remark; see the first finding.
- Floating point is left out. Amounts are whole numbers, and percentages are compared exactly: a slice is large when 100·amount ≥ 3·total. The `¥{:,.0f}` amounts are printed from whole numbers, and averages are rounded half to even.
- DistributionSelection: pandas' default `sort_values` does not promise an order for groups with equal amounts. The model puts them in name order.
- SortDescKeepsTies: the order it keeps for equal amounts is the model's choice. pandas' default quicksort, used by `sort_values` and by `nlargest` when `n` covers every row, promises none.
- Distribution.FoldOthers: the 3% threshold is exact, so a float rounding at the boundary is not modelled.
- Analysis.AmountFloor: `min_amount` is read with `int` rules; the source's `float` would also accept "12.5".
- The remarks filter uses pandas `str.contains`, which reads its pattern as a regular expression. Here it is a literal, case-insensitive substring.
- Validation.CloseMatch: `difflib`'s similarity ratio is a parameter. The ranking follows `get_close_matches(n=1)`: the highest ratio wins, and ties go to the larger string.
- Validation.GetMetadataLists: the source enumerates a set, so the order is unspecified. Names are taken in row order, and among names that lower-case alike the later one wins.
- Case folding and whitespace: lower-casing is ASCII only. Whitespace is Python's `str.isspace` set.
- Pipeline.ChooseBackend: `os.path.isabs` is the POSIX rule, a leading "/".
- Pipeline.AnalyzeStream: dates are (year, month, day) triples, so the `tz_localize` step is left out, and so is the failure of `pd.to_datetime` on an unreadable Date column, which the program reports as a lone `error` event before any status. A raising tool body surfaces through the `exec` parameter.
- Benchmark.Grade: `fn_ok` is a regular-expression check, here an input (`Bench.fnMatch`). The composite is in whole hundredths rather than the rounded float.
- Benchmark.RowOf: a row records the corrected grade (`Benchmark.GradeAttempt`, the router's own answer), not the grade the program computes after the fallback (`Benchmark.GradeAsWritten`); see the second finding.
- Benchmark.RunBenchmark: the rows and sums use the corrected grade, as `Benchmark.RowOf` does; see the second finding. The warm-up attempts are run but leave no trace, because the model call is a function of the attempt number. The per-attempt times are left out.
- `backend/utils/tool_definitions.py` is not part of this model. It is schema data that nothing calls.

## Findings

| source | as written | input that shows it | evidently intended | confidence | as-written member | corrected member |
|---|---|---|---|---|---|---|
| backend/utils/analysis_tools.py:919 | the remark is read from `row['rema rks']`, a column that does not exist | any top row with a remark, e.g. remarks "Starbucks" | `row['remarks']`, so the line ends with " - Starbucks" | high; not executed | Analysis.TopMessageAsWritten (Analysis.RemarkBreaksTopListing) | Analysis.GetTopExpenses (Analysis.TopMessageNamesEveryRemark) |
| backend/benchmark_mlx.py:448-480 | `grade` receives `tool_name` after the fallback has overwritten it with `calculate_total` | a `calculate_total` question whose router call raises or answers an unknown word | the router's own answer is graded, so a failed router earns no router credit | medium; not executed | Benchmark.GradeAsWritten (Benchmark.FallbackCreditsFailedRouter) | Benchmark.GradeAttempt (Benchmark.RouterCreditNeedsRouterAnswer) |
