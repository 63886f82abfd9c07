/** The benchmark's scoring: which tool a piece of agent code calls (the first tool,
    in declaration order, one of whose name patterns occurs in the code), which
    parameters it sets (the first `name = value` of each known name), whether those
    match the expected ones, how a run is scored, and the per-category counters of a
    suite. Timing and the agent run itself are inputs. */
module Benchmark {
  import opened Base
  import opened Text

  // ---------------------------------------------------------------- tool detection

  /** `TOOL_PATTERNS`, in declaration order. */
  const ToolPatterns: seq<(string, seq<string>)> := [
    ("fal_image_generation", ["fal_image_generation", "FalImageGenerationTool", "image_generation"]),
    ("fal_video_generation", ["fal_video_generation", "FalVideoGenerationTool", "video_generation"]),
    ("fal_image_edit", ["fal_image_edit", "FalImageEditTool", "image_edit"])]

  /** Some pattern of the list occurs in `code`. */
  predicate AnyOccurs(code: string, patterns: seq<string>) {
    exists k :: 0 <= k < |patterns| && Contains(code, patterns[k])
  }

  /** The first entry of `table` with a pattern occurring in `code`. */
  function FirstTool(code: string, table: seq<(string, seq<string>)>): (r: Option<string>)
    ensures r.None? <==> forall k :: 0 <= k < |table| ==> !AnyOccurs(code, table[k].1)
    ensures r.Some? ==>
              exists k :: (0 <= k < |table| && table[k].0 == r.value && AnyOccurs(code, table[k].1)
                           && forall j :: 0 <= j < k ==> !AnyOccurs(code, table[j].1))
  {
    if table == [] then None
    else if AnyOccurs(code, table[0].1) then Some(table[0].0)
    else
      var r := FirstTool(code, table[1..]);
      assert forall k :: 1 <= k < |table| ==> table[k] == table[1..][k - 1];
      assert r.Some? ==>
               exists k :: (0 <= k < |table| && table[k].0 == r.value && AnyOccurs(code, table[k].1)
                            && forall j :: 0 <= j < k ==> !AnyOccurs(code, table[j].1)) by {
        if r.Some? {
          var k :| 0 <= k < |table[1..]| && table[1..][k].0 == r.value && AnyOccurs(code, table[1..][k].1)
                   && forall j :: 0 <= j < k ==> !AnyOccurs(code, table[1..][j].1);
          assert table[k + 1] == table[1..][k];
          forall j | 0 <= j < k + 1
            ensures !AnyOccurs(code, table[j].1)
          {
            if j > 0 {
              assert table[j] == table[1..][j - 1];
            }
          }
        }
      }
      r
  }

  /** `_extract_tool_from_code`: the canonical name of the first tool, in declaration
      order, having a pattern that occurs in the code; `None` when no pattern occurs. */
  function ExtractTool(code: string): (r: Option<string>)
    ensures r.Some? ==> r.value in {"fal_image_generation", "fal_video_generation", "fal_image_edit"}
    ensures r.None? <==> forall k :: 0 <= k < |ToolPatterns| ==> !AnyOccurs(code, ToolPatterns[k].1)
  {
    FirstTool(code, ToolPatterns)
  }

  /** Code that mentions image generation at all is scored as image generation, even
      when it also calls the video or edit tool. */
  lemma ImageGenerationWins(code: string)
    requires Contains(code, "image_generation")
    ensures ExtractTool(code) == Some("fal_image_generation")
  {
    assert ToolPatterns[0].1[2] == "image_generation";
    assert AnyOccurs(code, ToolPatterns[0].1);
  }

  // ---------------------------------------------------------------- parameter extraction

  /** An extracted parameter: an integer, or the word given as `mode`. */
  datatype Param = Num(n: nat) | Word(w: string)

  /** End of the run of characters satisfying `p` that starts at `i`. */
  function RunOf(s: string, i: nat, p: char -> bool): (j: nat)
    requires i <= |s|
    ensures i <= j <= |s|
    ensures forall k :: i <= k < j ==> p(s[k])
    ensures j == |s| || !p(s[j])
    decreases |s| - i
  {
    if i == |s| || !p(s[i]) then i else RunOf(s, i + 1, p)
  }

  predicate IsQuote(c: char) {
    c == '"' || c == '\''
  }

  /** Where the value of `name\s*=\s*` starts when that text occurs at `i`. */
  function ValueStart(s: string, name: string, i: nat): (r: Option<nat>)
    requires i <= |s|
    ensures r.Some? ==> OccursAt(s, name, i) && i + |name| < r.value <= |s|
  {
    if !OccursAt(s, name, i) then None
    else
      var a := RunOf(s, i + |name|, IsSpace);
      if a < |s| && s[a] == '=' then Some(RunOf(s, a + 1, IsSpace)) else None
  }

  /** The integer captured by `name\s*=\s*(\d+)` when a match starts at `i`; the
      digits run as far as they go. */
  function NumberAt(s: string, name: string, i: nat): (r: Option<nat>)
    requires i <= |s|
    ensures r.Some? ==> OccursAt(s, name, i)
  {
    match ValueStart(s, name, i)
    case None => None
    case Some(b) =>
      var e := RunOf(s, b, IsDigit);
      if e > b then Some(DigitsValue(s[b..e])) else None
  }

  /** The word captured by `mode\s*=\s*["'](\w+)["']` when a match starts at `i`: the
      word must run up to a quote of either kind. */
  function WordAt(s: string, i: nat): (r: Option<string>)
    requires i <= |s|
    ensures r.Some? ==> OccursAt(s, "mode", i) && r.value != [] && forall k :: 0 <= k < |r.value| ==> IsWordChar(r.value[k])
  {
    match ValueStart(s, "mode", i)
    case None => None
    case Some(b) =>
      if b < |s| && IsQuote(s[b]) then
        var e := RunOf(s, b + 1, IsWordChar);
        if b + 1 < e < |s| && IsQuote(s[e]) then Some(s[b + 1..e]) else None
      else None
  }

  /** Where `re.search(name + r'\s*=\s*(\d+)', code[i:])` matches: the leftmost position
      from `i` on with a match, or none when no position has one. */
  function FirstNumberMatch(s: string, name: string, i: nat): (r: Option<nat>)
    requires i <= |s|
    ensures r.None? ==> forall j :: i <= j <= |s| ==> NumberAt(s, name, j).None?
    ensures r.Some? ==> i <= r.value <= |s| && NumberAt(s, name, r.value).Some?
    ensures r.Some? ==> forall k :: i <= k < r.value ==> NumberAt(s, name, k).None?
    decreases |s| - i
  {
    if NumberAt(s, name, i).Some? then Some(i)
    else if i == |s| then None
    else FirstNumberMatch(s, name, i + 1)
  }

  /** `re.search(name + r'\s*=\s*(\d+)', code[i:])`, as the captured integer: the match at
      the leftmost position that has one. */
  function SearchNumberFrom(s: string, name: string, i: nat): (r: Option<nat>)
    requires i <= |s|
    ensures r.None? <==> forall j :: i <= j <= |s| ==> NumberAt(s, name, j).None?
    ensures r.Some? ==> exists j :: (i <= j <= |s| && NumberAt(s, name, j) == r
                                    && forall k :: i <= k < j ==> NumberAt(s, name, k).None?)
  {
    match FirstNumberMatch(s, name, i)
    case None => None
    case Some(j) => NumberAt(s, name, j)
  }

  /** Where the `mode` pattern first matches from `i` on. */
  function FirstWordMatch(s: string, i: nat): (r: Option<nat>)
    requires i <= |s|
    ensures r.None? ==> forall j :: i <= j <= |s| ==> WordAt(s, j).None?
    ensures r.Some? ==> i <= r.value <= |s| && WordAt(s, r.value).Some?
    ensures r.Some? ==> forall k :: i <= k < r.value ==> WordAt(s, k).None?
    decreases |s| - i
  {
    if WordAt(s, i).Some? then Some(i)
    else if i == |s| then None
    else FirstWordMatch(s, i + 1)
  }

  /** The same search for the `mode` pattern, as the captured word. */
  function SearchWordFrom(s: string, i: nat): (r: Option<string>)
    requires i <= |s|
    ensures r.None? <==> forall j :: i <= j <= |s| ==> WordAt(s, j).None?
    ensures r.Some? ==> exists j :: (i <= j <= |s| && WordAt(s, j) == r
                                    && forall k :: i <= k < j ==> WordAt(s, k).None?)
  {
    match FirstWordMatch(s, i)
    case None => None
    case Some(j) => WordAt(s, j)
  }

  /** The integer parameters the code sets, by name. */
  const NumberNames: set<string> := {"num_images", "width", "height", "duration"}

  /** `params` holds `name` exactly when its pattern matches in `code`, with the
      integer captured by the leftmost match. */
  predicate ReportsNumber(params: map<string, Param>, code: string, name: string) {
    && (name in params <==> SearchNumberFrom(code, name, 0).Some?)
    && (name in params ==> params[name] == Num(SearchNumberFrom(code, name, 0).value))
  }

  /** The same for the `mode` word. */
  predicate ReportsWord(params: map<string, Param>, code: string) {
    && ("mode" in params <==> SearchWordFrom(code, 0).Some?)
    && ("mode" in params ==> params["mode"] == Word(SearchWordFrom(code, 0).value))
  }

  /** `_extract_params_from_code`: each known name is present exactly when its pattern
      matches somewhere, with the value captured by the leftmost match; no other key
      is ever set. */
  function ExtractParams(code: string): (r: map<string, Param>)
    ensures r.Keys <= {"num_images", "width", "height", "duration", "mode"}
    ensures ReportsNumber(r, code, "num_images") && ReportsNumber(r, code, "width")
    ensures ReportsNumber(r, code, "height") && ReportsNumber(r, code, "duration")
    ensures ReportsWord(r, code)
  {
    assert |"num_images"| == 10 && |"width"| == 5 && |"height"| == 6 && |"duration"| == 8 && |"mode"| == 4;
    var p1 := SetNumber(map[], code, "num_images");
    var p2 := SetNumber(p1, code, "width");
    assert ReportsNumber(p2, code, "num_images");
    var p3 := SetNumber(p2, code, "height");
    assert ReportsNumber(p3, code, "num_images") && ReportsNumber(p3, code, "width");
    assert p3.Keys <= {"num_images", "width", "height"};
    var p4 := SetWord(p3, code);
    assert p4.Keys <= {"num_images", "width", "height", "mode"};
    assert ReportsNumber(p4, code, "num_images") && ReportsNumber(p4, code, "width") && ReportsNumber(p4, code, "height");
    SetNumber(p4, code, "duration")
  }

  /** Records the integer of `name` when its pattern matches; nothing else changes. */
  function SetNumber(params: map<string, Param>, code: string, name: string): (r: map<string, Param>)
    requires name !in params
    ensures params.Keys <= r.Keys <= params.Keys + {name}
    ensures forall k :: k in params ==> r[k] == params[k]
    ensures ReportsNumber(r, code, name)
  {
    match SearchNumberFrom(code, name, 0)
    case Some(n) => params[name := Num(n)]
    case None => params
  }

  /** Records the `mode` word when its pattern matches; nothing else changes. */
  function SetWord(params: map<string, Param>, code: string): (r: map<string, Param>)
    requires "mode" !in params
    ensures params.Keys <= r.Keys <= params.Keys + {"mode"}
    ensures forall k :: k in params ==> r[k] == params[k]
    ensures ReportsWord(r, code)
  {
    match SearchWordFrom(code, 0)
    case Some(w) => params["mode" := Word(w)]
    case None => params
  }

  /** Code without an '=' sets no parameter. */
  lemma NoAssignmentNoParams(code: string)
    requires '=' !in code
    ensures ExtractParams(code) == map[]
  {
    forall name, i | 0 <= i <= |code|
      ensures NumberAt(code, name, i).None? && WordAt(code, i).None?
    {
      NoEqualsNoValue(code, name, i);
      NoEqualsNoValue(code, "mode", i);
    }
    NoMatchNoParams(code);
  }

  /** Without an '=' no position starts a `name = value` match. */
  lemma NoEqualsNoValue(code: string, name: string, i: nat)
    requires '=' !in code && i <= |code|
    ensures ValueStart(code, name, i).None?
  {
    if OccursAt(code, name, i) {
      var a := RunOf(code, i + |name|, IsSpace);
      if a < |code| {
        assert code[a] in code;
      }
    }
  }

  /** When no pattern matches anywhere, no parameter is set. */
  lemma NoMatchNoParams(code: string)
    requires forall name, i :: 0 <= i <= |code| ==> NumberAt(code, name, i).None?
    requires forall i :: 0 <= i <= |code| ==> WordAt(code, i).None?
    ensures ExtractParams(code) == map[]
  {
    var r := ExtractParams(code);
    assert r.Keys == {};
  }

  // ---------------------------------------------------------------- parameter checking

  /** Every expected key is present in `actual` with an equal value. */
  predicate SubMap(expected: map<string, Param>, actual: map<string, Param>) {
    forall k :: k in expected ==> k in actual && actual[k] == expected[k]
  }

  /** `_check_params`: walks the expected keys and fails at the first one that is
      missing from `actual` or holds a different value. */
  method CheckParams(actual: map<string, Param>, expected: map<string, Param>) returns (ok: bool)
    ensures ok <==> SubMap(expected, actual)
  {
    var pending := expected.Keys;
    while pending != {}
      invariant pending <= expected.Keys
      invariant forall k :: k in expected && k !in pending ==> k in actual && actual[k] == expected[k]
      decreases |pending|
    {
      var key :| key in pending;
      if key !in actual || actual[key] != expected[key] {
        return false;
      }
      pending := pending - {key};
    }
    return true;
  }

  // ---------------------------------------------------------------- scoring a test

  /** A tool-selection test; an empty `expectedParams` stands for a missing one too. */
  datatype Test = Test(category: string, prompt: string, expectedTool: Option<string>,
                       expectedParams: map<string, Param>)

  /** What `_run_single` reports: the tool chosen, its parameters, and whether the run
      finished without raising. */
  datatype Run = Run(tool: Option<string>, params: map<string, Param>, completed: bool)

  /** The scored fields of a `BenchmarkResult`. */
  datatype Result = Result(category: string, expectedTool: Option<string>, actualTool: Option<string>,
                           toolCorrect: bool, paramsCorrect: bool, completed: bool)

  /** The tool check: with no expected tool the run must choose none, otherwise it must
      choose the expected one. */
  predicate ToolCorrect(expected: Option<string>, selected: Option<string>) {
    if expected.None? then selected.None? else selected == expected
  }

  /** Both branches of the tool check are one rule: the chosen tool equals the expected one. */
  lemma ToolCorrectIsEquality(expected: Option<string>, selected: Option<string>)
    ensures ToolCorrect(expected, selected) <==> selected == expected
  {
  }

  /** The parameter check: only when both the expected and the extracted parameters are
      non-empty are they compared; otherwise it passes. */
  predicate ParamsCorrect(expected: map<string, Param>, extracted: map<string, Param>) {
    if expected != map[] && extracted != map[] then SubMap(expected, extracted) else true
  }

  /** The result `run_tool_selection_tests` records for one test. */
  function Score(test: Test, run: Run): (r: Result)
    ensures r.category == test.category && r.actualTool == run.tool && r.completed == run.completed
    ensures r.toolCorrect <==> run.tool == test.expectedTool
    ensures test.expectedParams == map[] || run.params == map[] ==> r.paramsCorrect
    ensures test.expectedParams != map[] && run.params != map[] ==>
              (r.paramsCorrect <==> forall k :: k in test.expectedParams ==>
                                       k in run.params && run.params[k] == test.expectedParams[k])
  {
    Result(test.category, test.expectedTool, run.tool,
           ToolCorrect(test.expectedTool, run.tool),
           ParamsCorrect(test.expectedParams, run.params),
           run.completed)
  }

  /** A run that extracted no parameters passes the parameter check whatever was
      expected: it cannot be told apart from one that extracted the right ones. */
  lemma EmptyExtractionPasses(test: Test, tool: Option<string>, completed: bool, right: map<string, Param>)
    requires SubMap(test.expectedParams, right)
    ensures Score(test, Run(tool, map[], completed)).paramsCorrect
            == Score(test, Run(tool, right, completed)).paramsCorrect
  {
  }

  // ---------------------------------------------------------------- running one request

  /** A step's tool (truthy only when present and non-empty) and its parameters. */
  datatype StepTool = StepTool(tool: Option<string>, params: map<string, Param>)

  predicate Chosen(s: StepTool) {
    s.tool.Some? && s.tool.value != ""
  }

  /** The tool `_run_single` keeps over the steps seen: the first step with a truthy
      tool, with that step's parameters; later steps never replace it. */
  function KeepFirst(steps: seq<StepTool>): (r: (Option<string>, map<string, Param>))
    ensures r.0.None? <==> forall k :: 0 <= k < |steps| ==> !Chosen(steps[k])
    ensures r.0.None? ==> r.1 == map[]
    ensures r.0.Some? ==> exists k :: (0 <= k < |steps| && Chosen(steps[k]) && r == (steps[k].tool, steps[k].params)
                                      && forall j :: 0 <= j < k ==> !Chosen(steps[j]))
  {
    if steps == [] then (None, map[])
    else if Chosen(steps[0]) then (steps[0].tool, steps[0].params)
    else
      var r := KeepFirst(steps[1..]);
      assert forall k :: 1 <= k < |steps| ==> steps[k] == steps[1..][k - 1];
      assert r.0.Some? ==>
               exists k :: (0 <= k < |steps| && Chosen(steps[k]) && r == (steps[k].tool, steps[k].params)
                            && forall j :: 0 <= j < k ==> !Chosen(steps[j])) by {
        if r.0.Some? {
          var k :| 0 <= k < |steps[1..]| && Chosen(steps[1..][k]) && r == (steps[1..][k].tool, steps[1..][k].params)
                   && forall j :: 0 <= j < k ==> !Chosen(steps[1..][j]);
          assert steps[k + 1] == steps[1..][k];
          forall j | 0 <= j < k + 1
            ensures !Chosen(steps[j])
          {
            if j > 0 {
              assert steps[j] == steps[1..][j - 1];
            }
          }
        }
      }
      r
  }

  /** Steps after the first chosen tool change nothing. */
  lemma {:induction false} LaterStepsIgnored(a: seq<StepTool>, b: seq<StepTool>)
    requires KeepFirst(a).0.Some?
    ensures KeepFirst(a + b) == KeepFirst(a)
  {
    if !Chosen(a[0]) {
      assert (a + b)[1..] == a[1..] + b;
      LaterStepsIgnored(a[1..], b);
    }
  }

  /** `_run_single`: the kept tool and parameters of the steps the run produced, and
      whether it finished without raising. */
  function RunSingle(steps: seq<StepTool>, raised: bool): (r: Run)
    ensures r.completed <==> !raised
    ensures (r.tool, r.params) == KeepFirst(steps)
  {
    var kept := KeepFirst(steps);
    Run(kept.0, kept.1, !raised)
  }

  // ---------------------------------------------------------------- suite aggregation

  datatype Counts = Counts(total: nat, correct: nat, completed: nat)

  /** The categories of `results`. */
  function Categories(results: seq<Result>): (r: set<string>)
    ensures forall c :: c in r <==> exists i :: 0 <= i < |results| && results[i].category == c
  {
    if results == [] then {}
    else
      var front := results[..|results| - 1];
      var r := Categories(front) + {results[|results| - 1].category};
      assert forall i :: 0 <= i < |front| ==> front[i] == results[i];
      r
  }

  /** Counting one more result in its category. */
  function Bump(m: map<string, Counts>, x: Result): (r: map<string, Counts>)
    ensures r.Keys == m.Keys + {x.category}
    ensures forall c :: c in m && c != x.category ==> r[c] == m[c]
    ensures r[x.category].total == (if x.category in m then m[x.category].total else 0) + 1
    ensures r[x.category].correct == (if x.category in m then m[x.category].correct else 0) + (if x.toolCorrect then 1 else 0)
    ensures r[x.category].completed == (if x.category in m then m[x.category].completed else 0) + (if x.completed then 1 else 0)
  {
    var prior := if x.category in m then m[x.category] else Counts(0, 0, 0);
    m[x.category := Counts(prior.total + 1,
                           prior.correct + (if x.toolCorrect then 1 else 0),
                           prior.completed + (if x.completed then 1 else 0))]
  }

  predicate CorrectResult(x: Result) { x.toolCorrect }
  predicate CompletedResult(x: Result) { x.completed }

  /** The three things a category counter counts. */
  datatype Tally = AllRuns | CorrectRuns | CompletedRuns

  predicate Passes(x: Result, t: Tally) {
    match t
    case AllRuns => true
    case CorrectRuns => x.toolCorrect
    case CompletedRuns => x.completed
  }

  /** How many results of category `c` pass the tally `t`. */
  function CountIn(results: seq<Result>, c: string, t: Tally): nat
    decreases |results|
  {
    if results == [] then 0
    else
      var x := results[|results| - 1];
      CountIn(results[..|results| - 1], c, t) + (if x.category == c && Passes(x, t) then 1 else 0)
  }

  /** `_by_category`: one counter triple per category seen, counting its results, its
      correct tool choices and its completed runs. */
  function ByCategory(results: seq<Result>): (r: map<string, Counts>)
    ensures r.Keys == Categories(results)
    ensures forall c :: c in r ==> r[c].correct <= r[c].total && r[c].completed <= r[c].total && r[c].total >= 1
  {
    if results == [] then map[]
    else Bump(ByCategory(results[..|results| - 1]), results[|results| - 1])
  }

  /** Each category's counters are the number of its results, of its correct tool
      choices and of its completed runs; a category with no result has no entry. */
  lemma {:induction false} ByCategoryCounts(results: seq<Result>, c: string)
    ensures c in ByCategory(results) ==>
              ByCategory(results)[c] == Counts(CountIn(results, c, AllRuns), CountIn(results, c, CorrectRuns),
                                               CountIn(results, c, CompletedRuns))
    ensures c !in ByCategory(results) <==> CountIn(results, c, AllRuns) == 0
    decreases |results|
  {
    ByCategoryAbsent(results, c);
    if results != [] {
      var front := results[..|results| - 1];
      var x := results[|results| - 1];
      var m := ByCategory(front);
      ByCategoryCounts(front, c);
      CountStep(results, c);
      assert ByCategory(results) == Bump(m, x);
      if c in Bump(m, x) {
        BumpStep(m, x, c);
        if c !in m {
          CountBelowTotal(front, c, CorrectRuns);
          CountBelowTotal(front, c, CompletedRuns);
        }
      }
    }
  }

  /** A category has an entry exactly when some result belongs to it. */
  lemma {:induction false} ByCategoryAbsent(results: seq<Result>, c: string)
    ensures c !in ByCategory(results) <==> CountIn(results, c, AllRuns) == 0
    decreases |results|
  {
    if results != [] {
      var front := results[..|results| - 1];
      ByCategoryAbsent(front, c);
      CountStep(results, c);
      assert ByCategory(results) == Bump(ByCategory(front), results[|results| - 1]);
    }
  }

  /** A category has no more passing results than results. */
  lemma {:induction false} CountBelowTotal(results: seq<Result>, c: string, t: Tally)
    ensures CountIn(results, c, t) <= CountIn(results, c, AllRuns)
    decreases |results|
  {
    if results != [] {
      CountBelowTotal(results[..|results| - 1], c, t);
    }
  }

  /** The counts of a category after one more result. */
  lemma CountStep(results: seq<Result>, c: string)
    requires results != []
    ensures var front := results[..|results| - 1];
            var x := results[|results| - 1];
            && CountIn(results, c, AllRuns) == CountIn(front, c, AllRuns) + (if x.category == c then 1 else 0)
            && CountIn(results, c, CorrectRuns) == CountIn(front, c, CorrectRuns) + (if x.category == c && x.toolCorrect then 1 else 0)
            && CountIn(results, c, CompletedRuns) == CountIn(front, c, CompletedRuns) + (if x.category == c && x.completed then 1 else 0)
  {
  }

  /** One category's entry after counting one more result. */
  lemma BumpStep(m: map<string, Counts>, x: Result, c: string)
    ensures c in Bump(m, x) <==> c in m || c == x.category
    ensures c != x.category && c in m ==> Bump(m, x)[c] == m[c]
    ensures c == x.category ==>
              var prior := if c in m then m[c] else Counts(0, 0, 0);
              Bump(m, x)[c] == Counts(prior.total + 1, prior.correct + (if x.toolCorrect then 1 else 0),
                                      prior.completed + (if x.completed then 1 else 0))
  {
  }

  /** The sum of the totals of a counter map. */
  ghost function SumTotals(m: map<string, Counts>): nat
    decreases |m.Keys|
  {
    if m == map[] then 0
    else
      var c :| c in m;
      m[c].total + SumTotals(m - {c})
  }

  /** Any entry can be taken out of the sum first. */
  lemma {:induction false} SumTotalsRemove(m: map<string, Counts>, c: string)
    requires c in m
    ensures SumTotals(m) == m[c].total + SumTotals(m - {c})
    decreases |m.Keys|
  {
    var d :| d in m && SumTotals(m) == m[d].total + SumTotals(m - {d});
    if d != c {
      SumTotalsRemove(m - {d}, c);
      SumTotalsRemove(m - {c}, d);
      assert (m - {d}) - {c} == (m - {c}) - {d};
    }
  }

  /** Counting one more result raises the sum of the totals by one. */
  lemma SumTotalsBump(m: map<string, Counts>, x: Result)
    ensures SumTotals(Bump(m, x)) == SumTotals(m) + 1
  {
    var c := x.category;
    SumTotalsRemove(Bump(m, x), c);
    assert Bump(m, x) - {c} == m - {c};
    if c in m {
      SumTotalsRemove(m, c);
    } else {
      assert m - {c} == m;
    }
  }

  /** The category totals add up to the number of results. */
  lemma {:induction false} TotalsSumToResults(results: seq<Result>)
    ensures SumTotals(ByCategory(results)) == |results|
    decreases |results|
  {
    if results != [] {
      TotalsSumToResults(results[..|results| - 1]);
      SumTotalsBump(ByCategory(results[..|results| - 1]), results[|results| - 1]);
    }
  }

  /** The integer part of `summary`: nothing for an empty suite; otherwise the number
      of results, the counts behind the success rate and the tool accuracy, and the
      per-category counters. */
  datatype Summary = NoResults | Summary(totalTests: nat, completedCount: nat, toolCorrectCount: nat,
                                         byCategory: map<string, Counts>)

  function Summarize(results: seq<Result>): (r: Summary)
    ensures r.NoResults? <==> results == []
    ensures r.Summary? ==> r.totalTests == |results| && r.completedCount <= |results| && r.toolCorrectCount <= |results|
    ensures r.Summary? ==> r.completedCount == |Filter(results, CompletedResult)|
    ensures r.Summary? ==> r.toolCorrectCount == |Filter(results, CorrectResult)|
    ensures r.Summary? ==> r.byCategory == ByCategory(results)
  {
    if results == [] then NoResults
    else
      Summary(|results|,
              |Filter(results, CompletedResult)|,
              |Filter(results, CorrectResult)|,
              ByCategory(results))
  }
}
