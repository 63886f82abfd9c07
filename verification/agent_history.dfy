/** The chat history the smolagents app streams for one request: the user's turn, a
    placeholder assistant turn that is rewritten as the agent's logs are read, and
    finally the answer, or, if the agent raised, an error turn. Each yielded history
    is recorded as one snapshot. */
module AgentHistory {
  import opened Base
  import opened Text
  import opened MediaPaths
  import opened FinalAnswer

  /** An item of list content: a text item or a media file. */
  datatype Part = TextPart(text: string) | MediaPart(path: string, mime: string)

  /** A history entry's content: a string, a single item, or a list of items. */
  datatype EntryContent = Plain(text: string) | Single(item: Part) | Parts(items: seq<Part>)

  datatype Entry = Entry(role: string, content: EntryContent)

  /** A log the agent leaves behind: a dictionary, where `None` marks an absent key and
      each present value is already rendered as text, or anything else. */
  datatype AgentLog =
    | DictLog(task: Option<string>, llmOutput: Option<string>, toolNames: Option<seq<Option<string>>>, rationale: Option<string>)
    | OtherLog

  /** What running the agent did: returned an output (the logs it left behind, and the
      output already rendered by `str`), or raised an exception with that message. */
  datatype RunOutcome = Completed(output: string, logs: seq<AgentLog>) | Raised(message: string)

  const PlaceholderText := AnalyzingText
  const ThinkingHeader := "\U{1F914} **Agent Thinking:**\n\n"
  const ResponseLead := "**Agent Response:**\n\n"
  const ErrorLead := "\U{274C} Error: "
  const ErrorTail := "\n\nPlease try rephrasing your request."
  const PngMimeType := "image/png"

  function UserEntry(message: string): Entry { Entry("user", Plain(message)) }
  function AssistantEntry(c: EntryContent): Entry { Entry("assistant", c) }

  /** `f"{key}{value}{after}"` when the key is present, nothing otherwise. */
  function Field(v: Option<string>, before: string, after: string): (r: string)
    ensures v.None? ==> r == ""
    ensures v.Some? ==> |r| >= |after|
  {
    if v.Some? then before + v.value + after else ""
  }

  /** The line one tool call adds: its name, or "unknown" when it has none. */
  function ToolLine(name: Option<string>): string {
    "**Tool:** `" + name.GetOr("unknown") + "`\n"
  }

  /** One "**Tool:** `name`" line per tool call, in call order. */
  function ToolLines(names: seq<Option<string>>): (r: string)
    ensures names == [] ==> r == ""
    ensures |names| == 1 ==> r == ToolLine(names[0])
  {
    if names == [] then ""
    else
      var r := ToolLine(names[0]) + ToolLines(names[1..]);
      if |names| == 1 then
        assert names[1..] == [];
        assert r == ToolLine(names[0]) + "";
        r
      else r
  }

  /** The tool lines of two call lists are the lines of the first, then of the second:
      together with the single-call case this makes one line per call, in order. */
  lemma {:induction false} ToolLinesAppend(a: seq<Option<string>>, b: seq<Option<string>>)
    ensures ToolLines(a + b) == ToolLines(a) + ToolLines(b)
  {
    if a == [] {
      assert a + b == b;
    } else {
      assert (a + b)[1..] == a[1..] + b;
      ToolLinesAppend(a[1..], b);
    }
  }

  /** The text one log adds to the thinking turn: task, thought, tools, rationale. A log
      adds nothing exactly when it is not a dictionary or has none of the four keys (or
      an empty tool-call list and no other key). */
  function LogPiece(log: AgentLog): (r: string)
    ensures log.OtherLog? ==> r == ""
    ensures r == "" <==> log.OtherLog? || (log.task.None? && log.llmOutput.None? && log.rationale.None?
                                           && (log.toolNames.None? || log.toolNames.value == []))
  {
    match log
    case OtherLog => ""
    case DictLog(task, out, tools, why) =>
      Field(task, "**Task:** ", "\n\n")
      + (Field(out, "**Thought:** ", "\n\n")
         + (if tools.Some? then ToolLines(tools.value) else "")
         + Field(why, "", "\n\n"))
  }

  /** A dictionary log's piece starts with its task line and ends with its rationale. */
  lemma LogPieceEnds(log: AgentLog)
    requires log.DictLog?
    ensures log.task.Some? ==> var t := TaskLine(log.task.value);
              |LogPiece(log)| >= |t| && LogPiece(log)[..|t|] == t
    ensures log.rationale.Some? ==> EndsWith(LogPiece(log), log.rationale.value + "\n\n")
  {
    var head := Field(log.task, "**Task:** ", "\n\n");
    var body := Field(log.llmOutput, "**Thought:** ", "\n\n") + (if log.toolNames.Some? then ToolLines(log.toolNames.value) else "");
    var tail := Field(log.rationale, "", "\n\n");
    assert LogPiece(log) == head + (body + tail);
    assert (head + (body + tail))[..|head|] == head;
    if log.rationale.Some? {
      assert tail == log.rationale.value + "\n\n";
      EndsWithAppended(body, tail);
      EndsWithPrepend(head, body + tail, tail);
    }
  }

  /** Text put in front keeps a suffix a suffix. */
  lemma EndsWithPrepend(a: string, s: string, t: string)
    requires EndsWith(s, t)
    ensures EndsWith(a + s, t)
  {
    assert (a + s)[|a + s| - |t|..] == s[|s| - |t|..];
  }

  /** The task line a log with a task starts with. */
  function TaskLine(task: string): string {
    "**Task:** " + task + "\n\n"
  }

  /** The pieces of the logs, in log order. */
  function Pieces(logs: seq<AgentLog>): string {
    if logs == [] then "" else LogPiece(logs[0]) + Pieces(logs[1..])
  }

  /** Reading one more log appends its piece. */
  lemma {:induction false} PiecesSnoc(logs: seq<AgentLog>, log: AgentLog)
    ensures Pieces(logs + [log]) == Pieces(logs) + LogPiece(log)
  {
    if logs == [] {
      assert [] + [log] == [log];
      assert [log][1..] == [];
    } else {
      assert (logs + [log])[1..] == logs[1..] + [log];
      PiecesSnoc(logs[1..], log);
    }
  }

  /** The thinking turn after reading `logs`, one log at a time: the header, then what
      each log adds, in log order. */
  function ThinkingText(logs: seq<AgentLog>): (r: string)
    ensures r == ThinkingHeader + Pieces(logs)
    ensures |r| >= |ThinkingHeader| && r[..|ThinkingHeader|] == ThinkingHeader
  {
    if logs == [] then ThinkingHeader
    else
      var init := logs[..|logs| - 1];
      var last := logs[|logs| - 1];
      var prev := ThinkingText(init);
      SplitLast(logs);
      PiecesSnoc(init, last);
      AppendAssoc(ThinkingHeader, Pieces(init), LogPiece(last));
      assert (prev + LogPiece(last))[..|ThinkingHeader|] == prev[..|ThinkingHeader|];
      prev + LogPiece(last)
  }

  /** The thinking text only grows: reading more logs appends to it. */
  lemma {:induction false} ThinkingGrows(logs: seq<AgentLog>, k: nat)
    requires k <= |logs|
    ensures var before := ThinkingText(logs[..k]);
            var after := ThinkingText(logs);
            |before| <= |after| && after[..|before|] == before
    decreases |logs| - k
  {
    if k < |logs| {
      var init := logs[..|logs| - 1];
      assert init[..k] == logs[..k];
      ThinkingGrows(init, k);
      var before := ThinkingText(logs[..k]);
      var mid := ThinkingText(init);
      assert ThinkingText(logs) == mid + LogPiece(logs[|logs| - 1]);
      assert (mid + LogPiece(logs[|logs| - 1]))[..|before|] == mid[..|before|];
    } else {
      assert logs[..k] == logs;
    }
  }

  /** Logs that are not dictionaries add nothing to the thinking text. */
  lemma {:induction false} OtherLogsAddNothing(logs: seq<AgentLog>)
    requires forall k :: 0 <= k < |logs| ==> logs[k].OtherLog?
    ensures ThinkingText(logs) == ThinkingHeader
  {
    if logs != [] {
      OtherLogsAddNothing(logs[..|logs| - 1]);
    }
  }

  /** The items a content shows. */
  function Items(c: EntryContent): seq<Part> {
    match c
    case Plain(t) => [TextPart(t)]
    case Single(x) => [x]
    case Parts(xs) => xs
  }

  /** A one-item list is unwrapped to its item; any other list, even an empty one, is kept. */
  function Wrap(items: seq<Part>): (r: EntryContent)
    ensures r.Single? <==> |items| == 1
    ensures !r.Plain?
  {
    if |items| == 1 then Single(items[0]) else Parts(items)
  }

  /** Unwrapping never loses or adds an item. */
  lemma WrapKeepsItems(items: seq<Part>)
    ensures Items(Wrap(items)) == items
  {
  }

  /** One media item per path, in order. */
  function MediaItems(paths: seq<string>): (r: seq<Part>)
    ensures |r| == |paths|
    ensures forall k :: 0 <= k < |r| ==> r[k] == MediaPart(paths[k], PngMimeType)
  {
    if paths == [] then [] else [MediaPart(paths[0], PngMimeType)] + MediaItems(paths[1..])
  }

  /** The final content of the assistant turn. Paths are all matches of the pattern,
      unfiltered; the text item (the whole output, unstripped, after the response lead) is
      included exactly when the output has more than the paths, and only paths whose file
      exists become media items. With no path at all the content is the text alone. */
  function FinalContent(output: string, fileExists: string -> bool): (r: EntryContent)
    ensures FindAll(output) == [] ==> r == Plain(ResponseLead + output)
    ensures FindAll(output) != [] ==>
              Items(r) == (if HasExtraText(output, FindAll(output)) then [TextPart(ResponseLead + output)] else [])
                          + MediaItems(Filter(FindAll(output), fileExists))
    ensures FindAll(output) != [] ==> r == Wrap(Items(r))
  {
    var paths := FindAll(output);
    if paths == [] then Plain(ResponseLead + output)
    else
      var text := if HasExtraText(output, paths) then [TextPart(ResponseLead + output)] else [];
      WrapKeepsItems(text + MediaItems(Filter(paths, fileExists)));
      Wrap(text + MediaItems(Filter(paths, fileExists)))
  }

  /** A path whose file is missing, alone in the output, leaves an empty item list. */
  lemma MissingFileLeavesEmptyList(p: string, fileExists: string -> bool)
    requires IsPngPath(p) && !fileExists(p)
    ensures FinalContent(p, fileExists) == Parts([])
  {
    assert Separates(" ") by {
      assert IsSpace(" "[0]);
    }
    assert Join(" ", [p]) == p;
    JoinedPathsRoundTrip("", " ", [p]);
    assert "" + p == p;
    assert Filter([p], fileExists) == Filter([], fileExists);
    assert !HasExtraText(p, [p]);
  }

  /** The error turn: the message between the error lead and the apology. */
  function ErrorText(message: string): (r: string)
    ensures |r| >= |ErrorLead| && r[..|ErrorLead|] == ErrorLead
    ensures EndsWith(r, ErrorTail)
  {
    EndsWithAppended(ErrorLead + message, ErrorTail);
    ErrorLead + message + ErrorTail
  }

  /** The thinking snapshots: one per log, each with the text read so far. */
  function ThinkingSnapshots(base: seq<Entry>, logs: seq<AgentLog>): (r: seq<seq<Entry>>)
    ensures |r| == |logs|
    ensures forall k :: 0 <= k < |r| ==> r[k] == base + [AssistantEntry(Plain(ThinkingText(logs[..k + 1])))]
  {
    seq(|logs|, k requires 0 <= k < |logs| => base + [AssistantEntry(Plain(ThinkingText(logs[..k + 1])))])
  }

  /** `snap` starts with `base`. */
  predicate Extends(snap: seq<Entry>, base: seq<Entry>) {
    |snap| >= |base| && snap[..|base|] == base
  }

  lemma ExtendsAppend(base: seq<Entry>, extra: seq<Entry>)
    ensures Extends(base + extra, base)
  {
    assert (base + extra)[..|base|] == base;
  }

  /** The snapshots after the placeholder when the run returns. */
  function CompletedSnapshots(withUser: seq<Entry>, output: string, logs: seq<AgentLog>, fileExists: string -> bool)
    : (r: seq<seq<Entry>>)
    ensures |r| == |logs| + 1
    ensures forall k :: 0 <= k < |r| ==> Extends(r[k], withUser)
    ensures r[|r| - 1] == withUser + [AssistantEntry(FinalContent(output, fileExists))]
    ensures r[..|logs|] == ThinkingSnapshots(withUser, logs)
  {
    var thinking := ThinkingSnapshots(withUser, logs);
    var done := withUser + [AssistantEntry(FinalContent(output, fileExists))];
    ExtendsAppend(withUser, [AssistantEntry(FinalContent(output, fileExists))]);
    forall k | 0 <= k < |thinking|
      ensures Extends(thinking[k], withUser)
    {
      ExtendsAppend(withUser, [AssistantEntry(Plain(ThinkingText(logs[..k + 1])))]);
    }
    assert (thinking + [done])[..|logs|] == thinking;
    thinking + [done]
  }

  /** The snapshots of a run that raised: user turn, placeholder, error turn. */
  function RaisedSnapshots(withUser: seq<Entry>, message: string): (r: seq<seq<Entry>>)
    ensures |r| == 3 && r[0] == withUser
    ensures r[1] == withUser + [AssistantEntry(Plain(PlaceholderText))]
    ensures r[2] == withUser + [AssistantEntry(Plain(PlaceholderText)), AssistantEntry(Plain(ErrorText(message)))]
    ensures forall k :: 0 <= k < |r| ==> Extends(r[k], withUser)
  {
    ExtendsAppend(withUser, []);
    assert withUser + [] == withUser;
    ExtendsAppend(withUser, [AssistantEntry(Plain(PlaceholderText))]);
    ExtendsAppend(withUser, [AssistantEntry(Plain(PlaceholderText)), AssistantEntry(Plain(ErrorText(message)))]);
    [withUser,
     withUser + [AssistantEntry(Plain(PlaceholderText))],
     withUser + [AssistantEntry(Plain(PlaceholderText)), AssistantEntry(Plain(ErrorText(message)))]]
  }

  /** The snapshots of a run that returned: user turn, placeholder, one per log, answer. */
  function ReturnedSnapshots(withUser: seq<Entry>, output: string, logs: seq<AgentLog>, fileExists: string -> bool)
    : (r: seq<seq<Entry>>)
    ensures |r| == 3 + |logs| && r[0] == withUser
    ensures r[1] == withUser + [AssistantEntry(Plain(PlaceholderText))]
    ensures r[|r| - 1] == withUser + [AssistantEntry(FinalContent(output, fileExists))]
    ensures r[2..|r| - 1] == ThinkingSnapshots(withUser, logs)
    ensures forall k :: 0 <= k < |r| ==> Extends(r[k], withUser)
  {
    ExtendsAppend(withUser, []);
    assert withUser + [] == withUser;
    ExtendsAppend(withUser, [AssistantEntry(Plain(PlaceholderText))]);
    var rest := CompletedSnapshots(withUser, output, logs, fileExists);
    var head := [withUser, withUser + [AssistantEntry(Plain(PlaceholderText))]];
    AfterTwo(head, rest);
    head + rest
  }

  /** Two snapshots and then `rest`: where each part sits in the whole. */
  lemma AfterTwo<T>(head: seq<T>, rest: seq<T>)
    requires |head| == 2 && |rest| >= 1
    ensures var r := head + rest;
            && |r| == |rest| + 2 && r[0] == head[0] && r[1] == head[1]
            && r[|r| - 1] == rest[|rest| - 1] && r[2..|r| - 1] == rest[..|rest| - 1]
            && forall k :: 2 <= k < |r| ==> r[k] == rest[k - 2]
  {
    var r := head + rest;
    assert r[2..|r| - 1] == rest[..|rest| - 1];
  }

  /** `stream_agent_response`: every history it yields, in order. The earlier entries
      are never touched: every snapshot starts with the given history followed by the
      user's turn. A run that returns yields the user turn, the placeholder, one snapshot
      per log and the answer; a run that raises yields the user turn, the placeholder and
      then the placeholder followed by exactly one error turn. */
  function StreamAgentResponse(history: seq<Entry>, userMessage: string, outcome: RunOutcome, fileExists: string -> bool)
    : (r: seq<seq<Entry>>)
    ensures outcome.Completed? ==> |r| == 3 + |outcome.logs|
    ensures outcome.Raised? ==> |r| == 3
    ensures forall k :: 0 <= k < |r| ==> Extends(r[k], history + [UserEntry(userMessage)])
    ensures r[0] == history + [UserEntry(userMessage)]
    ensures r[1] == history + [UserEntry(userMessage)] + [AssistantEntry(Plain(PlaceholderText))]
    ensures outcome.Completed? ==>
              r[|r| - 1] == history + [UserEntry(userMessage)] + [AssistantEntry(FinalContent(outcome.output, fileExists))]
    ensures outcome.Completed? ==>
              r[2..|r| - 1] == ThinkingSnapshots(history + [UserEntry(userMessage)], outcome.logs)
    ensures outcome.Raised? ==>
              r[2] == history + [UserEntry(userMessage)]
                      + [AssistantEntry(Plain(PlaceholderText)), AssistantEntry(Plain(ErrorText(outcome.message)))]
  {
    match outcome
    case Raised(msg) => RaisedSnapshots(history + [UserEntry(userMessage)], msg)
    case Completed(output, logs) => ReturnedSnapshots(history + [UserEntry(userMessage)], output, logs, fileExists)
  }

  /** The answer turn shows as media exactly the existing files among the matches. */
  lemma AnswerShowsExistingPaths(output: string, fileExists: string -> bool)
    requires FindAll(output) != []
    ensures var items := Items(FinalContent(output, fileExists));
            MediaPathsIn(items) == Filter(FindAll(output), fileExists)
  {
    var paths := FindAll(output);
    var text := if HasExtraText(output, paths) then [TextPart(ResponseLead + output)] else [];
    var media := MediaItems(Filter(paths, fileExists));
    MediaPathsInAppend(text, media);
    MediaPathsOfItems(Filter(paths, fileExists));
  }

  /** The paths of the media items, in order. */
  function MediaPathsIn(items: seq<Part>): seq<string> {
    if items == [] then []
    else (if items[0].MediaPart? then [items[0].path] else []) + MediaPathsIn(items[1..])
  }

  lemma {:induction false} MediaPathsInAppend(a: seq<Part>, b: seq<Part>)
    ensures MediaPathsIn(a + b) == MediaPathsIn(a) + MediaPathsIn(b)
  {
    if a == [] {
      assert a + b == b;
    } else {
      assert (a + b)[1..] == a[1..] + b;
      MediaPathsInAppend(a[1..], b);
    }
  }

  lemma {:induction false} MediaPathsOfItems(paths: seq<string>)
    ensures MediaPathsIn(MediaItems(paths)) == paths
  {
    if paths != [] {
      MediaPathsOfItems(paths[1..]);
      assert MediaItems(paths)[1..] == MediaItems(paths[1..]);
      assert paths == [paths[0]] + paths[1..];
    }
  }
}
