/** One agent step log turned into chat messages (`pull_message_from_step`).

    A step log is a dictionary; each of its keys is rendered only when its value is
    truthy, always in the same order: the task, the rationale, the raw model output,
    one message per tool call, the observation, the error. A key that is absent and a
    key holding an empty value are the same here (`None` and `Some("")` are both falsy). */
module StepRender {
  import opened Base
  import opened Text
  import opened Chat

  /** One entry of the log's "tool_calls" list; `arguments` is the text Python prints for
      the arguments value, absent when the key is missing (then `{}` is printed). */
  datatype ToolCall = ToolCall(name: Option<string>, arguments: Option<string>)

  datatype StepLog = StepLog(
    task: Option<string>,
    rationale: Option<string>,
    llmOutput: Option<string>,
    toolCalls: Option<seq<ToolCall>>,
    observation: Option<string>,
    error: Option<string>)

  /** Python truthiness of an optional string value. */
  predicate Truthy(v: Option<string>) {
    v.Some? && v.value != ""
  }

  /** The tool calls the step holds (none when the key is absent). */
  function Calls(step: StepLog): seq<ToolCall> {
    if step.toolCalls.Some? then step.toolCalls.value else []
  }

  const TaskTitle := "\U{1F4CB} Task"
  const ThinkingTitle := "\U{1F4AD} Thinking"
  const ToolTitlePrefix := "\U{1F6E0}\U{FE0F} Using tool: "
  const ObservationTitle := "\U{1F441}\U{FE0F} Observation"
  const ErrorTitle := "\U{1F4A5} Error"

  /** The name shown for a tool call: its "name", or "unknown" when that key is missing. */
  function ToolName(c: ToolCall): string {
    c.name.GetOr("unknown")
  }

  function ToolMessage(c: ToolCall): Message {
    Say(Some(ToolTitlePrefix + ToolName(c)), Text("```json\n" + c.arguments.GetOr("{}") + "\n```"))
  }

  function ToolMessages(calls: seq<ToolCall>): (r: seq<Message>)
    ensures |r| == |calls|
    ensures forall i :: 0 <= i < |calls| ==> r[i] == ToolMessage(calls[i])
    ensures AssistantText(r)
  {
    if calls == [] then [] else [ToolMessage(calls[0])] + ToolMessages(calls[1..])
  }

  /** The part of a step log a rendered message comes from, recognised by its title. */
  datatype Section = TaskPart | RationalePart | OutputPart | ToolPart | ObservationPart | ErrorPart | Unrecognised

  function SectionOf(m: Message): Section {
    SectionOfTitle(m.title)
  }

  function SectionOfTitle(title: Option<string>): Section {
    match title
    case None => OutputPart
    case Some(t) =>
      if t == TaskTitle then TaskPart
      else if t == ThinkingTitle then RationalePart
      else if t == ObservationTitle then ObservationPart
      else if t == ErrorTitle then ErrorPart
      else if |ToolTitlePrefix| <= |t| && t[..|ToolTitlePrefix|] == ToolTitlePrefix then ToolPart
      else Unrecognised
  }

  /** The fixed display order of the sections. */
  function Rank(s: Section): nat {
    match s
    case TaskPart => 0
    case RationalePart => 1
    case OutputPart => 2
    case ToolPart => 3
    case ObservationPart => 4
    case ErrorPart => 5
    case Unrecognised => 6
  }

  /** Whether the step log asks for the given section to be shown. */
  predicate Requested(step: StepLog, s: Section) {
    match s
    case TaskPart => Truthy(step.task)
    case RationalePart => Truthy(step.rationale)
    case OutputPart => Truthy(step.llmOutput)
    case ToolPart => |Calls(step)| > 0
    case ObservationPart => Truthy(step.observation)
    case ErrorPart => Truthy(step.error)
    case Unrecognised => false
  }

  predicate InSectionOrder(ms: seq<Message>) {
    forall i, j :: 0 <= i < j < |ms| ==> Rank(SectionOf(ms[i])) <= Rank(SectionOf(ms[j]))
  }

  predicate HasSection(ms: seq<Message>, s: Section) {
    exists i :: 0 <= i < |ms| && SectionOf(ms[i]) == s
  }

  /** Every message of `ms` belongs to section `s`. */
  predicate AllIn(ms: seq<Message>, s: Section) {
    forall i :: 0 <= i < |ms| ==> SectionOf(ms[i]) == s
  }

  /** The message for one optional field: shown only when the value is truthy. */
  function FieldPart(v: Option<string>, title: Option<string>, before: string, after: string): (r: seq<Message>)
    ensures AllIn(r, SectionOfTitle(title))
    ensures |r| == Count(Truthy(v))
    ensures AssistantText(r)
  {
    if Truthy(v) then [Say(title, Text(before + v.value + after))] else []
  }

  function Count(b: bool): nat {
    if b then 1 else 0
  }

  function TaskPartOf(step: StepLog): seq<Message> { FieldPart(step.task, Some(TaskTitle), "", "") }
  function RationalePartOf(step: StepLog): seq<Message> { FieldPart(step.rationale, Some(ThinkingTitle), "", "") }
  function OutputPartOf(step: StepLog): seq<Message> { FieldPart(step.llmOutput, None, "", "") }
  function ObservationPartOf(step: StepLog): seq<Message> {
    FieldPart(step.observation, Some(ObservationTitle), "```\n", "\n```")
  }
  function ErrorPartOf(step: StepLog): seq<Message> { FieldPart(step.error, Some(ErrorTitle), "", "") }

  /** The six parts in display order, concatenated. */
  function Rendered(step: StepLog): seq<Message> {
    TaskPartOf(step) + RationalePartOf(step) + OutputPartOf(step)
      + ToolMessages(Calls(step)) + ObservationPartOf(step) + ErrorPartOf(step)
  }

  /** Messages before the first tool message. */
  function ToolOffset(step: StepLog): nat {
    Count(Truthy(step.task)) + Count(Truthy(step.rationale)) + Count(Truthy(step.llmOutput))
  }

  /** `list(pull_message_from_step(step))`: one message per truthy field and one per
      tool call, in the fixed section order; a section shows up exactly when the log
      asks for it; the k-th tool message is titled with the k-th call's name, or
      "unknown" when the call has none. */
  function PullMessages(step: StepLog): (r: seq<Message>)
    ensures |r| == ToolOffset(step) + |Calls(step)| + Count(Truthy(step.observation)) + Count(Truthy(step.error))
    ensures InSectionOrder(r)
    ensures forall s :: HasSection(r, s) <==> Requested(step, s)
    ensures forall i :: 0 <= i < |r| ==> r[i].role == "assistant" && r[i].content.Text?
    ensures forall k :: 0 <= k < |Calls(step)| ==>
      r[ToolOffset(step) + k].title
        == Some(ToolTitlePrefix + (if Calls(step)[k].name.None? then "unknown" else Calls(step)[k].name.value))
    ensures forall k :: 0 <= k < |Calls(step)| ==>
      r[ToolOffset(step) + k].content == Text("```json\n" + Calls(step)[k].arguments.GetOr("{}") + "\n```")
    ensures Truthy(step.task) ==> r[0] == Say(Some(TaskTitle), Text(step.task.value))
    ensures Truthy(step.rationale) ==>
      r[Count(Truthy(step.task))] == Say(Some(ThinkingTitle), Text(step.rationale.value))
    ensures Truthy(step.llmOutput) ==>
      r[Count(Truthy(step.task)) + Count(Truthy(step.rationale))] == Say(None, Text(step.llmOutput.value))
    ensures Truthy(step.observation) ==>
      r[ToolOffset(step) + |Calls(step)|] == Say(Some(ObservationTitle), Text("```\n" + step.observation.value + "\n```"))
    ensures Truthy(step.error) ==> r[|r| - 1] == Say(Some(ErrorTitle), Text(step.error.value))
  {
    PartsInOrder(step);
    PartsShowRequested(step);
    PartsShape(step);
    FieldsShown(step);
    Rendered(step)
  }

  /** Each truthy field's message sits at its place and carries the field's value: the
      task, rationale, output and error as they are, the observation in a code fence. */
  lemma FieldsShown(step: StepLog)
    ensures Truthy(step.task) ==> Rendered(step)[0] == Say(Some(TaskTitle), Text(step.task.value))
    ensures Truthy(step.rationale) ==>
      Rendered(step)[Count(Truthy(step.task))] == Say(Some(ThinkingTitle), Text(step.rationale.value))
    ensures Truthy(step.llmOutput) ==>
      Rendered(step)[Count(Truthy(step.task)) + Count(Truthy(step.rationale))] == Say(None, Text(step.llmOutput.value))
    ensures Truthy(step.observation) ==>
      Rendered(step)[ToolOffset(step) + |Calls(step)|]
        == Say(Some(ObservationTitle), Text("```\n" + step.observation.value + "\n```"))
    ensures Truthy(step.error) ==>
      Rendered(step)[|Rendered(step)| - 1] == Say(Some(ErrorTitle), Text(step.error.value))
  {
    var head := TaskPartOf(step) + RationalePartOf(step) + OutputPartOf(step);
    var tail := ObservationPartOf(step) + ErrorPartOf(step);
    var t := ToolMessages(Calls(step));
    assert Rendered(step) == head + t + tail;
    FrontFields(step, head, t + tail);
    BackFields(step, head + t, tail);
  }

  /** The task, rationale and output messages open the rendering. */
  lemma FrontFields(step: StepLog, head: seq<Message>, rest: seq<Message>)
    requires head == TaskPartOf(step) + RationalePartOf(step) + OutputPartOf(step)
    ensures Truthy(step.task) ==> (head + rest)[0] == Say(Some(TaskTitle), Text(step.task.value))
    ensures Truthy(step.rationale) ==>
      (head + rest)[Count(Truthy(step.task))] == Say(Some(ThinkingTitle), Text(step.rationale.value))
    ensures Truthy(step.llmOutput) ==>
      (head + rest)[Count(Truthy(step.task)) + Count(Truthy(step.rationale))] == Say(None, Text(step.llmOutput.value))
  {
    var a, b, c := TaskPartOf(step), RationalePartOf(step), OutputPartOf(step);
    if Truthy(step.task) {
      assert "" + step.task.value + "" == step.task.value;
      assert (head + rest)[0] == a[0];
    }
    if Truthy(step.rationale) {
      assert "" + step.rationale.value + "" == step.rationale.value;
      assert (head + rest)[|a|] == b[0];
    }
    if Truthy(step.llmOutput) {
      assert "" + step.llmOutput.value + "" == step.llmOutput.value;
      assert (head + rest)[|a| + |b|] == c[0];
    }
  }

  /** The fenced observation and then the error close the rendering. */
  lemma BackFields(step: StepLog, front: seq<Message>, tail: seq<Message>)
    requires |front| == ToolOffset(step) + |Calls(step)|
    requires tail == ObservationPartOf(step) + ErrorPartOf(step)
    ensures Truthy(step.observation) ==>
      (front + tail)[ToolOffset(step) + |Calls(step)|]
        == Say(Some(ObservationTitle), Text("```\n" + step.observation.value + "\n```"))
    ensures Truthy(step.error) ==>
      (front + tail)[|front + tail| - 1] == Say(Some(ErrorTitle), Text(step.error.value))
  {
    if Truthy(step.observation) {
      assert (front + tail)[|front|] == ObservationPartOf(step)[0];
    }
    if Truthy(step.error) {
      assert "" + step.error.value + "" == step.error.value;
      assert (front + tail)[|front + tail| - 1] == ErrorPartOf(step)[0];
    }
  }

  /** Length, roles and tool titles of the rendered parts. */
  lemma PartsShape(step: StepLog)
    ensures |Rendered(step)| == ToolOffset(step) + |Calls(step)| + Count(Truthy(step.observation)) + Count(Truthy(step.error))
    ensures AssistantText(Rendered(step))
    ensures forall k :: 0 <= k < |Calls(step)| ==>
      Rendered(step)[ToolOffset(step) + k] == ToolMessage(Calls(step)[k])
  {
    var a, b, c := TaskPartOf(step), RationalePartOf(step), OutputPartOf(step);
    var t := ToolMessages(Calls(step));
    var d, e := ObservationPartOf(step), ErrorPartOf(step);
    AssistantTextAppend(a, b);
    AssistantTextAppend(a + b, c);
    AssistantTextAppend(a + b + c, t);
    AssistantTextAppend(a + b + c + t, d);
    AssistantTextAppend(a + b + c + t + d, e);
    assert ToolOffset(step) == |a + b + c|;
    forall k | 0 <= k < |Calls(step)|
      ensures Rendered(step)[ToolOffset(step) + k] == ToolMessage(Calls(step)[k])
    {
      IndexOfMiddle(a + b + c, t, d, e, k);
    }
  }

  /** Every message is an assistant message carrying text. */
  predicate AssistantText(ms: seq<Message>) {
    forall i :: 0 <= i < |ms| ==> ms[i].role == "assistant" && ms[i].content.Text?
  }

  lemma AssistantTextAppend(a: seq<Message>, b: seq<Message>)
    requires AssistantText(a) && AssistantText(b)
    ensures AssistantText(a + b)
  {
    forall i | 0 <= i < |a + b|
      ensures (a + b)[i].role == "assistant" && (a + b)[i].content.Text?
    {
      if i >= |a| {
        assert (a + b)[i] == b[i - |a|];
      }
    }
  }

  /** Indexing past the first part lands in the second one. */
  lemma IndexOfMiddle<T>(x: seq<T>, t: seq<T>, d: seq<T>, e: seq<T>, k: nat)
    requires k < |t|
    ensures (x + t + d + e)[|x| + k] == t[k]
  {
    assert (x + t + d + e)[|x| + k] == (x + t)[|x| + k];
  }

  lemma ToolPartUniform(step: StepLog)
    ensures AllIn(ToolMessages(Calls(step)), ToolPart)
  {
    var t := ToolMessages(Calls(step));
    forall k | 0 <= k < |t|
      ensures SectionOf(t[k]) == ToolPart
    {
      ToolTitleSection(ToolName(Calls(step)[k]));
    }
  }

  /** The rendered parts, concatenated, are in section order. */
  lemma PartsInOrder(step: StepLog)
    ensures InSectionOrder(Rendered(step))
  {
    var a, b, c := TaskPartOf(step), RationalePartOf(step), OutputPartOf(step);
    var t := ToolMessages(Calls(step));
    var d, e := ObservationPartOf(step), ErrorPartOf(step);
    ToolPartUniform(step);
    Uniform(a, TaskPart);
    Uniform(b, RationalePart);
    Uniform(c, OutputPart);
    Uniform(t, ToolPart);
    Uniform(d, ObservationPart);
    Uniform(e, ErrorPart);
    Ordered(a, b, 1);
    Ordered(a + b, c, 2);
    Ordered(a + b + c, t, 3);
    Ordered(a + b + c + t, d, 4);
    Ordered(a + b + c + t + d, e, 5);
  }

  /** A section is present in the rendered parts exactly when the log requests it. */
  lemma PartsShowRequested(step: StepLog)
    ensures forall s :: HasSection(Rendered(step), s) <==> Requested(step, s)
  {
    var a, b, c := TaskPartOf(step), RationalePartOf(step), OutputPartOf(step);
    var t := ToolMessages(Calls(step));
    var d, e := ObservationPartOf(step), ErrorPartOf(step);
    ToolPartUniform(step);
    Uniform(a, TaskPart);
    Uniform(b, RationalePart);
    Uniform(c, OutputPart);
    Uniform(t, ToolPart);
    Uniform(d, ObservationPart);
    Uniform(e, ErrorPart);
    forall s
      ensures HasSection(a + b + c + t + d + e, s) <==> Requested(step, s)
    {
      HasSectionAppend(a, b, s);
      HasSectionAppend(a + b, c, s);
      HasSectionAppend(a + b + c, t, s);
      HasSectionAppend(a + b + c + t, d, s);
      HasSectionAppend(a + b + c + t + d, e, s);
    }
  }

  /** A tool title is recognised as such, whatever the tool's name. */
  lemma ToolTitleSection(name: string)
    ensures SectionOf(Say(Some(ToolTitlePrefix + name), Text(""))) == ToolPart
  {
    var t := ToolTitlePrefix + name;
    assert t[0] == '\U{1F6E0}';
    assert t[..|ToolTitlePrefix|] == ToolTitlePrefix;
  }

  /** A part all of whose messages share one section is in order and shows only that section. */
  lemma Uniform(ms: seq<Message>, s: Section)
    requires AllIn(ms, s)
    ensures InSectionOrder(ms)
    ensures forall i :: 0 <= i < |ms| ==> Rank(SectionOf(ms[i])) == Rank(s)
    ensures forall s' :: HasSection(ms, s') <==> (ms != [] && s' == s)
  {
    forall s' | ms != [] && s' == s
      ensures HasSection(ms, s')
    {
      assert SectionOf(ms[0]) == s;
    }
  }

  lemma HasSectionAppend(a: seq<Message>, b: seq<Message>, s: Section)
    ensures HasSection(a + b, s) <==> HasSection(a, s) || HasSection(b, s)
  {
    if HasSection(a, s) {
      var i :| 0 <= i < |a| && SectionOf(a[i]) == s;
      assert (a + b)[i] == a[i];
    }
    if HasSection(b, s) {
      var i :| 0 <= i < |b| && SectionOf(b[i]) == s;
      assert (a + b)[|a| + i] == b[i];
    }
  }

  /** Appending a later part keeps the order, when every rank of the first part is at
      most every rank of the second. */
  lemma Ordered(a: seq<Message>, b: seq<Message>, pivot: nat)
    requires InSectionOrder(a) && InSectionOrder(b)
    requires forall i :: 0 <= i < |a| ==> Rank(SectionOf(a[i])) < pivot
    requires forall j :: 0 <= j < |b| ==> Rank(SectionOf(b[j])) == pivot
    ensures InSectionOrder(a + b)
    ensures forall i :: 0 <= i < |a + b| ==> Rank(SectionOf((a + b)[i])) <= pivot
  {
    forall i, j | 0 <= i < j < |a + b|
      ensures Rank(SectionOf((a + b)[i])) <= Rank(SectionOf((a + b)[j]))
    {
      if j < |a| {
      } else if i >= |a| {
        assert (a + b)[i] == b[i - |a|];
        assert (a + b)[j] == b[j - |a|];
      } else {
        assert (a + b)[j] == b[j - |a|];
      }
    }
  }
}
