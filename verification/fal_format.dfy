/** The fal.ai language-model adapter's request shaping: a cleaned message list becomes
    one prompt (user and assistant turns, rendered "User: ..." / "Assistant: ..." and
    separated by blank lines) and an optional system prompt (every system text, one per
    line); those and the call's keyword arguments then form the request map. */
module FalFormat {
  import opened Base
  import opened Text

  /** An element of list-valued content: a dictionary with optional "type" and "text"
      entries, or anything else. */
  datatype ContentItem = DictItem(kind: Option<string>, text: Option<string>) | NonDictItem

  /** Message content: a list of items, or any other value given by its `str()` rendering. */
  datatype Content = Items(items: seq<ContentItem>) | Scalar(rendered: string)

  /** A cleaned message. */
  datatype Msg = Msg(role: string, content: Content)

  /** The values that appear in a request map; `Nil` is Python's `None`. */
  datatype Value = Str(s: string) | Int(i: int) | Real(x: real) | Nil | Other(rendered: string)

  /** An item `item.get("type") == "text"` keeps: a dictionary typed "text". */
  predicate IsTextItem(item: ContentItem) {
    item.DictItem? && item.kind == Some("text")
  }

  /** `item.get("text", "")` for a dictionary item. */
  function ItemText(item: ContentItem): string {
    if item.DictItem? then item.text.GetOr("") else ""
  }

  /** The texts of the items typed "text", in order; a missing "text" entry reads as "".
      Exactly the text items contribute, one part each. */
  function TextParts(items: seq<ContentItem>): (r: seq<string>)
    ensures |r| == |Filter(items, IsTextItem)|
    ensures forall k :: 0 <= k < |r| ==> r[k] == ItemText(Filter(items, IsTextItem)[k])
  {
    var kept := Filter(items, IsTextItem);
    seq(|kept|, k requires 0 <= k < |kept| => ItemText(kept[k]))
  }

  /** Every text item's text is a part, and every part is some text item's text. */
  lemma TextPartsExactly(items: seq<ContentItem>)
    ensures forall k :: 0 <= k < |items| && IsTextItem(items[k]) ==> ItemText(items[k]) in TextParts(items)
    ensures forall t :: t in TextParts(items) ==>
              exists k :: 0 <= k < |items| && IsTextItem(items[k]) && ItemText(items[k]) == t
  {
    var kept := Filter(items, IsTextItem);
    var r := TextParts(items);
    FilterCounts(items, IsTextItem);
    forall k | 0 <= k < |items| && IsTextItem(items[k])
      ensures ItemText(items[k]) in r
    {
      assert multiset(items)[items[k]] > 0;
      assert items[k] in kept;
      var i :| 0 <= i < |kept| && kept[i] == items[k];
      assert r[i] == ItemText(items[k]);
    }
    forall t | t in r
      ensures exists k :: 0 <= k < |items| && IsTextItem(items[k]) && ItemText(items[k]) == t
    {
      var i :| 0 <= i < |r| && r[i] == t;
      assert kept[i] in items && IsTextItem(kept[i]);
      var k :| 0 <= k < |items| && items[k] == kept[i];
    }
  }

  /** The text of one message: list content as its text parts joined by newlines, any
      other content as its rendering. List content without text items reads as "". */
  function ContentText(c: Content): (r: string)
    ensures c.Scalar? ==> r == c.rendered
    ensures c.Items? ==> r == Join("\n", TextParts(c.items))
    ensures c.Items? && Filter(c.items, IsTextItem) == [] ==> r == ""
  {
    match c
    case Items(items) => Join("\n", TextParts(items))
    case Scalar(s) => s
  }

  /** The texts of the system messages, in order. */
  function SystemTexts(msgs: seq<Msg>): seq<string> {
    if msgs == [] then []
    else
      var last := msgs[|msgs| - 1];
      SystemTexts(msgs[..|msgs| - 1]) + (if last.role == "system" then [ContentText(last.content)] else [])
  }

  /** The renderings of the user and assistant messages, in order. */
  function Renderings(msgs: seq<Msg>): seq<string> {
    if msgs == [] then []
    else
      var last := msgs[|msgs| - 1];
      var t := ContentText(last.content);
      Renderings(msgs[..|msgs| - 1])
        + (if last.role == "user" then ["User: " + t] else if last.role == "assistant" then ["Assistant: " + t] else [])
  }

  /** `_convert_messages_to_fal_format` on an already-cleaned list. The system prompt is
      absent exactly when there is no system message, and otherwise holds every system
      text in order, one per line; the prompt holds the user and assistant renderings in
      order, separated by blank lines. */
  method ConvertMessages(msgs: seq<Msg>) returns (prompt: string, systemPrompt: Option<string>)
    ensures systemPrompt.None? <==> SystemTexts(msgs) == []
    ensures systemPrompt.Some? ==> systemPrompt.value == Join("\n", SystemTexts(msgs))
    ensures prompt == Join("\n\n", Renderings(msgs))
  {
    systemPrompt := None;
    var userMessages: seq<string> := [];
    for i := 0 to |msgs|
      invariant userMessages == Renderings(msgs[..i])
      invariant systemPrompt.None? <==> SystemTexts(msgs[..i]) == []
      invariant systemPrompt.Some? ==> systemPrompt.value == Join("\n", SystemTexts(msgs[..i]))
    {
      var role := msgs[i].role;
      var text := ContentText(msgs[i].content);
      assert msgs[..i + 1][..i] == msgs[..i];
      assert SystemTexts(msgs[..i + 1]) == SystemTexts(msgs[..i]) + (if role == "system" then [text] else []);
      if role != "system" {
        assert SystemTexts(msgs[..i + 1]) == SystemTexts(msgs[..i]);
      }
      if role == "system" {
        if systemPrompt.None? {
          assert SystemTexts(msgs[..i + 1]) == [text];
          systemPrompt := Some(text);
        } else {
          JoinSnoc("\n", SystemTexts(msgs[..i]), text);
          systemPrompt := Some(systemPrompt.value + "\n" + text);
        }
      } else if role == "user" {
        userMessages := userMessages + ["User: " + text];
      } else if role == "assistant" {
        userMessages := userMessages + ["Assistant: " + text];
      }
    }
    assert msgs[..|msgs|] == msgs;
    prompt := Join("\n\n", userMessages);
  }

  lemma {:induction false} SystemTextsAppend(a: seq<Msg>, b: seq<Msg>)
    ensures SystemTexts(a + b) == SystemTexts(a) + SystemTexts(b)
    decreases |b|
  {
    if b == [] {
      assert a + b == a;
    } else {
      var b' := b[..|b| - 1];
      assert (a + b)[..|a + b| - 1] == a + b';
      assert (a + b)[|a + b| - 1] == b[|b| - 1];
      SystemTextsAppend(a, b');
    }
  }

  lemma {:induction false} RenderingsAppend(a: seq<Msg>, b: seq<Msg>)
    ensures Renderings(a + b) == Renderings(a) + Renderings(b)
    decreases |b|
  {
    if b == [] {
      assert a + b == a;
    } else {
      var b' := b[..|b| - 1];
      assert (a + b)[..|a + b| - 1] == a + b';
      assert (a + b)[|a + b| - 1] == b[|b| - 1];
      RenderingsAppend(a, b');
    }
  }

  /** A message whose role is none of system, user and assistant shows up in neither
      output, wherever it sits. */
  lemma OtherRoleIgnored(a: seq<Msg>, m: Msg, b: seq<Msg>)
    requires m.role != "system" && m.role != "user" && m.role != "assistant"
    ensures SystemTexts(a + [m] + b) == SystemTexts(a + b)
    ensures Renderings(a + [m] + b) == Renderings(a + b)
  {
    SystemTextsAppend(a + [m], b);
    SystemTextsAppend(a, [m]);
    SystemTextsAppend(a, b);
    RenderingsAppend(a + [m], b);
    RenderingsAppend(a, [m]);
    RenderingsAppend(a, b);
    assert [m][..0] == [];
  }

  /** The keyword arguments copied into the request as they are: every one whose value
      is not `None`, except temperature and max_tokens. */
  function Extras(kwargs: map<string, Value>): map<string, Value> {
    map k | k in kwargs && k != "temperature" && k != "max_tokens" && kwargs[k] != Nil :: kwargs[k]
  }

  /** The request map `generate` sends. Temperature and max_tokens come from the keyword
      arguments when given there (even as `None`) and from the instance defaults
      otherwise; "system_prompt" is set when the system prompt is a non-empty string;
      every other keyword argument whose value is not `None` is copied last, so it wins
      over a fixed key of the same name. */
  function FalInput(prompt: string, systemPrompt: Option<string>, modelName: string,
                    temperature: Value, maxTokens: Value, kwargs: map<string, Value>): (r: map<string, Value>)
    ensures "prompt" in r && "model" in r && "temperature" in r && "max_tokens" in r
    ensures r["temperature"] == (if "temperature" in kwargs then kwargs["temperature"] else temperature)
    ensures r["max_tokens"] == (if "max_tokens" in kwargs then kwargs["max_tokens"] else maxTokens)
    ensures "prompt" !in Extras(kwargs) ==> r["prompt"] == Str(prompt)
    ensures "model" !in Extras(kwargs) ==> r["model"] == Str(modelName)
    ensures "system_prompt" !in Extras(kwargs) ==>
              ("system_prompt" in r <==> systemPrompt.Some? && systemPrompt.value != "")
    ensures "system_prompt" !in Extras(kwargs) && "system_prompt" in r ==> r["system_prompt"] == Str(systemPrompt.value)
    ensures forall k :: k in kwargs && k != "temperature" && k != "max_tokens" && kwargs[k] != Nil ==>
              k in r && r[k] == kwargs[k]
    ensures forall k :: k in r ==>
              k in {"prompt", "model", "temperature", "max_tokens", "system_prompt"} || (k in kwargs && kwargs[k] != Nil)
  {
    var t := if "temperature" in kwargs then kwargs["temperature"] else temperature;
    var m := if "max_tokens" in kwargs then kwargs["max_tokens"] else maxTokens;
    FixedKeys(prompt, systemPrompt, modelName, t, m) + Extras(kwargs)
  }

  /** The fixed part of the request map, before the extra keyword arguments. */
  function FixedKeys(prompt: string, systemPrompt: Option<string>, modelName: string,
                     temperature: Value, maxTokens: Value): (r: map<string, Value>)
    ensures r.Keys <= {"prompt", "model", "temperature", "max_tokens", "system_prompt"}
    ensures "prompt" in r && r["prompt"] == Str(prompt)
    ensures "model" in r && r["model"] == Str(modelName)
    ensures "temperature" in r && r["temperature"] == temperature
    ensures "max_tokens" in r && r["max_tokens"] == maxTokens
    ensures "system_prompt" in r <==> systemPrompt.Some? && systemPrompt.value != ""
    ensures "system_prompt" in r ==> r["system_prompt"] == Str(systemPrompt.value)
  {
    var base := map["prompt" := Str(prompt), "model" := Str(modelName),
                     "temperature" := temperature, "max_tokens" := maxTokens];
    if systemPrompt.Some? && systemPrompt.value != "" then base["system_prompt" := Str(systemPrompt.value)] else base
  }

  /** A keyword argument passed as `None` changes nothing, unless it is temperature or
      max_tokens, which are then sent as `None`. */
  lemma NilArgumentIgnored(prompt: string, systemPrompt: Option<string>, modelName: string,
                           temperature: Value, maxTokens: Value, kwargs: map<string, Value>, key: string)
    requires key !in kwargs && key != "temperature" && key != "max_tokens"
    ensures FalInput(prompt, systemPrompt, modelName, temperature, maxTokens, kwargs[key := Nil])
         == FalInput(prompt, systemPrompt, modelName, temperature, maxTokens, kwargs)
  {
    assert Extras(kwargs[key := Nil]) == Extras(kwargs);
  }
}
