/** The conversation context the reference smolagents app hands to its agent: the chat
    history flattened into one string ("Previous conversation:", one "Role: text" line
    per turn that carries text, then the current request), followed by the request
    actually being run. */
module ContextBuilder {
  import opened Base
  import opened Text

  /** An element of list-valued content: a dictionary with a "text" entry, or anything else. */
  datatype Item = TextField(text: string) | NoText

  /** The value under a turn's "content" key; a missing key reads as the empty string,
      and `OtherContent` stands for `None` and every other non-string value. */
  datatype TurnContent =
    | StrContent(s: string)
    | DictContent
    | ListContent(items: seq<Item>)
    | OtherContent

  /** A chat turn; `role` is `None` when the "role" key is missing. */
  datatype Turn = Turn(role: Option<string>, content: TurnContent)

  const Header := "Previous conversation:"
  const RequestLead := "\nCurrent request: "

  /** Python's truth value of `s.strip()`. */
  predicate Filled(s: string) {
    Strip(s) != []
  }

  /** The "text" entries of list content, in order. */
  function ItemTexts(items: seq<Item>): (r: seq<string>)
    ensures |r| <= |items|
  {
    if items == [] then []
    else (if items[0].TextField? then [items[0].text] else []) + ItemTexts(items[1..])
  }

  /** The text a turn contributes, if any: non-blank string content as it is, list
      content as its space-joined text entries when those are not blank, nothing for
      dictionaries (media) and other values. */
  function TurnText(c: TurnContent): (r: Option<string>)
    ensures r.Some? ==> Filled(r.value)
    ensures c.DictContent? || c.OtherContent? ==> r.None?
    ensures c.StrContent? ==> (r.Some? <==> Filled(c.s)) && (r.Some? ==> r.value == c.s)
    ensures c.ListContent? ==> (r.Some? <==> Filled(Join(" ", ItemTexts(c.items))))
  {
    match c
    case StrContent(s) => if Filled(s) then Some(s) else None
    case ListContent(items) =>
      var joined := Join(" ", ItemTexts(items));
      if Filled(joined) then Some(joined) else None
    case _ => None
  }

  /** `f"{role.capitalize()}: {content}"`, with "unknown" for a missing role. */
  function Line(role: Option<string>, text: string): (r: string)
    ensures r == Capitalize(role.GetOr("unknown")) + ": " + text
    ensures role.None? ==> r[..9] == "Unknown: "
  {
    Capitalize(role.GetOr("unknown")) + ": " + text
  }

  /** The line of one turn: none, or its role and text. */
  function TurnLines(t: Turn): (r: seq<string>)
    ensures |r| <= 1
    ensures r != [] <==> TurnText(t.content).Some?
  {
    match TurnText(t.content)
    case Some(text) => [Line(t.role, text)]
    case None => []
  }

  /** One line per turn that contributes text, in history order. */
  function Lines(h: seq<Turn>): (r: seq<string>)
    ensures |r| <= |h|
  {
    if h == [] then [] else TurnLines(h[0]) + Lines(h[1..])
  }

  /** A one-turn history has that turn's line. */
  lemma LinesSingle(t: Turn)
    ensures Lines([t]) == TurnLines(t)
  {
    assert [t][1..] == [];
  }

  /** Lines of a concatenated history are the concatenated lines. */
  lemma {:induction false} LinesAppend(a: seq<Turn>, b: seq<Turn>)
    ensures Lines(a + b) == Lines(a) + Lines(b)
  {
    if a == [] {
      assert a + b == b;
    } else {
      assert (a + b)[1..] == a[1..] + b;
      LinesAppend(a[1..], b);
    }
  }

  /** A media turn (dictionary content) contributes no line, wherever it sits. */
  lemma DictTurnIgnored(a: seq<Turn>, t: Turn, b: seq<Turn>)
    requires t.content.DictContent?
    ensures Lines(a + [t] + b) == Lines(a + b)
  {
    LinesAppend(a + [t], b);
    LinesAppend(a, [t]);
    LinesAppend(a, b);
    LinesSingle(t);
  }

  /** A history made only of media turns contributes no line. */
  lemma {:induction false} OnlyMediaNoLines(h: seq<Turn>)
    requires forall k :: 0 <= k < |h| ==> h[k].content.DictContent?
    ensures Lines(h) == []
  {
    if h != [] {
      OnlyMediaNoLines(h[1..]);
    }
  }

  /** The request line taken from the last turn: present when that turn's content is a
      non-blank string, and then holding the content unstripped. */
  function RequestLine(h: seq<Turn>): (r: seq<string>)
    ensures |r| <= 1
    ensures r != [] <==> h != [] && h[|h| - 1].content.StrContent? && Filled(h[|h| - 1].content.s)
  {
    if h != [] && h[|h| - 1].content.StrContent? && Filled(h[|h| - 1].content.s) then
      [RequestLead + h[|h| - 1].content.s]
    else []
  }

  /** `_build_context_from_history`. The header and the per-turn lines appear only for a
      history of two or more turns, and then the last turn is walked too. */
  function BuildContext(h: seq<Turn>): (r: string)
    ensures h == [] ==> r == ""
    ensures |h| == 1 ==> r == (if h[0].content.StrContent? && Filled(h[0].content.s) then RequestLead + h[0].content.s else "")
    ensures |h| > 1 ==> |r| >= |Header| && r[..|Header|] == Header
  {
    var parts := (if |h| > 1 then [Header] + Lines(h) else []) + RequestLine(h);
    if |h| > 1 then
      assert parts == [Header] + (Lines(h) + RequestLine(h));
      JoinHead("\n", Header, Lines(h) + RequestLine(h));
      Join("\n", parts)
    else
      assert parts == RequestLine(h);
      Join("\n", parts)
  }

  /** Joining starts with the first part. */
  lemma JoinHead(sep: string, x: string, rest: seq<string>)
    ensures |Join(sep, [x] + rest)| >= |x| && Join(sep, [x] + rest)[..|x|] == x
  {
    if rest != [] {
      assert ([x] + rest)[1..] == rest;
    }
  }

  /** With two or more turns, a last turn with non-blank string content shows up twice:
      as a history line and, after it, as the current request. */
  lemma LastTurnTwice(h: seq<Turn>)
    requires |h| >= 2
    requires h[|h| - 1].content.StrContent? && Filled(h[|h| - 1].content.s)
    ensures var last := h[|h| - 1];
            EndsWith(BuildContext(h), "\n" + Line(last.role, last.content.s) + "\n" + (RequestLead + last.content.s))
  {
    var last := h[|h| - 1];
    var lastLine := Line(last.role, last.content.s);
    var req := RequestLead + last.content.s;
    var front := [Header] + Lines(h[..|h| - 1]);
    LastTurnParts(h);
    JoinSnoc("\n", front + [lastLine], req);
    JoinSnoc("\n", front, lastLine);
    var j := Join("\n", front);
    Regroup(j, "\n", lastLine, "\n", req);
    EndsWithAppended(j, "\n" + lastLine + "\n" + req);
  }

  /** The parts joined for a history of two or more turns whose last turn is non-blank text. */
  lemma LastTurnParts(h: seq<Turn>)
    requires |h| >= 2
    requires h[|h| - 1].content.StrContent? && Filled(h[|h| - 1].content.s)
    ensures var last := h[|h| - 1];
            BuildContext(h)
              == Join("\n", ([Header] + Lines(h[..|h| - 1]) + [Line(last.role, last.content.s)]) + [RequestLead + last.content.s])
  {
    var last := h[|h| - 1];
    var init := h[..|h| - 1];
    LongContext(h);
    LastLines(h);
    AppendAssoc([Header], Lines(init), [Line(last.role, last.content.s)]);
  }

  /** A history of two or more turns joins the header, its lines and its request line. */
  lemma LongContext(h: seq<Turn>)
    requires |h| >= 2
    ensures BuildContext(h) == Join("\n", ([Header] + Lines(h)) + RequestLine(h))
  {
  }

  /** The lines of a history ending in non-blank text end with that turn's line. */
  lemma LastLines(h: seq<Turn>)
    requires h != []
    requires h[|h| - 1].content.StrContent? && Filled(h[|h| - 1].content.s)
    ensures var last := h[|h| - 1];
            Lines(h) == Lines(h[..|h| - 1]) + [Line(last.role, last.content.s)]
            && RequestLine(h) == [RequestLead + last.content.s]
  {
    var last := h[|h| - 1];
    var init := h[..|h| - 1];
    SplitLast(h);
    LinesAppend(init, [last]);
    LinesSingle(last);
    TextTurnLine(last);
  }

  /** A turn with non-blank string content has one line, holding that content. */
  lemma TextTurnLine(t: Turn)
    requires t.content.StrContent? && Filled(t.content.s)
    ensures TurnLines(t) == [Line(t.role, t.content.s)]
  {
    assert TurnText(t.content) == Some(t.content.s);
  }

  /** The context `stream_agent_response` runs the agent on: the flattened history
      without its last turn, then the request, which is `agentPrompt` when one is given
      (even an empty one) and the user's message otherwise. */
  function AgentContext(history: seq<Turn>, userMessage: string, agentPrompt: Option<string>): (r: string)
    ensures EndsWith(r, RequestLead + (if agentPrompt.Some? then agentPrompt.value else userMessage))
    ensures |history| <= 1 ==> r == RequestLead + agentPrompt.GetOr(userMessage)
    ensures |history| >= 1 ==> r == BuildContext(history[..|history| - 1]) + (RequestLead + agentPrompt.GetOr(userMessage))
  {
    var init := if history == [] then [] else history[..|history| - 1];
    var tail := RequestLead + agentPrompt.GetOr(userMessage);
    EndsWithAppended(BuildContext(init), tail);
    BuildContext(init) + tail
  }

  /** The flattened history names its own last turn as the current request, even when
      that turn is the assistant's reply: with three or more turns, the one before the
      request being run appears as a history line, then as a "current request", and only
      then comes the request actually run. */
  lemma PreviousTurnAsRequest(history: seq<Turn>, userMessage: string, agentPrompt: Option<string>)
    requires |history| >= 3
    requires history[|history| - 2].content.StrContent? && Filled(history[|history| - 2].content.s)
    ensures var prev := history[|history| - 2];
            EndsWith(AgentContext(history, userMessage, agentPrompt),
                     "\n" + Line(prev.role, prev.content.s) + "\n" + (RequestLead + prev.content.s)
                     + (RequestLead + agentPrompt.GetOr(userMessage)))
  {
    var init := history[..|history| - 1];
    assert init[|init| - 1] == history[|history| - 2];
    LastTurnTwice(init);
    var prev := history[|history| - 2];
    var t := "\n" + Line(prev.role, prev.content.s) + "\n" + (RequestLead + prev.content.s);
    var tail := RequestLead + agentPrompt.GetOr(userMessage);
    assert AgentContext(history, userMessage, agentPrompt) == BuildContext(init) + tail;
    EndsWithExtend(BuildContext(init), t, tail);
  }
}
