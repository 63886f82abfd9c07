/** The legacy chat client: the intent dictionary it derives from the language model's
    reply (repaired model name, defaulted parameters, or a keyword-based fallback when
    the reply holds no usable JSON), its preference store, and its conversation log.
    The JSON decoding itself and every remote call are inputs. */
module LegacyAgent {
  import opened Base
  import opened Text

  /** A JSON-like value. `List` is a JSON array and `Other` stands for floats, booleans
      and null, both carried by their `str()` rendering. */
  datatype Value = Str(s: string) | Int(i: int) | Dict(entries: map<string, Value>) | List(rendered: string) | Other(rendered: string)

  /** A value Python cannot hash: testing it for membership in a dictionary raises. */
  predicate Unhashable(v: Value) {
    v.Dict? || v.List?
  }

  type Dictionary = map<string, Value>

  /** The keys of `available_models`. */
  const AvailableModels: set<string> := {"chat-llm", "nano-banana"}

  /** The preferences a new client starts with. */
  const InitialPreferences: Dictionary := map[
    "default_image_model" := Str("nano-banana"),
    "default_video_model" := Str("luma-dream-machine"),
    "default_image_size" := Dict(map["width" := Int(720), "height" := Int(720)]),
    "default_video_duration" := Int(5)]

  /** The preference keys the client reads without a fallback. */
  predicate HasPreferenceKeys(prefs: Dictionary) {
    && "default_image_model" in prefs
    && "default_video_model" in prefs
    && "default_image_size" in prefs
    && "default_video_duration" in prefs
  }

  /** `update_preferences`: new keys are added, given keys overwritten, and every other
      preference is left as it was. */
  function UpdatePreferences(prefs: Dictionary, updates: Dictionary): (r: Dictionary)
    ensures r.Keys == prefs.Keys + updates.Keys
    ensures forall k :: k in updates ==> r[k] == updates[k]
    ensures forall k :: k in prefs && k !in updates ==> r[k] == prefs[k]
  {
    prefs + updates
  }

  /** Updating never loses a preference key, so the keys the client relies on stay
      present from construction on, whatever sequence of updates is applied. */
  lemma {:induction false} PreferenceKeysKept(updates: seq<Dictionary>)
    ensures HasPreferenceKeys(ApplyUpdates(InitialPreferences, updates))
    decreases |updates|
  {
    if updates != [] {
      PreferenceKeysKept(updates[..|updates| - 1]);
    }
  }

  /** The preferences after a sequence of updates. */
  function ApplyUpdates(prefs: Dictionary, updates: seq<Dictionary>): Dictionary
    decreases |updates|
  {
    if updates == [] then prefs
    else UpdatePreferences(ApplyUpdates(prefs, updates[..|updates| - 1]), updates[|updates| - 1])
  }

  /** Applying the same update twice is applying it once. */
  lemma UpdateIdempotent(prefs: Dictionary, updates: Dictionary)
    ensures UpdatePreferences(UpdatePreferences(prefs, updates), updates) == UpdatePreferences(prefs, updates)
  {
  }

  // ---------------------------------------------------------------- keyword fallback

  datatype Operation = GenerateImage | EditImage | GenerateVideo | Chat {
    function Name(): string {
      match this
      case GenerateImage => "generate_image"
      case EditImage => "edit_image"
      case GenerateVideo => "generate_video"
      case Chat => "chat"
    }
  }

  /** The operation one lower-cased line asks for, if any: "generate" together with an
      image word first, then an editing word, then a video word. */
  function LineOperation(line: string): (r: Option<Operation>)
    ensures r != Some(Chat)
    ensures r == Some(GenerateImage) <==> AsksImage(line)
    ensures r == Some(EditImage) <==> !AsksImage(line) && AsksEdit(line)
    ensures r == Some(GenerateVideo) <==> !AsksImage(line) && !AsksEdit(line) && AsksVideo(line)
    ensures r.None? <==> !AsksImage(line) && !AsksEdit(line) && !AsksVideo(line)
  {
    if AsksImage(line) then Some(GenerateImage)
    else if AsksEdit(line) then Some(EditImage)
    else if AsksVideo(line) then Some(GenerateVideo)
    else None
  }

  /** "generate" together with an image word. */
  predicate AsksImage(line: string) {
    Contains(line, "generate") && (Contains(line, "image") || Contains(line, "picture") || Contains(line, "photo"))
  }

  /** An editing word. */
  predicate AsksEdit(line: string) {
    Contains(line, "edit") || Contains(line, "modify") || Contains(line, "transform")
  }

  /** A video word. */
  predicate AsksVideo(line: string) {
    Contains(line, "video") || Contains(line, "animate")
  }

  /** The first line that asks for an operation decides; with none, the operation is chat. */
  function Classify(lines: seq<string>): (r: Operation)
    ensures r == Chat <==> forall k :: 0 <= k < |lines| ==> LineOperation(lines[k]).None?
    ensures r != Chat ==>
              exists k :: (0 <= k < |lines| && LineOperation(lines[k]) == Some(r)
                           && forall j :: 0 <= j < k ==> LineOperation(lines[j]).None?)
  {
    if lines == [] then Chat
    else if LineOperation(lines[0]).Some? then LineOperation(lines[0]).value
    else
      var r := Classify(lines[1..]);
      assert forall k :: 1 <= k < |lines| ==> lines[k] == lines[1..][k - 1];
      assert r != Chat ==> exists k :: 0 <= k < |lines| && LineOperation(lines[k]) == Some(r)
                             && forall j :: 0 <= j < k ==> LineOperation(lines[j]).None? by {
        if r != Chat {
          var k :| 0 <= k < |lines[1..]| && LineOperation(lines[1..][k]) == Some(r)
                   && forall j :: 0 <= j < k ==> LineOperation(lines[1..][j]).None?;
          assert LineOperation(lines[k + 1]) == Some(r);
          forall j | 0 <= j < k + 1
            ensures LineOperation(lines[j]).None?
          {
            if j > 0 {
              assert lines[j] == lines[1..][j - 1];
            }
          }
        }
      }
      r
  }

  /** The lower-cased reply cut into lines. */
  function ReplyLines(responseText: string): seq<string> {
    Split(Lower(responseText), '\n')
  }

  const FallbackChatResponse := "I'll process your request now!"
  const ExplanationLead := "Processing your request to "

  /** `_fallback_parse`: the classified operation, the default image model, the user's
      message as the prompt unchanged, the default size with one image at guidance 7.5,
      and an explanation naming the operation with spaces for underscores. Reading the
      default size raises when that preference is not a dictionary with a width and a
      height; the result is then `None`. */
  function FallbackParse(userMessage: string, responseText: string, prefs: Dictionary): (r: Option<Dictionary>)
    requires HasPreferenceKeys(prefs)
    ensures r.Some? <==> SizeOf(prefs).Some?
    ensures r.Some? ==> r.value.Keys == {"operation", "model", "prompt", "parameters", "explanation", "chat_response"}
    ensures r.Some? ==> var op := Classify(ReplyLines(responseText));
              && r.value["operation"] == Str(op.Name())
              && r.value["prompt"] == Str(userMessage)
              && r.value["model"] == prefs["default_image_model"]
              && r.value["explanation"] == Str(ExplanationLead + ReplaceChar(op.Name(), '_', ' '))
              && r.value["chat_response"] == Str(FallbackChatResponse)
              && r.value["parameters"] == Dict(map["width" := SizeOf(prefs).value.0, "height" := SizeOf(prefs).value.1,
                                                   "num_images" := Int(1), "guidance_scale" := Other("7.5")])
  {
    match SizeOf(prefs)
    case None => None
    case Some(size) =>
      var op := Classify(ReplyLines(responseText));
      Some(map[
        "operation" := Str(op.Name()),
        "model" := prefs["default_image_model"],
        "prompt" := Str(userMessage),
        "parameters" := Dict(map["width" := size.0, "height" := size.1,
                                 "num_images" := Int(1), "guidance_scale" := Other("7.5")]),
        "explanation" := Str(ExplanationLead + ReplaceChar(op.Name(), '_', ' ')),
        "chat_response" := Str(FallbackChatResponse)])
  }

  /** The default width and height, when the size preference is a dictionary holding both. */
  function SizeOf(prefs: Dictionary): Option<(Value, Value)>
    requires "default_image_size" in prefs
  {
    match prefs["default_image_size"]
    case Dict(e) => if "width" in e && "height" in e then Some((e["width"], e["height"])) else None
    case _ => None
  }

  /** A reply that mentions nothing the classifier knows falls back to chat. */
  lemma UnmatchedReplyIsChat(userMessage: string, responseText: string, prefs: Dictionary)
    requires HasPreferenceKeys(prefs) && SizeOf(prefs).Some?
    requires forall k :: 0 <= k < |ReplyLines(responseText)| ==> LineOperation(ReplyLines(responseText)[k]).None?
    ensures FallbackParse(userMessage, responseText, prefs).value["operation"] == Str("chat")
    ensures FallbackParse(userMessage, responseText, prefs).value["explanation"] == Str("Processing your request to chat")
  {
    assert ReplaceChar("chat", '_', ' ') == "chat";
  }

  // ---------------------------------------------------------------- repairing a parsed reply

  /** `d.get(key, default)`. */
  function Get(d: Dictionary, key: string, default: Value): Value {
    if key in d then d[key] else default
  }

  /** The model-name repair: a requested model that is not an available model is
      replaced according to the operation (the default image model, "flux-inpainting",
      the default video model); any other operation keeps it, as does an available one.
      A dictionary or list as the model cannot be looked up among the available models:
      the lookup raises, and the result is `None`. */
  function RepairModel(parsed: Dictionary, prefs: Dictionary): (r: Option<Dictionary>)
    requires HasPreferenceKeys(prefs)
    ensures r.None? <==> "model" in parsed && Unhashable(parsed["model"])
    ensures r.Some? ==> parsed.Keys <= r.value.Keys <= parsed.Keys + {"model"}
    ensures r.Some? ==> forall k :: k in parsed && k != "model" ==> r.value[k] == parsed[k]
    ensures Get(parsed, "model", Str("")) in AvailableModelValues() ==> r == Some(parsed)
    ensures r.Some? && Get(parsed, "model", Str("")) !in AvailableModelValues() ==>
              var op := Get(parsed, "operation", Str(""));
              && (op in {Str("generate_image"), Str("edit_image"), Str("generate_video")} ==> "model" in r.value)
              && (op == Str("generate_image") ==> r.value["model"] == prefs["default_image_model"])
              && (op == Str("edit_image") ==> r.value["model"] == Str("flux-inpainting"))
              && (op == Str("generate_video") ==> r.value["model"] == prefs["default_video_model"])
              && (op !in {Str("generate_image"), Str("edit_image"), Str("generate_video")} ==> r.value == parsed)
  {
    var requested := Get(parsed, "model", Str(""));
    if Unhashable(requested) then None
    else if requested in AvailableModelValues() then Some(parsed)
    else
      var op := Get(parsed, "operation", Str(""));
      if op == Str("generate_image") then Some(parsed["model" := prefs["default_image_model"]])
      else if op == Str("edit_image") then Some(parsed["model" := Str("flux-inpainting")])
      else if op == Str("generate_video") then Some(parsed["model" := prefs["default_video_model"]])
      else Some(parsed)
  }

  /** The available model names as values. */
  function AvailableModelValues(): set<Value> {
    set m | m in AvailableModels :: Str(m)
  }

  /** Repairing twice is repairing once: a repaired reply is left alone. */
  lemma RepairIdempotent(parsed: Dictionary, prefs: Dictionary)
    requires HasPreferenceKeys(prefs)
    requires prefs["default_image_model"] in AvailableModelValues()
    requires !Unhashable(prefs["default_video_model"])
    requires RepairModel(parsed, prefs).Some?
    ensures RepairModel(RepairModel(parsed, prefs).value, prefs) == RepairModel(parsed, prefs)
  {
    var requested := Get(parsed, "model", Str(""));
    var once := RepairModel(parsed, prefs).value;
    if requested in AvailableModelValues() {
      var m :| m in AvailableModels && Str(m) == requested;
      assert once == parsed;
    } else {
      var op := Get(parsed, "operation", Str(""));
      assert Get(once, "operation", Str("")) == op;
      var again := Get(once, "model", Str(""));
      assert !Unhashable(again) by {
        if again in AvailableModelValues() {
          var m :| m in AvailableModels && Str(m) == again;
        }
      }
      if op in {Str("generate_image"), Str("edit_image"), Str("generate_video")} {
        assert once == once["model" := again];
      } else {
        assert once == parsed;
      }
    }
  }

  /** The setdefault chain on a parameter dictionary: the five keys are filled in where
      missing, and every key already present keeps its value. */
  function FillParameters(params: Dictionary, width: Value, height: Value, duration: Value): (r: Dictionary)
    ensures r.Keys == params.Keys + {"width", "height", "num_images", "guidance_scale", "duration"}
    ensures forall k :: k in params ==> r[k] == params[k]
    ensures "width" !in params ==> r["width"] == width
    ensures "height" !in params ==> r["height"] == height
    ensures "num_images" !in params ==> r["num_images"] == Int(1)
    ensures "guidance_scale" !in params ==> r["guidance_scale"] == Other("7.5")
    ensures "duration" !in params ==> r["duration"] == duration
  {
    var defaults := map["width" := width, "height" := height, "num_images" := Int(1),
                        "guidance_scale" := Other("7.5"), "duration" := duration];
    defaults + params
  }

  /** Filling is idempotent. */
  lemma FillIdempotent(params: Dictionary, width: Value, height: Value, duration: Value)
    ensures FillParameters(FillParameters(params, width, height, duration), width, height, duration)
         == FillParameters(params, width, height, duration)
  {
  }

  /** The defaulting step: nothing happens without a "parameters" entry; with one, it
      must be a dictionary and the size preference must hold a width and a height, or
      the step raises (`None`). */
  function ApplyDefaults(parsed: Dictionary, prefs: Dictionary): (r: Option<Dictionary>)
    requires HasPreferenceKeys(prefs)
    ensures "parameters" !in parsed ==> r == Some(parsed)
    ensures "parameters" in parsed ==> (r.Some? <==> parsed["parameters"].Dict? && SizeOf(prefs).Some?)
    ensures r.Some? ==> r.value.Keys == parsed.Keys
    ensures r.Some? ==> forall k :: k in parsed && k != "parameters" ==> r.value[k] == parsed[k]
    ensures r.Some? && "parameters" in parsed ==>
              r.value["parameters"] == Dict(FillParameters(parsed["parameters"].entries, SizeOf(prefs).value.0,
                                                           SizeOf(prefs).value.1, prefs["default_video_duration"]))
  {
    if "parameters" !in parsed then Some(parsed)
    else
      match (parsed["parameters"], SizeOf(prefs))
      case (Dict(params), Some(size)) =>
        Some(parsed["parameters" := Dict(FillParameters(params, size.0, size.1, prefs["default_video_duration"]))])
      case _ => None
  }

  /** What the language-model call produced: a decoded JSON object found in the reply,
      a reply with no decodable object (its text), or the error the call raised. */
  datatype LlmReply = Decoded(json: Dictionary) | Undecodable(responseText: string) | CallFailed(error: string)

  /** The dictionary `query_llm` answers with after an exception: chat, with the error
      in the response and the explanation. */
  function ErrorIntent(error: string): (r: Dictionary)
    ensures r.Keys == {"operation", "chat_response", "explanation"}
    ensures r["operation"] == Str("chat")
    ensures r["chat_response"] == Str(ErrorReplyLead + error + ErrorReplyTail)
    ensures r["explanation"] == Str(ErrorExplanationLead + error)
  {
    map["operation" := Str("chat"),
        "chat_response" := Str(ErrorReplyLead + error + ErrorReplyTail),
        "explanation" := Str(ErrorExplanationLead + error)]
  }

  const ErrorReplyLead := "I encountered an error: "
  const ErrorReplyTail := ". Let me try to help you anyway!"
  const ErrorExplanationLead := "LLM Error: "

  /** `query_llm` from the call's outcome on. `raised` is the message of the exception
      that the post-processing raises when a value has the wrong shape. */
  function QueryLlm(userMessage: string, reply: LlmReply, prefs: Dictionary, raised: string): (r: Dictionary)
    requires HasPreferenceKeys(prefs)
    ensures reply.CallFailed? ==> r == ErrorIntent(reply.error)
    ensures reply.Undecodable? && SizeOf(prefs).Some? ==>
              r == FallbackParse(userMessage, reply.responseText, prefs).value
    ensures reply.Undecodable? && SizeOf(prefs).None? ==> r == ErrorIntent(raised)
    ensures reply.Decoded? && RepairModel(reply.json, prefs).None? ==> r == ErrorIntent(raised)
    ensures reply.Decoded? && RepairModel(reply.json, prefs).Some? ==>
              var repaired := RepairModel(reply.json, prefs).value;
              && (ApplyDefaults(repaired, prefs).Some? ==> r == ApplyDefaults(repaired, prefs).value)
              && (ApplyDefaults(repaired, prefs).None? ==> r == ErrorIntent(raised))
    ensures reply.Decoded? && "parameters" !in reply.json && RepairModel(reply.json, prefs).Some? ==>
              r == RepairModel(reply.json, prefs).value
    ensures "operation" !in r ==> reply.Decoded?
  {
    match reply
    case CallFailed(e) => ErrorIntent(e)
    case Undecodable(text) =>
      (match FallbackParse(userMessage, text, prefs)
       case Some(d) => d
       case None => ErrorIntent(raised))
    case Decoded(json) =>
      (match RepairModel(json, prefs)
       case None => ErrorIntent(raised)
       case Some(repaired) =>
         (match ApplyDefaults(repaired, prefs)
          case Some(d) => d
          case None => ErrorIntent(raised)))
  }

  /** A decoded reply whose model is a dictionary or a list becomes the error intent,
      however well-formed the rest of it is. */
  lemma UnhashableModelIsError(userMessage: string, json: Dictionary, prefs: Dictionary, raised: string)
    requires HasPreferenceKeys(prefs)
    requires "model" in json && Unhashable(json["model"])
    ensures QueryLlm(userMessage, Decoded(json), prefs, raised) == ErrorIntent(raised)
    ensures QueryLlm(userMessage, Decoded(json), prefs, raised)["operation"] == Str("chat")
  {
  }

  // ---------------------------------------------------------------- processing a message

  /** The outcome of `generate_image`: an image, no image, or the error it caught. */
  datatype GenerationOutcome = GotImage | NoImage | GenerationFailed(error: string)

  /** One logged turn: the speaker ("User" or "Assistant") and what was said. The reply
      is logged as the value it is, which for a chat reply is the decoded
      `chat_response` itself, not necessarily a string. */
  datatype LogEntry = LogEntry(speaker: string, said: Value)

  /** The text of a value in an f-string: a string as it is, an integer in decimal,
      anything else by its rendering; `show` renders dictionaries. */
  function Render(v: Value, show: Dictionary -> string): string {
    match v
    case Str(s) => s
    case Int(i) => IntToString(i)
    case Dict(e) => show(e)
    case List(rendered) => rendered
    case Other(rendered) => rendered
  }

  /** The reply of `process_message` for the intent `intent`: for any operation but an
      image generation the decoded chat response as it is (a string or any other JSON
      value); for an image generation a text that ends with the chat response, preceded
      by the generation's status (the explanation, model and prompt after a success,
      "success" when no image came back, or the error). */
  function ResponseText(userMessage: string, intent: Dictionary, prefs: Dictionary,
                        outcome: GenerationOutcome, show: Dictionary -> string): (r: Value)
    requires HasPreferenceKeys(prefs)
    ensures EndsWith(Render(r, show), Render(Get(intent, "chat_response", Str("")), show))
    ensures Get(intent, "operation", Str("chat")) != Str("generate_image") ==>
              r == Get(intent, "chat_response", Str(""))
    ensures Get(intent, "operation", Str("chat")) == Str("generate_image") ==>
              var chatResponse := Render(Get(intent, "chat_response", Str("")), show);
              && r.Str?
              && (outcome.NoImage? ==> r.s == "success" + "\n\n" + chatResponse)
              && (outcome.GenerationFailed? ==> r.s == "Error generating images: " + outcome.error + "\n\n" + chatResponse)
              && (outcome.GotImage? ==>
                    r.s == "**" + Render(Get(intent, "explanation", Str("")), show) + "**\n\n"
                           + "*Generated using " + Render(Get(intent, "model", prefs["default_image_model"]), show) + "*\n"
                           + "*Prompt: \"" + Render(Get(intent, "prompt", Str(userMessage)), show) + "\"*\n\n"
                           + chatResponse)
  {
    var chatResponse := Render(Get(intent, "chat_response", Str("")), show);
    var explanation := Render(Get(intent, "explanation", Str("")), show);
    if Get(intent, "operation", Str("chat")) != Str("generate_image") then
      EndsWithAppended("", chatResponse);
      assert "" + chatResponse == chatResponse;
      Get(intent, "chat_response", Str(""))
    else
      var model := Render(Get(intent, "model", prefs["default_image_model"]), show);
      var prompt := Render(Get(intent, "prompt", Str(userMessage)), show);
      var head := match outcome
        case GotImage =>
          "**" + explanation + "**\n\n" + "*Generated using " + model + "*\n"
          + "*Prompt: \"" + prompt + "\"*\n\n"
        case NoImage => "success" + "\n\n"
        case GenerationFailed(e) => "Error generating images: " + e + "\n\n";
      EndsWithAppended(head, chatResponse);
      Str(head + chatResponse)
  }

  /** `process_message`: the log gains exactly two entries, the user's message and then
      the reply, and nothing already logged changes; the reply is the one `ResponseText`
      describes, and one image is returned exactly when an image generation produced
      one. */
  function ProcessMessage(log: seq<LogEntry>, userMessage: string, intent: Dictionary, prefs: Dictionary,
                          outcome: GenerationOutcome, show: Dictionary -> string): (r: (seq<LogEntry>, nat, Value))
    requires HasPreferenceKeys(prefs)
    ensures |r.0| == |log| + 2 && r.0[..|log|] == log
    ensures r.0[|log|] == LogEntry("User", Str(userMessage))
    ensures r.0[|log| + 1] == LogEntry("Assistant", r.2)
    ensures r.1 == (if Get(intent, "operation", Str("chat")) == Str("generate_image") && outcome.GotImage? then 1 else 0)
    ensures r.2 == ResponseText(userMessage, intent, prefs, outcome, show)
    ensures Get(intent, "operation", Str("chat")) != Str("generate_image") ==>
              r.2 == Get(intent, "chat_response", Str(""))
  {
    var reply := ResponseText(userMessage, intent, prefs, outcome, show);
    var images := if Get(intent, "operation", Str("chat")) == Str("generate_image") && outcome.GotImage? then 1 else 0;
    var log' := log + [LogEntry("User", Str(userMessage)), LogEntry("Assistant", reply)];
    assert log'[..|log|] == log;
    (log', images, reply)
  }
}
