# fal.ai agent demo: the chat-streaming and tool-shaping core, modelled in Dafny

The system is a chat assistant. It routes requests for image generation, video
generation and image editing to fal.ai endpoints. It streams the agent's
reasoning and results back to a chat interface. This project models the pure
logic of that core:

- extracting PNG paths from free text (`MediaPaths`);
- turning one agent step log into chat messages (`StepRender`);
- the final-answer messages of the streaming helper (`FinalAnswer`);
- the history snapshots streamed by the smolagents app (`AgentHistory`);
- the conversation context and the step bubbles of the reference app
  (`ContextBuilder`, `Observation`);
- the fal.ai language-model adapter's message conversion and request map (`FalFormat`);
- the three media tools' requests and status strings (`FalTools`);
- the performance-mode table (`ModelConfig`);
- the legacy client's intent parsing and message processing (`LegacyAgent`);
- the benchmark's tool and parameter extraction and its scoring (`Benchmark`).

`Base`, `Text` and `Chat` hold the shared vocabulary:

- `Option` and filtering;
- Python's whitespace set, `strip`, `join`, `split`, `lower` and `capitalize`;
- decimal rendering;
- the chat message record.

I/O is replaced by parameters throughout:

- a file-existence test `fileExists`;
- a numbered save function `save`;
- reply datatypes for what the remote API answered or raised.

Regular expressions are written out as explicit scanners. Each scanner has a
contract that fixes the matching discipline: greedy or lazy, leftmost, with
or without backtracking.

Behaviours of the code worth noting, all modelled as written:

- A status line such as "Generated 1 image(s): /tmp/abc.png" produces a text
  message *and* an image message. Only an output that is nothing but the path
  collapses to a single image (`FinalAnswer.StatusLineGivesTextAndImage`).
- Extracted paths are not de-duplicated (`MediaPaths.DuplicatesKept`).
- The image tool caps `num_images` at four but has no lower bound. It does not
  clamp width and height. The edit tool does not clamp `strength`.
- The reference app's context builder reports the history's own last turn
  as "Current request". The message being sent is appended after it.
- `set_mode` stores the mode before the table lookup. An unknown mode
  therefore leaves the object with the new mode and the old endpoints
  (`ModelConfig.SetMode`, `ModelConfig.RejectedModeKeepsOldEndpoints`).
- The benchmark's two tool-correctness branches are one equality test
  (`Benchmark.ToolCorrectIsEquality`).

## Model

| member | source | states |
|---|---|---|
| Text.StripEmptyIffBlank | src/core/utils.py:128-129 | `strip()` yields the empty string exactly when the text is all whitespace, in both directions |
| Text.StripIdempotent | src/core/utils.py:128-129 | stripping an already stripped text changes nothing |
| Text.SplitJoin | src/agents/legacy_agent.py:160 | splitting at a character and joining the pieces with that character gives the text back |
| Text.JoinLength | src/core/utils.py:152 | the joined text's length is the sum of the parts plus one separator between each pair |
| MediaPaths.FindAll | src/core/utils.py:21-22 | every match of `/[^\s]+\.png` starts with '/', ends in ".png", has a character in between and occurs in the text |
| MediaPaths.ParseImagePaths | src/core/utils.py:12-23 | every returned path is a well-formed PNG path that exists and occurs in the text |
| MediaPaths.ExistingPathsCounted | src/core/utils.py:21-23 | each path appears exactly as often as it matches when its file exists, and never otherwise |
| MediaPaths.NoneExistNoPaths | src/core/utils.py:23 | with no existing file, the result is empty |
| MediaPaths.AllExistAllPaths | src/core/utils.py:23 | with every file existing, the filter drops nothing |
| MediaPaths.NoSlashNoPaths | src/core/utils.py:21-22 | a text without '/' yields no path |
| MediaPaths.JoinedPathsRoundTrip | src/agents/smolagent.py:42-53 | well-formed paths listed after a slash-free prefix, separated by whitespace-bearing separators, are read back exactly and in order |
| MediaPaths.DuplicatesKept | src/agents/smolagent.py:51-53 | the same existing path twice in the text is returned twice |
| StepRender.PullMessages | src/core/utils.py:26-85 | one assistant message per truthy field and per tool call, in the fixed order task, thought, output, tools, observation, error; a section appears exactly when the log asks for it; each tool message carries the tool title and the call's arguments (or `{}`) in a json fence; the task, thought, output and error messages carry the field's value unchanged and the observation message carries it inside a code fence, each at its own position |
| StepRender.FieldsShown | src/core/utils.py:36-85 | each truthy field's message sits at its place in the rendering with the field's value as content, the observation fenced |
| StepRender.FieldPart | src/core/utils.py:36-41 | an optional field gives one message when truthy and none otherwise |
| StepRender.ToolMessages | src/core/utils.py:59-69 | one message per tool call, in call order |
| FinalAnswer.FinalMessages | src/core/utils.py:126-158 | no path gives one text message with the raw output; otherwise one image message per path, in order, each typed PNG, preceded by the stripped output exactly when it holds more than the joined paths |
| FinalAnswer.SingleImageIsGeneralRule | src/core/utils.py:131-151 | the one-image shortcut gives the same messages as the general rule |
| FinalAnswer.FinalAnswerFor | src/core/utils.py:123-158 | the answer's media are exactly the existing extracted paths, and it is never empty |
| FinalAnswer.LogMessages | src/core/utils.py:117-120 | a dictionary log contributes its step's messages and any other log nothing; no log message carries media |
| FinalAnswer.LogMessagesAppend | src/core/utils.py:117-120 | the messages of consecutive runs of logs are each run's messages, in log order |
| FinalAnswer.StreamFromSmolagent | src/core/utils.py:88-158 | the stream opens with the placeholder, then the messages of the logs in order, then the final answer; its media are exactly the existing paths of the output |
| FinalAnswer.StreamEndsWithFinalAnswer | src/core/utils.py:126-158 | the stream ends with the final-answer messages |
| FinalAnswer.StatusLineGivesTextAndImage | src/core/utils.py:128-151 | a one-image status line yields a text message and an image message |
| FinalAnswer.StatusLinePath | src/core/utils.py:21-23 | the status line of a one-image run yields exactly its path |
| ContextBuilder.TurnText | src/agents/smolagent_ref.py:58-73 | string content counts when non-blank and is kept as is; list content counts when its joined "text" entries are non-blank; dictionary and other content never counts |
| ContextBuilder.Line | src/agents/smolagent_ref.py:72-73 | a line is the capitalised role (or "Unknown"), a colon and the text |
| ContextBuilder.LinesAppend | src/agents/smolagent_ref.py:58-73 | the lines of a concatenated history are the concatenated lines |
| ContextBuilder.DictTurnIgnored | src/agents/smolagent_ref.py:62-64 | a media turn contributes no line wherever it sits |
| ContextBuilder.OnlyMediaNoLines | src/agents/smolagent_ref.py:62-64 | a history of media turns only contributes no line |
| ContextBuilder.RequestLine | src/agents/smolagent_ref.py:76-78 | the request line exists exactly when the last turn is non-blank string content |
| ContextBuilder.BuildContext | src/agents/smolagent_ref.py:42-80 | an empty history gives ""; a single turn gives only its request line; longer histories start with the header |
| ContextBuilder.LastTurnTwice | src/agents/smolagent_ref.py:52-80 | with two or more turns, a non-blank last turn appears both as a history line and as the current request |
| ContextBuilder.AgentContext | src/agents/smolagent_ref.py:154-156 | the context is the flattened history without its last turn, then the request lead and the agent prompt when given (even empty), else the user message |
| ContextBuilder.PreviousTurnAsRequest | src/agents/smolagent_ref.py:76-78 | the previous turn is what the flattened history calls the current request |
| Observation.SearchFrom | src/agents/smolagent_ref.py:117 | the search returns the leftmost position where the pattern matches, and no earlier position matches |
| Observation.SearchMedia | src/agents/smolagent_ref.py:117 | a found media reference occurs in the observation and starts with '/' or "http"; with whitespace-stopping segments it has no whitespace |
| Observation.ObservationMessage | src/agents/smolagent_ref.py:104-145 | with the pattern as written: the bubble is media exactly when the observation looks like media; a found reference is titled video or image, the fallback takes the whole observation, and other observations become result text |
| Observation.StrictObservationMessage | src/agents/smolagent_ref.py:104-145 | the same bubble with the corrected pattern; a found path then holds no whitespace |
| Observation.ThinkingText | src/agents/smolagent_ref.py:89-95 | the placeholder appears exactly when there is no tool call; otherwise the text is the coding banner, the first call's code and a closing fence, and its length is exactly that |
| Observation.ThinkingShowsCode | src/agents/smolagent_ref.py:89-95 | with a tool call, the text between the coding banner and the closing fence is exactly the first call's code |
| Observation.ProcessStep | src/agents/smolagent_ref.py:82-145 | non-action steps give nothing; action steps give the thinking bubble and, with observations, the as-written bubble of the stripped observation |
| Observation.NoSlashNoMedia | src/agents/smolagent_ref.py:117 | without '/', neither alternative of the pattern matches |
| Observation.FallbackTakesWholeObservation | src/agents/smolagent_ref.py:133-139 | a media-looking observation without '/' is shown whole as the media path |
| Observation.AsWrittenSpansTwoPaths | src/agents/smolagent_ref.py:117 | as written, "/a.png /b.png" comes back as one reference spanning both paths |
| Observation.StrictFindsFirstPath | src/agents/smolagent_ref.py:117 | with segments stopped at whitespace, the first path of a listing is returned exactly |
| Observation.AsWrittenBubbleSpansTwoPaths | src/agents/smolagent_ref.py:117-128 | as written, the bubble of "/a.png /b.png" shows one media path spanning both paths |
| Observation.ListingShowsFirstPath | src/agents/smolagent_ref.py:117-128 | with the corrected pattern, the bubble of a listing shows its first path |
| Observation.NoSpaceBubblesAgree | src/agents/smolagent_ref.py:117 | for an observation without whitespace the code's bubble and the corrected bubble are equal |
| Observation.VideoStatusShownAsVideo | src/agents/smolagent_ref.py:108-127 | the video tool's success line for a whitespace-free https URL naming an MP4 file is shown as a generated video of exactly that URL |
| AgentHistory.ToolLines | src/agents/smolagent.py:99-101 | no call adds nothing, one call adds its "**Tool:**" line with "unknown" for a missing name |
| AgentHistory.ToolLinesAppend | src/agents/smolagent.py:99-101 | the lines of two call lists are the lines of the first, then of the second: one line per call, in order |
| AgentHistory.LogPiece | src/agents/smolagent.py:91-104 | a log adds nothing exactly when it is not a dictionary or has no task, thought, rationale or tool call |
| AgentHistory.LogPieceEnds | src/agents/smolagent.py:93-104 | a dictionary log's text starts with its task line and ends with its rationale |
| AgentHistory.ThinkingText | src/agents/smolagent.py:89-107 | the thinking text is the header followed by each log's piece, in log order |
| AgentHistory.ThinkingGrows | src/agents/smolagent.py:89-107 | reading more logs only appends to the thinking text |
| AgentHistory.OtherLogsAddNothing | src/agents/smolagent.py:91-92 | logs that are not dictionaries leave only the header |
| AgentHistory.Wrap | src/agents/smolagent.py:129-132 | a list is unwrapped exactly when it has one item |
| AgentHistory.WrapKeepsItems | src/agents/smolagent.py:129-132 | unwrapping keeps exactly the items |
| AgentHistory.MediaItems | src/agents/smolagent.py:124-126 | one PNG media item per path, in order |
| AgentHistory.FinalContent | src/agents/smolagent.py:110-135 | no match gives the response text; otherwise the items are the text part when the output has more than the paths, then the existing files' media, and a single item is unwrapped while any other number stays a list |
| AgentHistory.MissingFileLeavesEmptyList | src/agents/smolagent.py:112-132 | a lone path whose file is missing leaves an empty item list, not the text |
| AgentHistory.AnswerShowsExistingPaths | src/agents/smolagent.py:110-126 | the answer shows as media exactly the existing files among the matches, in order |
| AgentHistory.ErrorText | src/agents/smolagent.py:139-142 | the error turn starts with the error lead and ends with the apology |
| AgentHistory.ThinkingSnapshots | src/agents/smolagent.py:89-107 | one snapshot per log, holding the thinking text read so far |
| AgentHistory.CompletedSnapshots | src/agents/smolagent.py:88-135 | one thinking snapshot per log, holding the thinking text of the logs read so far, then the answer; each extends the history |
| AgentHistory.RaisedSnapshots | src/agents/smolagent.py:69-79 | a raising run yields user turn, placeholder and error turn |
| AgentHistory.ReturnedSnapshots | src/agents/smolagent.py:69-135 | a returning run yields the user turn, the placeholder, the thinking snapshots of its logs and the answer |
| AgentHistory.StreamAgentResponse | src/agents/smolagent.py:55-142 | every yielded history extends the history with the user turn; a returning run yields the placeholder, the thinking snapshots and the answer, a raising one the placeholder and one error turn |
| FalFormat.TextParts | src/models/fal_model.py:108-113 | the parts are the texts of exactly the items typed "text", in order, one each |
| FalFormat.TextPartsExactly | src/models/fal_model.py:108-113 | every text item's text is a part, and every part is some text item's text |
| FalFormat.ContentText | src/models/fal_model.py:107-116 | list content is its text parts joined by newlines ("" without text items); other content is its rendering |
| FalFormat.ConvertMessages | src/models/fal_model.py:84-132 | the system prompt is absent exactly when there is no system message, else it is every system text in order, one per line; the prompt holds the user and assistant renderings in order, separated by blank lines |
| FalFormat.SystemTextsAppend | src/models/fal_model.py:119-123 | the system texts of a concatenation are the concatenated system texts |
| FalFormat.RenderingsAppend | src/models/fal_model.py:124-130 | the renderings of a concatenation are the concatenated renderings |
| FalFormat.OtherRoleIgnored | src/models/fal_model.py:119-127 | a message of any other role shows up in neither output |
| FalFormat.FalInput | src/models/fal_model.py:159-172 | temperature and max_tokens come from the keyword arguments when given; system_prompt is present exactly for a non-empty system prompt; every non-None extra argument is copied and wins; no other key appears |
| FalFormat.NilArgumentIgnored | src/models/fal_model.py:170-172 | an extra argument passed as None changes nothing |
| FalTools.ResolveModel | src/tools/fal_tools.py:51-55 | known names map to their endpoint, unknown ones to nano-banana |
| FalTools.ImageRequest | src/tools/fal_tools.py:78-85 | the count is min(n, 4); the size passes unchanged; there are 12 steps exactly for "nano-banana", else 28 |
| FalTools.UnknownModelFallsBackWithFullSteps | src/tools/fal_tools.py:78-84 | an unknown model gets the nano-banana endpoint but 28 steps |
| FalTools.SaveAll | src/tools/fal_tools.py:91-104 | one saved file per truthy URL, in order; a failure carries the error of the first failing save |
| FalTools.SaveAllFailsIffSomeSaveFails | src/tools/fal_tools.py:91-109 | saving fails exactly when the save of some truthy URL fails |
| FalTools.ImageStatus | src/tools/fal_tools.py:77-109 | success lists the saved paths; any failure gives the error prefix and message |
| FalTools.ImageSuccessRoundTrip | src/tools/fal_tools.py:106 | the success line's paths are read back exactly by the chat layer's extractor |
| FalTools.ClampDuration | src/tools/fal_tools.py:146 | the duration is in [3, 10] and unchanged inside that range |
| FalTools.ClampIdempotent | src/tools/fal_tools.py:146 | clamping twice is clamping once |
| FalTools.VideoRequest | src/tools/fal_tools.py:144-149 | the Luma endpoint with the clamped duration |
| FalTools.VideoStatus | src/tools/fal_tools.py:152-159 | the video URL (or "None"), the rendered result, or the error |
| FalTools.VideoStatusReadBack | src/tools/fal_tools.py:152-159 | the three leads tell the outcomes apart, and the text after the lead is the URL (or "None"), the rendering or the error |
| FalTools.EditRequest | src/tools/fal_tools.py:203-209 | the image-to-image endpoint with the strength unclamped |
| FalTools.EditStatus | src/tools/fal_tools.py:212-227 | the saved path, the rendered result, or the error, by case |
| FalTools.EditStatusReadBack | src/tools/fal_tools.py:212-227 | the leads tell success, no images and failure apart |
| FalTools.EditSuccessRoundTrip | src/tools/fal_tools.py:222 | the success line's saved path is read back exactly by the chat layer's extractor |
| ModelConfig.Init | config/model_config.py:23-30 | a new object holds its mode's table row |
| ModelConfig.Default | config/model_config.py:69 | the module instance is consistent, in fast mode |
| ModelConfig.GetModel | config/model_config.py:32-41 | the current mode's endpoint; the edit endpoint is shared; the generation endpoints differ by mode |
| ModelConfig.SetMode | config/model_config.py:43-50 | a known mode switches to its row; an unknown one raises with the mode stored and the endpoints kept |
| ModelConfig.SetModeThenGet | config/model_config.py:43-50 | after a switch, every lookup answers from the new row |
| ModelConfig.SetModeIdempotent | config/model_config.py:43-50 | switching twice to a mode is switching once |
| ModelConfig.RejectedModeKeepsOldEndpoints | config/model_config.py:47-50 | a rejected mode leaves an inconsistent object that still serves the old endpoints |
| LegacyAgent.UpdatePreferences | src/agents/legacy_agent.py:240 | the given keys are overwritten, new keys added, others kept |
| LegacyAgent.PreferenceKeysKept | src/agents/legacy_agent.py:23-28 | updates never lose the preference keys the client relies on |
| LegacyAgent.UpdateIdempotent | src/agents/legacy_agent.py:240 | applying an update twice is applying it once |
| LegacyAgent.LineOperation | src/agents/legacy_agent.py:164-172 | image generation exactly for "generate" with an image word; else editing exactly for an editing word; else video exactly for a video word; else nothing |
| LegacyAgent.Classify | src/agents/legacy_agent.py:160-172 | chat exactly when no line asks for an operation; otherwise the first line that asks decides |
| LegacyAgent.FallbackParse | src/agents/legacy_agent.py:158-186 | the fixed six keys, the classified operation, the defaults, the explanation and the fixed chat response; raises without a size |
| LegacyAgent.UnmatchedReplyIsChat | src/agents/legacy_agent.py:161-184 | a reply mentioning no operation parses as chat |
| LegacyAgent.RepairModel | src/agents/legacy_agent.py:121-129 | a dictionary or list model raises; an available model is kept; otherwise the model is set from the operation, and nothing else changes |
| LegacyAgent.RepairIdempotent | src/agents/legacy_agent.py:121-129 | repairing a repaired reply changes nothing |
| LegacyAgent.FillParameters | src/agents/legacy_agent.py:133-138 | the five keys are filled where missing, and present values are kept |
| LegacyAgent.FillIdempotent | src/agents/legacy_agent.py:133-138 | filling twice is filling once |
| LegacyAgent.ApplyDefaults | src/agents/legacy_agent.py:132-138 | without parameters nothing changes; with them, only the parameters are filled |
| LegacyAgent.ErrorIntent | src/agents/legacy_agent.py:150-156 | chat, with the error between the fixed lead and apology in the reply and after "LLM Error: " in the explanation |
| LegacyAgent.QueryLlm | src/agents/legacy_agent.py:103-156 | a failed call gives the error intent; an undecodable reply falls back; a decoded one is repaired and defaulted; a raise in any of these gives the error intent |
| LegacyAgent.UnhashableModelIsError | src/agents/legacy_agent.py:121-122 | a decoded reply with a dictionary or list model becomes the chat error intent |
| LegacyAgent.ResponseText | src/agents/legacy_agent.py:259-288 | any other operation replies with the decoded chat response as it is, string or not; a generation replies with a text ending in the chat response, after the bold explanation, model and prompt when an image came back, the status "success" when none did, or the generation error |
| LegacyAgent.ProcessMessage | src/agents/legacy_agent.py:243-296 | the log gains exactly the user turn and then the reply, which is the reply `ResponseText` describes; an image is returned only for a successful generation |
| Benchmark.FirstTool | benchmarks/benchmark.py:305-311 | the first table entry with an occurring pattern; none exactly when no pattern occurs |
| Benchmark.ExtractTool | benchmarks/benchmark.py:283-311 | one of the three canonical names, or none exactly when no pattern occurs |
| Benchmark.ImageGenerationWins | benchmarks/benchmark.py:283-311 | code mentioning image generation scores as image generation, whatever else it mentions |
| Benchmark.SearchNumberFrom | benchmarks/benchmark.py:364 | the leftmost match's integer; none exactly when no position matches |
| Benchmark.SearchWordFrom | benchmarks/benchmark.py:379 | the leftmost quoted word after `mode =`; none exactly when no position matches |
| Benchmark.ExtractParams | benchmarks/benchmark.py:359-388 | each of the five names is present exactly when its pattern matches, with the first match's value; no other key |
| Benchmark.NoAssignmentNoParams | benchmarks/benchmark.py:359-388 | code without '=' yields no parameter |
| Benchmark.CheckParams | benchmarks/benchmark.py:520-527 | true exactly when every expected key is present with an equal value |
| Benchmark.ToolCorrectIsEquality | benchmarks/benchmark.py:415-419 | both branches of the tool check amount to equality |
| Benchmark.Score | benchmarks/benchmark.py:414-427 | the tool is correct exactly when it equals the expected one; the parameters are checked only when both sides are non-empty |
| Benchmark.EmptyExtractionPasses | benchmarks/benchmark.py:422-427 | a run with no extracted parameters passes the parameter check |
| Benchmark.KeepFirst | benchmarks/benchmark.py:505-507 | the first step with a truthy tool decides, and none means empty parameters |
| Benchmark.LaterStepsIgnored | benchmarks/benchmark.py:505-507 | steps after the chosen one change nothing |
| Benchmark.RunSingle | benchmarks/benchmark.py:482-518 | the run completes exactly when nothing raised, and keeps the first tool |
| Benchmark.ByCategory | benchmarks/benchmark.py:64-74 | one entry per category seen, with correct and completed counts at most the total |
| Benchmark.ByCategoryCounts | benchmarks/benchmark.py:64-74 | each category's counters are the numbers of its results, correct tool choices and completed runs; a category without results has no entry |
| Benchmark.ByCategoryAbsent | benchmarks/benchmark.py:64-74 | a category has an entry exactly when at least one result belongs to it |
| Benchmark.TotalsSumToResults | benchmarks/benchmark.py:64-74 | the category totals add up to the number of results |
| Benchmark.Summarize | benchmarks/benchmark.py:45-62 | empty exactly for no results; otherwise the test count, the numbers of completed runs and of correct tool choices, and the category table |

## Left out

- File system, network, temporary files and image decoding: `os.path.exists`,
  `requests.get`, `PIL`, `tempfile` and `fal_client` become parameters or
  reply datatypes.
- The smolagents run loop, `get_clean_message_list` and the agents'
  construction: they are library code. Messages enter `FalFormat` already
  cleaned.
- `generate_stream` and the token accounting of the language-model adapter:
  they are streaming I/O.
- The language-model call and JSON extraction in the legacy client:
  `re.search` for a brace block, the string repairs and `json.loads` are
  taken as a `Decoded`/`Undecodable` input. The remote answer's shape is not
  modelled.
- `generate_image` of the legacy client: its arguments and remote call are
  taken as the `GenerationOutcome` input.
- LegacyAgent.UpdatePreferences: the returned JSON status string is not
  modelled, because `json.dumps` formatting is outside the model.
- LegacyAgent.ProcessMessage: the outer `except` branch is not modelled. No
  statement inside the `try` can raise once the operation is known.
- Gradio interfaces, printing, logging, settings, the main scripts, pricing,
  the adapter's test script, and `to_json`/`__repr__`: these are UI or
  configuration code.
- Floating point: latency means, medians and percentages in the benchmark
  summary, and all timing. The latency tests measure wall-clock time.
- Benchmark.ExtractParams: `\w` and `\d` are ASCII-only, and Unicode digits
  and letters are not modelled.
- `_extract_tool_from_step` of the benchmark: it reads smolagents step
  objects. Each step's tool and parameters are an input.
- Benchmark.RunSingle: `final_output` is not modelled, because the score does
  not use it.
- Text.Lower, Text.Capitalize: ASCII case mapping only. Unicode case tables
  are outside the model.
- `str()` of dictionaries, lists and floats is carried as text, or as a
  `show` parameter. Python's dictionary insertion order has no counterpart
  in Dafny maps.
- The streaming loop of the reference app (`stream_agent_response` after the
  context is built): it only appends the messages `ProcessStep` yields.
- AgentHistory.StreamAgentResponse: each yield is recorded as a value snapshot.
  The code yields the same list object every time and appends to the caller's
  `history` in place (smolagent.py:69-70, 78, 105-106), so a consumer that keeps
  the yielded lists sees only the final state in each of them.
- AgentHistory.StreamAgentResponse: only a raise from `agent.run` itself is
  modelled (the `Raised` outcome, three snapshots). A raise while the logs are
  read (a tool call without `get`, smolagent.py:101) or while the output is
  post-processed comes after the thinking snapshots already yielded: the code
  then yields 2 + k snapshots for the k logs read, then the error turn. The
  model has no outcome for that case.
- FinalAnswer.StreamFromSmolagent: only a run that returns is modelled. When
  `agent.run` raises (utils.py:113), the generator has yielded the placeholder
  alone and the exception propagates to the caller, which is UI code.
- Non-string "text" values in list content, and non-dictionary image
  entries in API replies: these are Python dynamic-typing cases that raise
  or render arbitrarily.

## Findings

| source | as written | input that shows it | evidently intended | confidence | as-written member | corrected member |
|---|---|---|---|---|---|---|
| src/agents/smolagent_ref.py:117 | the directory and name segments `[^/]+` accept whitespace, so the lazy match runs across a space into the next path | the observation "/a.png /b.png" yields the single reference "/a.png /b.png" | the reference is the first path "/a.png" | not executed | Observation.AsWrittenSpansTwoPaths | Observation.StrictFindsFirstPath |

The step bubbles (`Observation.ObservationMessage`, `Observation.ProcessStep`)
use the pattern as written. `Observation.StrictObservationMessage` is the
corrected bubble. The two agree on every observation without whitespace
(`Observation.NoSpaceBubblesAgree`).
