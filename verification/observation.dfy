/** How the reference smolagents app turns one agent step into chat bubbles: a
    "thinking" bubble with the first tool call's code, then, when the step has an
    observation, one bubble classifying it as a generated video, a generated image, a
    media reference the path search could not isolate, or plain execution output.

    The path search is Python's `re.search` with the pattern
    `/(?:[^/]+/)*[^/]+?\.(?:png|jpg|jpeg|webp|mp4|mov|avi|webm)|https?://\S+`, written out
    as a backtracking scanner: the leftmost start position wins; at a '/', the greedy
    group first takes as many "segment/" pieces as it can and gives them back one at a
    time, and after the last piece the lazy part takes the shortest stretch that is
    followed by a media extension. The segment class `[^/]` includes whitespace, so a
    segment can run from one path into the next. The scanner takes a flag `strict`
    that also stops segments at whitespace, which is the pattern with `[^/\s]`. */
module Observation {
  import opened Base
  import opened Text
  import opened Chat
  import opened MediaPaths
  import opened StepRender
  import FalTools

  /** An agent step: an action step carries the rendered arguments of its tool calls and
      its observations; any other step yields nothing. */
  datatype StepEvent = Action(toolArguments: seq<string>, observations: Option<string>) | OtherEvent

  const VideoExts := [".mp4", ".mov", ".avi", ".webm"]
  const ImageExts := [".png", ".jpg", ".webp", ".jpeg"]
  const MediaExts := ["png", "jpg", "jpeg", "webp", "mp4", "mov", "avi", "webm"]

  const ThinkingPlaceholder := "Thinking..."
  const CodingBanner := "```python\n# \U{1F916} Agent is coding...\n"
  const VideoTitle := "Video Generated"
  const ImageTitle := "Image Generated"
  const DoneTitle := "Done"
  const ResultTitle := "Execution Result"
  const DoneStatus := "done"

  /** `any(ext in s for ext in exts)`. */
  predicate AnyIn(exts: seq<string>, s: string) {
    exists k :: 0 <= k < |exts| && Contains(s, exts[k])
  }

  predicate IsVideo(obs: string) { AnyIn(VideoExts, obs) }
  predicate IsImage(obs: string) { AnyIn(ImageExts, obs) }

  /** The observation mentions a media extension and looks like a path or a URL. */
  predicate LooksLikeMedia(obs: string) {
    (IsVideo(obs) || IsImage(obs)) && (Contains(obs, "/") || Contains(obs, "http"))
  }

  /** A character the segment class accepts. */
  predicate Allowed(c: char, strict: bool) {
    c != '/' && (!strict || !IsSpace(c))
  }

  /** End of the run of accepted characters starting at `p`. */
  function SegEnd(s: string, p: nat, strict: bool): (j: nat)
    requires p <= |s|
    ensures p <= j <= |s|
    ensures forall k :: p <= k < j ==> Allowed(s[k], strict)
    ensures j == |s| || !Allowed(s[j], strict)
    decreases |s| - p
  {
    if p == |s| || !Allowed(s[p], strict) then p else SegEnd(s, p + 1, strict)
  }

  /** One more iteration of `(?:[^/]+/)`: a non-empty run of accepted characters ending
      in '/'; the result is the position behind that '/'. */
  function NextSegment(s: string, p: nat, strict: bool): (r: Option<nat>)
    requires p <= |s|
    ensures r.Some? ==> p + 2 <= r.value <= |s| && s[r.value - 1] == '/'
    ensures r.Some? ==> forall k :: p <= k < r.value - 1 ==> Allowed(s[k], strict)
  {
    var j := SegEnd(s, p, strict);
    if p < j < |s| && s[j] == '/' then Some(j + 1) else None
  }

  /** ".ext" for one of the media extensions ends right before `e`. */
  predicate ExtEndsAt(s: string, e: int) {
    0 <= e <= |s| && exists k :: 0 <= k < |MediaExts| && EndsWith(s[..e], "." + MediaExts[k])
  }

  /** The index of the first extension, from index `k` of the list on, that occurs at
      `at` (the regex tries the alternatives in order). */
  function FirstExt(s: string, at: nat, k: nat): (r: Option<nat>)
    requires k <= |MediaExts|
    ensures r.Some? ==> k <= r.value < |MediaExts| && OccursAt(s, MediaExts[r.value], at)
    ensures r.Some? ==> forall k' :: k <= k' < r.value ==> !OccursAt(s, MediaExts[k'], at)
    ensures r.None? ==> forall k' :: k <= k' < |MediaExts| ==> !OccursAt(s, MediaExts[k'], at)
    decreases |MediaExts| - k
  {
    if k == |MediaExts| then None
    else if OccursAt(s, MediaExts[k], at) then Some(k)
    else FirstExt(s, at, k + 1)
  }

  /** `\.(?:png|jpg|…)` at `q`: the end of the extension. */
  function ExtEnd(s: string, q: nat): (r: Option<nat>)
    ensures r.Some? ==> q + 4 <= r.value <= |s| && ExtEndsAt(s, r.value)
    ensures r.Some? ==> forall k :: q <= k < r.value ==> s[k] != '/' && !IsSpace(s[k])
  {
    if q < |s| && s[q] == '.' then
      match FirstExt(s, q + 1, 0)
      case None => None
      case Some(k) =>
        var e := q + 1 + |MediaExts[k]|;
        ExtShape(s, q, k, e);
        Some(e)
    else None
  }

  /** An extension found at `q + 1` behind a '.' forms ".ext", ending the prefix. */
  lemma ExtShape(s: string, q: nat, k: nat, e: nat)
    requires k < |MediaExts| && q < |s| && s[q] == '.' && OccursAt(s, MediaExts[k], q + 1)
    requires e == q + 1 + |MediaExts[k]|
    ensures q + 4 <= e <= |s| && EndsWith(s[..e], "." + MediaExts[k]) && ExtEndsAt(s, e)
    ensures forall j :: q <= j < e ==> s[j] != '/' && !IsSpace(s[j])
  {
    var ext := MediaExts[k];
    assert s[..e][e - |"." + ext|..] == s[q..e];
    assert s[q..e] == [s[q]] + s[q + 1..e];
    forall j | q < j < e
      ensures s[j] != '/' && !IsSpace(s[j])
    {
      assert s[j] == ext[j - q - 1];
      assert k == 0 || k == 1 || k == 2 || k == 3 || k == 4 || k == 5 || k == 6 || k == 7;
    }
  }

  /** The lazy `[^/]+?` has taken everything before `q`; try the extension at `q`, else
      take one more character. */
  function LazyEnd(s: string, q: nat, strict: bool): (r: Option<nat>)
    requires q <= |s|
    ensures r.Some? ==> q + 4 <= r.value <= |s| && ExtEndsAt(s, r.value)
    ensures r.Some? ==> forall k :: q <= k < r.value ==> s[k] != '/' && (!strict || !IsSpace(s[k]))
    decreases |s| - q
  {
    match ExtEnd(s, q)
    case Some(e) => Some(e)
    case None => if q < |s| && Allowed(s[q], strict) then LazyEnd(s, q + 1, strict) else None
  }

  /** `[^/]+?\.(?:…)` starting at `p`. */
  function LazyFrom(s: string, p: nat, strict: bool): (r: Option<nat>)
    requires p <= |s|
    ensures r.Some? ==> p + 5 <= r.value <= |s| && ExtEndsAt(s, r.value)
    ensures r.Some? ==> forall k :: p <= k < r.value ==> s[k] != '/' && (!strict || !IsSpace(s[k]))
  {
    if p < |s| && Allowed(s[p], strict) then LazyEnd(s, p + 1, strict) else None
  }

  /** `(?:[^/]+/)*[^/]+?\.(?:…)` starting at `p`, with the greedy star's backtracking:
      one more segment first, and only when that fails the lazy part here. */
  function Alt1From(s: string, p: nat, strict: bool): (r: Option<nat>)
    requires p <= |s|
    ensures r.Some? ==> p + 5 <= r.value <= |s| && ExtEndsAt(s, r.value)
    ensures r.Some? && strict ==> forall k :: p <= k < r.value ==> !IsSpace(s[k])
    decreases |s| - p
  {
    match NextSegment(s, p, strict)
    case Some(p') =>
      var deeper := Alt1From(s, p', strict);
      if deeper.Some? then deeper else LazyFrom(s, p, strict)
    case None => LazyFrom(s, p, strict)
  }

  /** The first alternative, a file path, starting at `i`. */
  function Alt1At(s: string, i: nat, strict: bool): (r: Option<nat>)
    requires i < |s|
    ensures r.Some? ==> s[i] == '/' && i + 6 <= r.value <= |s| && ExtEndsAt(s, r.value)
    ensures r.Some? && strict ==> NoSpace(s[i..r.value])
  {
    if s[i] == '/' then
      var r := Alt1From(s, i + 1, strict);
      if r.Some? && strict then
        assert forall k :: 0 <= k < r.value - i ==> s[i..r.value][k] == s[i + k];
        r
      else r
    else None
  }

  /** The second alternative, `https?://\S+`, starting at `i`. */
  function Alt2At(s: string, i: nat): (r: Option<nat>)
    ensures r.Some? ==> i + 8 <= r.value <= |s| && (OccursAt(s, "http://", i) || OccursAt(s, "https://", i))
    ensures r.Some? ==> forall k :: i <= k < r.value ==> !IsSpace(s[k])
  {
    if OccursAt(s, "https://", i) && i + 8 < |s| && !IsSpace(s[i + 8]) then
      NoSpaceLiteral(s, i, "https://");
      Some(RunEnd(s, i + 8))
    else if OccursAt(s, "http://", i) && i + 7 < |s| && !IsSpace(s[i + 7]) then
      NoSpaceLiteral(s, i, "http://");
      Some(RunEnd(s, i + 7))
    else None
  }

  /** A URL scheme holds no whitespace. */
  lemma NoSpaceLiteral(s: string, i: nat, t: string)
    requires t == "https://" || t == "http://"
    requires OccursAt(s, t, i)
    ensures forall k :: i <= k < i + |t| ==> !IsSpace(s[k])
  {
    forall k | i <= k < i + |t|
      ensures !IsSpace(s[k])
    {
      assert s[k] == t[k - i];
    }
  }

  /** The whole pattern at `i`: the path alternative first, then the URL one. */
  function MatchMediaAt(s: string, i: nat, strict: bool): Option<nat>
    requires i < |s|
  {
    var a := Alt1At(s, i, strict);
    if a.Some? then a else Alt2At(s, i)
  }

  /** A URL match starts with "http". */
  lemma UrlPrefix(s: string, i: nat, e: nat)
    requires i + 8 <= e <= |s|
    requires OccursAt(s, "http://", i) || OccursAt(s, "https://", i)
    ensures s[i..e][..4] == "http"
  {
    assert s[i..e][..4] == s[i..i + 4];
    if OccursAt(s, "http://", i) {
      assert s[i..i + 4] == s[i..i + 7][..4];
    } else {
      assert s[i..i + 4] == s[i..i + 8][..4];
    }
  }

  datatype Span = Span(start: nat, end: nat)

  /** `re.search` from `i` on: the leftmost position where the pattern matches. */
  function SearchFrom(s: string, i: nat, strict: bool): (r: Option<Span>)
    requires i <= |s|
    ensures r.Some? ==> i <= r.value.start < r.value.end <= |s| && MatchMediaAt(s, r.value.start, strict) == Some(r.value.end)
    ensures forall k :: i <= k < (if r.Some? then r.value.start else |s|) ==> MatchMediaAt(s, k, strict).None?
    decreases |s| - i
  {
    if i == |s| then None
    else
      match MatchMediaAt(s, i, strict)
      case Some(e) => Some(Span(i, e))
      case None => SearchFrom(s, i + 1, strict)
  }

  /** `match.group(1)` of the search, if the search succeeds: a piece of the observation
      that starts with '/' and ends with a media extension, or starts with "http". */
  function SearchMedia(obs: string, strict: bool): (r: Option<string>)
    ensures r.Some? ==> Contains(obs, r.value) && |r.value| >= 6
    ensures r.Some? ==> r.value[0] == '/' || r.value[..4] == "http"
    ensures r.Some? && strict ==> NoSpace(r.value)
  {
    match SearchFrom(obs, 0, strict)
    case Some(sp) =>
      var t := obs[sp.start..sp.end];
      assert OccursAt(obs, t, sp.start);
      assert t[0] == obs[sp.start];
      assert t[..4] == obs[sp.start..sp.start + 4];
      if Alt1At(obs, sp.start, strict).Some? then Some(t)
      else
        UrlPrefix(obs, sp.start, sp.end);
        Some(t)
    case None => None
  }

  /** The bubble for a stripped, non-empty observation, given what the path search
      found in it. A media-looking observation becomes a media bubble: the found path
      titled as a video whenever a video extension occurs (even next to an image one),
      else as an image, or, when the search found nothing, the whole observation titled
      "Done". Anything else is shown as text after "Observation: ". */
  function BubbleFor(obs: string, found: Option<string>): (r: Message)
    requires found.Some? ==> Contains(obs, found.value)
    ensures r.role == "assistant" && r.status == Some(DoneStatus)
    ensures r.content.Media? <==> LooksLikeMedia(obs)
    ensures r.content.Media? ==> r.content.mime.None? && Contains(obs, r.content.path)
    ensures r.title == Some(VideoTitle) <==> LooksLikeMedia(obs) && IsVideo(obs) && found.Some?
    ensures r.title == Some(ImageTitle) <==> LooksLikeMedia(obs) && !IsVideo(obs) && found.Some?
    ensures r.title == Some(DoneTitle) <==> LooksLikeMedia(obs) && found.None?
    ensures LooksLikeMedia(obs) && found.Some? ==> r.content == Media(found.value, None)
    ensures r.title == Some(DoneTitle) ==> r.content == Media(obs, None)
    ensures !LooksLikeMedia(obs) ==> r == Message("assistant", Some(ResultTitle), Some(DoneStatus), Text("Observation: " + obs))
  {
    if LooksLikeMedia(obs) then
      match found
      case Some(path) =>
        Message("assistant", Some(if IsVideo(obs) then VideoTitle else ImageTitle), Some(DoneStatus), Media(path, None))
      case None =>
        assert OccursAt(obs, obs, 0);
        Message("assistant", Some(DoneTitle), Some(DoneStatus), Media(obs, None))
    else
      Message("assistant", Some(ResultTitle), Some(DoneStatus), Text("Observation: " + obs))
  }

  /** The observation bubble as the code computes it, with the pattern's `[^/]` segments
      that run across whitespace. */
  function ObservationMessage(obs: string): (r: Message)
    ensures r.role == "assistant" && r.status == Some(DoneStatus)
    ensures r.content.Media? <==> LooksLikeMedia(obs)
    ensures r.content.Media? ==> r.content.mime.None? && Contains(obs, r.content.path)
    ensures r.title == Some(VideoTitle) <==> LooksLikeMedia(obs) && IsVideo(obs) && SearchMedia(obs, false).Some?
    ensures r.title == Some(ImageTitle) <==> LooksLikeMedia(obs) && !IsVideo(obs) && SearchMedia(obs, false).Some?
    ensures r.title == Some(DoneTitle) <==> LooksLikeMedia(obs) && SearchMedia(obs, false).None?
    ensures LooksLikeMedia(obs) && SearchMedia(obs, false).Some? ==> r.content == Media(SearchMedia(obs, false).value, None)
    ensures r.title == Some(DoneTitle) ==> r.content == Media(obs, None)
    ensures !LooksLikeMedia(obs) ==> r == Message("assistant", Some(ResultTitle), Some(DoneStatus), Text("Observation: " + obs))
  {
    BubbleFor(obs, SearchMedia(obs, false))
  }

  /** The observation bubble with the corrected pattern, whose segments also stop at
      whitespace: a found path then never holds whitespace. */
  function StrictObservationMessage(obs: string): (r: Message)
    ensures r.role == "assistant" && r.status == Some(DoneStatus)
    ensures r.content.Media? <==> LooksLikeMedia(obs)
    ensures r.content.Media? ==> r.content.mime.None? && Contains(obs, r.content.path)
    ensures r.title == Some(VideoTitle) <==> LooksLikeMedia(obs) && IsVideo(obs) && SearchMedia(obs, true).Some?
    ensures r.title == Some(ImageTitle) <==> LooksLikeMedia(obs) && !IsVideo(obs) && SearchMedia(obs, true).Some?
    ensures r.title == Some(DoneTitle) <==> LooksLikeMedia(obs) && SearchMedia(obs, true).None?
    ensures LooksLikeMedia(obs) && SearchMedia(obs, true).Some? ==> r.content == Media(SearchMedia(obs, true).value, None)
    ensures r.title == Some(DoneTitle) ==> r.content == Media(obs, None)
    ensures r.title != Some(DoneTitle) && r.content.Media? ==> NoSpace(r.content.path)
    ensures !LooksLikeMedia(obs) ==> r == Message("assistant", Some(ResultTitle), Some(DoneStatus), Text("Observation: " + obs))
  {
    BubbleFor(obs, SearchMedia(obs, true))
  }

  /** The thinking bubble's text: the first tool call's code in a fenced block, or the
      placeholder when the step made no tool call. */
  function ThinkingText(toolArguments: seq<string>): (r: string)
    ensures toolArguments == [] <==> r == ThinkingPlaceholder
    ensures toolArguments != [] ==> |r| >= |CodingBanner| && r[..|CodingBanner|] == CodingBanner && EndsWith(r, toolArguments[0] + "\n```")
    ensures toolArguments != [] ==> |r| == |CodingBanner| + |toolArguments[0]| + 4
  {
    if toolArguments == [] then ThinkingPlaceholder
    else
      var r := CodingBanner + toolArguments[0] + "\n```";
      assert r[0] != ThinkingPlaceholder[0];
      Regroup(CodingBanner, toolArguments[0], "\n```", "", "");
      assert r == CodingBanner + (toolArguments[0] + "\n```");
      EndsWithAppended(CodingBanner, toolArguments[0] + "\n```");
      r
  }

  /** The code of the first tool call can be read back from the thinking bubble: it is
      exactly what lies between the coding banner and the closing fence. */
  lemma ThinkingShowsCode(toolArguments: seq<string>)
    requires toolArguments != []
    ensures var r := ThinkingText(toolArguments);
            |CodingBanner| <= |r| - 4 && r[|CodingBanner|..|r| - 4] == toolArguments[0]
  {
    var r := ThinkingText(toolArguments);
    var code := toolArguments[0];
    assert r[|r| - |code + "\n```"|..] == code + "\n```";
    assert r[|CodingBanner|..|r| - 4] == r[|r| - |code + "\n```"|..][..|code|];
  }

  /** `_process_step_for_ui`: nothing for a step that is not an action; otherwise the
      thinking bubble first, then one observation bubble exactly when the observations
      are present and non-empty. */
  function ProcessStep(ev: StepEvent): (r: seq<Message>)
    ensures ev.OtherEvent? ==> r == []
    ensures ev.Action? ==> |r| == 1 + Count(Truthy(ev.observations))
    ensures ev.Action? ==> r[0] == Say(None, Text(ThinkingText(ev.toolArguments))) && r[0].status.None?
    ensures ev.Action? && Truthy(ev.observations) ==> r[1] == ObservationMessage(Strip(ev.observations.value))
  {
    match ev
    case OtherEvent => []
    case Action(args, obs) =>
      [Say(None, Text(ThinkingText(args)))]
      + (if Truthy(obs) then [ObservationMessage(Strip(obs.value))] else [])
  }

  /** Without any '/', neither alternative can match: there is no path and no "://". */
  lemma NoSlashNoMedia(obs: string, strict: bool)
    requires '/' !in obs
    ensures SearchMedia(obs, strict).None?
  {
    forall k | 0 <= k < |obs|
      ensures MatchMediaAt(obs, k, strict).None?
    {
      if k + 7 <= |obs| {
        assert obs[k..k + 7][5] == obs[k + 5];
      }
      if k + 8 <= |obs| {
        assert obs[k..k + 8][6] == obs[k + 6];
      }
    }
    NoMatchFrom(obs, 0, strict);
  }

  /** No match anywhere from `i` on means the search from `i` fails. */
  lemma {:induction false} NoMatchFrom(s: string, i: nat, strict: bool)
    requires i <= |s|
    requires forall k :: i <= k < |s| ==> MatchMediaAt(s, k, strict).None?
    ensures SearchFrom(s, i, strict).None?
    decreases |s| - i
  {
    if i < |s| {
      NoMatchFrom(s, i + 1, strict);
    }
  }

  /** A media-looking observation without any '/' (an extension next to "http") defeats
      the search, and the whole observation becomes the media path. */
  lemma FallbackTakesWholeObservation(obs: string)
    requires '/' !in obs
    requires (IsVideo(obs) || IsImage(obs)) && Contains(obs, "http")
    ensures ObservationMessage(obs) == Message("assistant", Some(DoneTitle), Some(DoneStatus), Media(obs, None))
    ensures StrictObservationMessage(obs) == ObservationMessage(obs)
  {
    NoSlashNoMedia(obs, false);
    NoSlashNoMedia(obs, true);
  }

  /** As written, two paths separated by a space come back as ONE path spanning both:
      the segment class lets "a.png /" count as a directory. */
  lemma AsWrittenSpansTwoPaths()
    ensures SearchMedia("/a.png /b.png", false) == Some("/a.png /b.png")
  {
    var s := "/a.png /b.png";
    assert SegEnd(s, 13, false) == 13;
    assert NextSegment(s, 8, false).None?;
    assert OccursAt(s, MediaExts[0], 10);
    assert ExtEnd(s, 9) == Some(13);
    assert LazyFrom(s, 8, false) == Some(13);
    assert Alt1From(s, 8, false) == Some(13);
    assert SegEnd(s, 7, false) == 7;
    assert SegEnd(s, 1, false) == 7;
    assert NextSegment(s, 1, false) == Some(8);
    assert Alt1At(s, 0, false) == Some(13);
    assert SearchFrom(s, 0, false) == Some(Span(0, 13));
    assert s[0..13] == s;
  }

  /** As written, the bubble of the two-path observation shows both paths, and the
      space between them, as one media path. */
  lemma AsWrittenBubbleSpansTwoPaths(obs: string)
    requires obs == "/a.png /b.png"
    ensures ObservationMessage(obs).content == Media(obs, None)
  {
    assert SearchMedia(obs, false) == Some(obs) by {
      AsWrittenSpansTwoPaths();
    }
    assert LooksLikeMedia(obs) by {
      assert OccursAt(obs, ImageExts[0], 2);
      assert OccursAt(obs, "/", 0);
    }
    FoundPathShown(obs, obs);
  }

  /** A media-looking observation whose search finds `path` is shown as `path`. */
  lemma FoundPathShown(obs: string, path: string)
    requires LooksLikeMedia(obs) && SearchMedia(obs, false) == Some(path)
    ensures ObservationMessage(obs).content == Media(path, None)
  {
  }

  /** In a text without whitespace the two segment classes accept the same characters,
      so the code's search and the corrected one agree everywhere. */
  lemma {:induction false} SegEndAgrees(s: string, p: nat)
    requires NoSpace(s) && p <= |s|
    ensures SegEnd(s, p, false) == SegEnd(s, p, true)
    decreases |s| - p
  {
    if p < |s| && Allowed(s[p], false) {
      assert Allowed(s[p], true);
      SegEndAgrees(s, p + 1);
    }
  }

  lemma {:induction false} LazyEndAgrees(s: string, q: nat)
    requires NoSpace(s) && q <= |s|
    ensures LazyEnd(s, q, false) == LazyEnd(s, q, true)
    decreases |s| - q
  {
    if ExtEnd(s, q).None? && q < |s| && Allowed(s[q], false) {
      assert Allowed(s[q], true);
      LazyEndAgrees(s, q + 1);
    }
  }

  lemma {:induction false} Alt1FromAgrees(s: string, p: nat)
    requires NoSpace(s) && p <= |s|
    ensures Alt1From(s, p, false) == Alt1From(s, p, true)
    decreases |s| - p
  {
    SegEndAgrees(s, p);
    assert NextSegment(s, p, false) == NextSegment(s, p, true);
    if p < |s| && Allowed(s[p], false) {
      assert Allowed(s[p], true);
      LazyEndAgrees(s, p + 1);
    }
    assert LazyFrom(s, p, false) == LazyFrom(s, p, true);
    match NextSegment(s, p, true)
    case Some(p') => Alt1FromAgrees(s, p');
    case None =>
  }

  lemma {:induction false} SearchAgrees(s: string, i: nat)
    requires NoSpace(s) && i <= |s|
    ensures SearchFrom(s, i, false) == SearchFrom(s, i, true)
    decreases |s| - i
  {
    if i < |s| {
      if s[i] == '/' {
        Alt1FromAgrees(s, i + 1);
      }
      assert MatchMediaAt(s, i, false) == MatchMediaAt(s, i, true);
      SearchAgrees(s, i + 1);
    }
  }

  /** An observation without whitespace, such as a lone path or URL, gets the same
      bubble from the code and from the corrected pattern. */
  lemma NoSpaceBubblesAgree(obs: string)
    requires NoSpace(obs)
    ensures ObservationMessage(obs) == StrictObservationMessage(obs)
  {
    SearchAgrees(obs, 0);
    assert SearchMedia(obs, false) == SearchMedia(obs, true);
  }

  /** The video tool's success line for an https URL without whitespace naming an MP4
      file is shown, as the code computes the bubble, as a generated video of exactly
      that URL. */
  lemma VideoStatusShownAsVideo(rest: string)
    requires rest != [] && NoSpace(rest) && Contains(rest, ".mp4")
    ensures var url := "https://" + rest;
            ObservationMessage(FalTools.VideoStatus(FalTools.Video(Some(url))))
              == Message("assistant", Some(VideoTitle), Some(DoneStatus), Media(url, None))
  {
    var s := FalTools.VideoStatus(FalTools.Video(Some("https://" + rest)));
    VideoLineSearch(rest);
  }

  /** As the code searches it, the video tool's success line for such a URL matches from
      the start of the URL to the end of the line, and the line looks like a video. */
  lemma VideoLineSearch(rest: string)
    requires rest != [] && NoSpace(rest) && Contains(rest, ".mp4")
    ensures var s := FalTools.VideoStatus(FalTools.Video(Some("https://" + rest)));
            && SearchMedia(s, false) == Some("https://" + rest)
            && LooksLikeMedia(s) && IsVideo(s)
  {
    var url := "https://" + rest;
    var lead := FalTools.VideoSuccessLead;
    var s := FalTools.VideoStatus(FalTools.Video(Some(url)));
    assert s == lead + url;
    var i0 := |lead|;
    LeadSkipped(s, lead, url);
    assert s[i0..] == url;
    UrlParts(s, i0, rest);
    UrlMatchesToEnd(s, i0, rest);
    SearchHere(s, i0, false, |s|);
    SearchMediaSpan(s, false, Span(i0, |s|));
    assert s[i0..|s|] == url;
    VideoUrlLooksLikeMedia(s, i0, rest);
  }

  /** Where "https://" and then `rest` end a text, the scheme and the rest sit side by side. */
  lemma UrlParts(s: string, i0: nat, rest: string)
    requires i0 <= |s| && s[i0..] == "https://" + rest
    ensures i0 + 8 + |rest| == |s| && s[i0..i0 + 8] == "https://" && s[i0 + 8..] == rest
  {
    assert s[i0..][..8] == "https://";
    assert s[i0..][8..] == rest;
  }

  /** A lead without '/' and 'h' is skipped by the search. */
  lemma LeadSkipped(s: string, lead: string, tail: string)
    requires '/' !in lead && 'h' !in lead && s == lead + tail
    ensures SearchFrom(s, 0, false) == SearchFrom(s, |lead|, false)
  {
    assert s[..|lead|] == lead;
    PrefixNoMatch(s, lead, false);
    SkipNoMatch(s, 0, |lead|, false);
  }

  /** "https://" followed by a run of non-whitespace reaching the end of the text
      matches, as the code's pattern reads it, to the end of the text. */
  lemma UrlMatchesToEnd(s: string, i0: nat, rest: string)
    requires rest != [] && NoSpace(rest)
    requires i0 + 8 + |rest| == |s| && s[i0..i0 + 8] == "https://" && s[i0 + 8..] == rest
    ensures MatchMediaAt(s, i0, false) == Some(|s|)
  {
    assert s[i0 + 8] == rest[0];
    UrlRunsToEnd(s, i0 + 8, rest);
  }

  /** A run of non-whitespace reaching the end of the text ends there. */
  lemma UrlRunsToEnd(s: string, i: nat, rest: string)
    requires i <= |s| && s[i..] == rest && NoSpace(rest)
    ensures RunEnd(s, i) == |s|
  {
  }

  /** A text ending in "https://" and then a run naming an MP4 file looks like video. */
  lemma VideoUrlLooksLikeMedia(s: string, i0: nat, rest: string)
    requires i0 + 8 + |rest| == |s| && s[i0..i0 + 8] == "https://" && s[i0 + 8..] == rest
    requires Contains(rest, ".mp4")
    ensures LooksLikeMedia(s) && IsVideo(s)
  {
    var w :| 0 <= w <= |rest| && OccursAt(rest, ".mp4", w);
    assert s[i0 + 8 + w..i0 + 8 + w + 4] == rest[w..w + 4];
    assert OccursAt(s, VideoExts[0], i0 + 8 + w);
    assert s[i0 + 6] == s[i0..i0 + 8][6];
    assert s[i0 + 6..i0 + 7] == "/";
    assert OccursAt(s, "/", i0 + 6);
  }

  /** A separator that ends a path before any further '/': it holds no '/' at all, or
      whitespace comes before its first '/'. */
  predicate BreaksBeforeSlash(rest: string) {
    '/' !in rest || exists w :: 0 <= w < |rest| && IsSpace(rest[w]) && '/' !in rest[..w]
  }

  /** With segments stopped at whitespace, the search returns the first path of a listing
      such as "Generated 2 image(s): /tmp/a.png, /tmp/b.png". */
  lemma StrictFindsFirstPath(prefix: string, dir: string, name: string, rest: string)
    requires '/' !in prefix && 'h' !in prefix
    requires dir != [] && forall k :: 0 <= k < |dir| ==> Allowed(dir[k], true)
    requires name != [] && forall k :: 0 <= k < |name| ==> Allowed(name[k], true) && name[k] != '.'
    requires BreaksBeforeSlash(rest)
    ensures SearchMedia(prefix + "/" + dir + "/" + name + ".png" + rest, true)
            == Some("/" + dir + "/" + name + ".png")
  {
    PathRegroup(prefix, dir, name, rest);
    FirstPathOf(prefix + "/" + dir + "/" + name + ".png" + rest, prefix, dir, name, rest);
  }

  /** The corrected bubble of a listing shows the listing's first path as its media. */
  lemma ListingShowsFirstPath(prefix: string, dir: string, name: string, rest: string)
    requires '/' !in prefix && 'h' !in prefix
    requires dir != [] && forall k :: 0 <= k < |dir| ==> Allowed(dir[k], true)
    requires name != [] && forall k :: 0 <= k < |name| ==> Allowed(name[k], true) && name[k] != '.'
    requires BreaksBeforeSlash(rest)
    ensures StrictObservationMessage(prefix + "/" + dir + "/" + name + ".png" + rest).content
            == Media("/" + dir + "/" + name + ".png", None)
  {
    var path := "/" + dir + "/" + name + ".png";
    var obs := prefix + "/" + dir + "/" + name + ".png" + rest;
    StrictFindsFirstPath(prefix, dir, name, rest);
    PathRegroup(prefix, dir, name, rest);
    ListingLooksLikeMedia(obs, prefix, path, rest);
  }

  /** A text holding a PNG path names an image extension and a '/'. */
  lemma ListingLooksLikeMedia(obs: string, prefix: string, path: string, rest: string)
    requires |path| >= 5 && path[0] == '/' && path[|path| - 4..] == ".png"
    requires obs == prefix + (path + rest)
    ensures LooksLikeMedia(obs)
  {
    var at := |prefix| + |path| - 4;
    assert obs[at..at + 4] == path[|path| - 4..];
    assert OccursAt(obs, ImageExts[0], at);
    assert obs[|prefix|..|prefix| + 1] == "/";
    assert OccursAt(obs, "/", |prefix|);
  }

  /** `StrictFindsFirstPath` for the text `s`, given as prefix, path and rest. */
  lemma FirstPathOf(s: string, prefix: string, dir: string, name: string, rest: string)
    requires '/' !in prefix && 'h' !in prefix
    requires dir != [] && forall k :: 0 <= k < |dir| ==> Allowed(dir[k], true)
    requires name != [] && forall k :: 0 <= k < |name| ==> Allowed(name[k], true) && name[k] != '.'
    requires BreaksBeforeSlash(rest)
    requires s == prefix + (("/" + dir + "/" + name + ".png") + rest)
    ensures SearchMedia(s, true) == Some("/" + dir + "/" + name + ".png")
  {
    var p := "/" + dir + "/" + name + ".png";
    var i0 := |prefix|;
    var end := i0 + |p|;
    assert |p| == 6 + |dir| + |name|;
    ListingSlices(s, prefix, p, rest);
    PrefixNoMatch(s, prefix, true);
    SkipNoMatch(s, 0, i0, true);
    PathAlt1(s, i0, dir, name, rest);
    SearchHere(s, i0, true, end);
    assert SearchFrom(s, 0, true) == Some(Span(i0, end));
    SearchMediaSpan(s, true, Span(i0, end));
  }

  /** The pieces of a text made of a prefix, a path and a rest. */
  lemma ListingSlices(s: string, prefix: string, p: string, rest: string)
    requires s == prefix + (p + rest)
    ensures s[..|prefix|] == prefix && s[|prefix|..] == p + rest
    ensures s[|prefix|..|prefix| + |p|] == p
  {
    assert s[|prefix|..|prefix| + |p|] == (p + rest)[..|p|];
  }

  /** A match at `i` is what the search from `i` returns. */
  lemma SearchHere(s: string, i: nat, strict: bool, e: nat)
    requires i < |s| && MatchMediaAt(s, i, strict) == Some(e)
    ensures SearchFrom(s, i, strict) == Some(Span(i, e))
  {
  }

  /** A prefix without '/' and without 'h' holds no match start. */
  lemma PrefixNoMatch(s: string, prefix: string, strict: bool)
    requires '/' !in prefix && 'h' !in prefix
    requires |prefix| <= |s| && s[..|prefix|] == prefix
    ensures forall k :: 0 <= k < |prefix| ==> MatchMediaAt(s, k, strict).None?
  {
    forall k | 0 <= k < |prefix|
      ensures MatchMediaAt(s, k, strict).None?
    {
      assert s[k] == prefix[k];
      if k + 7 <= |s| {
        assert s[k..k + 7][0] == s[k];
      }
      if k + 8 <= |s| {
        assert s[k..k + 8][0] == s[k];
      }
    }
  }

  /** The text of a listing, regrouped around the path. */
  lemma PathRegroup(prefix: string, dir: string, name: string, rest: string)
    ensures prefix + "/" + dir + "/" + name + ".png" + rest == prefix + (("/" + dir + "/" + name + ".png") + rest)
  {
  }

  /** The search result is the text of the span found. */
  lemma SearchMediaSpan(s: string, strict: bool, sp: Span)
    requires SearchFrom(s, 0, strict) == Some(sp)
    ensures sp.start <= sp.end <= |s| && SearchMedia(s, strict) == Some(s[sp.start..sp.end])
  {
  }

  /** Positions without a match are skipped by the search. */
  lemma SkipNoMatch(s: string, i: nat, j: nat, strict: bool)
    requires i <= j <= |s|
    requires forall k :: i <= k < j ==> MatchMediaAt(s, k, strict).None?
    ensures SearchFrom(s, i, strict) == SearchFrom(s, j, strict)
  {
    forall k: nat | i <= k < j
      ensures SearchFrom(s, k, strict) == SearchFrom(s, k + 1, strict)
    {
      SearchStep(s, k, strict);
    }
    StepsEqual((k: nat) => if k <= |s| then SearchFrom(s, k, strict) else None, i, j);
  }

  /** A position without a match passes the search on to the next one. */
  lemma SearchStep(s: string, i: nat, strict: bool)
    requires i < |s| && MatchMediaAt(s, i, strict).None?
    ensures SearchFrom(s, i, strict) == SearchFrom(s, i + 1, strict)
  {
  }

  /** The path alternative, with segments stopped at whitespace, matches exactly the
      path "/dir/name.png" at `i0`. */
  lemma PathAlt1(s: string, i0: nat, dir: string, name: string, rest: string)
    requires dir != [] && forall k :: 0 <= k < |dir| ==> Allowed(dir[k], true)
    requires name != [] && forall k :: 0 <= k < |name| ==> Allowed(name[k], true) && name[k] != '.'
    requires BreaksBeforeSlash(rest)
    requires i0 <= |s| && s[i0..] == "/" + dir + "/" + name + ".png" + rest
    ensures i0 < |s| && MatchMediaAt(s, i0, true) == Some(i0 + 6 + |dir| + |name|)
  {
    var t := "/" + dir + "/" + name + ".png" + rest;
    var q := i0 + 2 + |dir|;
    assert |s| == i0 + |t|;
    assert s[i0] == t[0];
    DirSegment(s, i0, dir, name, rest);
    assert s[q..] == name + ".png" + rest by {
      assert s[q..] == t[q - i0..];
      assert t[q - i0..] == name + ".png" + rest;
    }
    NameMatch(s, q, name, rest);
  }

  /** The directory is taken as one segment. */
  lemma DirSegment(s: string, i0: nat, dir: string, name: string, rest: string)
    requires dir != [] && forall k :: 0 <= k < |dir| ==> Allowed(dir[k], true)
    requires i0 <= |s| && s[i0..] == "/" + dir + "/" + name + ".png" + rest
    ensures NextSegment(s, i0 + 1, true) == Some(i0 + 2 + |dir|)
  {
    var t := "/" + dir + "/" + name + ".png" + rest;
    var q := i0 + 2 + |dir|;
    assert |s| == i0 + |t|;
    forall k | i0 + 1 <= k < q - 1
      ensures Allowed(s[k], true)
    {
      assert s[k] == t[k - i0];
      assert t[k - i0] == dir[k - i0 - 1];
    }
    assert s[q - 1] == t[q - 1 - i0];
    SegEndSkips(s, i0 + 1, q - 1, true);
  }

  /** From the file name on, the path alternative ends right after ".png". */
  lemma NameMatch(s: string, q: nat, name: string, rest: string)
    requires name != [] && forall k :: 0 <= k < |name| ==> Allowed(name[k], true) && name[k] != '.'
    requires BreaksBeforeSlash(rest)
    requires q <= |s| && s[q..] == name + ".png" + rest
    ensures Alt1From(s, q, true) == Some(q + |name| + 4)
  {
    var dot := q + |name|;
    var end := dot + 4;
    NameShape(s, q, name, rest);
    assert NextSegment(s, q, true).None? by {
      NoSegmentAfterName(s, q, end, rest);
    }
    PngExtEnd(s, dot);
    assert LazyFrom(s, q, true) == LazyEnd(s, dot, true) by {
      LazySkips(s, q + 1, dot);
    }
  }

  /** ".png" at `dot` is an extension ending four characters later. */
  lemma PngExtEnd(s: string, dot: nat)
    requires dot + 4 <= |s| && s[dot..dot + 4] == ".png"
    ensures ExtEnd(s, dot) == Some(dot + 4)
  {
    assert s[dot] == s[dot..dot + 4][0];
    assert s[dot + 1..dot + 4] == s[dot..dot + 4][1..];
    assert OccursAt(s, MediaExts[0], dot + 1);
  }

  /** The text from `q` on, read as name, extension and rest. */
  lemma NameShape(s: string, q: nat, name: string, rest: string)
    requires forall k :: 0 <= k < |name| ==> Allowed(name[k], true) && name[k] != '.'
    requires q <= |s| && s[q..] == name + ".png" + rest
    ensures q + |name| + 4 <= |s|
    ensures forall k :: q <= k < q + |name| ==> Allowed(s[k], true) && s[k] != '.'
    ensures s[q + |name|..q + |name| + 4] == ".png"
    ensures s[q + |name| + 4..] == rest
  {
    var t := name + ".png" + rest;
    var dot := q + |name|;
    var end := dot + 4;
    assert |s| == q + |t|;
    forall k | q <= k < dot
      ensures Allowed(s[k], true) && s[k] != '.'
    {
      assert s[k] == t[k - q];
    }
    assert s[dot..end] == t[dot - q..end - q];
    assert s[end..] == t[end - q..];
  }

  /** Accepted characters do not end the run. */
  lemma {:induction false} SegEndSkips(s: string, p: nat, j: nat, strict: bool)
    requires p <= j <= |s|
    requires forall k :: p <= k < j ==> Allowed(s[k], strict)
    ensures SegEnd(s, p, strict) == SegEnd(s, j, strict)
    decreases j - p
  {
    if p < j {
      SegEndSkips(s, p + 1, j, strict);
    }
  }

  /** After the name and its extension, the run of accepted characters stops before any
      '/', so no further directory segment starts at `q`. */
  lemma NoSegmentAfterName(s: string, q: nat, end: nat, rest: string)
    requires q + 4 <= end <= |s| && s[end..] == rest
    requires forall k :: q <= k < end ==> Allowed(s[k], true)
    requires BreaksBeforeSlash(rest)
    ensures NextSegment(s, q, true).None?
  {
    var j := SegEnd(s, q, true);
    if j < |s| {
      assert s[j] == rest[j - end];
      if '/' in rest {
        var w :| 0 <= w < |rest| && IsSpace(rest[w]) && '/' !in rest[..w];
        if j - end < w {
          assert rest[..w][j - end] == rest[j - end];
        }
      }
    }
  }

  /** The lazy part passes over characters that cannot start an extension. */
  lemma LazySkips(s: string, q: nat, dot: nat)
    requires q <= dot < |s|
    requires forall k :: q <= k < dot ==> Allowed(s[k], true) && s[k] != '.'
    ensures LazyEnd(s, q, true) == LazyEnd(s, dot, true)
  {
    forall k: nat | q <= k < dot
      ensures LazyEnd(s, k, true) == LazyEnd(s, k + 1, true)
    {
      LazyStep(s, k);
    }
    StepsEqual((k: nat) => if k <= |s| then LazyEnd(s, k, true) else None, q, dot);
  }

  /** An accepted character other than '.' is taken by the lazy part. */
  lemma LazyStep(s: string, q: nat)
    requires q < |s| && Allowed(s[q], true) && s[q] != '.'
    ensures LazyEnd(s, q, true) == LazyEnd(s, q + 1, true)
  {
    assert ExtEnd(s, q).None?;
  }
}
