/** The three fal.ai media tools: the arguments each one sends and the status string it
    returns. The remote call, the downloads and the temporary files are inputs: the
    API's answer is a `Reply`, and the saving of the k-th downloaded image is `save(k)`,
    which gives the saved file's name or the error it raised. No tool ever raises: every
    failure becomes a status string with a fixed prefix. */
module FalTools {
  import opened Base
  import opened Text
  import opened MediaPaths

  /** The outcome of a step that may raise. */
  datatype Call<T> = Ok(value: T) | Failed(error: string)

  // ---------------------------------------------------------------- image generation

  const ImageModels: map<string, string> := map[
    "nano-banana" := "fal-ai/nano-banana",
    "flux-schnell" := "fal-ai/flux/schnell",
    "flux-pro" := "fal-ai/flux-pro"]

  const FallbackImageModel := "fal-ai/nano-banana"

  /** The arguments of an image-generation request, and the endpoint it goes to. */
  datatype ImageArgs = ImageArgs(endpoint: string, prompt: string, width: int, height: int,
                                 numImages: int, inferenceSteps: int)

  /** The endpoint of a model name; unknown names fall back to nano-banana. */
  function ResolveModel(model: string): (r: string)
    ensures r in ImageModels.Values
    ensures model in ImageModels ==> r == ImageModels[model]
    ensures model !in ImageModels ==> r == FallbackImageModel
  {
    assert ImageModels["nano-banana"] == FallbackImageModel;
    if model in ImageModels then ImageModels[model] else FallbackImageModel
  }

  /** The request `FalImageGenerationTool.forward` submits. The image count is capped at
      four and never raised; width and height pass through unchanged; 12 inference steps
      exactly when the model argument is literally "nano-banana", 28 otherwise. */
  function ImageRequest(prompt: string, model: string, width: int, height: int, numImages: int): (r: ImageArgs)
    ensures r.endpoint == ResolveModel(model) && r.prompt == prompt
    ensures r.width == width && r.height == height
    ensures r.numImages <= 4 && r.numImages <= numImages
    ensures numImages <= 4 ==> r.numImages == numImages
    ensures numImages > 4 ==> r.numImages == 4
    ensures r.inferenceSteps == 12 <==> model == "nano-banana"
    ensures r.inferenceSteps == 12 || r.inferenceSteps == 28
  {
    ImageArgs(ResolveModel(model), prompt, width, height,
              if numImages < 4 then numImages else 4,
              if model == "nano-banana" then 12 else 28)
  }

  /** An unknown model name is served by the nano-banana endpoint but still gets the
      28 steps of a non-nano-banana model. */
  lemma UnknownModelFallsBackWithFullSteps(prompt: string, model: string, width: int, height: int, n: int)
    requires model !in ImageModels
    ensures var r := ImageRequest(prompt, model, width, height, n);
            r.endpoint == ImageRequest(prompt, "nano-banana", width, height, n).endpoint
            && r.inferenceSteps == 28
            && ImageRequest(prompt, "nano-banana", width, height, n).inferenceSteps == 12
  {
  }

  /** The answer of the API: its items' "url" entries when it has an "images" entry, or
      the error raised by the submission. */
  datatype ImageReply = Images(urls: Option<seq<Option<string>>>) | ImageCallFailed(error: string)

  /** Downloads and saves every truthy URL in order; the n-th one saved is `save(k + n)`.
      Stops at the first failure, whose error is the result. */
  function SaveAll(urls: seq<Option<string>>, save: nat -> Call<string>, k: nat): (r: Call<seq<string>>)
    ensures r.Ok? ==> |r.value| == CountTruthy(urls)
    ensures r.Ok? ==> forall n :: 0 <= n < |r.value| ==> save(k + n) == Ok(r.value[n])
    ensures r.Failed? ==> exists i: nat :: k <= i < k + CountTruthy(urls) && save(i) == Failed(r.error)
                                           && forall j: nat :: k <= j < i ==> save(j).Ok?
    decreases |urls|
  {
    if urls == [] then Ok([])
    else if urls[0].None? || urls[0].value == "" then SaveAll(urls[1..], save, k)
    else
      match save(k)
      case Failed(e) => Failed(e)
      case Ok(path) =>
        match SaveAll(urls[1..], save, k + 1)
        case Failed(e) => Failed(e)
        case Ok(rest) =>
          Ok([path] + rest)
  }

  /** The save fails exactly when one of the truthy URLs' saves fails. */
  lemma SaveAllFailsIffSomeSaveFails(urls: seq<Option<string>>, save: nat -> Call<string>, k: nat)
    ensures SaveAll(urls, save, k).Failed? <==> exists i: nat :: k <= i < k + CountTruthy(urls) && save(i).Failed?
  {
    var r := SaveAll(urls, save, k);
    if r.Ok? {
      forall i: nat | k <= i < k + CountTruthy(urls)
        ensures save(i).Ok?
      {
        assert save(k + (i - k)) == Ok(r.value[i - k]);
      }
    }
  }

  /** How many URLs are present and non-empty. */
  function CountTruthy(urls: seq<Option<string>>): nat {
    if urls == [] then 0
    else (if urls[0].Some? && urls[0].value != "" then 1 else 0) + CountTruthy(urls[1..])
  }

  const ImageSuccessLead := "Generated "
  const ImageSuccessMid := " image(s): "
  const ImageErrorLead := "Error generating images: "

  /** The status line of a successful generation. */
  function ImageSuccess(paths: seq<string>): string {
    ImageSuccessLead + NatToString(|paths|) + ImageSuccessMid + Join(", ", paths)
  }

  /** The string `FalImageGenerationTool.forward` returns: the count and the saved paths
      (the count may be 0, and a reply without "images" saves nothing), or the error
      prefix followed by the message of whatever raised. */
  function ImageStatus(reply: ImageReply, save: nat -> Call<string>): (r: string)
    ensures reply.ImageCallFailed? ==> r == ImageErrorLead + reply.error
    ensures reply.Images? && reply.urls.None? ==> r == ImageSuccess([])
    ensures reply.Images? && SaveAll(reply.urls.GetOr([]), save, 0).Ok? ==>
              r == ImageSuccess(SaveAll(reply.urls.GetOr([]), save, 0).value)
    ensures reply.Images? && SaveAll(reply.urls.GetOr([]), save, 0).Failed? ==>
              r == ImageErrorLead + SaveAll(reply.urls.GetOr([]), save, 0).error
  {
    match reply
    case ImageCallFailed(e) => ImageErrorLead + e
    case Images(urls) =>
      match SaveAll(urls.GetOr([]), save, 0)
      case Failed(e) => ImageErrorLead + e
      case Ok(paths) => ImageSuccess(paths)
  }

  /** The status line lists its paths so that the path scanner of the chat layer reads
      them back exactly, in order, as long as every saved name is a well-formed PNG path. */
  lemma ImageSuccessRoundTrip(paths: seq<string>)
    requires forall k :: 0 <= k < |paths| ==> IsPngPath(paths[k])
    ensures FindAll(ImageSuccess(paths)) == paths
  {
    var digits := NatToString(|paths|);
    var prefix := ImageSuccessLead + digits + ImageSuccessMid;
    assert '/' !in prefix by {
      forall i | 0 <= i < |prefix|
        ensures prefix[i] != '/'
      {
        if |ImageSuccessLead| <= i < |ImageSuccessLead| + |digits| {
          assert prefix[i] == digits[i - |ImageSuccessLead|];
        }
      }
    }
    assert Separates(", ") by {
      assert IsSpace(", "[1]);
    }
    JoinedPathsRoundTrip(prefix, ", ", paths);
  }

  // ---------------------------------------------------------------- video generation

  const VideoEndpoint := "fal-ai/luma-dream-machine"

  /** `min(max(duration, 3), 10)`. */
  function ClampDuration(d: int): (r: int)
    ensures 3 <= r <= 10
    ensures 3 <= d <= 10 ==> r == d
    ensures d < 3 ==> r == 3
    ensures d > 10 ==> r == 10
  {
    var atLeast := if d > 3 then d else 3;
    if atLeast < 10 then atLeast else 10
  }

  /** Clamping twice is clamping once. */
  lemma ClampIdempotent(d: int)
    ensures ClampDuration(ClampDuration(d)) == ClampDuration(d)
  {
  }

  datatype VideoArgs = VideoArgs(endpoint: string, prompt: string, duration: int)

  /** The request `FalVideoGenerationTool.forward` submits. */
  function VideoRequest(prompt: string, duration: int): (r: VideoArgs)
    ensures r.endpoint == VideoEndpoint && r.prompt == prompt
    ensures 3 <= r.duration <= 10 && r.duration == ClampDuration(duration)
  {
    VideoArgs(VideoEndpoint, prompt, ClampDuration(duration))
  }

  /** The answer of the API: the "url" of its "video" entry when it has one (which may
      itself be missing, and is then printed as "None"), else its `str()` rendering; or
      the error raised. */
  datatype VideoReply = Video(url: Option<string>) | NoVideo(rendered: string) | VideoCallFailed(error: string)

  const VideoSuccessLead := "Generated video: "
  const VideoOtherLead := "Video generation completed: "
  const VideoErrorLead := "Error generating video: "

  /** The string `FalVideoGenerationTool.forward` returns. */
  function VideoStatus(reply: VideoReply): (r: string)
    ensures reply.Video? ==> r == VideoSuccessLead + reply.url.GetOr("None")
    ensures reply.NoVideo? ==> r == VideoOtherLead + reply.rendered
    ensures reply.VideoCallFailed? ==> r == VideoErrorLead + reply.error
  {
    match reply
    case Video(url) => VideoSuccessLead + url.GetOr("None")
    case NoVideo(rendered) => VideoOtherLead + rendered
    case VideoCallFailed(e) => VideoErrorLead + e
  }

  /** The three outcomes are told apart by their leads, and the text after the lead is
      the URL (or "None"), the rendered result, or the error. */
  lemma VideoStatusReadBack(reply: VideoReply)
    ensures var r := VideoStatus(reply);
            && (OccursAt(r, VideoSuccessLead, 0) <==> reply.Video?)
            && (OccursAt(r, VideoOtherLead, 0) <==> reply.NoVideo?)
            && (OccursAt(r, VideoErrorLead, 0) <==> reply.VideoCallFailed?)
    ensures reply.Video? ==> VideoStatus(reply)[|VideoSuccessLead|..] == reply.url.GetOr("None")
    ensures reply.NoVideo? ==> VideoStatus(reply)[|VideoOtherLead|..] == reply.rendered
    ensures reply.VideoCallFailed? ==> VideoStatus(reply)[|VideoErrorLead|..] == reply.error
  {
    var r := VideoStatus(reply);
    match reply
    case Video(url) =>
      assert r[..|VideoSuccessLead|] == VideoSuccessLead;
      assert r[0] == VideoSuccessLead[0];
    case NoVideo(rendered) =>
      assert r[..|VideoOtherLead|] == VideoOtherLead;
      assert r[0] == VideoOtherLead[0];
    case VideoCallFailed(e) =>
      assert r[..|VideoErrorLead|] == VideoErrorLead;
      assert r[0] == VideoErrorLead[0];
  }

  // ---------------------------------------------------------------- image editing

  const EditEndpoint := "fal-ai/flux/dev/image-to-image"

  datatype EditArgs = EditArgs(endpoint: string, imageUrl: string, prompt: string, strength: real)

  /** The request `FalImageEditTool.forward` submits once the image is uploaded to
      `imageUrl`; the strength is sent as given, not clamped to [0, 1]. */
  function EditRequest(imageUrl: string, prompt: string, strength: real): (r: EditArgs)
    ensures r.endpoint == EditEndpoint && r.imageUrl == imageUrl && r.prompt == prompt
    ensures r.strength == strength
  {
    EditArgs(EditEndpoint, imageUrl, prompt, strength)
  }

  /** The answer of the API: whether its "images" entry is a non-empty list, and its
      `str()` rendering; or the error raised by the upload or the submission. */
  datatype EditReply = Edited(hasImages: bool, rendered: string) | EditCallFailed(error: string)

  const EditSuccessLead := "Edited image saved to: "
  const EditOtherLead := "Image editing completed: "
  const EditErrorLead := "Error editing image: "

  /** The string `FalImageEditTool.forward` returns; `save` is the download and save of
      the first edited image. */
  function EditStatus(reply: EditReply, save: Call<string>): (r: string)
    ensures reply.EditCallFailed? ==> r == EditErrorLead + reply.error
    ensures reply.Edited? && !reply.hasImages ==> r == EditOtherLead + reply.rendered
    ensures reply.Edited? && reply.hasImages && save.Ok? ==> r == EditSuccessLead + save.value
    ensures reply.Edited? && reply.hasImages && save.Failed? ==> r == EditErrorLead + save.error
  {
    match reply
    case EditCallFailed(e) => EditErrorLead + e
    case Edited(hasImages, rendered) =>
      if !hasImages then EditOtherLead + rendered
      else
        match save
        case Ok(path) => EditSuccessLead + path
        case Failed(e) => EditErrorLead + e
  }

  /** The three outcomes are told apart by their leads: success exactly when the edit
      returned images and the first one was saved, the other lead exactly when it
      returned none, and the error lead for a failed call or a failed save. */
  lemma EditStatusReadBack(reply: EditReply, save: Call<string>)
    ensures var r := EditStatus(reply, save);
            && (OccursAt(r, EditSuccessLead, 0) <==> reply.Edited? && reply.hasImages && save.Ok?)
            && (OccursAt(r, EditOtherLead, 0) <==> reply.Edited? && !reply.hasImages)
            && (OccursAt(r, EditErrorLead, 0) <==> reply.EditCallFailed? || (reply.hasImages && save.Failed?))
  {
    var r := EditStatus(reply, save);
    if OccursAt(r, EditSuccessLead, 0) {
      assert r[1] == EditSuccessLead[1];
    }
    if OccursAt(r, EditOtherLead, 0) {
      assert r[0] == EditOtherLead[0];
    }
    if OccursAt(r, EditErrorLead, 0) {
      assert r[1] == EditErrorLead[1];
    }
    if reply.Edited? && reply.hasImages && save.Ok? {
      assert r[..|EditSuccessLead|] == EditSuccessLead;
    } else if reply.Edited? && !reply.hasImages {
      assert r[..|EditOtherLead|] == EditOtherLead;
    } else {
      assert r[..|EditErrorLead|] == EditErrorLead;
    }
  }

  /** The success line names the saved file so that the path scanner of the chat layer
      reads back exactly that one path. */
  lemma EditSuccessRoundTrip(rendered: string, path: string)
    requires IsPngPath(path)
    ensures FindAll(EditStatus(Edited(true, rendered), Ok(path))) == [path]
  {
    assert '/' !in EditSuccessLead;
    assert Separates(" ") by {
      assert IsSpace(" "[0]);
    }
    assert Join(" ", [path]) == path;
    JoinedPathsRoundTrip(EditSuccessLead, " ", [path]);
  }
}
