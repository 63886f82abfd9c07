/** The chat messages `stream_from_smolagent` yields for one request: a placeholder,
    the messages of every dictionary step log, then the final answer assembled from the
    agent's output text and the existing PNG paths found in it.

    Final-answer rule: with no path, one titled text message holding the output; with
    exactly one path and no extra text, one image message; otherwise an optional titled
    text message (the stripped output) followed by one image message per path, in order.
    The output counts as having extra text when its stripped length exceeds the length
    of the paths joined by single spaces. */
module FinalAnswer {
  import opened Base
  import opened Text
  import opened Chat
  import opened MediaPaths
  import opened StepRender

  const AnalyzingText := "\U{1F914} Analyzing your request..."
  const FinalTitle := "\U{2705} Final Answer"

  /** An entry of the agent's logs; only dictionaries are rendered. */
  datatype LogEntry = DictLog(step: StepLog) | OtherLog

  predicate HasExtraText(output: string, paths: seq<string>) {
    |Strip(output)| > |Join(" ", paths)|
  }

  function ImageMessage(path: string): Message {
    Say(None, Media(path, Some(PngMime)))
  }

  function ImageMessages(paths: seq<string>): (r: seq<Message>)
    ensures |r| == |paths|
    ensures forall i :: 0 <= i < |r| ==> r[i] == ImageMessage(paths[i])
    ensures MediaPathsOf(r) == paths
    ensures TextCount(r) == 0
  {
    if paths == [] then []
    else
      var r := [ImageMessage(paths[0])] + ImageMessages(paths[1..]);
      assert r[1..] == ImageMessages(paths[1..]);
      assert paths == [paths[0]] + paths[1..];
      r
  }

  /** The final-answer messages for `output` and the paths extracted from it. The image
      messages show exactly `paths`, in order, each as "image/png"; there is at most one
      text message, present exactly when there is no path or the output has extra text,
      and then it comes first. */
  function FinalMessages(output: string, paths: seq<string>): (r: seq<Message>)
    ensures paths == [] ==> r == [Say(Some(FinalTitle), Text(output))]
    ensures MediaPathsOf(r) == paths
    ensures TextCount(r) == (if paths == [] || HasExtraText(output, paths) then 1 else 0)
    ensures |r| == |paths| + TextCount(r)
    ensures paths != [] && HasExtraText(output, paths) ==> r[0] == Say(Some(FinalTitle), Text(Strip(output)))
    ensures |paths| == 1 && !HasExtraText(output, paths) ==> r == [ImageMessage(paths[0])]
    ensures forall i :: 0 <= i < |r| && r[i].content.Media? ==> r[i].content.mime == Some(PngMime)
  {
    if paths == [] then
      [Say(Some(FinalTitle), Text(output))]
    else if |paths| == 1 && !HasExtraText(output, paths) then
      ImageMessages(paths)
    else
      TextThenImages(output, paths)
  }

  /** The optional stripped-output message, then one image message per path. */
  function TextThenImages(output: string, paths: seq<string>): (r: seq<Message>)
    ensures MediaPathsOf(r) == paths
    ensures TextCount(r) == (if HasExtraText(output, paths) then 1 else 0)
    ensures |r| == |paths| + TextCount(r)
    ensures HasExtraText(output, paths) ==> r[0] == Say(Some(FinalTitle), Text(Strip(output)))
    ensures forall i :: 0 <= i < |r| && r[i].content.Media? ==> r[i].content.mime == Some(PngMime)
  {
    var images := ImageMessages(paths);
    if HasExtraText(output, paths) then
      var t := [Say(Some(FinalTitle), Text(Strip(output)))];
      PrependText(t[0], images);
      t + images
    else
      images
  }

  /** A text message in front of `ms` adds one text and no media. */
  lemma PrependText(m: Message, ms: seq<Message>)
    requires m.content.Text?
    ensures MediaPathsOf([m] + ms) == MediaPathsOf(ms)
    ensures TextCount([m] + ms) == 1 + TextCount(ms)
  {
    assert ([m] + ms)[1..] == ms;
  }

  /** The single-image branch is only a shortcut: for any non-empty list of paths the
      result is the optional text message followed by one image message per path. */
  lemma SingleImageIsGeneralRule(output: string, paths: seq<string>)
    requires paths != []
    ensures FinalMessages(output, paths)
      == (if HasExtraText(output, paths) then [Say(Some(FinalTitle), Text(Strip(output)))] else [])
         + ImageMessages(paths)
  {
  }

  /** The final answer of `stream_from_smolagent`, with `os.path.exists` as `fileExists`. */
  function FinalAnswerFor(output: string, fileExists: string -> bool): (r: seq<Message>)
    ensures |r| >= 1
    ensures MediaPathsOf(r) == ParseImagePaths(output, fileExists)
    ensures ParseImagePaths(output, fileExists) == [] ==> r == [Say(Some(FinalTitle), Text(output))]
  {
    FinalMessages(output, ParseImagePaths(output, fileExists))
  }

  /** The messages of all dictionary logs, in log order: a dictionary log contributes its
      step's messages, any other log nothing, and none of them carries media. */
  function LogMessages(logs: seq<LogEntry>): (r: seq<Message>)
    ensures MediaPathsOf(r) == []
    ensures |logs| == 1 && logs[0].DictLog? ==> r == PullMessages(logs[0].step)
    ensures |logs| == 1 && !logs[0].DictLog? ==> r == []
  {
    if logs == [] then []
    else
      var first := if logs[0].DictLog? then PullMessages(logs[0].step) else [];
      TextOnlyHasNoMedia(first);
      MediaPathsOfAppend(first, LogMessages(logs[1..]));
      first + LogMessages(logs[1..])
  }

  /** The messages of consecutive runs of logs are the messages of each run, in order. */
  lemma {:induction false} LogMessagesAppend(a: seq<LogEntry>, b: seq<LogEntry>)
    ensures LogMessages(a + b) == LogMessages(a) + LogMessages(b)
  {
    if a == [] {
      assert a + b == b;
    } else {
      assert (a + b)[1..] == a[1..] + b;
      assert (a + b)[0] == a[0];
      LogMessagesAppend(a[1..], b);
      var first := if a[0].DictLog? then PullMessages(a[0].step) else [];
      AppendAssoc(first, LogMessages(a[1..]), LogMessages(b));
    }
  }

  /** Step-log messages carry text only. */
  lemma TextOnlyHasNoMedia(ms: seq<Message>)
    requires forall i :: 0 <= i < |ms| ==> ms[i].content.Text?
    ensures MediaPathsOf(ms) == []
  {
  }

  /** Every message `stream_from_smolagent` yields, for an agent run that produced the logs
      `logs` and the output `output`. The first one is always the placeholder, then come
      the messages of the logs, the last ones are the final answer, and the media shown
      are exactly the existing PNG paths extracted from the output, in order. */
  function StreamFromSmolagent(output: string, logs: seq<LogEntry>, fileExists: string -> bool): (r: seq<Message>)
    ensures |r| >= 2
    ensures r[0] == Say(None, Text(AnalyzingText))
    ensures MediaPathsOf(r) == ParseImagePaths(output, fileExists)
    ensures |FinalAnswerFor(output, fileExists)| < |r|
    ensures r[1..|r| - |FinalAnswerFor(output, fileExists)|] == LogMessages(logs)
  {
    var mid := LogMessages(logs);
    var fin := FinalAnswerFor(output, fileExists);
    PlaceholderShape(mid, fin);
    var r := [Say(None, Text(AnalyzingText))] + mid + fin;
    assert r[1..|r| - |fin|] == mid;
    r
  }

  /** The placeholder, media-free log messages and the final answer, glued together. */
  lemma PlaceholderShape(mid: seq<Message>, fin: seq<Message>)
    requires MediaPathsOf(mid) == []
    ensures var r := [Say(None, Text(AnalyzingText))] + mid + fin;
            |r| == 1 + |mid| + |fin| && r[0] == Say(None, Text(AnalyzingText))
            && MediaPathsOf(r) == MediaPathsOf(fin)
  {
    var head := [Say(None, Text(AnalyzingText))];
    ConcatShape(head, mid, fin);
    assert MediaPathsOf(head) == [] by {
      assert head[1..] == [];
    }
  }

  /** The stream ends with the final answer. */
  lemma StreamEndsWithFinalAnswer(output: string, logs: seq<LogEntry>, fileExists: string -> bool)
    ensures var r := StreamFromSmolagent(output, logs, fileExists);
            var fin := FinalAnswerFor(output, fileExists);
            |fin| <= |r| && r[|r| - |fin|..] == fin
  {
    ConcatShape([Say(None, Text(AnalyzingText))], LogMessages(logs), FinalAnswerFor(output, fileExists));
  }

  /** Placeholder, log messages and final answer, glued together. */
  lemma ConcatShape(a: seq<Message>, b: seq<Message>, c: seq<Message>)
    ensures (a + b + c)[|a + b + c| - |c|..] == c
    ensures a != [] ==> (a + b + c)[0] == a[0]
    ensures MediaPathsOf(a + b + c) == MediaPathsOf(a) + MediaPathsOf(b) + MediaPathsOf(c)
  {
    MediaPathsOfAppend(a, b);
    MediaPathsOfAppend(a + b, c);
  }

  /** An output that names one existing image after a line of prose yields a text message
      and then the image, not the image alone: the prose makes the stripped output longer
      than the path. */
  lemma StatusLineGivesTextAndImage(fileExists: string -> bool)
    requires fileExists("/tmp/abc.png")
    ensures FinalAnswerFor("Generated 1 image(s): /tmp/abc.png", fileExists)
      == [Say(Some(FinalTitle), Text("Generated 1 image(s): /tmp/abc.png")), ImageMessage("/tmp/abc.png")]
  {
    StatusLinePath(fileExists);
    StatusLineTrimmed();
    ProseBeforeOnePath("Generated 1 image(s): /tmp/abc.png", "/tmp/abc.png");
  }

  /** The status line has no surrounding whitespace and is longer than its path. */
  lemma StatusLineTrimmed()
    ensures Strip("Generated 1 image(s): /tmp/abc.png") == "Generated 1 image(s): /tmp/abc.png"
    ensures |"Generated 1 image(s): /tmp/abc.png"| > |"/tmp/abc.png"|
  {
    var s := "Generated 1 image(s): /tmp/abc.png";
    assert s[0] == 'G' && s[|s| - 1] == 'g';
    StripTrimmed(s);
  }

  /** A trimmed output longer than its only path gives the output as text, then the
      image. */
  lemma ProseBeforeOnePath(out: string, p: string)
    requires Strip(out) == out && |out| > |p|
    ensures FinalMessages(out, [p]) == [Say(Some(FinalTitle), Text(out)), ImageMessage(p)]
  {
    ExtraBeforeOnePath(out, p);
    OnePathImages(p);
    PairConcat(Say(Some(FinalTitle), Text(out)), ImageMessage(p));
  }

  /** An output longer than its only path takes the general branch, with the stripped
      output as its text message. */
  lemma ExtraBeforeOnePath(out: string, p: string)
    requires |Strip(out)| > |p|
    ensures FinalMessages(out, [p]) == [Say(Some(FinalTitle), Text(Strip(out)))] + ImageMessages([p])
  {
    assert HasExtraText(out, [p]) by {
      assert Join(" ", [p]) == p;
    }
    assert FinalMessages(out, [p]) == TextThenImages(out, [p]);
  }

  /** One path gives one image message. */
  lemma OnePathImages(p: string)
    ensures ImageMessages([p]) == [ImageMessage(p)]
  {
    assert ImageMessages([p])[0] == ImageMessage(p);
  }

  /** The status line of a one-image generation yields exactly its path. */
  lemma StatusLinePath(fileExists: string -> bool)
    requires fileExists("/tmp/abc.png")
    ensures ParseImagePaths("Generated 1 image(s): /tmp/abc.png", fileExists) == ["/tmp/abc.png"]
  {
    var prefix := "Generated 1 image(s): ";
    var p := "/tmp/abc.png";
    assert FindAll(prefix + p) == [p] by {
      assert IsPngPath(p) by {
        assert p[|p| - 4..] == ".png";
      }
      assert Separates(", ") by {
        assert IsSpace(", "[1]);
      }
      assert Join(", ", [p]) == p;
      JoinedPathsRoundTrip(prefix, ", ", [p]);
    }
    assert prefix + p == "Generated 1 image(s): /tmp/abc.png";
    FilterAll([p], fileExists);
  }
}
