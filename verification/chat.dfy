/** The chat-widget message the streaming helpers produce (gradio's `ChatMessage`):
    a role, optional metadata (a title and a status), and content that is either text
    or a media file reference with an optional MIME hint. */
module Chat {
  import opened Base

  datatype Content = Text(text: string) | Media(path: string, mime: Option<string>)

  datatype Message = Message(role: string, title: Option<string>, status: Option<string>, content: Content)

  const PngMime := "image/png"

  /** An assistant message with an optional title and no status. */
  function Say(title: Option<string>, content: Content): Message {
    Message("assistant", title, None, content)
  }

  /** The media paths shown by `msgs`, in order. */
  function MediaPathsOf(msgs: seq<Message>): seq<string> {
    if msgs == [] then []
    else (if msgs[0].content.Media? then [msgs[0].content.path] else []) + MediaPathsOf(msgs[1..])
  }

  /** How many of `msgs` carry text. */
  function TextCount(msgs: seq<Message>): nat {
    if msgs == [] then 0
    else (if msgs[0].content.Text? then 1 else 0) + TextCount(msgs[1..])
  }

  lemma {:induction false} MediaPathsOfAppend(a: seq<Message>, b: seq<Message>)
    ensures MediaPathsOf(a + b) == MediaPathsOf(a) + MediaPathsOf(b)
  {
    if a == [] {
      assert a + b == b;
    } else {
      assert (a + b)[1..] == a[1..] + b;
      MediaPathsOfAppend(a[1..], b);
    }
  }

  lemma {:induction false} TextCountAppend(a: seq<Message>, b: seq<Message>)
    ensures TextCount(a + b) == TextCount(a) + TextCount(b)
  {
    if a == [] {
      assert a + b == b;
    } else {
      assert (a + b)[1..] == a[1..] + b;
      TextCountAppend(a[1..], b);
    }
  }
}
