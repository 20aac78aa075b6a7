/** The responder surface attached to every normalised message: the outbound
    requests the `send*` helpers build, and the effects a handler issues.

    A helper call is modelled by the request it hands to the transport, or by
    the error it raises before reaching the transport. Whether the transport,
    a fetch or a file read then succeeds is decided outside this module.
 */
module Responder {
  import opened Values
  import opened Text
  import Media

  /** The address suffix of a user chat. */
  const UserDomain := "@s.whatsapp.net"

  /** What a send delivers. Documents always go out as `application/octet-stream`. */
  datatype Content =
    | TextContent(text: string)
    | ImageContent(media: Media.Acquire, caption: string)
    | VideoContent(media: Media.Acquire, caption: string)
    | AudioContent(media: Media.Acquire, mimetype: Option<string>)
    | DocumentContent(media: Media.Acquire, fileName: string, docCaption: Option<string>)

  /** One call into the transport: a destination address and a content. */
  datatype Request = Request(jid: string, content: Content)

  /** Whether a transport call (with any fetch or read it needs) completed or threw. */
  datatype SendOutcome = Delivered | Threw(message: string)

  /** The effects a message handler issues, in order. */
  datatype Effect =
    | Reply(text: string)          // a text reply to the originating chat
    | Send(request: Request)       // a transport call
    | Pause(ms: nat)               // a wait between sends
    | AskAi(prompt: string)        // a call to the AI collaborator
    | ScheduleDemo(ms: nat)        // the demonstration sequence, started after a delay

  // ---------------------------------------------------------------------------
  // reading a list of effects

  /** The transport calls in a list of effects, in order. */
  function SentRequests(trace: seq<Effect>): seq<Request> {
    if trace == [] then []
    else (if trace[0].Send? then [trace[0].request] else []) + SentRequests(trace[1..])
  }

  /** The waits in a list of effects, in order. */
  function Waits(trace: seq<Effect>): seq<nat> {
    if trace == [] then []
    else (if trace[0].Pause? then [trace[0].ms] else []) + Waits(trace[1..])
  }

  /** The transport calls of two consecutive stretches of effects are those of the first, then those of the second. */
  lemma {:induction false} SentDistributes(a: seq<Effect>, b: seq<Effect>)
    ensures SentRequests(a + b) == SentRequests(a) + SentRequests(b)
  {
    if a == [] {
      assert a + b == b;
    } else {
      assert (a + b)[0] == a[0];
      assert (a + b)[1..] == a[1..] + b;
      SentDistributes(a[1..], b);
    }
  }

  /** Likewise for the waits. */
  lemma {:induction false} WaitsDistribute(a: seq<Effect>, b: seq<Effect>)
    ensures Waits(a + b) == Waits(a) + Waits(b)
  {
    if a == [] {
      assert a + b == b;
    } else {
      assert (a + b)[0] == a[0];
      assert (a + b)[1..] == a[1..] + b;
      WaitsDistribute(a[1..], b);
    }
  }

  /** Replies around a stretch of effects add no transport call and no wait. */
  lemma FramedByReplies(first: string, middle: seq<Effect>, last: string)
    ensures SentRequests([Reply(first)] + middle + [Reply(last)]) == SentRequests(middle)
    ensures Waits([Reply(first)] + middle + [Reply(last)]) == Waits(middle)
  {
    var head, tail := [Reply(first)], [Reply(last)];
    assert [Reply(first)] + middle + [Reply(last)] == head + (middle + tail);
    SentDistributes(head, middle + tail);
    SentDistributes(middle, tail);
    WaitsDistribute(head, middle + tail);
    WaitsDistribute(middle, tail);
    assert SentRequests(head) == [] + SentRequests([]);
    assert SentRequests(tail) == [] + SentRequests([]);
    assert Waits(head) == [] + Waits([]);
    assert Waits(tail) == [] + Waits([]);
  }

  // ---------------------------------------------------------------------------
  // addressing

  /** The address a helper sends to: a target that already contains `@` is used as
      is; a bare number gets the user-chat suffix. */
  function Qualify(number: string): (jid: string)
    ensures '@' in jid
    ensures StartsWith(jid, number)
    ensures '@' in number ==> jid == number
    ensures '@' !in number ==> jid == number + UserDomain
  {
    if '@' in number then number
    else
      var jid := number + UserDomain;
      assert jid[|number|] == '@';
      jid
  }

  /** Qualifying an address a second time changes nothing. */
  lemma QualifyIdempotent(number: string)
    ensures Qualify(Qualify(number)) == Qualify(number)
  {
  }

  // ---------------------------------------------------------------------------
  // the send helpers

  /** The error a type-specific helper raises for an argument that is neither a
      string nor a buffer. */
  function InvalidSourceFor(kind: string): string {
    "Invalid " + kind + " source." + Media.AcceptedSources
  }

  function SendText(number: string, text: string): (r: Request)
    ensures r.jid == Qualify(number) && r.content == TextContent(text)
  {
    Request(Qualify(number), TextContent(text))
  }

  function SendImage(number: string, src: Media.Source, caption: string): (r: Result<Request>)
    ensures r.Err? <==> src.OtherValue?
    ensures r.Err? ==> r.message == InvalidSourceFor("image")
    ensures r.Ok? ==> r.value.jid == Qualify(number)
    ensures r.Ok? ==> r.value.content == ImageContent(Media.Locate(src).value, caption)
  {
    match Media.Locate(src)
    case None => Err(InvalidSourceFor("image"))
    case Some(acq) => Ok(Request(Qualify(number), ImageContent(acq, caption)))
  }

  function SendVideo(number: string, src: Media.Source, caption: string): (r: Result<Request>)
    ensures r.Err? <==> src.OtherValue?
    ensures r.Err? ==> r.message == InvalidSourceFor("video")
    ensures r.Ok? ==> r.value.jid == Qualify(number)
    ensures r.Ok? ==> r.value.content == VideoContent(Media.Locate(src).value, caption)
  {
    match Media.Locate(src)
    case None => Err(InvalidSourceFor("video"))
    case Some(acq) => Ok(Request(Qualify(number), VideoContent(acq, caption)))
  }

  /** Audio takes no caption and is always sent as `audio/mp4`, not as a voice note. */
  function SendAudio(number: string, src: Media.Source): (r: Result<Request>)
    ensures r.Err? <==> src.OtherValue?
    ensures r.Err? ==> r.message == InvalidSourceFor("audio")
    ensures r.Ok? ==> r.value.jid == Qualify(number)
    ensures r.Ok? ==> r.value.content == AudioContent(Media.Locate(src).value, Some("audio/mp4"))
  {
    match Media.Locate(src)
    case None => Err(InvalidSourceFor("audio"))
    case Some(acq) => Ok(Request(Qualify(number), AudioContent(acq, Some("audio/mp4"))))
  }

  /** The document name `sendFile` uses: the given name when it is non-empty;
      otherwise the last `/` segment of a string source (which may be empty), or
      `file` for a buffer. */
  function FileNameFor(src: Media.Source, fileName: string): (name: string)
    requires !src.OtherValue?
    ensures fileName != "" ==> name == fileName
    ensures fileName == "" && src.Buffer? ==> name == "file"
    ensures fileName == "" && src.Str? ==> EndsWith(src.s, name) && '/' !in name
    ensures fileName == "" && src.Str? ==> |name| == |src.s| || src.s[|src.s| - |name| - 1] == '/'
  {
    if fileName != "" then fileName
    else if src.Str? then LastPiece(src.s, '/')
    else "file"
  }

  function SendFile(number: string, src: Media.Source, fileName: string): (r: Result<Request>)
    ensures r.Err? <==> src.OtherValue?
    ensures r.Err? ==> r.message == InvalidSourceFor("file")
    ensures r.Ok? ==> r.value.jid == Qualify(number)
    ensures r.Ok? ==>
      r.value.content == DocumentContent(Media.Locate(src).value, FileNameFor(src, fileName), None)
  {
    match Media.Locate(src)
    case None => Err(InvalidSourceFor("file"))
    case Some(acq) => Ok(Request(Qualify(number), DocumentContent(acq, FileNameFor(src, fileName), None)))
  }

  // ---------------------------------------------------------------------------
  // sendMedia: the kind is read off the URL's extension

  datatype MediaKind = ImageKind | VideoKind | AudioKind | DocumentKind

  const ImageExtensions := ["jpg", "jpeg", "png", "gif", "webp"]
  const VideoExtensions := ["mp4", "mov", "avi", "mkv"]
  const AudioExtensions := ["mp3", "ogg", "wav", "m4a"]

  /** Whether `url` ends with `.` and one of `exts`, ignoring ASCII case. */
  predicate HasExtension(url: string, exts: seq<string>) {
    exists i :: 0 <= i < |exts| && EndsWithIgnoringCase(url, "." + exts[i])
  }

  /** The kind `sendMedia` sends a URL as: image before video before audio, and a
      document when no listed extension matches. */
  function UrlKind(url: string): (k: MediaKind)
    ensures k == ImageKind <==> HasExtension(url, ImageExtensions)
    ensures k == VideoKind <==> !HasExtension(url, ImageExtensions) && HasExtension(url, VideoExtensions)
    ensures k == AudioKind <==>
      !HasExtension(url, ImageExtensions) && !HasExtension(url, VideoExtensions)
      && HasExtension(url, AudioExtensions)
  {
    if HasExtension(url, ImageExtensions) then ImageKind
    else if HasExtension(url, VideoExtensions) then VideoKind
    else if HasExtension(url, AudioExtensions) then AudioKind
    else DocumentKind
  }

  /** The extension test ignores case, so the kind of a URL is the kind of its lower-cased form. */
  lemma UrlKindIgnoresCase(url: string)
    ensures UrlKind(ToLower(url)) == UrlKind(url)
  {
    ToLowerIdempotent(url);
  }

  /** An upper-case `.JPG` ending makes an image. */
  lemma UpperCaseJpgIsImage(base: string)
    ensures UrlKind(base + ".JPG") == ImageKind
  {
    JpgEndingIgnoringCase(base);
    assert "." + ImageExtensions[0] == ".jpg";
    assert EndsWithIgnoringCase(base + ".JPG", "." + ImageExtensions[0]);
  }

  lemma JpgEndingIgnoringCase(base: string)
    ensures EndsWithIgnoringCase(base + ".JPG", ".jpg")
  {
    var url := base + ".JPG";
    ToLowerSuffix(url, 4);
    assert url[|url| - 4..] == ".JPG";
    assert ToLower(".JPG") == ".jpg";
  }

  /** The document name `sendMedia` uses: the last `/` segment of the URL, or `file`
      when that segment is empty. It is never empty and never contains `/`. */
  function DocumentName(url: string): (name: string)
    ensures name != "" && '/' !in name
    ensures name == "file" || (EndsWith(url, name) && (|name| == |url| || url[|url| - |name| - 1] == '/'))
    ensures name != "file" ==> name == LastPiece(url, '/')
  {
    var last := LastPiece(url, '/');
    if last == "" then "file" else last
  }

  /** `sendMedia`: the fetched URL is sent as the kind its extension names;
      audio drops the caption; a document is named after the URL. */
  function SendMedia(number: string, url: string, caption: string): (r: Request)
    ensures r.jid == Qualify(number)
    ensures r.content.ImageContent? <==> UrlKind(url) == ImageKind
    ensures r.content.VideoContent? <==> UrlKind(url) == VideoKind
    ensures r.content.AudioContent? <==> UrlKind(url) == AudioKind
    ensures r.content.DocumentContent? <==> UrlKind(url) == DocumentKind
    ensures r.content.media == Media.FetchUrl(url)
    ensures r.content.AudioContent? ==> r.content.mimetype.None?
    ensures r.content.DocumentContent? ==>
      r.content.fileName == DocumentName(url) && r.content.docCaption == Some(caption)
    ensures (r.content.ImageContent? || r.content.VideoContent?) ==> r.content.caption == caption
  {
    var media := Media.FetchUrl(url);
    var content :=
      match UrlKind(url)
      case ImageKind => ImageContent(media, caption)
      case VideoKind => VideoContent(media, caption)
      case AudioKind => AudioContent(media, None)
      case DocumentKind => DocumentContent(media, DocumentName(url), Some(caption));
    Request(Qualify(number), content)
  }
}
