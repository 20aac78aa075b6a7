/** The media helpers: where the bytes of a media argument come from, what kind
    of media a detected MIME type denotes, and the file name of a path or URL.

    Network fetches, file reads and content sniffing are not performed: their
    outcome is an input.
 */
module Media {
  import opened Values
  import opened Text

  /** A media argument as the helpers receive it: an in-memory buffer, a string
      (a URL or a file path), or any other value. */
  datatype Source = Buffer(bytes: seq<bv8>) | Str(s: string) | OtherValue

  /** How the bytes of an acceptable source are obtained. */
  datatype Acquire = UseBuffer(bytes: seq<bv8>) | FetchUrl(url: string) | ReadFile(path: string)

  /** The outcome of a fetch or a file read. */
  datatype Loaded = Loaded(bytes: seq<bv8>) | LoadFailed(message: string)

  /** What content sniffing reports: no known type, a MIME type, or an exception. */
  datatype Detection = Undetected | Detected(mime: string) | DetectorFailed

  /** The tail every invalid-source error message ends with. */
  const AcceptedSources := " Must be a file path, URL, or Buffer"

  const InvalidSource := "Invalid source." + AcceptedSources

  /** A string source is a URL exactly when it starts with `http`. */
  predicate IsUrl(s: string) {
    StartsWith(s, "http")
  }

  /** The classification every media helper applies to its argument: a buffer is used
      as it is, a URL is fetched, any other string is read as a file path, and any
      other value has no bytes to offer. */
  function Locate(src: Source): (r: Option<Acquire>)
    ensures r.None? <==> src.OtherValue?
    ensures r.Some? && r.value.UseBuffer? <==> src.Buffer?
    ensures r.Some? && r.value.FetchUrl? <==> src.Str? && IsUrl(src.s)
    ensures r.Some? && r.value.ReadFile? <==> src.Str? && !IsUrl(src.s)
    ensures src.Buffer? ==> r == Some(UseBuffer(src.bytes))
    ensures src.Str? ==> r == Some(FetchUrl(src.s)) || r == Some(ReadFile(src.s))
  {
    match src
    case Buffer(b) => Some(UseBuffer(b))
    case Str(s) => if IsUrl(s) then Some(FetchUrl(s)) else Some(ReadFile(s))
    case OtherValue => None
  }

  /** `getMediaBuffer`: the bytes of a source. A buffer comes back unchanged; any value
      that is neither a buffer nor a string is rejected; a URL or path yields the loaded
      bytes, or an error that names which of the two failed. */
  function GetMediaBuffer(src: Source, load: Loaded): (r: Result<seq<bv8>>)
    ensures src.Buffer? ==> r == Ok(src.bytes)
    ensures src.OtherValue? ==> r == Err(InvalidSource)
    ensures src.Str? && load.Loaded? ==> r == Ok(load.bytes)
    ensures src.Str? && load.LoadFailed? && IsUrl(src.s)
      ==> r == Err("Failed to fetch media: " + load.message)
    ensures src.Str? && load.LoadFailed? && !IsUrl(src.s)
      ==> r == Err("Failed to read file: " + load.message)
  {
    match Locate(src)
    case None => Err(InvalidSource)
    case Some(UseBuffer(b)) => Ok(b)
    case Some(FetchUrl(_)) =>
      (match load
       case Loaded(b) => Ok(b)
       case LoadFailed(m) => Err("Failed to fetch media: " + m))
    case Some(ReadFile(_)) =>
      (match load
       case Loaded(b) => Ok(b)
       case LoadFailed(m) => Err("Failed to read file: " + m))
  }

  /** The one way `getMediaBuffer` fails without touching the network or the disk. */
  lemma GetMediaBufferInvalidOnlyForOtherValues(src: Source, load: Loaded)
    ensures GetMediaBuffer(src, load) == Err(InvalidSource) <==> src.OtherValue?
  {
    if src.Str? && load.LoadFailed? {
      var m := load.message;
      assert InvalidSource[1] == 'n';
      if IsUrl(src.s) {
        assert ("Failed to fetch media: " + m)[1] == 'a';
      } else {
        assert ("Failed to read file: " + m)[1] == 'a';
      }
    }
  }

  /** `getMediaType`: the media kind a detected MIME type names. */
  function GetMediaType(d: Detection): (r: string)
    ensures r == "unknown" <==> !d.Detected?
    ensures d.Detected? ==> (r == "image" <==> StartsWith(d.mime, "image/"))
    ensures d.Detected? ==> (r == "video" <==> StartsWith(d.mime, "video/"))
    ensures d.Detected? ==> (r == "audio" <==> StartsWith(d.mime, "audio/"))
    ensures d.Detected? ==> (r == "document" <==>
      !StartsWith(d.mime, "image/") && !StartsWith(d.mime, "video/") && !StartsWith(d.mime, "audio/"))
  {
    match d
    case Undetected => "unknown"
    case DetectorFailed => "unknown"
    case Detected(mime) =>
      if StartsWith(mime, "image/") then "image"
      else if StartsWith(mime, "video/") then "video"
      else if StartsWith(mime, "audio/") then "audio"
      else "document"
  }

  predicate IsPathSeparator(c: char) {
    c == '/' || c == '\\'
  }

  /** `getFileName`: for a string, the text after its last `/` or `\`; for anything else, `file`.
      The name is a suffix of the string with neither separator in it, and it is either
      the whole string or preceded by a separator. */
  function GetFileName(src: Source): (r: string)
    ensures !src.Str? ==> r == "file"
    ensures src.Str? ==> EndsWith(src.s, r) && '/' !in r && '\\' !in r
    ensures src.Str? ==> |r| == |src.s| || IsPathSeparator(src.s[|src.s| - |r| - 1])
  {
    match src
    case Str(s) =>
      var afterSlash := LastPiece(s, '/');
      var r := LastPiece(afterSlash, '\\');
      SuffixOfSuffix(s, afterSlash, r);
      r
    case _ => "file"
  }

  /** A string with no separators is its own file name. */
  lemma FileNameWithoutSeparators(s: string)
    requires '/' !in s && '\\' !in s
    ensures GetFileName(Str(s)) == s
  {
  }

  /** A string that ends with a separator has the empty file name. */
  lemma FileNameAfterTrailingSeparator(s: string)
    requires |s| > 0 && IsPathSeparator(s[|s| - 1])
    ensures GetFileName(Str(s)) == ""
  {
  }
}
