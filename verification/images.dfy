/** `MCPClient.process_image_query` (d1.py:114-159): turning an image
    reference into a data URL and asking the multimodal model about it.

    The file system, base64 encoding and Python's `base64.b64decode` are not
    modelled: a `Host` supplies the files that exist, the encoder, and the
    decoder's verdict on a string (the text of its exception, or None).
    Paths are POSIX paths: only `/` separates their components. */
module Images {
  import opened Wrappers
  import Text
  import Engine

  newtype byte = x: int | 0 <= x < 256

  /** A raised exception: `str(e)` and the formatted traceback. */
  datatype Fault = Fault(message: string, traceback: string)

  /** An existing path: a file whose bytes can be read, or one whose
      `open` raises (a directory, missing permission). */
  datatype FileEntry = Readable(bytes: seq<byte>) | Unreadable(fault: Fault)

  /** `files` holds the paths `os.path.exists` accepts. For any other path
      `missingError` is how `open` fails on it: None for
      `FileNotFoundError`, otherwise the text of the other `OSError` it
      raises (a path through a regular file, a name that is too long, a
      directory that cannot be searched). */
  datatype Host = Host(
    files: map<string, FileEntry>,
    missingError: string -> Option<string>,
    encode: seq<byte> -> string,
    decodeError: string -> Option<string>)

  /** `base64.b64decode(s)` does not raise. */
  predicate Decodable(host: Host, s: string) {
    host.decodeError(s).None?
  }

  const DataImagePrefix := "data:image"
  const PngDataPrefix := "data:image/png;base64,"

  /** `data:image/<subtype>;base64,<payload>`. */
  function DataUrl(subtype: string, payload: string): (u: string)
    ensures Text.StartsWith(u, DataImagePrefix)
  {
    var u := "data:image/" + subtype + ";base64," + payload;
    assert u[..|DataImagePrefix|] == DataImagePrefix;
    u
  }

  /** `data:image/png;base64,<payload>`. */
  function PngDataUrl(payload: string): (u: string)
    ensures u == DataUrl("png", payload)
    ensures Text.StartsWith(u, DataImagePrefix)
  {
    assert PngDataPrefix + payload == DataUrl("png", payload);
    PngDataPrefix + payload
  }

  /** Index of the last `c` in `s`, if any. */
  function LastIndexOf(s: string, c: char): (r: Option<nat>)
    ensures r.None? <==> c !in s
    ensures r.Some? ==> r.value < |s| && s[r.value] == c && c !in s[r.value + 1..]
    decreases |s|
  {
    if |s| == 0 then None
    else if s[|s| - 1] == c then Some(|s| - 1)
    else
      var r := LastIndexOf(s[..|s| - 1], c);
      assert s == s[..|s| - 1] + [s[|s| - 1]];
      r
  }

  /** `Path(p).name`: the text after the last `/`. */
  function FileName(p: string): (name: string)
    ensures '/' !in name
    ensures Text.EndsWith(p, name)
    ensures name == p || (|name| < |p| && p[|p| - |name| - 1] == '/')
  {
    match LastIndexOf(p, '/')
    case None => p
    case Some(i) => p[i + 1..]
  }

  /** `Path(p).suffix[1:]`: the text after the last dot of the file name,
      empty when the name has no dot, only a leading one, or ends in one. */
  function Subtype(p: string): (ext: string)
    ensures '.' !in ext && '/' !in ext
    ensures Text.EndsWith(FileName(p), ext)
    ensures ext != "" ==> |ext| + 1 < |FileName(p)| && FileName(p)[|FileName(p)| - |ext| - 1] == '.'
    ensures ext == "" ==> forall i :: 0 < i < |FileName(p)| - 1 && FileName(p)[i] == '.' ==>
                                       '.' in FileName(p)[i + 1..]
  {
    Extension(FileName(p))
  }

  /** The extension of a file name `name` with no `/` in it. */
  function Extension(name: string): (ext: string)
    requires '/' !in name
    ensures '.' !in ext && '/' !in ext
    ensures Text.EndsWith(name, ext)
    ensures ext != "" ==> |ext| + 1 < |name| && name[|name| - |ext| - 1] == '.'
    ensures ext == "" ==> forall i :: 0 < i < |name| - 1 && name[i] == '.' ==> '.' in name[i + 1..]
  {
    match LastIndexOf(name, '.')
    case Some(i) =>
      if 0 < i < |name| - 1 then
        assert Text.EndsWith(name, name[i + 1..]);
        assert forall c :: c in name[i + 1..] ==> c in name;
        name[i + 1..]
      else if i == 0 then
        DotOnlyAtStart(name);
        ""
      else
        DotAtEnd(name);
        ""
    case None => ""
  }

  /** A name whose only dot is its first character has no inner dot. */
  lemma {:induction false} DotOnlyAtStart(name: string)
    requires |name| > 0 && '.' !in name[1..]
    ensures forall i :: 0 < i < |name| ==> name[i] != '.'
  {
    forall i | 0 < i < |name| ensures name[i] != '.' {
      assert name[1..][i - 1] == name[i];
    }
  }

  /** In a name ending in a dot, every earlier position has a dot after it. */
  lemma {:induction false} DotAtEnd(name: string)
    requires |name| > 0 && name[|name| - 1] == '.'
    ensures forall i :: 0 <= i < |name| - 1 && name[i] == '.' ==> '.' in name[i + 1..]
  {
    forall i | 0 <= i < |name| - 1 && name[i] == '.' ensures '.' in name[i + 1..] {
      assert name[i + 1..][|name| - 2 - i] == '.';
    }
  }

  /** Where resolving an image reference ends. */
  datatype Resolution = Resolved(url: string) | Invalid(text: string) | Faulted(fault: Fault)

  function InvalidImageText(input: string): string {
    "[Hata: Geçersiz görsel verisi veya dosya yolu: " + input[..if |input| < 30 then |input| else 30] + "...]"
  }

  function FaultText(f: Fault): string {
    "[Görsel işleme hatası: " + f.message + "]\n\nDetay: " + f.traceback
  }

  /** The resolution branch of d1.py:127-142: a data URL passes through, an
      existing path is read and tagged with its extension, a decodable
      string is tagged `png`, anything else is rejected. */
  function ResolveImage(host: Host, input: string): (r: Resolution)
    ensures r.Resolved? ==> Text.StartsWith(r.url, DataImagePrefix)
    ensures Text.StartsWith(input, DataImagePrefix) ==> r == Resolved(input)
    ensures !Text.StartsWith(input, DataImagePrefix) && input in host.files ==>
              match host.files[input]
              case Readable(b) => r == Resolved(DataUrl(Subtype(input), host.encode(b)))
              case Unreadable(f) => r == Faulted(f)
    ensures !Text.StartsWith(input, DataImagePrefix) && input !in host.files ==>
              (r.Resolved? <==> Decodable(host, input))
    ensures !Text.StartsWith(input, DataImagePrefix) && input !in host.files && Decodable(host, input) ==>
              r.url == PngDataUrl(input)
    ensures r.Invalid? <==>
              !Text.StartsWith(input, DataImagePrefix) && input !in host.files && !Decodable(host, input)
    ensures r.Invalid? ==> r.text == InvalidImageText(input)
  {
    if Text.StartsWith(input, DataImagePrefix) then Resolved(input)
    else if input in host.files then
      match host.files[input]
      case Readable(b) => Resolved(DataUrl(Subtype(input), host.encode(b)))
      case Unreadable(f) => Faulted(f)
    else if Decodable(host, input) then
      Resolved(PngDataUrl(input))
    else Invalid(InvalidImageText(input))
  }

  /** The single-turn multimodal request: the prompt and the image URL. */
  datatype ImageRequest = ImageRequest(model: string, prompt: string, url: string)

  /** The multimodal completion: it raises, or returns a message content. */
  datatype ImageReply = ReplyRaised(fault: Fault) | Replied(content: Option<string>)

  /** The text returned and the request sent, if one was. */
  datatype ImageAnswer = ImageAnswer(request: Option<ImageRequest>, text: string)

  /** `process_image_query(input, prompt)`. It takes no history: it neither
      reads nor changes the conversation. */
  function AnswerImageQuery(host: Host, input: string, prompt: string, reply: ImageReply): (a: ImageAnswer)
    ensures a.text != ""
    ensures a.request.Some? <==> ResolveImage(host, input).Resolved?
    ensures a.request.Some? ==>
              a.request.value == ImageRequest(Engine.ToolModel, prompt, ResolveImage(host, input).url)
    ensures ResolveImage(host, input).Invalid? ==> a.text == InvalidImageText(input)
    ensures ResolveImage(host, input).Faulted? ==> a.text == FaultText(ResolveImage(host, input).fault)
    ensures a.request.Some? && reply.Replied? ==> a.text == Engine.OrEmptyReply(reply.content)
    ensures a.request.Some? && reply.ReplyRaised? ==> a.text == FaultText(reply.fault)
  {
    match ResolveImage(host, input)
    case Invalid(t) => ImageAnswer(None, t)
    case Faulted(f) => ImageAnswer(None, FaultText(f))
    case Resolved(url) =>
      var request := ImageRequest(Engine.ToolModel, prompt, url);
      match reply
      case ReplyRaised(f) => ImageAnswer(Some(request), FaultText(f))
      case Replied(content) => ImageAnswer(Some(request), Engine.OrEmptyReply(content))
  }

  /** Whatever a reference resolves to resolves to itself: every URL the
      resolver produces takes the pass-through branch. */
  lemma ResolveIdempotent(host: Host, input: string)
    requires ResolveImage(host, input).Resolved?
    ensures ResolveImage(host, ResolveImage(host, input).url) == ResolveImage(host, input)
  {
  }

  /** A file and the base64 text of its bytes resolve to data URLs with the
      same base64 content; only the subtype differs (the file's extension
      against `png`). */
  lemma FileAndBlobAgree(host: Host, path: string, bytes: seq<byte>)
    requires !Text.StartsWith(path, DataImagePrefix)
    requires path in host.files && host.files[path] == Readable(bytes)
    requires var blob := host.encode(bytes);
             !Text.StartsWith(blob, DataImagePrefix) && blob !in host.files && Decodable(host, blob)
    ensures ResolveImage(host, path) == Resolved(DataUrl(Subtype(path), host.encode(bytes)))
    ensures ResolveImage(host, host.encode(bytes)) == Resolved(DataUrl("png", host.encode(bytes)))
  {
  }
}
