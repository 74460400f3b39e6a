/** The decisions `GUI.send_query` (gui.py:124-144),
    `GUI._handle_image_query` (gui.py:150-193) and
    `GUI._process_clipboard_image` (gui.py:196-220) take on the text the
    user submits. Widgets and the status bar are not modelled, and the
    clipboard grab is an input; the lines the handlers write to the
    transcript are modelled. */
module Gui {
  import opened Wrappers
  import Text
  import Images
  import Engine

  const ImagePrefix := "image:"
  const ClipboardMarker := "image:[Panodaki görsel]"
  const DescribePrompt := "Bu görseli açıkla."
  /** Payloads longer than this are tried as base64 before as a path. */
  const Base64Threshold := 100

  /** What submitting the entry leads to. */
  datatype Route =
    | NoAction                      // blank entry: nothing happens
    | ClipboardImage                // analyse the clipboard image
    | ImageQuery(payload: string)   // `_handle_image_query(payload)`
    | TextQuery(query: string)      // `process_query(query)`

  /** `send_query`: classifies the stripped entry text. */
  function RouteEntry(entry: string): (r: Route)
    ensures r.NoAction? <==> Text.Strip(entry) == ""
    ensures r.ClipboardImage? <==>
              Text.Strip(entry) == ImagePrefix || Text.Strip(entry) == ClipboardMarker
    ensures r.ImageQuery? <==>
              && Text.StartsWith(Text.Strip(entry), ImagePrefix)
              && Text.Strip(entry) != ImagePrefix && Text.Strip(entry) != ClipboardMarker
    ensures r.ImageQuery? ==> r.payload == Text.Strip(Text.Strip(entry)[|ImagePrefix|..])
    ensures r.TextQuery? <==> Text.Strip(entry) != "" && !Text.StartsWith(Text.Strip(entry), ImagePrefix)
    ensures r.TextQuery? ==> r.query == Text.Strip(entry)
  {
    var query := Text.Strip(entry);
    if query == "" then NoAction
    else if query == ClipboardMarker || query == ImagePrefix then
      assert Text.StartsWith(query, ImagePrefix) by {
        assert ClipboardMarker[..|ImagePrefix|] == ImagePrefix;
      }
      ClipboardImage
    else if Text.StartsWith(query, ImagePrefix) then ImageQuery(Text.Strip(query[|ImagePrefix|..]))
    else TextQuery(query)
  }

  /** A routed image payload is never blank and has no surrounding
      whitespace, so the handler's clipboard fallback for a blank payload
      is never reached from the entry; a routed text query is non-blank,
      stripped and does not start with `image:`. */
  lemma {:induction false} RoutedPayloads(entry: string)
    ensures RouteEntry(entry).ImageQuery? ==>
              var p := RouteEntry(entry).payload;
              p != "" && !Text.IsSpace(p[0]) && !Text.IsSpace(p[|p| - 1])
    ensures RouteEntry(entry).TextQuery? ==>
              var q := RouteEntry(entry).query;
              q != "" && !Text.IsSpace(q[0]) && !Text.IsSpace(q[|q| - 1])
  {
    var query := Text.Strip(entry);
    if RouteEntry(entry).ImageQuery? {
      assert |query| > |ImagePrefix|;
      RemainderNotBlank(query, query[|ImagePrefix|..]);
    }
  }

  lemma {:induction false} RemainderNotBlank(query: string, rest: string)
    requires |query| > 0 && !Text.IsSpace(query[|query| - 1])
    requires |query| > |ImagePrefix| && rest == query[|ImagePrefix|..]
    ensures !Text.AllSpace(rest)
  {
    assert rest[|rest| - 1] == query[|query| - 1];
  }

  /** What the handler does with the image after its own checks. */
  datatype ImageAction =
    | Forward(url: string)   // `process_image_query(url, "Bu görseli açıkla.")`
    | FromClipboard          // `_process_clipboard_image()`
    | Report(text: string)   // an error answer, no engine call

  /** The lines written before the action, and the action. */
  datatype ImageDispatch = ImageDispatch(notes: seq<string>, action: ImageAction)

  function Base64ErrorText(e: string): string {
    "[Hata: Base64 verisi işlenemedi - " + e + "]"
  }

  function MissingFileText(payload: string): string {
    "[Hata: '" + payload + "' dosyası bulunamadı]"
  }

  function ReadErrorText(e: string): string {
    "[Hata: Dosya okuma hatası - " + e + "]"
  }

  /** The two file messages differ in their eighth character. */
  lemma ReadErrorNotMissing(e: string, payload: string)
    ensures ReadErrorText(e) != MissingFileText(payload)
  {
    assert ReadErrorText(e)[7] == 'D' && MissingFileText(payload)[7] == '\'';
  }

  /** The payload classification of `_handle_image_query`. A data URL is
      forwarded; a long decodable payload is forwarded as PNG base64; a
      long undecodable one writes the decoder's error and, like every
      other payload, falls through to the blank check and the file read. */
  function ClassifyPayload(host: Images.Host, payload: string): (d: ImageDispatch)
    ensures Text.StartsWith(payload, Images.DataImagePrefix) ==> d == ImageDispatch([], Forward(payload))
    ensures !Text.StartsWith(payload, Images.DataImagePrefix) && |payload| > Base64Threshold
            && Images.Decodable(host, payload) ==>
              d == ImageDispatch([], Forward(Images.PngDataUrl(payload)))
    ensures |d.notes| <= 1
    ensures |d.notes| == 1 <==>
              !Text.StartsWith(payload, Images.DataImagePrefix) && |payload| > Base64Threshold
              && !Images.Decodable(host, payload)
    ensures |d.notes| == 1 ==> d.notes[0] == Base64ErrorText(host.decodeError(payload).value)
    ensures d.action.Forward? ==> Text.StartsWith(d.action.url, Images.DataImagePrefix)
    ensures d.action.FromClipboard? <==>
              && !Text.StartsWith(payload, Images.DataImagePrefix) && Text.AllSpace(payload)
              && !(|payload| > Base64Threshold && Images.Decodable(host, payload))
    ensures d.action.Report? ==> payload !in host.files || host.files[payload].Unreadable?
    // the not-found text is shown only when `open` raises `FileNotFoundError`
    ensures d.action == Report(MissingFileText(payload)) ==>
              payload !in host.files && host.missingError(payload).None?
    ensures d.action.Report? && payload !in host.files ==>
              d.action.text == if host.missingError(payload).None? then MissingFileText(payload)
                               else ReadErrorText(host.missingError(payload).value)
    ensures (!Text.StartsWith(payload, Images.DataImagePrefix) && !Text.AllSpace(payload)
             && !(|payload| > Base64Threshold && Images.Decodable(host, payload))) ==>
              if payload !in host.files then
                d.action == Report(match host.missingError(payload)
                                   case None => MissingFileText(payload)
                                   case Some(e) => ReadErrorText(e))
              else match host.files[payload]
                case Readable(b) => d.action == Forward(Images.PngDataUrl(host.encode(b)))
                case Unreadable(f) => d.action == Report(ReadErrorText(f.message))
  {
    if Text.StartsWith(payload, Images.DataImagePrefix) then ImageDispatch([], Forward(payload))
    else
      var notes :=
        if |payload| > Base64Threshold then
          match host.decodeError(payload)
          case None => []
          case Some(e) => [Base64ErrorText(e)]
        else [];
      if |payload| > Base64Threshold && Images.Decodable(host, payload) then
        ImageDispatch([], Forward(Images.PngDataUrl(payload)))
      else if Text.Strip(payload) == "" then ImageDispatch(notes, FromClipboard)
      else if payload !in host.files then
        match host.missingError(payload)
        case None => ImageDispatch(notes, Report(MissingFileText(payload)))
        case Some(e) =>
          ReadErrorNotMissing(e, payload);
          ImageDispatch(notes, Report(ReadErrorText(e)))
      else match host.files[payload]
        case Readable(b) => ImageDispatch(notes, Forward(Images.PngDataUrl(host.encode(b))))
        case Unreadable(f) =>
          ReadErrorNotMissing(f.message, payload);
          ImageDispatch(notes, Report(ReadErrorText(f.message)))
  }

  /** Every URL the handler forwards already starts with `data:image`, so
      the engine's pass-through branch takes it unchanged. */
  lemma ForwardedPassesThrough(host: Images.Host, payload: string)
    requires ClassifyPayload(host, payload).action.Forward?
    ensures Images.ResolveImage(host, ClassifyPayload(host, payload).action.url)
            == Images.Resolved(ClassifyPayload(host, payload).action.url)
  {
  }

  /** A readable file given by a short path and the (long) base64 text of
      its bytes are forwarded as the same PNG data URL. */
  lemma FileAndBlobForwardSame(host: Images.Host, path: string, bytes: seq<Images.byte>)
    requires path in host.files && host.files[path] == Images.Readable(bytes)
    requires !Text.StartsWith(path, Images.DataImagePrefix) && !Text.AllSpace(path)
    requires |path| <= Base64Threshold
    requires var blob := host.encode(bytes);
             !Text.StartsWith(blob, Images.DataImagePrefix) && |blob| > Base64Threshold
             && Images.Decodable(host, blob)
    ensures ClassifyPayload(host, path).action == ClassifyPayload(host, host.encode(bytes)).action
    ensures ClassifyPayload(host, path).action == Forward(Images.PngDataUrl(host.encode(bytes)))
  {
  }

  /** A path longer than the threshold whose text happens to decode is sent
      as base64 text and its file is never read. */
  lemma LongDecodablePathNotRead(host: Images.Host, path: string)
    requires path in host.files && host.files[path].Readable?
    requires !Text.StartsWith(path, Images.DataImagePrefix)
    requires |path| > Base64Threshold && Images.Decodable(host, path)
    ensures ClassifyPayload(host, path).action == Forward(Images.PngDataUrl(path))
  {
  }

  /** What the transcript shows and which engine request was sent. */
  datatype ImageTurn = ImageTurn(lines: seq<string>, request: Option<Images.ImageRequest>)

  function AssistantLine(text: string): string {
    "Asistan: " + text
  }

  function SystemLine(text: string): string {
    "Sistem: " + text
  }

  /** What `ImageGrab.grabclipboard()` and the PNG re-encoding give: the
      base64 text of the clipboard image saved as PNG, no image, or the
      text of the exception raised while grabbing or encoding. */
  datatype Clipboard = ClipImage(pngBase64: string) | NoClipImage | ClipFault(message: string)

  const NoClipImageText := "Panoda görsel bulunamadı. Lütfen önce bir görsel kopyalayın."

  function ClipFaultText(e: string): string {
    "[Pano görsel işleme hatası: " + e + "]"
  }

  /** The lines the clipboard routine writes, its engine request, and the
      text it returns. */
  datatype ClipboardRun = ClipboardRun(turn: ImageTurn, answer: string)

  /** `_process_clipboard_image()` with the clipboard's content and the
      engine's reply given. An image is sent to the engine as a PNG data
      URL and its answer written; otherwise a system line says why not.
      The text written is also the text returned. */
  function ProcessClipboardImage(host: Images.Host, clip: Clipboard, reply: Images.ImageReply): (c: ClipboardRun)
    ensures c.answer != ""
    ensures c.turn.request.Some? <==> clip.ClipImage?
    ensures clip.ClipImage? ==>
              && c.turn.request == Some(Images.ImageRequest(Engine.ToolModel, DescribePrompt,
                                                            Images.PngDataUrl(clip.pngBase64)))
              && c.turn.lines == [AssistantLine(c.answer)]
              && (reply.Replied? ==> c.answer == Engine.OrEmptyReply(reply.content))
              && (reply.ReplyRaised? ==> c.answer == Images.FaultText(reply.fault))
    ensures clip.NoClipImage? ==> c.answer == NoClipImageText && c.turn.lines == [SystemLine(NoClipImageText)]
    ensures clip.ClipFault? ==>
              c.answer == ClipFaultText(clip.message) && c.turn.lines == [SystemLine(ClipFaultText(clip.message))]
  {
    match clip
    case ClipImage(b) =>
      var a := Images.AnswerImageQuery(host, Images.PngDataUrl(b), DescribePrompt, reply);
      ClipboardRun(ImageTurn([AssistantLine(a.text)], a.request), a.text)
    case NoClipImage => ClipboardRun(ImageTurn([SystemLine(NoClipImageText)], None), NoClipImageText)
    case ClipFault(e) => ClipboardRun(ImageTurn([SystemLine(ClipFaultText(e))], None), ClipFaultText(e))
  }

  /** `_handle_image_query(payload)` with the clipboard's content and the
      engine's reply given. On the clipboard route the routine writes its
      own line and the handler then writes the returned text again as the
      assistant's answer. */
  function HandleImageQuery(host: Images.Host, payload: string, clip: Clipboard, reply: Images.ImageReply): (t: ImageTurn)
    ensures t.request.Some? <==>
              ClassifyPayload(host, payload).action.Forward?
              || (ClassifyPayload(host, payload).action.FromClipboard? && clip.ClipImage?)
    ensures ClassifyPayload(host, payload).action.Forward? ==>
              t.request == Some(Images.ImageRequest(Engine.ToolModel, DescribePrompt,
                                                    ClassifyPayload(host, payload).action.url))
    ensures ClassifyPayload(host, payload).notes <= t.lines
    ensures ClassifyPayload(host, payload).action.Report? ==>
              t.lines == ClassifyPayload(host, payload).notes
                         + [AssistantLine(ClassifyPayload(host, payload).action.text)]
    ensures ClassifyPayload(host, payload).action.Forward? && reply.Replied? ==>
              t.lines == ClassifyPayload(host, payload).notes
                         + [AssistantLine(Engine.OrEmptyReply(reply.content))]
    ensures ClassifyPayload(host, payload).action.Forward? && reply.ReplyRaised? ==>
              t.lines == ClassifyPayload(host, payload).notes + [AssistantLine(Images.FaultText(reply.fault))]
    ensures ClassifyPayload(host, payload).action.FromClipboard? ==>
              var c := ProcessClipboardImage(host, clip, reply);
              t.request == c.turn.request
              && t.lines == ClassifyPayload(host, payload).notes + c.turn.lines + [AssistantLine(c.answer)]
  {
    var d := ClassifyPayload(host, payload);
    match d.action
    case Forward(url) =>
      ForwardedPassesThrough(host, payload);
      var a := Images.AnswerImageQuery(host, url, DescribePrompt, reply);
      ImageTurn(d.notes + [AssistantLine(a.text)], a.request)
    case Report(text) => ImageTurn(d.notes + [AssistantLine(text)], None)
    case FromClipboard =>
      var c := ProcessClipboardImage(host, clip, reply);
      ImageTurn(d.notes + c.turn.lines + [AssistantLine(c.answer)], c.turn.request)
  }

  /** A blank payload with an image on the clipboard asks the engine
      exactly what the PNG data URL of that image asks when typed in. */
  lemma ClipboardAgreesWithDataUrl(host: Images.Host, blank: string, b: string, clip: Clipboard,
                                   reply: Images.ImageReply)
    requires Text.AllSpace(blank) && |blank| <= Base64Threshold
    ensures HandleImageQuery(host, blank, ClipImage(b), reply).request
            == HandleImageQuery(host, Images.PngDataUrl(b), clip, reply).request
  {
    assert !Text.StartsWith(blank, Images.DataImagePrefix) by {
      assert !Text.IsSpace(Images.DataImagePrefix[0]);
    }
  }
}
