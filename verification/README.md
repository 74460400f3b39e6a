# MCP_CLI conversation engine in Dafny

A model of the core of MCP_CLI, a chat client that connects to one tool
server over the Model Context Protocol (MCP) and routes queries to a hosted
language model. The model covers:

- the `MCPClient` engine (`d1.py`):
  - the seeded history;
  - the server-script check of `connect_to_server`;
  - the tool-calling protocol of `process_query` with its failure handling;
  - the image resolution of `process_image_query`;
  - `reset_conversation`;
- the GUI's entry routing (`send_query`), image-payload handling
  (`_handle_image_query`) and clipboard fallback
  (`_process_clipboard_image`) in `gui.py`;
- the YouTube transcript tool's video-id extraction and transcript join
  (`yt.py`).

External services are inputs, not code:

- The MCP session and the chat-completion backend are a `Script`:
  - the result of `list_tools`;
  - the first completion, with each tool call paired with how its argument
    parsing and `call_tool` end;
  - the wrap-up completion.
- The transcript service is a function from a video id to its line texts
  or an error text.
- File system and base64 are a `Host`:
  - the files that exist, readable or not;
  - how `open` fails on a path that does not exist;
  - the base64 encoder;
  - the decoder's verdict on a string.
- The clipboard is a `Clipboard` value: the PNG base64 text of its image,
  no image, or the text of the error raised while grabbing it.
- Percent-decoding is a function parameter.

The model is purely functional. Each operation takes the client and the
external outcomes and returns the new client together with the reply.

Files:

- `wrappers.dfy`: `Option` and `Result`.
- `text.dfy`: the Python string operations used. These are `startswith`,
  `endswith`, `in`, `strip` with Python's whitespace set, `join`, `split`
  and `split(c, 1)`.
- `engine.dfy`: the `MCPClient` history state machine.
- `images.dfy`: `process_image_query`.
- `gui.dfy`: the GUI routing.
- `yt.dfy`: the transcript tool.

## Model

| member | source | states |
|---|---|---|
| `Engine.NewClient` | d1.py:15-22 | a new client has no session and a history of exactly one system message, the default prompt |
| `Engine.LaunchFor` | d1.py:24-29 | a script path is accepted iff it ends in `.py` or `.js`; `.py` launches `python`, any other accepted path `node`; the path is the only argument; a rejected path yields the `.py`/`.js` error text |
| `Engine.Connect` | d1.py:24-39 | a bad extension raises `ValueError` and changes nothing; otherwise the session is open iff the handshake succeeds, a failed handshake raises `RuntimeError` with the connection-error prefix, and the history is never touched |
| `Engine.RenderItems` | d1.py:81-83 | item rendering succeeds iff no item's `str` raises, renders each item to its `text` or `str(item)` in order, and otherwise reports the first raising item's error |
| `Engine.NormalizeContent` | d1.py:79-87 | a list whose items all render is stored as their `"\n"`-join; a list with a raising item, or content whose `str` raises, is stored as `[Araç yanıtı işlenirken hata: e]`; any other content is stored as its `str` |
| `Engine.NormalizeTextItems` | d1.py:79-87 | the stored tool result for a list of text items without line breaks splits back at `\n` into exactly those texts |
| `Engine.OrEmptyReply` | d1.py:100-105 | the answer is the content when it is non-empty and `[Boş yanıt]` otherwise, so it is never empty |
| `Engine.FirstFailure` | d1.py:69-72 | the index of the first call whose argument parsing or invocation fails: every earlier call returns, the call at the index does not |
| `Engine.RunCalls` | d1.py:69-93 | the tool loop keeps the history as a prefix and appends one record/result pair per call, in order, up to the first failing call. It stops there with that call's error. A call whose arguments do not parse is never invoked, and a failing call leaves no record |
| `Engine.ProcessQuery` | d1.py:41-112 | without a session: raises, history unchanged. With one: the user message is appended and kept; the first request carries the history and the whole tool catalog; no tool calls appends one answer (2 messages in all); N successful calls append N pairs and a final answer from a tool-less wrap-up request; any failure appends and returns `[Hata: e]` after everything appended before it, having invoked the calls before the failing one, plus the failing one iff its `call_tool` raised |
| `Engine.ToolRound` | d1.py:68-112 | the tool-call branch. It keeps the history with the user message as a prefix and holds one record/result pair per call up to the first failing call. On a failure it answers `[Hata: e]` after one request, having invoked the earlier calls and, iff its `call_tool` raised, the failing call too. When every call returns, all calls are invoked, a second, tool-less request carries the exchanged history, and its answer (or its error marker) ends the history |
| `Engine.FirstSystem` | d1.py:163 | the index of the first system message, or none when the history holds none |
| `Engine.ResetConversation` | d1.py:161-167 | reset leaves exactly one message, the first system message or the default one when there is none, keeps the session, and returns the confirmation text |
| `Engine.ResetIdempotent` | d1.py:161-167 | resetting twice yields the same history and text as resetting once |
| `Engine.ResetKeepsSeed` | d1.py:161-167 | on a well-formed history reset keeps exactly the seeded system message |
| `Engine.ProcessQueryKeepsWellFormed` | d1.py:41-112 | a query appends no system message, so a history with one leading system message keeps that shape |
| `Engine.NoSystemAppended` | d1.py:45-111 | every message a connected query appends is a user, assistant or tool message |
| `Engine.StepKeepsSeed` | d1.py:41-167 | one query or reset keeps a well-formed history well formed and its seed message at the head |
| `Engine.SessionKeepsSeed` | d1.py:20-22 | across any sequence of queries and resets, the history keeps exactly one system message, the original seed, at its head |
| `Images.DataUrl` | d1.py:134 | every URL built as `data:image/<subtype>;base64,<payload>` begins with `data:image` |
| `Images.PngDataUrl` | d1.py:140 | the PNG data URL is the generic data URL with subtype `png`, and begins with `data:image` |
| `Images.LastIndexOf` | d1.py:134 | the last occurrence of a character: absent iff the character does not occur, otherwise it holds the character and nothing after it does |
| `Images.FileName` | d1.py:131 | the file name is the whole text after the last `/` of the path, or the whole path when it has none |
| `Images.Subtype` | d1.py:134 | the extension is the text after the last `.` of the file name when that dot is neither its first nor its last character, and empty otherwise |
| `Images.Extension` | d1.py:134 | for a name without `/`: the text after its last `.` when that dot is neither the first nor the last character, and empty otherwise |
| `Images.ResolveImage` | d1.py:125-142 | a `data:image` input passes unchanged; else an existing path becomes a data URL tagged with its extension, or a fault if unreadable; else a decodable input becomes a PNG data URL; the result is invalid iff none applies, with the error holding the first 30 characters; every resolved URL begins with `data:image` |
| `Images.AnswerImageQuery` | d1.py:114-159 | a request is sent iff the input resolves, with the prompt and the resolved URL. The answer is never empty: the invalid-input text, the fault text, the reply content, or `[Boş yanıt]`. The history is neither an input nor an output |
| `Images.ResolveIdempotent` | d1.py:127-128 | a resolved URL resolves to itself |
| `Images.FileAndBlobAgree` | d1.py:130-140 | a readable file and the base64 text of its bytes resolve to data URLs with the same base64 content; only the subtype differs |
| `Gui.RouteEntry` | gui.py:124-144 | a blank entry does nothing; a stripped entry equal to `image:` or `image:[Panodaki görsel]` goes only to the clipboard; any other `image:` entry becomes an image query on the stripped remainder; everything else becomes a text query on the stripped entry, each case iff its condition holds |
| `Gui.RoutedPayloads` | gui.py:137-144 | routed image payloads and text queries are never blank and carry no surrounding whitespace |
| `Gui.ClassifyPayload` | gui.py:150-185 | a `data:image` payload is forwarded unchanged. A longer-than-100 decodable payload is forwarded as a PNG data URL. A longer-than-100 undecodable one writes the decoder's error and goes on. A blank payload goes to the clipboard. A path that does not exist yields the not-found text only when `open` raises `FileNotFoundError`, and the read-error text with the `OSError` text otherwise. A readable file is forwarded as PNG base64, and an unreadable one yields the read-error text |
| `Gui.ForwardedPassesThrough` | gui.py:157-181 | every URL the handler forwards takes the engine's `data:image` pass-through branch unchanged |
| `Gui.FileAndBlobForwardSame` | gui.py:161-181 | a short path to a readable file and the long base64 text of its bytes are forwarded as the same PNG data URL |
| `Gui.LongDecodablePathNotRead` | gui.py:161-166 | a path longer than 100 characters whose text decodes is forwarded as base64 text, and its file is never read |
| `Gui.HandleImageQuery` | gui.py:150-193 | the engine is asked iff the payload is forwarded or, for a blank payload, the clipboard holds an image. A forwarded payload is sent with the tool model, the fixed prompt and the forwarded URL. The decoder note comes first in the transcript. Then comes one assistant line (the error report, the engine's answer, or the engine's fault text when its call raises), or, on the clipboard route, the clipboard routine's line followed by its returned text as the assistant's answer |
| `Gui.ProcessClipboardImage` | gui.py:196-220 | a clipboard image is sent as a PNG data URL with the fixed prompt, and the engine's answer (or fault text) is written as the assistant's line; no image, or a failure while grabbing, writes a system line with the no-image text or the clipboard-error text. No request is sent in those cases, and the text returned is never empty and equals the text written |
| `Gui.ClipboardAgreesWithDataUrl` | gui.py:172-174 | a blank payload with an image on the clipboard sends the engine the same request as typing the PNG data URL of that image |
| `YouTube.RemoveUnsafe` | yt.py:8 | `urlparse` deletes tab, CR and LF: a single character is kept iff it is not one of them, and with `RemoveUnsafeConcat` the other characters keep their order and count |
| `YouTube.QueryOf` | yt.py:8 | the query component is empty when no `?` comes before the first `#`; otherwise it is exactly the text after the first `?` up to the first `#` or the end |
| `YouTube.QueryOfParts` | yt.py:8 | the query of `base?query` and of `base?query#fragment` is exactly `query` |
| `YouTube.FragmentHidesQuery` | yt.py:7-9 | a YouTube URL with no `?` before its first `#` yields no id |
| `YouTube.ParseField` | yt.py:9 | a query piece yields a field iff it has an `=` before its last character; the field is the decoded text before the first `=` (with `+` as space) and the decoded text after it |
| `YouTube.Fields` | yt.py:9 | no field comes out iff no piece yields one; one piece gives its field or nothing |
| `YouTube.FieldsConcat` | yt.py:9 | the fields of consecutive runs of pieces are consecutive, so the fields are the pieces' fields in order |
| `YouTube.FirstNamed` | yt.py:9 | the index of the first field with the given name: no earlier field has it |
| `YouTube.FirstValue` | yt.py:9 | the lookup is empty iff no field has the name, and is otherwise the value of the first such field |
| `YouTube.FirstValueConcat` | yt.py:9 | a lookup in two consecutive runs of fields finds the first run's value when it has one, else the second's |
| `YouTube.ExtractVideoId` | yt.py:5-10 | input naming neither `youtube.com` nor `youtu.be` is returned unchanged; a YouTube URL yields nothing iff its query has no `v` field (in particular when it has no `?`), and otherwise the value of the first `v` field |
| `YouTube.WatchUrlGivesId` | yt.py:5-10 | a YouTube URL whose query starts with `v=<id>`, with or without further parameters and a fragment, yields exactly that id |
| `YouTube.VFieldFirst` | yt.py:9 | a query starting with the piece `v=<id>` has `id` as its first `v` value, whatever follows |
| `YouTube.GetTranscript` | yt.py:15-32 | no id or an empty id gives the invalid-id text; a raising service gives the failure prefix and the error; otherwise the line texts joined by single spaces |
| `YouTube.ShortLinkIsInvalid` | yt.py:22-24 | `https://youtu.be/abc` has no query, so no id is extracted and the invalid-id text is returned |
| `YouTube.EmptyIsInvalid` | yt.py:22-24 | the empty input is returned as the empty id and rejected with the invalid-id text |
| `YouTube.TranscriptSplitsBack` | yt.py:28 | when no line contains a space, the transcript splits at spaces into exactly the line texts, in order |
| `Text.ContainsAt` | yt.py:7 | substring test (`in`) holds iff the needle occurs at some index |
| `Text.Strip` | gui.py:125 | `strip()` returns a contiguous slice with only whitespace cut from both ends, never starting or ending with whitespace, and empty iff the input is all whitespace |
| `Text.Partition` | yt.py:9 | splitting at the first occurrence: absent iff the character does not occur, otherwise the part before holds no occurrence and the parts rebuild the input |

## Left out

- `main` in `d1.py` and `main.py` (argument check, event loop creation, connect/cleanup orchestration): process and console plumbing.
- The asyncio/Tk scheduling bridge (`_integrate_asyncio`, every `asyncio.ensure_future`): the model runs one operation at a time, so histories interleaved by overlapping queries are not modelled.
- Tk widgets, `_append_text`, `clear_chat`, the status bar, `insert_shortcut` and `_handle_paste`: user interface. `ImageGrab.grabclipboard` and the PNG re-encoding of `_process_clipboard_image` are a `Clipboard` input: the base64 text of the image, no image, or an error text. The lines `send_query` itself writes are not modelled.
- `cleanup` and the `AsyncExitStack` transport setup: the only effect kept is that a failed connection leaves no session.
- The MCP session, the Together completion API and the YouTube transcript API: their results are inputs. The transcript's language preference list is not represented.
- Paths are POSIX paths: `Images.FileName` and `Images.Subtype` split only at `/`, so Windows paths, where `Path` also splits at `\`, are not modelled.
- Base64 encoding, Python's permissive `b64decode`, `os.path.exists` and file reads: a `Host` value supplies them. The path is looked up verbatim, so normalisations such as trailing slashes are not modelled.
- `json.loads` of the tool arguments: only whether it raises is modelled, through the call's outcome.
- `urllib.parse.unquote`: a function parameter. `YouTube.WatchUrlGivesId` asks that it leave `v` and the id unchanged.
- `urlsplit`'s stripping of leading C0 control characters and spaces does not change the query component and is not modelled.
- `YouTube.ExtractVideoId`: does not model any `ValueError` that `urlsplit` raises on the network location, because host validation is outside the query logic. This covers a malformed IPv6 host and a non-ASCII host whose NFKC form contains `/`, `?`, `#`, `@` or `:`. The source raises out of `get_transcript` for such a URL, because yt.py:22 calls `extract_video_id` outside the `try`. The model extracts the id from the query instead.
- The outer `except` of `_handle_image_query` (gui.py:187-189): nothing inside the modelled handler raises, since engine failures come back as answer text.
