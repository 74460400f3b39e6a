/** The YouTube transcript tool (yt.py): `extract_video_id` and the
    guard and join of `get_transcript`.

    `urlparse(...).query` and `parse_qs` are modelled by their splitting
    structure; percent-decoding (`urllib.parse.unquote`) is a parameter, and
    the transcript service is a function from a video id to the line texts
    it returns or the text of the exception it raises. */
module YouTube {
  import opened Wrappers
  import Text

  const WatchHost := "youtube.com"
  const ShortHost := "youtu.be"
  const InvalidIdText := "Invalid YouTube URL or ID."
  const FailurePrefix := "Transcript retrieval failed: "

  /** The characters `urlsplit` deletes wherever they occur. */
  const Unsafe := "\t\r\n"

  /** `urlsplit`'s removal of tab, carriage return and line feed: the
      other characters are kept, in order (see `RemoveUnsafeConcat`). */
  function RemoveUnsafe(s: string): (r: string)
    ensures forall c :: c in r <==> c in s && c !in Unsafe
    ensures (forall c :: c in s ==> c !in Unsafe) ==> r == s
    ensures |s| == 1 ==> r == if s[0] in Unsafe then "" else s
    decreases |s|
  {
    if |s| == 0 then ""
    else
      var rest := RemoveUnsafe(s[1..]);
      assert s == [s[0]] + s[1..];
      if s[0] in Unsafe then rest else [s[0]] + rest
  }

  /** Removal works piece by piece: with the one-character case this fixes
      the result as the input with each unsafe character dropped. */
  lemma {:induction false} RemoveUnsafeConcat(a: string, b: string)
    ensures RemoveUnsafe(a + b) == RemoveUnsafe(a) + RemoveUnsafe(b)
    decreases |a|
  {
    if |a| > 0 {
      var s := a + b;
      assert s[0] == a[0] && s[1..] == a[1..] + b;
      RemoveUnsafeConcat(a[1..], b);
      if a[0] in Unsafe {
        assert RemoveUnsafe(s) == RemoveUnsafe(s[1..]);
        assert RemoveUnsafe(a) == RemoveUnsafe(a[1..]);
      } else {
        assert RemoveUnsafe(s) == [a[0]] + RemoveUnsafe(s[1..]);
        assert RemoveUnsafe(a) == [a[0]] + RemoveUnsafe(a[1..]);
      }
    } else {
      assert a + b == b;
    }
  }

  /** The text before the first `#`, or the whole URL when there is none. */
  function BeforeFragment(url: string): (bf: string)
    ensures |bf| <= |url| && bf == url[..|bf|]
    ensures '#' !in bf
    ensures |bf| == |url| || url[|bf|] == '#'
  {
    match Text.Partition(url, '#')
    case Some(p) =>
      assert url[..|p.0|] == p.0 && url[|p.0|] == '#';
      p.0
    case None => url
  }

  /** Position `i` holds the `?` that opens the query: the first `?`, with
      no `#` before it. */
  predicate QueryStartsAt(url: string, i: int) {
    0 <= i < |url| && url[i] == '?' && '?' !in url[..i] && '#' !in url[..i]
  }

  /** `q` is the text after position `i` up to the first `#` or the end. */
  predicate QueryFrom(url: string, i: int, q: string) {
    && 0 <= i && i + 1 + |q| <= |url| && q == url[i + 1..i + 1 + |q|]
    && (i + 1 + |q| == |url| || url[i + 1 + |q|] == '#')
  }

  /** The query component of `urlsplit(url)`: empty when no `?` comes
      before the first `#`; otherwise the text after that `?` up to the
      first `#` or the end. */
  function QueryOf(url: string): (q: string)
    ensures '#' !in q
    ensures (forall i :: !QueryStartsAt(url, i)) ==> q == ""
    ensures forall i :: QueryStartsAt(url, i) ==> QueryFrom(url, i, q)
  {
    var bf := BeforeFragment(url);
    match Text.Partition(bf, '?')
    case Some(p) =>
      QueryAt(url, bf, p.0, p.1);
      p.1
    case None =>
      NoQueryStart(url, bf);
      ""
  }

  lemma {:induction false} QueryAt(url: string, bf: string, x: string, y: string)
    requires |bf| <= |url| && bf == url[..|bf|] && '#' !in bf
    requires |bf| == |url| || url[|bf|] == '#'
    requires bf == x + ['?'] + y && '?' !in x
    ensures '#' !in y
    ensures QueryStartsAt(url, |x|)
    ensures forall i :: QueryStartsAt(url, i) ==> QueryFrom(url, i, y)
  {
    assert url[..|x|] == x;
    assert forall c :: c in y ==> c in bf by {
      forall c | c in y ensures c in bf {
        var k :| 0 <= k < |y| && y[k] == c;
        assert bf[|x| + 1 + k] == c;
      }
    }
    forall i | QueryStartsAt(url, i)
      ensures QueryFrom(url, i, y)
    {
      assert url[|x|] == bf[|x|] == '?';
      assert forall j :: 0 <= j < i ==> url[j] == url[..i][j];
      assert forall j :: 0 <= j < |x| ==> url[j] == x[j];
      assert i == |x|;
      assert y == bf[|x| + 1..];
    }
  }

  lemma {:induction false} NoQueryStart(url: string, bf: string)
    requires |bf| <= |url| && bf == url[..|bf|] && '#' !in bf
    requires |bf| == |url| || url[|bf|] == '#'
    requires '?' !in bf
    ensures forall i :: !QueryStartsAt(url, i)
  {
    forall i | 0 <= i < |url| && url[i] == '?' && '?' !in url[..i]
      ensures '#' in url[..i]
    {
      assert forall j :: 0 <= j < |bf| ==> url[j] == bf[j];
      assert url[..i][|bf|] == '#';
    }
  }

  /** One `name=value` pair of `parse_qsl`, after `+` is turned into a
      space and percent-escapes are decoded. */
  datatype Field = Field(name: string, value: string)

  /** `s.replace('+', ' ')`. */
  function PlusToSpace(s: string): (r: string)
    ensures |r| == |s|
    ensures forall i :: 0 <= i < |s| ==> r[i] == if s[i] == '+' then ' ' else s[i]
    decreases |s|
  {
    if |s| == 0 then ""
    else [if s[0] == '+' then ' ' else s[0]] + PlusToSpace(s[1..])
  }

  /** The treatment of one `&`-separated piece with blank values dropped:
      no field for a piece without `=` or with nothing after its first `=`;
      otherwise the decoded text before and after that first `=`. */
  function ParseField(piece: string, unquote: string -> string): (f: Option<Field>)
    ensures f.Some? <==> exists i :: 0 <= i < |piece| - 1 && piece[i] == '='
    ensures f.Some? ==>
              exists i :: && 0 <= i < |piece| && piece[i] == '=' && '=' !in piece[..i]
                          && f.value == Field(unquote(PlusToSpace(piece[..i])), unquote(PlusToSpace(piece[i + 1..])))
  {
    match Text.Partition(piece, '=')
    case None => None
    case Some(p) =>
      if p.1 == "" then
        assert forall i :: 0 <= i < |piece| - 1 ==> piece[i] != '=' by {
          assert piece == p.0 + ['='];
        }
        None
      else
        assert piece[|p.0|] == '=';
        assert piece[..|p.0|] == p.0 && piece[|p.0| + 1..] == p.1;
        Some(Field(unquote(PlusToSpace(p.0)), unquote(PlusToSpace(p.1))))
  }

  /** The fields of the pieces, in order, skipping the ones without one
      (see `FieldsConcat`). */
  function Fields(pieces: seq<string>, unquote: string -> string): (r: seq<Field>)
    ensures |r| <= |pieces|
    ensures (forall k :: 0 <= k < |pieces| ==> ParseField(pieces[k], unquote).None?) <==> r == []
    ensures |pieces| == 1 ==>
              r == if ParseField(pieces[0], unquote).Some? then [ParseField(pieces[0], unquote).value] else []
    decreases |pieces|
  {
    if |pieces| == 0 then []
    else
      var rest := Fields(pieces[1..], unquote);
      assert forall k :: 1 <= k < |pieces| ==> pieces[k] == pieces[1..][k - 1];
      match ParseField(pieces[0], unquote)
      case None => rest
      case Some(f) => [f] + rest
  }

  /** The fields of consecutive runs of pieces are consecutive: with the
      one-piece case this fixes `Fields` as the in-order list of the
      pieces' fields. */
  lemma {:induction false} FieldsConcat(a: seq<string>, b: seq<string>, unquote: string -> string)
    ensures Fields(a + b, unquote) == Fields(a, unquote) + Fields(b, unquote)
    decreases |a|
  {
    if |a| > 0 {
      var s := a + b;
      assert s[0] == a[0] && s[1..] == a[1..] + b;
      FieldsConcat(a[1..], b, unquote);
      match ParseField(a[0], unquote)
      case None =>
        assert Fields(s, unquote) == Fields(s[1..], unquote);
        assert Fields(a, unquote) == Fields(a[1..], unquote);
      case Some(f) =>
        assert Fields(s, unquote) == [f] + Fields(s[1..], unquote);
        assert Fields(a, unquote) == [f] + Fields(a[1..], unquote);
    } else {
      assert a + b == b;
    }
  }

  /** `parse_qsl(qs)` with blank values dropped. */
  function ParseQsl(qs: string, unquote: string -> string): seq<Field> {
    Fields(Text.Split(qs, '&'), unquote)
  }

  /** Index of the first field called `name`; `|fields|` when there is none. */
  function FirstNamed(fields: seq<Field>, name: string): (i: nat)
    ensures i <= |fields|
    ensures forall j :: 0 <= j < i ==> fields[j].name != name
    ensures i < |fields| ==> fields[i].name == name
    decreases |fields|
  {
    if |fields| == 0 then 0
    else if fields[0].name == name then 0
    else 1 + FirstNamed(fields[1..], name)
  }

  /** Looking a name up in consecutive runs of fields looks in the first
      run, then in the second. */
  lemma {:induction false} FirstValueConcat(xs: seq<Field>, ys: seq<Field>, name: string)
    ensures FirstValue(xs + ys, name) == if FirstValue(xs, name).Some? then FirstValue(xs, name) else FirstValue(ys, name)
    decreases |xs|
  {
    if |xs| > 0 {
      var s := xs + ys;
      assert s[0] == xs[0] && s[1..] == xs[1..] + ys;
      if xs[0].name != name {
        FirstValueConcat(xs[1..], ys, name);
        assert FirstValue(s, name) == FirstValue(s[1..], name);
        assert FirstValue(xs, name) == FirstValue(xs[1..], name);
      }
    } else {
      assert xs + ys == ys;
    }
  }

  /** `parse_qs(qs).get(name, [None])[0]`: `parse_qs` gathers the values
      of each name in order, so this is the value of the first field with
      that name. */
  function FirstValue(fields: seq<Field>, name: string): (r: Option<string>)
    ensures r.None? <==> forall j :: 0 <= j < |fields| ==> fields[j].name != name
    ensures r.Some? ==> FirstNamed(fields, name) < |fields|
                        && r.value == fields[FirstNamed(fields, name)].value
    decreases |fields|
  {
    if |fields| == 0 then None
    else if fields[0].name == name then Some(fields[0].value)
    else
      assert forall j :: 1 <= j < |fields| ==> fields[j] == fields[1..][j - 1];
      FirstValue(fields[1..], name)
  }

  predicate HasMarker(s: string) {
    Text.Contains(s, WatchHost) || Text.Contains(s, ShortHost)
  }

  /** `extract_video_id(s)`: the first `v` parameter of a YouTube URL, or
      the input itself when it names no YouTube host. */
  function ExtractVideoId(s: string, unquote: string -> string): (r: Option<string>)
    ensures !HasMarker(s) ==> r == Some(s)
    ensures HasMarker(s) ==>
              (r.None? <==> forall j :: 0 <= j < |ParseQsl(QueryOf(RemoveUnsafe(s)), unquote)| ==>
                               ParseQsl(QueryOf(RemoveUnsafe(s)), unquote)[j].name != "v")
    ensures HasMarker(s) && r.Some? ==>
              var fs := ParseQsl(QueryOf(RemoveUnsafe(s)), unquote);
              FirstNamed(fs, "v") < |fs| && r.value == fs[FirstNamed(fs, "v")].value
    ensures HasMarker(s) && '?' !in s ==> r.None?
  {
    if HasMarker(s) then
      assert '?' !in s ==> QueryOf(RemoveUnsafe(s)) == "" && Text.Split("", '&') == [""] by {
        if '?' !in s {
          assert '?' !in RemoveUnsafe(s);
          assert forall i :: !QueryStartsAt(RemoveUnsafe(s), i);
          assert Text.Split("", '&') == [""];
        }
      }
      FirstValue(ParseQsl(QueryOf(RemoveUnsafe(s)), unquote), "v")
    else Some(s)
  }

  /** `get_transcript(input)`: an invalid-id message when no id (or an empty
      one) comes out, the failure text of a raising service, and otherwise
      the line texts joined by single spaces. */
  function GetTranscript(input: string, unquote: string -> string,
                         fetch: string -> Result<seq<string>>): (r: string)
    ensures (ExtractVideoId(input, unquote).None? || ExtractVideoId(input, unquote) == Some("")) ==>
              r == InvalidIdText
    ensures ExtractVideoId(input, unquote).Some? && ExtractVideoId(input, unquote) != Some("") ==>
              match fetch(ExtractVideoId(input, unquote).value)
              case Failure(e) => r == FailurePrefix + e
              case Success(lines) => r == Text.Join(" ", lines)
  {
    match ExtractVideoId(input, unquote)
    case None => InvalidIdText
    case Some(id) =>
      if id == "" then InvalidIdText
      else match fetch(id)
        case Failure(e) => FailurePrefix + e
        case Success(lines) => Text.Join(" ", lines)
  }

  /** A marker anywhere in a prefix is a marker of the whole string. */
  lemma {:induction false} MarkerExtends(a: string, b: string)
    requires HasMarker(a)
    ensures HasMarker(a + b)
  {
    if Text.Contains(a, WatchHost) {
      Text.ContainsAt(a, WatchHost);
      var i :| Text.OccursAt(a, WatchHost, i);
      assert Text.OccursAt(a + b, WatchHost, i);
      Text.ContainsAt(a + b, WatchHost);
    } else {
      Text.ContainsAt(a, ShortHost);
      var i :| Text.OccursAt(a, ShortHost, i);
      assert Text.OccursAt(a + b, ShortHost, i);
      Text.ContainsAt(a + b, ShortHost);
    }
  }

  /** `base?query`, followed by `#fragment` when there is one. */
  function UrlOf(base: string, query: string, fragment: Option<string>): string {
    base + "?" + query + (if fragment.Some? then "#" + fragment.value else "")
  }

  /** The query of `base?query#fragment` is `query`, whatever the fragment. */
  lemma {:induction false} QueryOfParts(base: string, query: string, fragment: Option<string>)
    requires '?' !in base && '#' !in base && '#' !in query
    ensures QueryOf(UrlOf(base, query, fragment)) == query
  {
    var url := UrlOf(base, query, fragment);
    var head := base + "?" + query;
    assert '#' !in head;
    if fragment.Some? {
      assert url == head + ['#'] + fragment.value;
      var p := Text.Partition(url, '#').value;
      PartitionUnique(url, '#', head, fragment.value, p.0, p.1);
    } else {
      assert url == head;
    }
    assert BeforeFragment(url) == head;
    var p := Text.Partition(head, '?').value;
    assert head == base + ['?'] + query;
    PartitionUnique(head, '?', base, query, p.0, p.1);
  }

  /** A string splits at the first occurrence of a character in one way. */
  lemma {:induction false} PartitionUnique(s: string, c: char, a: string, b: string, a': string, b': string)
    requires s == a + [c] + b && c !in a
    requires s == a' + [c] + b' && c !in a'
    ensures a == a' && b == b'
  {
    assert forall i :: 0 <= i < |a| ==> s[i] == a[i];
    assert forall i :: 0 <= i < |a'| ==> s[i] == a'[i];
    assert s[|a|] == c && s[|a'|] == c;
    assert |a| == |a'|;
    assert a == s[..|a|] == a';
    assert b == s[|a| + 1..] == b';
  }

  /** A YouTube URL whose query starts with `v=<id>`, alone or followed by
      more `&`-separated parameters and with or without a fragment, yields
      that id, when decoding leaves the name and the id as they are. */
  lemma {:induction false} WatchUrlGivesId(base: string, id: string, more: Option<string>,
                                           fragment: Option<string>, unquote: string -> string)
    requires HasMarker(base)
    requires '?' !in base && '#' !in base
    requires id != "" && '&' !in id && '#' !in id && '+' !in id
    requires more.Some? ==> '#' !in more.value
    requires unquote("v") == "v" && unquote(id) == id
    requires var query := "v=" + id + (if more.Some? then "&" + more.value else "");
             forall c :: c in UrlOf(base, query, fragment) ==> c !in Unsafe
    ensures var query := "v=" + id + (if more.Some? then "&" + more.value else "");
            ExtractVideoId(UrlOf(base, query, fragment), unquote) == Some(id)
  {
    var query := "v=" + id + (if more.Some? then "&" + more.value else "");
    var url := UrlOf(base, query, fragment);
    assert base + url[|base|..] == url;
    MarkerExtends(base, url[|base|..]);
    assert RemoveUnsafe(url) == url;
    assert '#' !in query;
    QueryOfParts(base, query, fragment);
    VFieldFirst(id, more, unquote);
  }

  /** A YouTube URL in which no `?` comes before the first `#` has an empty
      query, so no id comes out. */
  lemma {:induction false} FragmentHidesQuery(s: string, unquote: string -> string)
    requires HasMarker(s)
    requires forall i :: !QueryStartsAt(RemoveUnsafe(s), i)
    ensures ExtractVideoId(s, unquote).None?
  {
    assert QueryOf(RemoveUnsafe(s)) == "";
    assert Text.Split("", '&') == [""];
    assert ParseField("", unquote).None?;
  }

  /** A query starting with the piece `v=<id>` has `id` as its first `v`. */
  lemma {:induction false} VFieldFirst(id: string, more: Option<string>, unquote: string -> string)
    requires id != "" && '&' !in id && '+' !in id
    requires unquote("v") == "v" && unquote(id) == id
    ensures var query := "v=" + id + (if more.Some? then "&" + more.value else "");
            FirstValue(ParseQsl(query, unquote), "v") == Some(id)
  {
    var piece := "v=" + id;
    var query := piece + (if more.Some? then "&" + more.value else "");
    assert '&' !in piece;
    var pieces := if more.Some? then [piece] + Text.Split(more.value, '&') else [piece];
    if more.Some? {
      assert query == piece + ['&'] + more.value;
      Text.SplitAtFirst(piece, '&', more.value);
      FieldsConcat([piece], Text.Split(more.value, '&'), unquote);
    } else {
      assert query == piece;
      Text.SplitNoSeparator(piece, '&');
    }
    assert Text.Split(query, '&') == pieces;
    VField(id, unquote);
    FirstValueConcat([Field("v", id)], Fields(pieces[1..], unquote), "v");
    assert pieces == [piece] + pieces[1..];
    FieldsConcat([piece], pieces[1..], unquote);
  }

  /** The piece `v=<id>` is the field `v` with value `id`. */
  lemma {:induction false} VField(id: string, unquote: string -> string)
    requires id != "" && '+' !in id
    requires unquote("v") == "v" && unquote(id) == id
    ensures ParseField("v=" + id, unquote) == Some(Field("v", id))
    ensures Fields(["v=" + id], unquote) == [Field("v", id)]
  {
    var piece := "v=" + id;
    assert piece == "v" + ['='] + id;
    var p := Text.Partition(piece, '=').value;
    PartitionUnique(piece, '=', "v", id, p.0, p.1);
    assert PlusToSpace("v") == "v";
    assert PlusToSpace(id) == id;
  }

  /** A short `youtu.be/<id>` link has no query string, so no id comes out
      and the tool answers with the invalid-id message. */
  lemma ShortLinkIsInvalid(unquote: string -> string, fetch: string -> Result<seq<string>>)
    ensures ExtractVideoId("https://youtu.be/abc", unquote).None?
    ensures GetTranscript("https://youtu.be/abc", unquote, fetch) == InvalidIdText
  {
    var url := "https://youtu.be/abc";
    assert HasMarker(url) by {
      assert url[8..16] == ShortHost;
      assert Text.OccursAt(url, ShortHost, 8);
      Text.ContainsAt(url, ShortHost);
    }
    assert '?' !in url;
  }

  /** The empty input is not a YouTube URL and is returned as the empty id,
      which the guard rejects. */
  lemma EmptyIsInvalid(unquote: string -> string, fetch: string -> Result<seq<string>>)
    ensures ExtractVideoId("", unquote) == Some("")
    ensures GetTranscript("", unquote, fetch) == InvalidIdText
  {
    Text.ContainsAt("", WatchHost);
    Text.ContainsAt("", ShortHost);
  }

  /** When no line text contains a space, the transcript splits back at
      spaces into exactly the line texts, in order. */
  lemma TranscriptSplitsBack(input: string, unquote: string -> string,
                             fetch: string -> Result<seq<string>>)
    requires ExtractVideoId(input, unquote).Some? && ExtractVideoId(input, unquote) != Some("")
    requires fetch(ExtractVideoId(input, unquote).value).Success?
    requires var lines := fetch(ExtractVideoId(input, unquote).value).value;
             |lines| >= 1 && forall k :: 0 <= k < |lines| ==> ' ' !in lines[k]
    ensures Text.Split(GetTranscript(input, unquote, fetch), ' ')
            == fetch(ExtractVideoId(input, unquote).value).value
  {
    var lines := fetch(ExtractVideoId(input, unquote).value).value;
    Text.SplitJoin(lines, ' ');
  }
}
