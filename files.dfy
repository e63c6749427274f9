/**
 * Attachments of a message and the text form in which the bot stores them:
 * one token `kind:fileId` per file, tokens joined by ','. The token is built
 * by handle_files when a proof or an answer is received, and split back
 * (first on ',', then on ':') when the files are forwarded to reviewers.
 */
module Files {
  import opened Options

  /** The four attachment kinds the bot looks at, in the order it looks at them. */
  datatype FileKind = Photo | Document | Video | Audio

  function KindName(k: FileKind): string {
    match k
    case Photo => "photo"
    case Document => "document"
    case Video => "video"
    case Audio => "audio"
  }

  /** The kind a stored name stands for; names the forwarding code does not know give None. */
  function KindFromName(name: string): (k: Option<FileKind>)
    ensures k.Some? ==> KindName(k.value) == name
    ensures k.None? ==> forall f: FileKind :: KindName(f) != name
  {
    if name == "photo" then Some(Photo)
    else if name == "document" then Some(Document)
    else if name == "video" then Some(Video)
    else if name == "audio" then Some(Audio)
    else None
  }

  /**
   * An inbound message: its text ("" when it carries none) and, for each
   * attachment kind, the file id of the attachment of that kind (for a photo,
   * the largest size), if any.
   */
  datatype Message = Message(
    text: string,
    photo: Option<string>,
    document: Option<string>,
    video: Option<string>,
    audio: Option<string>)

  /** A plain text message. */
  function TextMessage(text: string): Message {
    Message(text, None, None, None, None)
  }

  /** A file id the token syntax can carry: it holds neither separator. */
  predicate CleanId(id: string) {
    ',' !in id && ':' !in id
  }

  /** The stored form of one file. */
  function Token(k: FileKind, id: string): (t: string)
    ensures |t| > 0
  {
    KindName(k) + ":" + id
  }

  /** The attachments a message carries, in the order handle_files checks them. */
  function Attachments(m: Message): (r: seq<(FileKind, string)>)
    ensures |r| <= 4
    ensures r == [] <==> m.photo.None? && m.document.None? && m.video.None? && m.audio.None?
  {
    (if m.photo.Some? then [(Photo, m.photo.value)] else [])
    + (if m.document.Some? then [(Document, m.document.value)] else [])
    + (if m.video.Some? then [(Video, m.video.value)] else [])
    + (if m.audio.Some? then [(Audio, m.audio.value)] else [])
  }

  /** At most the first element of `s`. */
  function FirstOf<T>(s: seq<T>): (r: seq<T>)
    ensures |r| <= 1 && r <= s
    ensures r == [] <==> s == []
  {
    if s == [] then [] else [s[0]]
  }

  /**
   * handle_files: the token of the first attachment found, checking photo,
   * document, video and audio in that order, or "" when there is none.
   */
  function HandleFiles(m: Message): (r: string)
    ensures r == "" <==> Attachments(m) == []
    ensures Attachments(m) != [] && CleanId(Attachments(m)[0].1) ==> ',' !in r
  {
    if m.photo.Some? then Token(Photo, m.photo.value)
    else if m.document.Some? then Token(Document, m.document.value)
    else if m.video.Some? then Token(Video, m.video.value)
    else if m.audio.Some? then Token(Audio, m.audio.value)
    else ""
  }

  /** Python's `sep.join(parts)`. */
  function Join(parts: seq<string>, sep: char): string {
    if |parts| == 0 then ""
    else if |parts| == 1 then parts[0]
    else parts[0] + [sep] + Join(parts[1..], sep)
  }

  /**
   * Python's `s.split(sep)`: the maximal pieces of `s` between separators;
   * there is always at least one piece, and joining them back gives `s`.
   */
  function Split(s: string, sep: char): (parts: seq<string>)
    ensures |parts| >= 1
    ensures forall i :: 0 <= i < |parts| ==> sep !in parts[i]
    ensures Join(parts, sep) == s
    decreases |s|
  {
    if |s| == 0 then [""]
    else
      var rest := Split(s[1..], sep);
      if s[0] == sep then
        assert s == [sep] + s[1..];
        [""] + rest
      else
        var parts := [[s[0]] + rest[0]] + rest[1..];
        assert parts[1..] == rest[1..];
        assert |rest| > 1 ==> rest == [rest[0]] + rest[1..];
        assert s == [s[0]] + s[1..];
        parts
  }

  /** Splitting a join recovers the pieces, as long as no piece holds the separator. */
  lemma {:induction false} SplitJoin(parts: seq<string>, sep: char)
    requires |parts| >= 1
    requires forall i :: 0 <= i < |parts| ==> sep !in parts[i]
    ensures Split(Join(parts, sep), sep) == parts
    decreases |parts|, |parts[0]|
  {
    if |parts[0]| == 0 {
      if |parts| == 1 {
      } else {
        var tail := parts[1..];
        SplitJoin(tail, sep);
        assert Join(parts, sep) == [sep] + Join(tail, sep);
        assert Join(parts, sep)[1..] == Join(tail, sep);
        assert parts == [""] + tail;
      }
    } else {
      var c := parts[0][0];
      var shorter := [parts[0][1..]] + parts[1..];
      assert sep !in shorter[0];
      forall i | 0 <= i < |shorter| ensures sep !in shorter[i] {
        if i > 0 { assert shorter[i] == parts[i]; }
      }
      SplitJoin(shorter, sep);
      assert parts[0] == [c] + parts[0][1..];
      assert shorter[1..] == parts[1..];
      assert Join(parts, sep) == [c] + Join(shorter, sep) by {
        if |parts| > 1 {
          assert Join(shorter, sep) == parts[0][1..] + [sep] + Join(parts[1..], sep);
        }
      }
      assert Join(parts, sep)[1..] == Join(shorter, sep);
      var rest := Split(Join(shorter, sep), sep);
      assert rest == shorter;
      assert [[c] + rest[0]] + rest[1..] == parts;
    }
  }

  /**
   * The files forwarded to a reviewer for a stored `file_ids` value: nothing
   * when it is empty (the source forwards only when it is non-empty),
   * otherwise each ','-piece split on ':' into exactly two parts (a piece
   * that does not split in two raises, and None stands for that), keeping
   * only the pieces whose kind is one of the four known ones.
   */
  function FilesToForward(fileIds: string): (r: Option<seq<(FileKind, string)>>)
    ensures r.Some? ==> |r.value| <= |Split(fileIds, ',')|
    ensures r.Some? ==> forall i :: 0 <= i < |r.value| ==> CleanId(r.value[i].1)
  {
    if fileIds == "" then Some([])
    else
      ParsedIdsAreClean(Split(fileIds, ','));
      ParsePieces(Split(fileIds, ','))
  }

  /** An id parsed out of a piece without ',' holds neither separator: ':' was split on. */
  lemma {:induction false} ParsedIdsAreClean(pieces: seq<string>)
    requires forall i :: 0 <= i < |pieces| ==> ',' !in pieces[i]
    ensures ParsePieces(pieces).Some? ==>
      forall i :: 0 <= i < |ParsePieces(pieces).value| ==> CleanId(ParsePieces(pieces).value[i].1)
  {
    if pieces != [] {
      var halves := Split(pieces[0], ':');
      ParsedIdsAreClean(pieces[1..]);
      if |halves| == 2 {
        assert pieces[0] == halves[0] + [':'] + halves[1] by {
          assert Join(halves, ':') == halves[0] + [':'] + Join(halves[1..], ':');
        }
        assert ',' !in halves[1];
      }
    }
  }

  function ParsePieces(pieces: seq<string>): (r: Option<seq<(FileKind, string)>>)
    ensures r.Some? ==> |r.value| <= |pieces|
  {
    if pieces == [] then Some([])
    else
      var halves := Split(pieces[0], ':');
      if |halves| != 2 then None
      else
        match ParsePieces(pieces[1..])
        case None => None
        case Some(tail) =>
          match KindFromName(halves[0])
          case Some(k) => Some([(k, halves[1])] + tail)
          case None => Some(tail)
  }

  /** The stored form of a list of files: their tokens joined by ','. */
  function Encode(files: seq<(FileKind, string)>): (r: string)
    ensures r == "" <==> files == []
    ensures |files| == 1 ==> r == Token(files[0].0, files[0].1)
  {
    Join(Tokens(files), ',')
  }

  function Tokens(files: seq<(FileKind, string)>): (r: seq<string>)
    ensures |r| == |files|
    ensures forall i :: 0 <= i < |files| ==> r[i] == Token(files[i].0, files[i].1)
  {
    if files == [] then [] else [Token(files[0].0, files[0].1)] + Tokens(files[1..])
  }

  /** Decoding one token gives back its kind and id. */
  lemma TokenHalves(k: FileKind, id: string)
    requires CleanId(id)
    ensures Split(Token(k, id), ':') == [KindName(k), id]
  {
    assert Join([KindName(k), id], ':') == Token(k, id);
    SplitJoin([KindName(k), id], ':');
  }

  lemma {:induction false} ParseTokens(files: seq<(FileKind, string)>)
    requires forall i :: 0 <= i < |files| ==> CleanId(files[i].1)
    ensures ParsePieces(Tokens(files)) == Some(files)
  {
    if files != [] {
      var toks := Tokens(files);
      TokenHalves(files[0].0, files[0].1);
      assert toks[0] == Token(files[0].0, files[0].1);
      assert toks[1..] == Tokens(files[1..]);
      ParseTokens(files[1..]);
      assert KindFromName(KindName(files[0].0)) == Some(files[0].0);
      assert ParsePieces(toks) == Some([files[0]] + files[1..]);
      assert [files[0]] + files[1..] == files;
    }
  }

  /** Encoding a list of files and forwarding it gives back every file, in order. */
  lemma EncodeRoundTrip(files: seq<(FileKind, string)>)
    requires forall i :: 0 <= i < |files| ==> CleanId(files[i].1)
    ensures FilesToForward(Encode(files)) == Some(files)
  {
    if files != [] {
      var toks := Tokens(files);
      forall i | 0 <= i < |toks| ensures ',' !in toks[i] {
        assert toks[i] == KindName(files[i].0) + ":" + files[i].1;
      }
      SplitJoin(toks, ',');
      ParseTokens(files);
    }
  }

  /** handle_files stores exactly the first attachment, in the list syntax. */
  lemma HandleFilesEncodesFirst(m: Message)
    ensures HandleFiles(m) == Encode(FirstOf(Attachments(m)))
  {
  }

  /**
   * What a proof message yields when it is forwarded: its first attachment
   * in photo, document, video, audio order, and nothing when it has none.
   */
  lemma ForwardedProofIsFirstAttachment(m: Message)
    requires forall i :: 0 <= i < |Attachments(m)| ==> CleanId(Attachments(m)[i].1)
    ensures FilesToForward(HandleFiles(m)) == Some(FirstOf(Attachments(m)))
  {
    HandleFilesEncodesFirst(m);
    EncodeRoundTrip(FirstOf(Attachments(m)));
  }
}
