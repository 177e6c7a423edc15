/** What an effect chosen by the router ends in once the library calls it
    makes have answered (backend/server.js:138-291). The answers of `fetch`,
    `mime.extension`, `ytdl`, the sticker conversion and `groupMetadata`
    are inputs here, and the result is the messages the bot sends. */
module Delivery {
  import opened Wrappers
  import opened JsText
  import opened Message
  import opened Router

  type Bytes = seq<bv8>

  /** A thrown JavaScript `Error`: its name and its message. */
  datatype JsError = JsError(name: string, message: string)

  /** `e.message || e`: the message, or, when it is empty, the string form of
      the error, which for an `Error` with an empty message is its name. */
  function ErrorText(e: JsError): (t: string)
    ensures e.message != [] ==> t == e.message
    ensures e.message == [] ==> t == e.name
    ensures t == [] <==> e.message == [] && e.name == []
  {
    if e.message != [] then e.message else e.name
  }

  /** An awaited library call: the value it resolved to, or what it threw. */
  datatype Attempt<T> = Done(value: T) | Threw(error: JsError)

  /** A `fetch` response: the status, the Content-Type header, and reading
      the body (`res.buffer()`). */
  datatype Response = Response(status: nat, contentType: Option<string>, body: Attempt<Bytes>)

  /** `res.ok`: the status is in the range 200 to 299 of the Fetch
      Standard's "ok status". */
  predicate Ok(r: Response) {
    200 <= r.status <= 299
  }

  /** The answer of `groupMetadata`: the subject and the number of members. */
  datatype GroupMetadata = GroupMetadata(subject: string, members: nat)

  /** A message the bot sends to the chat, quoting the command message. */
  datatype Outgoing =
    | Text(text: string)
    | MenuTemplate(footer: string)
    | Image(image: Bytes, caption: string)
    | Video(video: Bytes, caption: string)
    | Document(document: Bytes, fileName: string, mimetype: string)
    | Audio(audio: Bytes, mimetype: string, fileName: string)
    | Sticker(sticker: Bytes)

  /** How a started effect ends: it sends one message, or the exception
      escapes to the handler's outer catch and nothing more is sent. */
  datatype Completion = Sent(out: Outgoing) | Faulted

  // ---------------------------------------------------------------------
  // .download, .sendimg, .sendvid (backend/server.js:174-229)
  // ---------------------------------------------------------------------

  const DefaultType: string := "application/octet-stream"
  const DefaultExtension: string := "bin"

  /** The text sent before a fetch starts. */
  function FetchNotice(kind: FetchKind): string {
    match kind
    case AnyFile => "Downloading, please wait..."
    case ImageFile => "Fetching image..."
    case VideoFile => "Fetching video (may be large) ..."
  }

  /** What a failed fetch's reply starts with. */
  function FetchFailure(kind: FetchKind): string {
    match kind
    case AnyFile => "Download failed: "
    case ImageFile => "Failed to send image: "
    case VideoFile => "Failed to send video: "
  }

  /** `res.headers.get('content-type') || 'application/octet-stream'` */
  function ContentType(header: Option<string>): (t: string)
    ensures t != []
    ensures header.Some? && header.value != [] ==> t == header.value
    ensures header.None? || header.value == [] ==> t == DefaultType
  {
    if header.Some? && header.value != [] then header.value else DefaultType
  }

  /** `mime.extension(contentType) || 'bin'`, for a lookup that may find
      nothing. */
  function Extension(contentType: string, lookup: string -> Option<string>): (ext: string)
    ensures ext != []
    ensures lookup(contentType).None? || lookup(contentType) == Some([]) ==> ext == DefaultExtension
    ensures lookup(contentType).Some? && lookup(contentType).value != [] ==> ext == lookup(contentType).value
  {
    var found := lookup(contentType);
    if found.Some? && found.value != [] then found.value else DefaultExtension
  }

  /** The message a downloaded file is sent as: by the prefix of its content
      type, an image, a video, or else a document named after its
      extension. */
  function Classify(buffer: Bytes, url: string, contentType: string, ext: string): (o: Outgoing)
    ensures o.Image? <==> StartsWith(contentType, "image/")
    ensures o.Video? <==> !StartsWith(contentType, "image/") && StartsWith(contentType, "video/")
    ensures o.Document? <==> !StartsWith(contentType, "image/") && !StartsWith(contentType, "video/")
    ensures o.Image? ==> o.image == buffer && o.caption == "Downloaded file (" + url + ")"
    ensures o.Video? ==> o.video == buffer && o.caption == "Downloaded file (" + url + ")"
    ensures o.Document? ==> o.document == buffer && o.fileName == "file." + ext && o.mimetype == contentType
  {
    if StartsWith(contentType, "image/") then Image(buffer, "Downloaded file (" + url + ")")
    else if StartsWith(contentType, "video/") then Video(buffer, "Downloaded file (" + url + ")")
    else Document(buffer, "file." + ext, contentType)
  }

  const StatusPrefix: string := "fetch error "

  /** The error thrown for a response that is not ok: its message is the
      prefix followed by the status, which can be read back from it. */
  function StatusError(status: nat): (e: JsError)
    ensures e.name == "Error" && StartsWith(e.message, StatusPrefix)
    ensures var digits := e.message[|StatusPrefix|..];
      (forall i :: 0 <= i < |digits| ==> IsDigit(digits[i])) && DecimalValue(digits) == status
      && |digits| >= 1 && (digits[0] != '0' || |digits| == 1)
    ensures ErrorText(e) == e.message
  {
    var m := StatusPrefix + Decimal(status);
    DecimalRoundTrip(status);
    assert m[..|StatusPrefix|] == StatusPrefix;
    assert m[|StatusPrefix|..] == Decimal(status);
    JsError("Error", m)
  }

  /** The end of a fetch: every failure is caught and answered with the
      command's failure prefix followed by the error's text, and a body that
      was read is sent. */
  function CompleteFetch(kind: FetchKind, url: string, fetched: Attempt<Response>,
                         lookup: string -> Option<string>): (c: Completion)
    ensures c.Sent?
    ensures fetched.Threw? ==> c == Sent(Text(FetchFailure(kind) + ErrorText(fetched.error)))
    ensures fetched.Done? && !Ok(fetched.value) ==>
      c == Sent(Text(FetchFailure(kind) + StatusPrefix + Decimal(fetched.value.status)))
    ensures fetched.Done? && Ok(fetched.value) && fetched.value.body.Threw? ==>
      c == Sent(Text(FetchFailure(kind) + ErrorText(fetched.value.body.error)))
    ensures fetched.Done? && Ok(fetched.value) && fetched.value.body.Done? ==>
      !c.out.Text? && !c.out.Audio? && !c.out.Sticker? && !c.out.MenuTemplate?
  {
    assert forall st :: FetchFailure(kind) + ErrorText(StatusError(st)) == FetchFailure(kind) + StatusPrefix + Decimal(st);
    match fetched
    case Threw(e) => Sent(Text(FetchFailure(kind) + ErrorText(e)))
    case Done(res) =>
      if !Ok(res) then Sent(Text(FetchFailure(kind) + ErrorText(StatusError(res.status))))
      else
        match res.body
        case Threw(e) => Sent(Text(FetchFailure(kind) + ErrorText(e)))
        case Done(buffer) =>
          match kind
          case AnyFile =>
            var contentType := ContentType(res.contentType);
            Sent(Classify(buffer, url, contentType, Extension(contentType, lookup)))
          case ImageFile => Sent(Image(buffer, "Image from " + url))
          case VideoFile => Sent(Video(buffer, "Video from " + url))
  }

  /** A download is sent as an image exactly when its content type starts
      with `image/`, as a video exactly when it starts with `video/` and not
      `image/`, and otherwise as a document called `file.<ext>` that carries
      the content type; the file itself is what the body held. */
  lemma DownloadClassification(url: string, res: Response, lookup: string -> Option<string>)
    requires Ok(res) && res.body.Done?
    ensures var c := CompleteFetch(AnyFile, url, Done(res), lookup);
      var t := ContentType(res.contentType);
      c.Sent?
      && (c.out.Image? <==> StartsWith(t, "image/"))
      && (c.out.Video? <==> !StartsWith(t, "image/") && StartsWith(t, "video/"))
      && (c.out.Document? <==> !StartsWith(t, "image/") && !StartsWith(t, "video/"))
      && (c.out.Image? || c.out.Video? || c.out.Document?)
      && (c.out.Document? ==> c.out.document == res.body.value && c.out.mimetype == t
                              && c.out.fileName == "file." + Extension(t, lookup))
      && (c.out.Image? ==> c.out.image == res.body.value)
      && (c.out.Video? ==> c.out.video == res.body.value)
  {
  }

  /** A response without a content type is a document of the default type,
      named `file.bin` when the lookup knows no extension for it. */
  lemma DownloadDefaultType(url: string, res: Response, lookup: string -> Option<string>)
    requires Ok(res) && res.body.Done?
    requires res.contentType.None? || res.contentType == Some([])
    ensures var c := CompleteFetch(AnyFile, url, Done(res), lookup);
      c == Sent(Document(res.body.value, "file." + Extension(DefaultType, lookup), DefaultType))
    ensures lookup(DefaultType).None? ==>
      CompleteFetch(AnyFile, url, Done(res), lookup) == Sent(Document(res.body.value, "file.bin", DefaultType))
  {
    assert !StartsWith(DefaultType, "image/") by {
      assert DefaultType[0] == 'a';
    }
    assert !StartsWith(DefaultType, "video/") by {
      assert DefaultType[0] == 'a';
    }
    assert ContentType(res.contentType) == DefaultType;
    var ext := Extension(DefaultType, lookup);
    assert CompleteFetch(AnyFile, url, Done(res), lookup) == Sent(Classify(res.body.value, url, DefaultType, ext));
    if lookup(DefaultType).None? {
      assert ext == "bin";
      assert "file." + ext == "file.bin";
    }
  }

  /** A document's name is `file.` followed by a non-empty extension. */
  lemma DocumentName(url: string, res: Response, lookup: string -> Option<string>)
    requires Ok(res) && res.body.Done?
    requires CompleteFetch(AnyFile, url, Done(res), lookup).out.Document?
    ensures var name := CompleteFetch(AnyFile, url, Done(res), lookup).out.fileName;
      StartsWith(name, "file.") && |name| > 5
  {
    var ext := Extension(ContentType(res.contentType), lookup);
    StartsWithAppend("file.", "file.", ext);
    assert "file."[..5] == "file.";
  }

  /** `.sendimg` and `.sendvid` send what they fetched whatever its content
      type. */
  lemma SendKindIgnoresType(url: string, res: Response, lookup: string -> Option<string>)
    requires Ok(res) && res.body.Done?
    ensures CompleteFetch(ImageFile, url, Done(res), lookup) == Sent(Image(res.body.value, "Image from " + url))
    ensures CompleteFetch(VideoFile, url, Done(res), lookup) == Sent(Video(res.body.value, "Video from " + url))
  {
  }

  /** A response that is not ok is answered with its status, in a form from
      which the status can be read back. */
  lemma FetchStatusFailure(kind: FetchKind, url: string, res: Response, lookup: string -> Option<string>)
    requires !Ok(res)
    ensures CompleteFetch(kind, url, Done(res), lookup)
            == Sent(Text(FetchFailure(kind) + StatusPrefix + Decimal(res.status)))
    ensures DecimalValue(Decimal(res.status)) == res.status
  {
    DecimalRoundTrip(res.status);
  }

  // ---------------------------------------------------------------------
  // .yt (backend/server.js:231-252)
  // ---------------------------------------------------------------------

  const TitleLimit: nat := 60
  const YtNotice: string := "Downloading audio, please wait..."
  const YtFailure: string := "Failed to download audio: "
  const InvalidUrl: string := "Not a valid YouTube URL"

  /** `${title.substring(0, 60)}.mp3` */
  function AudioFileName(title: string): (name: string)
    ensures |name| <= TitleLimit + 4 && EndsWith(name, ".mp3")
    ensures StartsWith(title, name[..|name| - 4])
    ensures |title| <= TitleLimit ==> name == title + ".mp3"
    ensures |title| > TitleLimit ==> name == title[..TitleLimit] + ".mp3"
  {
    var t := Prefix(title, TitleLimit);
    EndsWithAppend(t, ".mp3");
    assert (t + ".mp3")[..|t|] == t;
    t + ".mp3"
  }

  /** The end of `.yt`: the URL check, the video details, then the audio
      stream; every failure is caught and answered. */
  function CompleteYt(valid: bool, title: Attempt<string>, stream: Attempt<Bytes>): (c: Completion)
    ensures c.Sent?
    ensures !valid ==> c == Sent(Text(YtFailure + InvalidUrl))
    ensures valid && title.Threw? ==> c == Sent(Text(YtFailure + ErrorText(title.error)))
    ensures valid && title.Done? && stream.Threw? ==> c == Sent(Text(YtFailure + ErrorText(stream.error)))
    ensures valid && title.Done? && stream.Done? ==>
      c == Sent(Audio(stream.value, "audio/mpeg", AudioFileName(title.value)))
  {
    if !valid then Sent(Text(YtFailure + ErrorText(JsError("Error", InvalidUrl))))
    else match title
      case Threw(e) => Sent(Text(YtFailure + ErrorText(e)))
      case Done(t) =>
        match stream
        case Threw(e) => Sent(Text(YtFailure + ErrorText(e)))
        case Done(audio) => Sent(Audio(audio, "audio/mpeg", AudioFileName(t)))
  }

  // ---------------------------------------------------------------------
  // .sticker (backend/server.js:160-171) and .ginfo (287-289)
  // ---------------------------------------------------------------------

  const StickerFailure: string := "Failed to create sticker: "

  /** The end of `.sticker`: the media download is outside the inner
      `try`, so its failure escapes and nothing is answered; a failed
      conversion is answered. */
  function CompleteSticker(download: Attempt<Bytes>, convert: Bytes -> Attempt<Bytes>): (c: Completion)
    ensures download.Threw? <==> c == Faulted
    ensures download.Done? && convert(download.value).Done? ==> c == Sent(Sticker(convert(download.value).value))
    ensures download.Done? && convert(download.value).Threw? ==>
      c == Sent(Text(StickerFailure + ErrorText(convert(download.value).error)))
  {
    match download
    case Threw(_) => Faulted
    case Done(image) =>
      match convert(image)
      case Threw(e) => Sent(Text(StickerFailure + ErrorText(e)))
      case Done(webp) => Sent(Sticker(webp))
  }

  /** What the `.ginfo` text has before the member count and after it. */
  function GroupInfoHead(subject: string): string {
    "*Group Info*\nName: " + subject + "\nMembers: "
  }

  function GroupInfoTail(jid: string): string {
    "\nID: " + jid
  }

  /** The end of `.ginfo`: a text naming the group's subject, then its
      member count, which can be read back from the text, then its
      address. */
  function CompleteGroupInfo(jid: string, metadata: Attempt<GroupMetadata>): (c: Completion)
    ensures metadata.Threw? <==> c == Faulted
    ensures metadata.Done? ==> c.Sent? && c.out.Text?
    ensures metadata.Done? ==>
      var head, tail, text := GroupInfoHead(metadata.value.subject), GroupInfoTail(jid), c.out.text;
      StartsWith(text, head) && EndsWith(text, tail) && |head| + |tail| < |text|
      && var count := text[|head|..|text| - |tail|];
      (forall i :: 0 <= i < |count| ==> IsDigit(count[i])) && DecimalValue(count) == metadata.value.members
      && (count[0] != '0' || |count| == 1)
  {
    match metadata
    case Threw(_) => Faulted
    case Done(m) =>
      var head, count, tail := GroupInfoHead(m.subject), Decimal(m.members), GroupInfoTail(jid);
      var text := head + count + tail;
      DecimalRoundTrip(m.members);
      assert text[..|head|] == head;
      assert text[|text| - |tail|..] == tail;
      assert text[|head|..|text| - |tail|] == count;
      Sent(Text(text))
  }

  // ---------------------------------------------------------------------
  // Everything a batch makes the bot send
  // ---------------------------------------------------------------------

  /** The answers of the library calls an effect may make. */
  datatype Answers = Answers(
    fetched: Attempt<Response>,
    extension: string -> Option<string>,
    ytValid: bool,
    ytTitle: Attempt<string>,
    ytStream: Attempt<Bytes>,
    stickerDownload: Attempt<Bytes>,
    stickerConvert: Bytes -> Attempt<Bytes>,
    metadata: Attempt<GroupMetadata>)

  function AfterNotice(notice: string, c: Completion): seq<Outgoing> {
    [Text(notice)] + (if c.Sent? then [c.out] else [])
  }

  /** The messages an effect sends, in order. A group update sends nothing
      of its own. */
  function Sends(a: Action, answers: Answers, botName: string): (out: seq<Outgoing>)
    ensures a.Ignore? || a.Fault? || a.GroupUpdate? ==> out == []
    ensures a.Reply? || a.SendMenu? || a.Fetch? || a.YtAudio? ==> out != []
    ensures |out| <= 2
    ensures a.Reply? ==> out == [Text(a.text)]
    ensures a.Fetch? ==> |out| == 2 && out[0] == Text(FetchNotice(a.kind))
    ensures a.YtAudio? ==> |out| == 2 && out[0] == Text(YtNotice)
    ensures a.Fetch? ==> out[1] == CompleteFetch(a.kind, a.url, answers.fetched, answers.extension).out
    ensures a.YtAudio? ==> out[1] == CompleteYt(answers.ytValid, answers.ytTitle, answers.ytStream).out
    ensures a.GroupInfo? && answers.metadata.Done? ==> out == [CompleteGroupInfo(a.jid, answers.metadata).out]
    ensures a.GroupInfo? && answers.metadata.Threw? ==> out == []
    ensures a.SendMenu? ==> out == [MenuTemplate(botName)]
    ensures a.MakeSticker? && answers.stickerDownload.Threw? ==> out == []
    ensures a.MakeSticker? && answers.stickerDownload.Done? ==>
      out == [CompleteSticker(answers.stickerDownload, answers.stickerConvert).out]
  {
    match a
    case Ignore => []
    case Fault => []
    case Reply(text) => [Text(text)]
    case SendMenu => [MenuTemplate(botName)]
    case MakeSticker(_) =>
      var c := CompleteSticker(answers.stickerDownload, answers.stickerConvert);
      if c.Sent? then [c.out] else []
    case Fetch(kind, url) =>
      AfterNotice(FetchNotice(kind), CompleteFetch(kind, url, answers.fetched, answers.extension))
    case YtAudio(_) =>
      AfterNotice(YtNotice, CompleteYt(answers.ytValid, answers.ytTitle, answers.ytStream))
    case GroupUpdate(_, _, _) => []
    case GroupInfo(jid) =>
      var c := CompleteGroupInfo(jid, answers.metadata);
      if c.Sent? then [c.out] else []
  }

  /** A batch the router ignores, or whose handling throws at once, makes
      the bot send nothing at all. */
  lemma FilteredBatchSendsNothing(u: Upsert, answers: Answers, botName: string)
    requires u.messages.None? || u.messages == Some([]) || !Accepted(u.messages.value[0])
    ensures Sends(Route(u, botName), answers, botName) == []
  {
  }
}
