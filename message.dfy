/** The inbound message record the router reads, with only the fields it
    looks at, and the selection of the command text from it. An absent field
    or an absent link in an optional chain (`a?.b?.c`) is `None`. */
module Message {
  import opened Wrappers
  import opened JsText

  /** `msg.key`: the chat the message came in, whether the bot itself sent
      it, and, in a group, the member who did. */
  datatype Key = Key(remoteJid: string, fromMe: bool, participant: Option<string>)

  /** An image or a video; the media itself is not looked at by the router. */
  datatype ImageMessage = ImageMessage(caption: Option<string>)
  datatype VideoMessage = VideoMessage(caption: Option<string>)

  /** The message a reply quotes. */
  datatype QuotedMessage = QuotedMessage(imageMessage: Option<ImageMessage>)

  /** What a reply or a mention carries besides its text. */
  datatype ContextInfo = ContextInfo(quotedMessage: Option<QuotedMessage>, mentionedJid: Option<seq<string>>)

  /** A text message with formatting, quoting or mentions. */
  datatype ExtendedText = ExtendedText(text: Option<string>, contextInfo: Option<ContextInfo>)

  /** `msg.message`: the kinds of content the router looks at. */
  datatype Content = Content(
    conversation: Option<string>,
    extendedTextMessage: Option<ExtendedText>,
    imageMessage: Option<ImageMessage>,
    videoMessage: Option<VideoMessage>)

  datatype Msg = Msg(key: Key, message: Option<Content>)

  /** The `messages.upsert` event: a batch, of which only the first message
      is handled. */
  datatype Upsert = Upsert(messages: Option<seq<Msg>>)

  /** The value of an optional string field where only its truthiness
      matters: absent reads as the empty string, which is falsy. */
  function OrEmpty(o: Option<string>): (r: string)
    ensures r != [] <==> o.Some? && o.value != []
  {
    if o.Some? then o.value else []
  }

  function ContextOf(c: Content): Option<ContextInfo> {
    if c.extendedTextMessage.Some? then c.extendedTextMessage.value.contextInfo else None
  }

  /** The four places a command can be written, in the order the source
      tries them: plain text, extended text, image caption, video caption. */
  function TextFields(c: Content): (r: seq<string>)
    ensures |r| == 4
  {
    [ OrEmpty(c.conversation),
      if c.extendedTextMessage.Some? then OrEmpty(c.extendedTextMessage.value.text) else [],
      if c.imageMessage.Some? then OrEmpty(c.imageMessage.value.caption) else [],
      if c.videoMessage.Some? then OrEmpty(c.videoMessage.value.caption) else [] ]
  }

  /** `a || b || ... || ''` over strings: the first non-empty one. */
  function FirstNonEmpty(xs: seq<string>): (r: string)
    ensures (forall k :: 0 <= k < |xs| ==> xs[k] == []) ==> r == []
    ensures forall k :: 0 <= k < |xs| && xs[k] != [] && (forall j :: 0 <= j < k ==> xs[j] == []) ==> r == xs[k]
    decreases |xs|
  {
    if xs == [] then []
    else if xs[0] != [] then xs[0]
    else FirstNonEmpty(xs[1..])
  }

  /** The trimmed command text (backend/server.js:101): blank at neither
      end, and empty when every text field is. */
  function Body(c: Content): (r: string)
    ensures r == [] || (!IsTrimmable(r[0]) && !IsTrimmable(r[|r| - 1]))
    ensures (forall k :: 0 <= k < 4 ==> TextFields(c)[k] == []) ==> r == []
  {
    Trim(FirstNonEmpty(TextFields(c)))
  }

  /** The body is the first of the four text fields, in the order plain
      text, extended text, image caption, video caption, that is not absent
      or empty, trimmed. */
  lemma BodyFirstField(c: Content, k: nat)
    requires k < 4 && TextFields(c)[k] != []
    requires forall j :: 0 <= j < k ==> TextFields(c)[j] == []
    ensures Body(c) == Trim(TextFields(c)[k])
  {
  }

  /** Plain text wins over every caption, even when its trimmed form is
      empty: a blank conversation hides an image caption. */
  lemma BodyPrefersConversation(c: Content)
    requires c.conversation.Some? && c.conversation.value != []
    ensures Body(c) == Trim(c.conversation.value)
  {
  }

  /** A caption is read only when every field before it is absent or empty. */
  lemma BodyFromImageCaption(c: Content, caption: string)
    requires TextFields(c)[0] == [] && TextFields(c)[1] == []
    requires c.imageMessage == Some(ImageMessage(Some(caption))) && caption != []
    ensures Body(c) == Trim(caption)
  {
    assert TextFields(c)[2] == caption;
  }

  /** `content.extendedTextMessage?.contextInfo?.mentionedJid` */
  function Mentions(c: Content): (r: Option<seq<string>>)
    ensures r.Some? <==> c.extendedTextMessage.Some? && c.extendedTextMessage.value.contextInfo.Some?
                         && c.extendedTextMessage.value.contextInfo.value.mentionedJid.Some?
    ensures r.Some? ==> r == c.extendedTextMessage.value.contextInfo.value.mentionedJid
  {
    match ContextOf(c)
    case None => None
    case Some(ci) => ci.mentionedJid
  }

  /** `content.extendedTextMessage?.contextInfo?.quotedMessage?.imageMessage` */
  function QuotedImage(c: Content): (r: Option<ImageMessage>)
    ensures r.Some? <==> c.extendedTextMessage.Some? && c.extendedTextMessage.value.contextInfo.Some?
                         && c.extendedTextMessage.value.contextInfo.value.quotedMessage.Some?
                         && c.extendedTextMessage.value.contextInfo.value.quotedMessage.value.imageMessage.Some?
    ensures r.Some? ==> r == c.extendedTextMessage.value.contextInfo.value.quotedMessage.value.imageMessage
  {
    match ContextOf(c)
    case None => None
    case Some(ci) => if ci.quotedMessage.Some? then ci.quotedMessage.value.imageMessage else None
  }
}
