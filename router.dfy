/** The `messages.upsert` handler of backend/server.js as a decision: which
    single effect an incoming batch causes. The effects themselves (sending,
    fetching, converting, changing a group) are `Action` values here; what
    happens once their results come back is in module Delivery. */
module Router {
  import opened Wrappers
  import opened JsText
  import opened Jid
  import opened Message

  /** The participant changes `groupParticipantsUpdate` is asked for. */
  datatype GroupOp = Remove | Add | Promote | Demote

  /** The operation name passed to the network library. */
  function OpName(op: GroupOp): string {
    match op
    case Remove => "remove"
    case Add => "add"
    case Promote => "promote"
    case Demote => "demote"
  }

  /** Which fetching command was given: `.download`, `.sendimg`, `.sendvid`. */
  datatype FetchKind = AnyFile | ImageFile | VideoFile

  /** The image a sticker is made from. */
  datatype StickerSource = FromQuoted(image: ImageMessage) | FromOwn(image: ImageMessage)

  /** The one effect of a batch. Every effect goes to the chat the message
      came from and quotes it, except a group update, which names its group. */
  datatype Action =
    | Ignore                            // an early return: nothing is sent
    | Fault                             // the handler threw; the error is only logged
    | Reply(text: string)               // a text reply
    | SendMenu                          // the menu template message
    | MakeSticker(source: StickerSource)
    | Fetch(kind: FetchKind, url: string)
    | YtAudio(url: string)
    | GroupUpdate(jid: string, targets: seq<string>, op: GroupOp)
    | GroupInfo(jid: string)

  const GroupOnly: string := "Group only command"
  const StickerUsage: string := "Reply to an image with `.sticker` " + "or send an image with `.sticker` caption."
  const DownloadUsage: string := "Usage: .download <url>"
  const SendImgUsage: string := "Usage: .sendimg <image-url>"
  const SendVidUsage: string := "Usage: .sendvid <video-url>"
  const YtUsage: string := "Usage: .yt <youtube-url>"
  const AddUsage: string := "Example: .add 9477xxxxxxx"
  const KickNoMention: string := "Tag the user you want to kick"
  const PromoteNoMention: string := "Tag a user to promote"
  const DemoteNoMention: string := "Tag a user to demote"

  /** The command words the dispatch table knows. */
  const Known: set<string> :=
    {"menu", "help", "whoami", "sticker", "download", "sendimg", "sendvid", "yt",
     "kick", "add", "promote", "demote", "ginfo"}

  const UnknownHead: string := "Unknown command: ."
  const UnknownTail: string := "\nSend .menu to see commands."

  /** The reply to a command the table does not know (backend/server.js:293). */
  function UnknownReply(command: string): string {
    UnknownHead + command + UnknownTail
  }

  /** The command can be read back from between the reply's fixed parts, so
      distinct unknown commands get distinct replies. */
  lemma UnknownReplyReadBack(command: string)
    ensures var r := UnknownReply(command);
      StartsWith(r, UnknownHead) && EndsWith(r, UnknownTail)
      && |UnknownHead| + |UnknownTail| <= |r| && r[|UnknownHead|..|r| - |UnknownTail|] == command
  {
    var r := UnknownReply(command);
    assert r[..|UnknownHead|] == UnknownHead;
    assert r[|r| - |UnknownTail|..] == UnknownTail;
    assert r[|UnknownHead|..|r| - |UnknownTail|] == command;
  }

  // ---------------------------------------------------------------------
  // Filters and tokenising (backend/server.js:91-106)
  // ---------------------------------------------------------------------

  /** A message the bot answers: it has content, is not a status update,
      was not sent by the bot, and its body is a dot command. */
  function Accepted(msg: Msg): (b: bool)
    ensures b ==> msg.message.Some? && Body(msg.message.value) != [] && Body(msg.message.value)[0] == '.'
    ensures b ==> msg.key.remoteJid != StatusBroadcast && !msg.key.fromMe
    ensures msg.message.Some? && !StartsWith(Body(msg.message.value), ".") ==> !b
  {
    if msg.message.None? then false
    else
      var body := Body(msg.message.value);
      var dot := StartsWith(body, ".");
      assert dot ==> body[0] == body[..1][0] == '.';
      msg.key.remoteJid != StatusBroadcast && !msg.key.fromMe && dot
  }

  /** `args[0].slice(1).toLowerCase()` where `args` are the words. */
  function Command(body: string): (command: string)
    requires StartsWith(body, ".")
    ensures forall i :: 0 <= i < |command| ==> !IsUpper(command[i]) && command[i] != ' '
  {
    assert body[0] == body[..1][0];
    var first := Words(body)[0];
    assert forall i :: 0 <= i < |first[1..]| ==> first[1..][i] in first;
    ToLower(first[1..])
  }

  /** The command is the text between the dot and the first space,
      lower-cased, and what follows it supplies the arguments: `args[1]`
      is the first word after the command. */
  lemma CommandIsFirstWord(body: string)
    requires StartsWith(body, ".")
    ensures Command(body) == ToLower(TakeUntil(body, ' ')[1..])
    ensures Words(body)[1..] == Words(body[|TakeUntil(body, ' ')|..])
    ensures var w := TakeUntil(body, ' ');
      |w| < |body| ==> body[|w|] == ' ' && Words(body)[1..] == Words(body[|w| + 1..])
  {
    assert body[0] == body[..1][0];
    WordsTail(body);
    var w := TakeUntil(body, ' ');
    if |w| < |body| {
      var rest := body[|w|..];
      assert rest == [' '] + body[|w| + 1..];
      WordsSkipSpace(body[|w| + 1..]);
    }
  }

  /** A lone dot is the empty command. */
  lemma LoneDotIsEmptyCommand()
    ensures Command(".") == []
  {
    assert TakeUntil(".", ' ') == ".";
    CommandIsFirstWord(".");
  }

  // ---------------------------------------------------------------------
  // The handler
  // ---------------------------------------------------------------------

  /** The effect of one `messages.upsert` batch: only its first message is
      handled, and an empty batch makes the handler throw. */
  function Route(u: Upsert, botName: string): (a: Action)
    ensures a == Ignore <==> u.messages.None? || (|u.messages.value| > 0 && !Accepted(u.messages.value[0]))
    ensures a == Fault <==> u.messages == Some([])
  {
    match u.messages
    case None => Ignore
    case Some(ms) => if ms == [] then Fault else HandleMessage(ms[0], botName)
  }

  /** The filters, then the dispatch on the command word. Exactly the
      messages that fail a filter are ignored. */
  function HandleMessage(msg: Msg, botName: string): (a: Action)
    ensures a == Ignore <==> !Accepted(msg)
    ensures a != Fault
  {
    if msg.message.None? then Ignore
    else if msg.key.remoteJid == StatusBroadcast then Ignore
    else if msg.key.fromMe then Ignore
    else
      var content := msg.message.value;
      var from := msg.key.remoteJid;
      var sender := Sender(msg.key.participant, msg.key.remoteJid);
      var body := Body(content);
      if body == [] then Ignore
      else if !StartsWith(body, ".") then Ignore
      else Dispatch(Command(body), Words(body), from, sender, content, botName)
  }

  /** The dispatch table (backend/server.js:112-293). `args` are the words
      of the body, the command word first. */
  function Dispatch(command: string, args: seq<string>, from: string, sender: string,
                    content: Content, botName: string): (a: Action)
    ensures a != Ignore && a != Fault
  {
    var arg := if |args| > 1 then Some(args[1]) else None;
    if command == "menu" || command == "help" then SendMenu
    else if command == "whoami" then
      Reply("You: " + sender + "\nChat: " + from + "\nBot: " + botName)
    else if command == "sticker" then
      (match StickerImage(content)
       case None => Reply(StickerUsage)
       case Some(source) => MakeSticker(source))
    else if command == "download" then
      (if arg.None? then Reply(DownloadUsage) else Fetch(AnyFile, arg.value))
    else if command == "sendimg" then
      (if arg.None? then Reply(SendImgUsage) else Fetch(ImageFile, arg.value))
    else if command == "sendvid" then
      (if arg.None? then Reply(SendVidUsage) else Fetch(VideoFile, arg.value))
    else if command == "yt" then
      (if arg.None? then Reply(YtUsage) else YtAudio(arg.value))
    else if command == "kick" then
      (if !IsGroup(from) then Reply(GroupOnly)
       else if Mentions(content).None? then Reply(KickNoMention)
       else GroupUpdate(from, Mentions(content).value, Remove))
    else if command == "add" then
      (if !IsGroup(from) then Reply(GroupOnly)
       else if arg.None? then Reply(AddUsage)
       else GroupUpdate(from, [arg.value + UserServer], Add))
    else if command == "promote" then
      (if Mentions(content).None? then Reply(PromoteNoMention)
       else GroupUpdate(from, Mentions(content).value, Promote))
    else if command == "demote" then
      (if Mentions(content).None? then Reply(DemoteNoMention)
       else GroupUpdate(from, Mentions(content).value, Demote))
    else if command == "ginfo" then
      (if !IsGroup(from) then Reply(GroupOnly) else GroupInfo(from))
    else Reply(UnknownReply(command))
  }

  /** The image of a `.sticker` command: a quoted image first, else the
      message's own image (backend/server.js:148-153). */
  function StickerImage(c: Content): (r: Option<StickerSource>)
    ensures QuotedImage(c).Some? ==> r == Some(FromQuoted(QuotedImage(c).value))
    ensures QuotedImage(c).None? && c.imageMessage.Some? ==> r == Some(FromOwn(c.imageMessage.value))
    ensures r.None? <==> QuotedImage(c).None? && c.imageMessage.None?
  {
    if QuotedImage(c).Some? then Some(FromQuoted(QuotedImage(c).value))
    else if c.imageMessage.Some? then Some(FromOwn(c.imageMessage.value))
    else None
  }

  // ---------------------------------------------------------------------
  // Properties of the dispatch table
  // ---------------------------------------------------------------------

  /** `.menu` and `.help` send the same menu. */
  lemma MenuHelpAlias(args: seq<string>, from: string, sender: string, content: Content, botName: string)
    ensures Dispatch("menu", args, from, sender, content, botName) == SendMenu
    ensures Dispatch("help", args, from, sender, content, botName) == SendMenu
  {
  }

  /** A command outside the table gets the unknown-command reply, and only
      such a command does. */
  lemma {:induction false} UnknownCommandReply(command: string, args: seq<string>, from: string, sender: string,
                                               content: Content, botName: string)
    ensures Dispatch(command, args, from, sender, content, botName) == Reply(UnknownReply(command))
            <==> command !in Known
  {
    var a := Dispatch(command, args, from, sender, content, botName);
    var u := UnknownReply(command);
    assert u[1] == 'n';
    if command in Known && a.Reply? {
      KnownReplySecondChar(command, args, from, sender, content, botName);
      assert a.text[1] != u[1];
    }
  }

  /** Every reply of a known command differs from the unknown-command reply
      in its second character. */
  lemma KnownReplySecondChar(command: string, args: seq<string>, from: string, sender: string,
                             content: Content, botName: string)
    requires command in Known
    requires Dispatch(command, args, from, sender, content, botName).Reply?
    ensures var t := Dispatch(command, args, from, sender, content, botName).text;
      |t| > 1 && t[1] != 'n'
  {
    var t := Dispatch(command, args, from, sender, content, botName).text;
    if command == "whoami" {
      assert t[1] == 'o';
    } else if command == "sticker" {
      assert t == StickerUsage && StickerUsage[1] == 'e';
    } else if command == "download" {
      assert t == DownloadUsage && DownloadUsage[1] == 's';
    } else if command == "sendimg" {
      assert t == SendImgUsage && SendImgUsage[1] == 's';
    } else if command == "sendvid" {
      assert t == SendVidUsage && SendVidUsage[1] == 's';
    } else if command == "yt" {
      assert t == YtUsage && YtUsage[1] == 's';
    } else if command == "kick" {
      assert t in {GroupOnly, KickNoMention} && GroupOnly[1] == 'r' && KickNoMention[1] == 'a';
    } else if command == "add" {
      assert t in {GroupOnly, AddUsage} && GroupOnly[1] == 'r' && AddUsage[1] == 'x';
    } else if command == "promote" {
      assert t == PromoteNoMention && PromoteNoMention[1] == 'a';
    } else if command == "demote" {
      assert t == DemoteNoMention && DemoteNoMention[1] == 'a';
    } else {
      assert command == "ginfo";
      assert t == GroupOnly && GroupOnly[1] == 'r';
    }
  }

  /** `.whoami` answers with the sender, the chat and the bot's name. */
  lemma WhoamiReply(args: seq<string>, from: string, sender: string, content: Content, botName: string)
    ensures Dispatch("whoami", args, from, sender, content, botName)
            == Reply("You: " + sender + "\nChat: " + from + "\nBot: " + botName)
  {
  }

  /** In a group, `.ginfo` asks for the information of that group. */
  lemma GroupInfoInGroup(args: seq<string>, from: string, sender: string, content: Content, botName: string)
    requires IsGroup(from)
    ensures Dispatch("ginfo", args, from, sender, content, botName) == GroupInfo(from)
  {
  }

  /** Every group update goes to the chat the command came from, and the
      operation the library is asked for is named after the command, except
      that `.kick` asks for `remove`. */
  lemma GroupUpdateOps(command: string, args: seq<string>, from: string, sender: string,
                       content: Content, botName: string)
    requires Dispatch(command, args, from, sender, content, botName).GroupUpdate?
    ensures var a := Dispatch(command, args, from, sender, content, botName);
      a.jid == from
      && (command == "kick" ==> OpName(a.op) == "remove")
      && (command == "add" || command == "promote" || command == "demote" ==> OpName(a.op) == command)
      && (command == "kick" || command == "add" || command == "promote" || command == "demote")
  {
  }

  /** Distinct operations are passed to the library under distinct names. */
  lemma OpNameInjective(x: GroupOp, y: GroupOp)
    ensures OpName(x) == OpName(y) <==> x == y
  {
  }

  /** `.kick`, `.add` and `.ginfo` outside a group are refused before any
      argument or mention is looked at. */
  lemma GroupOnlyFirst(command: string, args: seq<string>, from: string, sender: string,
                       content: Content, botName: string)
    requires command == "kick" || command == "add" || command == "ginfo"
    requires !IsGroup(from)
    ensures Dispatch(command, args, from, sender, content, botName) == Reply(GroupOnly)
  {
  }

  /** `.promote` and `.demote` make no group check, and a mention list is
      refused only when absent: an empty list is passed on as it is. */
  lemma PromoteDemoteUnchecked(args: seq<string>, from: string, sender: string,
                               content: Content, botName: string)
    ensures Mentions(content).Some? ==>
      Dispatch("promote", args, from, sender, content, botName) == GroupUpdate(from, Mentions(content).value, Promote)
      && Dispatch("demote", args, from, sender, content, botName) == GroupUpdate(from, Mentions(content).value, Demote)
    ensures Mentions(content).None? ==>
      Dispatch("promote", args, from, sender, content, botName) == Reply(PromoteNoMention)
      && Dispatch("demote", args, from, sender, content, botName) == Reply(DemoteNoMention)
  {
  }

  /** In a group, `.kick` removes exactly the mentioned members, even none. */
  lemma KickMentioned(args: seq<string>, from: string, sender: string, content: Content, botName: string)
    requires IsGroup(from)
    ensures Mentions(content).None? ==> Dispatch("kick", args, from, sender, content, botName) == Reply(KickNoMention)
    ensures Mentions(content).Some? ==>
      Dispatch("kick", args, from, sender, content, botName) == GroupUpdate(from, Mentions(content).value, Remove)
  {
  }

  /** Without a word after the command, the commands that need one answer
      with their usage text. */
  lemma UsageWithoutArgument(args: seq<string>, from: string, sender: string, content: Content, botName: string)
    requires |args| <= 1
    ensures Dispatch("download", args, from, sender, content, botName) == Reply(DownloadUsage)
    ensures Dispatch("sendimg", args, from, sender, content, botName) == Reply(SendImgUsage)
    ensures Dispatch("sendvid", args, from, sender, content, botName) == Reply(SendVidUsage)
    ensures Dispatch("yt", args, from, sender, content, botName) == Reply(YtUsage)
    ensures IsGroup(from) ==> Dispatch("add", args, from, sender, content, botName) == Reply(AddUsage)
  {
  }

  /** With a word after the command, the fetching commands fetch exactly it. */
  lemma FetchArgument(args: seq<string>, from: string, sender: string, content: Content, botName: string)
    requires |args| >= 2
    ensures Dispatch("download", args, from, sender, content, botName) == Fetch(AnyFile, args[1])
    ensures Dispatch("sendimg", args, from, sender, content, botName) == Fetch(ImageFile, args[1])
    ensures Dispatch("sendvid", args, from, sender, content, botName) == Fetch(VideoFile, args[1])
    ensures Dispatch("yt", args, from, sender, content, botName) == YtAudio(args[1])
  {
  }

  /** In a group, `.add <number>` adds exactly one member, the number on the
      user server. The number is not normalised: it agrees with Normalize
      only when it holds no `@`. */
  lemma AddTarget(args: seq<string>, from: string, sender: string, content: Content, botName: string)
    requires IsGroup(from) && |args| >= 2
    ensures Dispatch("add", args, from, sender, content, botName) == GroupUpdate(from, [args[1] + UserServer], Add)
    ensures '@' !in args[1] ==> [args[1] + UserServer] == [Normalize(args[1])]
    ensures '@' in args[1] ==> args[1] + UserServer != Normalize(args[1])
  {
    NormalizeUnchangedIff(args[1]);
  }

  /** `.sticker` prefers a quoted image over the message's own image; with
      neither it answers with its usage text. */
  lemma StickerChoice(args: seq<string>, from: string, sender: string, content: Content, botName: string)
    ensures QuotedImage(content).Some? ==>
      Dispatch("sticker", args, from, sender, content, botName) == MakeSticker(FromQuoted(QuotedImage(content).value))
    ensures QuotedImage(content).None? && content.imageMessage.Some? ==>
      Dispatch("sticker", args, from, sender, content, botName) == MakeSticker(FromOwn(content.imageMessage.value))
    ensures QuotedImage(content).None? && content.imageMessage.None? ==>
      Dispatch("sticker", args, from, sender, content, botName) == Reply(StickerUsage)
  {
  }

  // ---------------------------------------------------------------------
  // From message to effect
  // ---------------------------------------------------------------------

  /** A private chat, text `.Kick @x`, padded with blanks: the command is
      found through the case and the padding, and refused as group-only. */
  lemma KickInPrivateChat(botName: string)
    ensures var msg := Msg(Key("94771234567@s.whatsapp.net", false, None),
                           Some(Content(Some("  .Kick @x "), None, None, None)));
      HandleMessage(msg, botName) == Reply(GroupOnly)
  {
    var body := "  .Kick @x ";
    var mid := ".Kick @x";
    var chat := "94771234567@s.whatsapp.net";
    var content := Content(Some(body), None, None, None);
    var msg := Msg(Key(chat, false, None), Some(content));
    KickBody(body, mid);
    KickCommand(mid);
    assert Accepted(msg);
    assert HandleMessage(msg, botName) == Dispatch("kick", Words(mid), chat, Sender(None, chat), content, botName);
    assert !IsGroup(chat);
    GroupOnlyFirst("kick", Words(mid), chat, Sender(None, chat), content, botName);
  }

  lemma KickBody(body: string, mid: string)
    requires body == "  .Kick @x " && mid == ".Kick @x"
    ensures Body(Content(Some(body), None, None, None)) == mid
  {
    var pre, post := "  ", " ";
    assert pre + mid + post == body;
    TrimOfPadded(pre, mid, post);
    assert TextFields(Content(Some(body), None, None, None))[0] == body;
  }

  lemma KickCommand(mid: string)
    requires mid == ".Kick @x"
    ensures StartsWith(mid, ".") && Command(mid) == "kick"
  {
    CommandIsFirstWord(mid);
    assert mid == ".Kick" + " @x";
    TakeUntilPrefix(".Kick", " @x", ' ');
    assert ToLower("Kick") == "kick";
  }
}