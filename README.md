# Command router of a chat bot, modelled in Dafny

The bot in `backend/server.js` listens for `messages.upsert` events from a
messaging-network library, reads the first message of each batch, and, when
its text is a dot command (`.menu`, `.sticker`, `.download <url>`, `.yt <url>`,
`.kick`, `.add <number>`, ...), answers in the chat, fetches or converts media,
or changes the members of a group. This project models that handler as pure
functions:

- `Router.Route` maps a batch to the single `Action` it causes: `Ignore`
  (an early return), `Fault` (the handler threw and only logged), `Reply(text)`,
  `SendMenu`, `MakeSticker(source)`, `Fetch(kind, url)`, `YtAudio(url)`,
  `GroupUpdate(jid, targets, op)` or `GroupInfo(jid)`. Nothing is performed.
- `Delivery` says what such an action ends in once the library calls it makes
  have answered: the answers of `fetch`, `mime.extension`, `ytdl`, the sticker
  conversion and `groupMetadata` are inputs, and `Delivery.Sends` lists the
  messages the bot then sends, in order.
- `Message` is the part of the incoming record the handler reads and the choice
  of the command text; `Jid` holds the address helpers (normalising a send
  target, the sender without its device suffix, the group test); `JsText`
  holds the JavaScript string operations they rely on (`trim`, `split(' ')`,
  `filter(Boolean)`, `toLowerCase`, `substring`, number to string), each with
  the property that pins it down.

Files: `wrappers.dfy` (Option), `jstext.dfy`, `jid.dfy`, `message.dfy`,
`router.dfy`, `delivery.dfy`.

Where a step in the source can throw (an empty batch, a failed media
download for a sticker, a failed `groupMetadata`), the model follows what the
code then does: the outer `catch` logs and nothing more is sent.

## Model

| member | source | states |
|---|---|---|
| `Router.Route` | backend/server.js:89-103 | A batch is ignored exactly when it has no messages or its first message fails a filter; an empty batch, and only that, makes the handler fault. |
| `Router.HandleMessage` | backend/server.js:93-103 | A message is ignored exactly when it has no content, comes from the status broadcast, was sent by the bot, or its trimmed body does not start with `.`; every other message gets an effect. |
| `Router.Dispatch` | backend/server.js:112-293 | The dispatch table never ignores and never faults: every dot command gets an effect. |
| `Router.Command` | backend/server.js:105-106 | The command word has no upper-case letter and no space. |
| `Router.Accepted` | backend/server.js:91-103 | An accepted message has content, is not a status update, was not sent by the bot, and has a non-empty body starting with `.`; a body not starting with `.` is never accepted. |
| `Router.CommandIsFirstWord` | backend/server.js:105-106 | The command is the text between the leading dot and the first space, lower-cased; the remaining arguments are the words after that space, so `args[1]` is the first non-empty word after the command. |
| `Router.LoneDotIsEmptyCommand` | backend/server.js:106 | A body of just `.` gives the empty command. |
| `Router.MenuHelpAlias` | backend/server.js:112 | `menu` and `help` both send the menu. |
| `Router.UnknownReplyReadBack` | backend/server.js:293 | The unknown-command reply is `Unknown command: .`, the command, then `\nSend .menu to see commands.`; the command can be read back from it. |
| `Router.UnknownCommandReply` | backend/server.js:293 | The reply `Unknown command: .<command>\nSend .menu to see commands.` comes exactly for the commands outside the table. |
| `Router.WhoamiReply` | backend/server.js:142-145 | `whoami` answers with the sender, the chat and the bot name in the text of line 143. |
| `Router.GroupInfoInGroup` | backend/server.js:285-291 | In a group, `ginfo` asks for the information of that same group. |
| `Router.GroupUpdateOps` | backend/server.js:255-283 | Every group update goes to the chat of the command, comes only from `kick`, `add`, `promote` or `demote`, and asks the library for `remove`, `add`, `promote` or `demote` respectively. |
| `Router.OpNameInjective` | backend/server.js:259-281 | The four operations are passed under four distinct names. |
| `Router.GroupOnlyFirst` | backend/server.js:255-291 | `kick`, `add` and `ginfo` in a chat whose address does not end in `@g.us` answer `Group only command`, whatever the arguments and mentions. |
| `Router.PromoteDemoteUnchecked` | backend/server.js:271-283 | `promote` and `demote` make no group check; they are refused only when the mention list is absent, and an empty list is passed on. |
| `Router.KickMentioned` | backend/server.js:257-259 | In a group, `kick` removes exactly the mentioned members (an empty list included) and asks for a mention when there is none. |
| `Router.UsageWithoutArgument` | backend/server.js:174-268 | Without a word after the command, `download`, `sendimg`, `sendvid`, `yt` and (in a group) `add` answer with their own usage text. |
| `Router.FetchArgument` | backend/server.js:174-252 | With a word after the command, the fetching commands fetch exactly that word. |
| `Router.AddTarget` | backend/server.js:265-267 | In a group, `add <number>` adds exactly `[number + '@s.whatsapp.net']`; this agrees with the send-target normalisation only when the number holds no `@`. |
| `Router.StickerImage` | backend/server.js:148-153 | A quoted image is chosen before the message's own image; there is no source exactly when neither exists. |
| `Router.StickerChoice` | backend/server.js:147-158 | `sticker` converts the quoted image if there is one, else the message's own image, and with neither answers with its usage text. |
| `Router.KickInPrivateChat` | backend/server.js:101-256 | A private-chat text `  .Kick @x ` is trimmed, lower-cased to `kick` and refused as group-only. |
| `Message.Body` | backend/server.js:101 | The body has no whitespace at either end and is empty when every text field is absent or empty. |
| `Message.Mentions` | backend/server.js:257 | The mention list is present exactly when extended text, its context and its mention list all are, and is then that list. |
| `Message.QuotedImage` | backend/server.js:149-150 | The quoted image is present exactly when every link of the optional chain is, and is then that image. |
| `Message.FirstNonEmpty` | backend/server.js:101 | The chain of logical ors over the text fields: empty when all are empty, else the first non-empty one. |
| `Message.BodyFirstField` | backend/server.js:101 | The body is the first non-empty of plain text, extended text, image caption and video caption, in that order, trimmed. |
| `Message.BodyPrefersConversation` | backend/server.js:101 | A non-empty plain text is the body (trimmed) even when a caption exists. |
| `Message.BodyFromImageCaption` | backend/server.js:101 | When plain and extended text are absent or empty, a non-empty image caption is the body (trimmed). |
| `Jid.Normalize` | backend/server.js:67 | The normalised target always contains `@` and extends the input. |
| `Jid.NormalizeUnchangedIff` | backend/server.js:303 | Normalising leaves the input unchanged exactly when it contains `@`. |
| `Jid.NormalizeBare` | backend/server.js:326 | An input without `@` gains exactly `@s.whatsapp.net`. |
| `Jid.NormalizeIdempotent` | backend/server.js:340 | Normalising twice equals normalising once. |
| `Jid.IsGroup` | backend/server.js:99 | A group address contains `@`, so normalising it as a send target leaves it unchanged. |
| `Jid.GroupAddress` | backend/server.js:99 | Every address ending in `@g.us` is a group. |
| `Jid.BareNumberNotGroup` | backend/server.js:99 | A normalised bare number is never a group. |
| `Jid.MatchFrom` | backend/server.js:100 | Finds the leftmost position where `/:.*$/` matches: a colon after which no line terminator occurs. |
| `Jid.StripDevice` | backend/server.js:100 | The stripped address is a prefix of the input. |
| `Jid.StripDeviceBeforeColon` | backend/server.js:100 | Without line terminators, the stripped address is the input cut before its first `:`, has no `:`, and is the input itself when it has none. |
| `Jid.StripDeviceWholeIff` | backend/server.js:100 | The address stays whole exactly when every colon in it is followed, somewhere later, by a line terminator. |
| `Jid.StripDeviceKeepsMultiline` | backend/server.js:100 | Example: `94:7\nx`, whose only colon is followed by a line break, stays whole. |
| `Jid.StripDeviceLaterColon` | backend/server.js:100 | Example: in `94:7\nx:5` the later colon still matches, so the result is `94:7\nx`. |
| `Jid.SenderBeforeColon` | backend/server.js:100 | Without line terminators, the sender is the non-empty participant, or else the chat address, cut before its first `:`, and holds no `:`. |
| `Jid.Sender` | backend/server.js:100 | The sender is a prefix of the participant when it is non-empty, else of the chat address. |
| `JsText.StartsWithChars` | backend/server.js:103 | `startsWith` holds exactly when the prefix is no longer and agrees character by character from the front. |
| `JsText.EndsWithChars` | backend/server.js:99 | `endsWith` holds exactly when the suffix is no longer and agrees character by character from the back. |
| `JsText.TrimStart` | backend/server.js:101 | Drops exactly the leading whitespace: the result is a suffix, all dropped characters are whitespace, and it does not start with whitespace. |
| `JsText.TrimEnd` | backend/server.js:101 | Drops exactly the trailing whitespace, symmetrically. |
| `JsText.Trim` | backend/server.js:101 | The trimmed body neither starts nor ends with whitespace. |
| `JsText.TrimOfPadded` | backend/server.js:101 | A block padded only by whitespace, with none at its own ends, is exactly what trimming returns. |
| `JsText.TrimIdempotent` | backend/server.js:101 | Trimming twice equals trimming once. |
| `JsText.Split` | backend/server.js:105 | `split(' ')` gives at least one piece and no piece contains a space. |
| `JsText.JoinSplit` | backend/server.js:105 | Joining the pieces with spaces restores the body. |
| `JsText.SplitJoin` | backend/server.js:105 | Splitting a join of space-free pieces gives the pieces back. |
| `JsText.SplitSpaceHead` | backend/server.js:105 | The first piece is the leading space-free prefix, the rest are the pieces after the first space. |
| `JsText.TakeUntil` | backend/server.js:105 | The longest prefix without the given character. |
| `JsText.NonEmpty` | backend/server.js:105 | `filter(Boolean)` keeps exactly the non-empty strings. |
| `JsText.NonEmptyAppend` | backend/server.js:105 | Filtering distributes over concatenation, so the kept pieces stay in order. |
| `JsText.Words` | backend/server.js:105 | The arguments contain no empty string and no space, and for a body not starting with a space the first argument is its leading word. |
| `JsText.WordsTail` | backend/server.js:105 | The arguments after the first are the words of the rest of the body. |
| `JsText.WordsSkipSpace` | backend/server.js:105 | A leading space changes nothing in the words. |
| `JsText.ConcatWords` | backend/server.js:105 | The arguments put together are the body without its spaces. |
| `JsText.LowerChar` | backend/server.js:106 | A lower-cased character is never an upper-case letter; letters move by 32, others stay. |
| `JsText.ToLower` | backend/server.js:106 | Lower-casing keeps the length and maps each character by LowerChar. |
| `JsText.ToLowerIdempotent` | backend/server.js:106 | Lower-casing leaves no upper-case letter and is idempotent. |
| `JsText.ToLowerOfLower` | backend/server.js:106 | A string without upper-case letters is unchanged. |
| `JsText.Prefix` | backend/server.js:238 | `substring(0, n)` is a prefix of at most `n` characters, the whole string exactly when it is that short. |
| `JsText.Decimal` | backend/server.js:183 | A number's decimal form is non-empty, all digits, and has no leading zero. |
| `JsText.DecimalRoundTrip` | backend/server.js:183 | Reading back the decimal form gives the number. |
| `Delivery.ContentType` | backend/server.js:184 | The content type is the header when it is non-empty, else `application/octet-stream`. |
| `Delivery.Extension` | backend/server.js:185 | The extension is the lookup's answer when it is non-empty, else `bin`. |
| `Delivery.ErrorText` | backend/server.js:196 | The text of the error (its message, or failing that the error itself) is the message when non-empty, else the error's name, and empty only when both are. |
| `Delivery.StatusError` | backend/server.js:183 | The error for a status that is not ok is an `Error` whose message is `fetch error ` followed by the status in canonical decimal: at least one digit, no leading zero, reading back as the status. |
| `Delivery.Classify` | backend/server.js:188-194 | A download is sent as an image exactly when its type starts with `image/`, as a video exactly when it starts with `video/` and not `image/`, else as a document `file.<ext>` with the type; each carries the buffer, and the image and video carry the caption `Downloaded file (<url>)`. |
| `Delivery.CompleteFetch` | backend/server.js:180-228 | Every fetch failure is caught and answered: a thrown `fetch`, or a thrown body read, gives the command's failure prefix followed by the error text; a status that is not ok gives the prefix and `fetch error <status>`; a body that was read is sent as media or a document. |
| `Delivery.DownloadClassification` | backend/server.js:184-194 | A download is an image exactly when its type starts with `image/`, a video exactly when it starts with `video/` and not `image/`, else a document named `file.<ext>` with the type; the file is the fetched body. |
| `Delivery.DownloadDefaultType` | backend/server.js:184-193 | Without a content type the download is an `application/octet-stream` document, named `file.bin` when the lookup finds no extension. |
| `Delivery.DocumentName` | backend/server.js:193 | A document's name is `file.` followed by a non-empty extension. |
| `Delivery.SendKindIgnoresType` | backend/server.js:201-229 | `sendimg` and `sendvid` send the fetched body as image or video whatever its content type. |
| `Delivery.FetchStatusFailure` | backend/server.js:183-226 | A response that is not ok is answered with the failure prefix and `fetch error <status>`, whose digits read back as the status. |
| `Delivery.AudioFileName` | backend/server.js:238-247 | The audio file name is the title cut to at most 60 characters followed by `.mp3`. |
| `Delivery.CompleteYt` | backend/server.js:235-250 | `yt` answers every failure: an invalid URL with `Failed to download audio: Not a valid YouTube URL`, a failed `getInfo` or stream with that prefix and the error text; otherwise it sends the stream's bytes as `audio/mpeg` named by `AudioFileName` of the title. |
| `Delivery.CompleteSticker` | backend/server.js:160-171 | A failed media download escapes to the outer catch and nothing is answered; a converted image is sent as the sticker; a failed conversion is answered with `Failed to create sticker: ` and the error text. |
| `Delivery.CompleteGroupInfo` | backend/server.js:287-289 | A failed metadata lookup faults the handler; otherwise a text is sent that starts with `*Group Info*\nName: <subject>\nMembers: `, ends with `\nID: <jid>`, and between them holds the member count in canonical decimal: digits with no leading zero that read back as the count. |
| `Delivery.Sends` | backend/server.js:108-291 | Ignored and faulted batches and group updates send nothing; a reply sends its text; the menu action sends the menu template with the bot name; a sticker action sends nothing when the media download threw and otherwise the one message its completion sends; fetches and `yt` send their notice first and then the message their completion sends; `ginfo` sends its completion's text, and nothing when `groupMetadata` threw. |
| `Delivery.FilteredBatchSendsNothing` | backend/server.js:91-103 | A batch that fails a filter, or is empty, makes the bot send nothing. |

## Left out

- The session with the messaging network: the library socket, auth-state files, version lookup, connection events, the welcome message and the 3-second reconnect (backend/server.js:37-87). These are foreign library calls, timers and file I/O; only the target normalisation of line 67 is modelled.
- The HTTP endpoints `/api/send` and `/api/status` and the socket.io events (backend/server.js:299-350): network plumbing; only the target normalisation they use is modelled.
- The work behind each effect: `fetch`, `sharp`, `ytdl`, `qrcode`, `groupMetadata`, `groupParticipantsUpdate`, `sendMessage`. Their answers are inputs of `Delivery`; a failure of `sendMessage` itself, and of `groupParticipantsUpdate`, is not modelled.
- `mime.extension` is an arbitrary function parameter that may find no extension.
- The contents of the menu template (backend/server.js:113-136): a constant payload; the model records only that the menu is sent, with the bot name as footer.
- The audio stream's chunks and their concatenation (backend/server.js:239-246): the stream is represented by its concatenated bytes.
- Which media `downloadMediaMessage` reads for a sticker: the source passes the command message itself, also when the image is quoted; its result is an input of `Delivery.CompleteSticker`.
- The module-level `sock` variable that `startSock` reassigns: the model has no socket state.
- Thrown values that are not `Error` objects: an error is its name and message.
- `key` and `key.remoteJid` are taken to be present, as the library always sets them; without them the source would throw and log.
- JSON values other than strings in the read fields (numbers, `null`): a field is either a string or absent.
- JsText.ToLower: folds only the ASCII letters `A`-`Z`; JavaScript's full Unicode case mapping (for instance the Kelvin sign becoming `k`) is not modelled.
- JsText.Prefix: counts Unicode scalar values, whereas JavaScript's `substring` counts UTF-16 code units; titles with characters outside the Basic Multilingual Plane are cut differently.
- Jid.StripDeviceBeforeColon: assumes the address has no line terminator; the general case is modelled exactly by `Jid.StripDevice`.
