# A verified model of a command-driven WhatsApp bot

The bot receives inbound chat events and normalises each one into a message record: sender, body, command name and arguments. It then dispatches on the command name to a fixed set of handlers: `menu`, `ping`, `demo`, `ai`, `broadcast`/`bc` and `bclist`. The broadcast handler fans a text out to a list of recipients, one at a time and with a pause between sends. A failed send is recorded, not fatal. The media helpers decide where the bytes of a media argument come from, what kind a MIME type names, and the file name of a path.

The model is functional:

- A handler returns the list of **effects** it issues, in order: `Reply`, `Send`, `Pause`, `AskAi` and `ScheduleDemo`.
- Whatever the outside world decides is an **input**:
  - whether the transport delivers send number `i` (`nat -> SendOutcome`);
  - what the AI collaborator answers;
  - what decoding a sender address yields;
  - what a fetch or a content sniffer returns.
- The messaging library's chat-address classification is an enumeration carried by the event.

| file | module | models |
|---|---|---|
| `values.dfy` | `Values` | `Option`, `Result`, JavaScript truthiness of optional strings and `a \|\| b` |
| `text.dfy` | `Text` | the string primitives the code uses: `trim`, `startsWith`/`endsWith`, `indexOf`, `replace` of the first occurrence, `split`/`join` on one character, ASCII `toLowerCase`, decimal rendering of counts |
| `message.dfy` | `Msg` | `messagesUpsert` up to the record: sender, body, display text, `isCommand`, `cmd`, `args` |
| `media.dfy` | `Media` | `getMediaBuffer` (source classification), `getMediaType`, `getFileName` |
| `responder.dfy` | `Responder` | the `send*` helpers attached to a message, the address qualifier, `sendMedia`'s extension test |
| `broadcast.dfy` | `Broadcast` | `broadcastText` and `broadcastMedia` as a fold over the recipients |
| `cases.dfy` | `Cases` | the command switch, the AI answer classification, recipient parsing |
| `upsert.dfy` | `Upsert` | one event end to end: normalise, then dispatch |

Three behaviours of the code are easy to miss:

- **The dispatcher never reads `isCommand`.** The command name is computed from every body, prefixed or not, so a plain `ping` is answered (`Upsert.UnprefixedPingIsAnswered`).
- **A payload with no recognised content type raises.** Reading `message[undefined].caption` throws, and the model's `Normalize` returns `Threw(NoContentType)`.
- **The group and story sender prefers the raw participant.** The key's `participant` is taken first, and the normalised participant only when that is empty.

## Model

| member | source | states |
|---|---|---|
| Upsert.HandleEvent | events/messages.upsert.js:13-62 | an event without a payload is ignored; an undecodable sender or an unrecognised content type raises; any other event becomes a record whose `cmd`/`args` come from its body and whose effects are the dispatcher's for that record |
| Upsert.UnknownCommandHasNoEffect | cases.js:35-230 | an event that normalises to a record whose body names none of the seven handled commands is dispatched with no effect at all |
| Upsert.PrefixAloneDoesNothing | events/messages.upsert.js:51-56 | a body that is only the prefix names the empty command and produces no effect |
| Upsert.UnprefixedPingIsAnswered | events/messages.upsert.js:50-56 | the body `ping` without the prefix is not a command (`isCommand` false) yet is answered with `Pong!` |
| Msg.Normalize | events/messages.upsert.js:13-62 | skipped exactly when there is no payload; raises exactly when the sender cannot be decoded or the content type is unknown; otherwise the record keeps id, chat and fromMe, `isOwner` iff the decoded user equals the owner number, `isCommand` iff the trimmed body starts with the prefix |
| Msg.SenderByKind | events/messages.upsert.js:20-24 | empty for newsletters; in group and story chats the key's participant when non-empty, else the normalised participant; the chat address otherwise |
| Msg.FirstTruthy | events/messages.upsert.js:31-39 | the result is empty iff no candidate is truthy; otherwise it is the first truthy candidate, all earlier ones being falsy |
| Msg.BodyFallback | events/messages.upsert.js:28-39 | the body of a typed payload is caption, else text, else selected row id, else button id, else the flow-params id or empty, each taken only when all earlier ones are falsy |
| Msg.DisplayTextFallback | events/messages.upsert.js:40-49 | the display text of a typed payload is caption, else text, else description, else title, else content type, else the selected display text or empty, each taken only when all earlier ones are falsy |
| Msg.Cmd | events/messages.upsert.js:51-56 | the command name contains no space and no upper-case ASCII letter, and is no longer than the trimmed body |
| Msg.CmdRemovesFirstOccurrence | events/messages.upsert.js:51-56 | wherever the prefix first occurs in the trimmed body, that one occurrence is cut out and the name is the lower-cased first space-delimited word of what remains |
| Msg.CmdWithoutPrefix | events/messages.upsert.js:51-56 | when the prefix occurs nowhere in the trimmed body, the name is its lower-cased first space-delimited word |
| Msg.CmdOfInnerPrefix | events/messages.upsert.js:50-56 | `hi!Ping x` is not a command, yet its prefix is removed from inside the first word and it names `hiping` |
| Msg.CmdOfCommand | events/messages.upsert.js:51-56 | for a body that starts with the prefix, the name is the lower-cased first space-delimited word after the prefix |
| Msg.CmdOfPlainWord | events/messages.upsert.js:50-56 | a single word not containing the prefix is not a command, and it names itself lower-cased as the command |
| Msg.PrefixAloneIsEmptyCmd | events/messages.upsert.js:51-56 | a trimmed body equal to the prefix names the empty command |
| Msg.CmdExample | events/messages.upsert.js:51-56 | `!Ping now` names `ping` |
| Msg.DropLeadingWord | events/messages.upsert.js:59 | the result is a suffix of the input; the part dropped lies within the leading non-space run and ends at its last word boundary; when nothing is dropped the run has no boundary after its start |
| Msg.DropCommandWord | events/messages.upsert.js:59 | a non-space word ending in a word character, followed by a space or the end, is removed entirely |
| Msg.Args | events/messages.upsert.js:57-62 | every argument is non-empty, has no surrounding whitespace and contains no splitter |
| Msg.NonEmpty | events/messages.upsert.js:62 | the kept pieces are non-empty pieces of the input, and every non-empty input piece is kept |
| Msg.NonEmptyAppend | events/messages.upsert.js:62 | filtering a concatenation is concatenating the filtered parts, so order and repeats are kept |
| Msg.NonEmptySingle | events/messages.upsert.js:62 | a single empty string is dropped and any other single string is kept |
| Msg.NonEmptyKeepsAll | events/messages.upsert.js:62 | a list with no empty string passes the filter unchanged |
| Msg.ArgsOfOneArgument | events/messages.upsert.js:57-62 | a command word followed by one clean argument yields exactly that argument |
| Msg.ArgsOfJoinedArguments | events/messages.upsert.js:57-62 | round trip: a command word, a space, and any non-empty list of clean arguments joined with the splitter yields exactly those arguments in order |
| Msg.ArgumentsOfJoined | events/messages.upsert.js:59-62 | a space followed by clean arguments joined with the splitter splits, trims and filters back to those arguments |
| Msg.BroadcastArgsExample | events/messages.upsert.js:57-62 | `!bc 62,63\|hi` has the two arguments `62,63` and `hi`, the shape the broadcast command reads |
| Msg.ArgsExample | events/messages.upsert.js:57-62 | `!ping now` with splitter `\|` has the single argument `now` |
| Text.Trim | events/messages.upsert.js:50 | the trimmed string is the input minus its leading and trailing whitespace runs, and neither of its ends is whitespace |
| Text.TrimIdempotent | events/messages.upsert.js:61 | trimming twice is trimming once |
| Text.RemoveFirst | events/messages.upsert.js:54 | with no occurrence the string is unchanged; otherwise the first occurrence, wherever it is, is cut out and everything before and after it is kept |
| Text.RemoveFirstOfPrefix | events/messages.upsert.js:54 | when the string starts with the pattern, the leading copy is the one removed |
| Text.Split | events/messages.upsert.js:55 | one more piece than occurrences of the separator, no piece contains it, and joining the pieces restores the input |
| Text.SplitJoin | cases.js:153-154 | splitting a join of separator-free pieces gives the pieces back |
| Text.FirstPiece | events/messages.upsert.js:55 | the first piece is a separator-free prefix, followed by the separator or the end |
| Text.LastPiece | events/messages.upsert.js:112 | the last piece is a separator-free suffix, preceded by the separator or the start |
| Text.ToLower | events/messages.upsert.js:56 | same length, each ASCII capital mapped to its small letter, all else unchanged |
| Text.ToLowerIdempotent | events/messages.upsert.js:100-102 | lower-casing twice is lower-casing once |
| Text.NatToString | cases.js:170 | a non-empty run of decimal digits with no leading zero whose decimal value is the number rendered |
| Media.Locate | utils/mediaHandler.js:26-42 | a buffer is used as is; a string starting with `http` is fetched and any other string read as a path; any other value has no source |
| Media.GetMediaBuffer | utils/mediaHandler.js:26-46 | a buffer comes back unchanged; a non-string non-buffer raises the invalid-source error; a URL or path yields the loaded bytes or a fetch- or read-specific error |
| Media.GetMediaBufferInvalidOnlyForOtherValues | utils/mediaHandler.js:31-33 | the invalid-source error arises exactly for values that are neither buffers nor strings |
| Media.GetMediaType | utils/mediaHandler.js:72-85 | `unknown` iff nothing was detected or the detector raised; `image`, `video`, `audio` iff the MIME type has that prefix; `document` for any other MIME type |
| Media.GetFileName | utils/mediaHandler.js:92-95 | `file` for a non-string; for a string, a suffix containing neither separator that is the whole string or follows a separator |
| Media.FileNameWithoutSeparators | utils/mediaHandler.js:94 | a string without separators is its own file name |
| Media.FileNameAfterTrailingSeparator | utils/mediaHandler.js:94 | a string ending in a separator has the empty file name |
| Responder.Qualify | events/messages.upsert.js:82 | the address always contains `@` and starts with the target; a target with `@` is kept, any other gets the user-chat suffix |
| Responder.QualifyIdempotent | events/messages.upsert.js:82 | qualifying twice is qualifying once |
| Responder.SendText | events/messages.upsert.js:81-84 | a text send to the qualified address |
| Responder.SendImage | events/messages.upsert.js:126-150 | fails iff the source is neither string nor buffer, with the image error; otherwise an image with the caption, to the qualified address, from the located source |
| Responder.SendVideo | events/messages.upsert.js:152-176 | the same for video |
| Responder.SendAudio | events/messages.upsert.js:178-206 | the same for audio, without caption and with MIME type `audio/mp4` |
| Responder.FileNameFor | events/messages.upsert.js:211-228 | a given name wins; a buffer is named `file`; a string is named by a `/`-free suffix that is the whole string or follows a `/` |
| Responder.SendFile | events/messages.upsert.js:208-240 | the same for documents, named as `FileNameFor` says |
| Responder.UrlKind | events/messages.upsert.js:100-110 | image iff an image extension matches; video iff no image one and a video one does; audio iff neither and an audio one does |
| Responder.UrlKindIgnoresCase | events/messages.upsert.js:100-102 | a URL and its lower-cased form have the same kind |
| Responder.UpperCaseJpgIsImage | events/messages.upsert.js:100 | a URL ending in `.JPG` is an image |
| Responder.DocumentName | events/messages.upsert.js:112-115 | never empty, never contains `/`; `file` or the URL's last `/` segment |
| Responder.SendMedia | events/messages.upsert.js:91-119 | the content kind is the URL's kind; the media is fetched from the URL; audio has no caption or MIME type; a document carries the caption and the document name |
| Broadcast.HelperKind | utils/broadcast.js:63-78 | `video`, `audio` and `file` after lower-casing select their helper; anything else selects the image helper |
| Broadcast.MediaRequest | utils/broadcast.js:63-78 | fails iff the source is neither string nor buffer, with the chosen helper's error; otherwise a non-text request whose kind matches the chosen helper, with the caption for image and video and `options.fileName` or empty for files |
| Broadcast.StatusOf | utils/broadcast.js:15-23 | success iff the request was built and the send did not throw; otherwise the message of the first error |
| Broadcast.Successes | utils/broadcast.js:18 | never more than the number of entries |
| Broadcast.SuccessesExtremes | utils/broadcast.js:17-22 | the count equals the number of entries iff all succeeded, and is zero iff all failed |
| Broadcast.LoopReaches | utils/broadcast.js:14-29 | the loop, started from any state satisfying the invariant, ends with one entry per recipient in order, counts adding up, and one round of effects per recipient |
| Broadcast.Deliver | utils/broadcast.js:9-37 | total is the recipient count; the results are recipient `i`'s entry at position `i`; success counts the successful entries; success plus failed is total |
| Broadcast.BroadcastText | utils/broadcast.js:9-37 | in addition, entry `i` carries number `i`, succeeds iff send `i` was delivered, and otherwise carries that send's error message |
| Broadcast.BroadcastMedia | utils/broadcast.js:49-100 | the same invariants; with an unusable source every entry fails with the helper's error |
| Broadcast.WaitAfterEveryAttempt | utils/broadcast.js:26-28 | one wait of the configured delay per attempt, failures included, exactly when the delay is non-zero |
| Broadcast.LastEffectIsWait | utils/broadcast.js:26-28 | with a delay, the last effect of a non-empty run is a wait, even after the last recipient |
| Broadcast.EveryRequestIsSent | utils/broadcast.js:14-29 | the sends of a run are all buildable requests in list order, whatever earlier sends returned |
| Broadcast.TextReachesEveryone | utils/broadcast.js:14-16 | a text broadcast sends the message to every recipient, in order |
| Broadcast.InvalidMediaFailsAll | utils/broadcast.js:82-86 | with an unusable source, nothing succeeds and every recipient fails |
| Broadcast.InvalidMediaSendsNothing | utils/broadcast.js:61-78 | with an unusable source the transport is never called |
| Broadcast.SecondOfThreeFails | utils/broadcast.js:14-36 | three recipients whose second send throws: 3 total, 2 successes, 1 failure, in order, with the error message |
| Cases.AiReply | cases.js:114-127 | a string answer verbatim; an object's non-empty `result`; the `Unsupported Format` error for any other shape; the failure's message when the call failed |
| Cases.AiErrorsAreMarked | cases.js:120-130 | an answer that is neither a string nor an object with a non-empty `result` is reported as an error |
| Cases.Recipient | cases.js:155 | the result is trimmed and does not start with `0`; a leading `0` of the trimmed token is replaced by `62`; any other token is only trimmed; no comma is introduced |
| Cases.RecipientIdempotent | cases.js:155 | rewriting a recipient twice is rewriting it once |
| Cases.LeadingZeroBecomesCountryCode | cases.js:155 | a trimmed token `0` followed by `x` becomes `62x`, e.g. `081234567` becomes `6281234567` |
| Cases.ParseRecipients | cases.js:152-160 | one recipient per comma plus one, so the list is never empty; each is clean, comma-free and without a leading `0` |
| Cases.ParseJoinedRecipients | cases.js:152-155 | clean recipients joined with commas parse back to themselves |
| Cases.DispatchReadsOnlyCommandFields | cases.js:35-230 | two records with the same command name, arguments, owner flag and sender have the same effects, so `isCommand` is never consulted |
| Cases.UnknownCommandIsIgnored | cases.js:35-230 | an unknown command name produces no reply and no send |
| Cases.PingAnswersPong | cases.js:42-44 | `ping` replies `Pong!` and does nothing else |
| Cases.MenuSendsToSender | cases.js:36-40 | `menu` sends the menu text to the unqualified sender address; a failed send is followed by an `*ERROR:*` reply |
| Cases.AiWithoutArguments | cases.js:106-109 | `ai` without arguments asks for a question and never calls the AI |
| Cases.AiWithArguments | cases.js:110-127 | `ai` with arguments asks the AI the arguments joined by spaces, then replies with the classified answer |
| Cases.BroadcastNeedsOwner | cases.js:138-141 | `broadcast`, `bc` and `bclist` answer a non-owner with the permission message only |
| Cases.BroadcastUsage | cases.js:144-149 | the owner with fewer than two arguments gets the usage text only |
| Cases.BroadcastIsTextBroadcast | cases.js:135-136 | `broadcast` and `bc` run the same branch with type `text` |
| Cases.BroadcastRuns | cases.js:151-182 | announcement of the recipient count, then a text broadcast of the remaining arguments joined by spaces with delay 1000, then the summary reply |
| Cases.BroadcastSendsTextOnly | cases.js:151-173 | the sends are exactly the text message to each parsed recipient, in order, so the media branch is never taken |
| Cases.BroadcastWaitsBetweenSends | cases.js:173 | one wait of 1000 per recipient |
| Cases.BclistNeverSends | cases.js:217-229 | `bclist` only replies: the stub to the owner and the refusal to anyone else |
| Cases.Dispatch | cases.js:35-230 | a command name the switch knows always produces at least one effect, and any other name produces none |
| Cases.OnlyMenuAndBroadcastSend | cases.js:35-230 | of all commands only `menu` and an owner's `broadcast`/`bc` ever call the transport |
| Cases.BroadcastCommand | cases.js:135-215 | every outcome of the broadcast branch opens and closes with a reply to the sender, and a non-owner gets the refusal alone |
| Cases.BroadcastSendsOnlyForOwner | cases.js:135-215 | the broadcast branch reaches the transport only for the owner, with two or more arguments and at least one parsed recipient |

## Left out

- Connection lifecycle, pairing, session files and reconnects are outside the modelled core. So are the configuration file reads. Only the prefix `!`, the splitter `|` and the owner number are kept, in `Msg.DefaultConfig`.
- The transport, HTTP fetches, file reads, `saveBuffer` and `fetchMedia` are I/O. A send is a `Request` value, and its outcome is an input. A fetch or read is the `Media.Acquire` it would perform.
- The content sniffer is a foreign library. Its result is the `Media.Detection` input.
- The messaging library's address helpers are foreign calls. Chat classification is an enumeration on the event. The normalised participant is a field. `jidDecode(...).user` is a parameter returning an optional user.
- `getContentType` is a foreign call. The content type is a field of the payload, and `Untyped` stands for "no recognised type".
- `JSON.parse` of the flow parameters is abstracted as an optional id. Malformed JSON, which would raise, is not modelled.
- Msg.Nfkc: Unicode NFKC normalisation is taken as the identity.
- Msg.Cmd: `toLowerCase` is modelled on ASCII letters only. This is exact for every command name the switch compares against, but it differs from the real result on other letters.
- Strings are sequences of Unicode scalar values, not UTF-16 code units. Lengths of texts with astral characters differ from JavaScript's.
- `\S*\b` in the argument pattern uses ASCII word characters for `\b`. Whitespace for `trim` and `\s` is one fixed set.
- The argument splitter is modelled as a single character, which is what the configuration holds.
- The reply's synthetic quoted message and all logging are presentation, not behaviour. A reply is only its text.
- `sendMessage`, `sendPoll`, `sendLocation`, `sendContact` and the `replyWith*` wrappers are generic pass-throughs to the transport. The coordinates are floating point.
- `demo`: the timed sequence of sample messages runs after a timer, and `ScheduleDemo(1000)` stands for it. Its own error reply is not modelled.
- Asynchrony: effects are listed in the order they are issued. Replies that are not awaited are not interleaved with later sends.
- Cases.AiReply: a `null` answer, or a truthy non-string `result`, is not modelled. A `null` answer would make the classification itself raise.
- The broadcast branch's `.catch` reply ("Broadcast error") is not modelled. `broadcastText` catches every send error itself, so that rejection cannot arise.
- The media branch of `broadcast` is kept in `Cases.BroadcastCommand` as written. The switch always passes the constant type `text`, so it is unreachable.
- Broadcast.Options: `delay` is a natural number. A negative or non-numeric delay is not modelled.
- Media.GetMediaBuffer: a fetch failure is reported with the message that `fetchMedia` raises. The underlying network error is an input string.
- A `Typed` payload whose type tag is `conversation` can be built but is not what the messaging library produces for a conversation; for it the model reads the typed fields, where the code would read `message.conversation`. The `Conversation` constructor is the only way the model represents that type.
