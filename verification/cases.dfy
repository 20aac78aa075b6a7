/** The command dispatcher: a switch on the command name of a normalised message.

    Each branch is modelled by the list of effects it issues. What the transport,
    the AI collaborator and the batch sends return is given by a `World`; the
    replies that arrive after those calls settle are listed after them.
 */
module Cases {
  import opened Values
  import opened Text
  import Msg
  import Media
  import opened Responder
  import Broadcast

  /** The shapes an answer of the AI collaborator can take. */
  datatype AiAnswer =
    | AiText(text: string)                  // a string
    | AiObject(result: Option<string>)      // an object, with or without a `result`
    | AiOtherShape                          // any other value
    | AiRejected(message: string)           // the call failed with this message

  /** The outcomes of the calls a command makes: the menu send, the AI call, and the
      batch send to recipient `i`. */
  datatype World = World(menuSend: SendOutcome, aiAnswer: AiAnswer, delivery: nat -> SendOutcome)

  // ---------------------------------------------------------------------------
  // fixed texts

  const MenuText := "Hello, this is the menu command"
  const Pong := "Pong!"
  const DemoNotice := "\U{1F680} Demonstrating different message types..."
  const DemoDelay: nat := 1000
  const AskPrompt := "What would you like to ask the AI?"
  const AiFailure := "An error occurred: "
  const UnsupportedFormat := "Unsupported Format"
  const NotOwner := "Sorry, only the owner can use broadcast commands"
  const Usage := "*Broadcast Command*\n\nFormat: !broadcast number1,number2,number3|message"
  const NoRecipients := "Please provide at least one recipient number"
  const NoMessage := "Please provide a message to broadcast"
  const BclistStub := "This command would broadcast to a saved list of contacts. Implement this by storing contact lists in your database."
  const ErrorPrefix := "*ERROR:* "
  const TextDelay: nat := 1000
  const MediaDelay: nat := 1500
  const MediaTypes := ["image", "video", "audio", "file"]

  /** The command names the switch knows. */
  const KnownCommands := {"menu", "ping", "demo", "ai", "broadcast", "bc", "bclist"}

  function TextAnnouncement(n: nat): string {
    "Broadcasting text message to " + NatToString(n) + " recipients..."
  }

  /** The summary replied once a batch send has finished. */
  function Completed(report: Broadcast.Report): string {
    "Broadcast completed:\n\U{2705} Successful: " + NatToString(report.success)
      + "\n\U{274C} Failed: " + NatToString(report.failed)
      + "\n\U{1F4CA} Total: " + NatToString(report.total)
  }

  // ---------------------------------------------------------------------------
  // the AI answer

  /** The reply to an AI answer: a string verbatim; an object's `result` when it is a
      non-empty string; an "Unsupported Format" error for any other shape; and the
      failure's message when the call failed. */
  function AiReply(answer: AiAnswer): (text: string)
    ensures answer.AiText? ==> text == answer.text
    ensures answer.AiObject? && Truthy(answer.result) ==> text == answer.result.value
    ensures answer.AiRejected? ==> text == AiFailure + answer.message
    ensures answer.AiOtherShape? || (answer.AiObject? && !Truthy(answer.result))
      ==> text == AiFailure + UnsupportedFormat
  {
    match answer
    case AiText(t) => t
    case AiObject(result) => if Truthy(result) then result.value else AiFailure + UnsupportedFormat
    case AiOtherShape => AiFailure + UnsupportedFormat
    case AiRejected(message) => AiFailure + message
  }

  /** An answer that is neither a string nor an object with a non-empty `result` is
      reported as an error. */
  lemma AiErrorsAreMarked(answer: AiAnswer)
    requires !answer.AiText? && !(answer.AiObject? && Truthy(answer.result))
    ensures StartsWith(AiReply(answer), AiFailure)
  {
    var t := AiReply(answer);
    assert t[..|AiFailure|] == AiFailure;
  }

  // ---------------------------------------------------------------------------
  // recipients

  /** One recipient token of the broadcast command: trimmed, and a single leading `0`
      replaced by the country code `62`. The result is trimmed and has no leading `0`. */
  function Recipient(token: string): (r: string)
    ensures Trim(r) == r
    ensures r == "" || r[0] != '0'
    ensures Trim(token) == "" ==> r == ""
    ensures Trim(token) != "" && Trim(token)[0] == '0' ==> r == "62" + Trim(token)[1..]
    ensures Trim(token) != "" && Trim(token)[0] != '0' ==> r == Trim(token)
    ensures ',' !in token ==> ',' !in r
  {
    var t := Trim(token);
    AbsentAfterTrim(token, ',');
    if t != "" && t[0] == '0' then
      CountryCodeClean(t);
      "62" + t[1..]
    else
      TrimIdempotent(token);
      t
  }

  lemma AbsentAfterTrim(token: string, c: char)
    ensures c !in token ==> c !in Trim(token)
  {
    if c !in token {
      TrimKeepsAbsence(token, c);
    }
  }

  /** Putting `62` in place of the leading character of a trimmed token keeps it trimmed
      and free of commas. */
  lemma CountryCodeClean(t: string)
    requires t != "" && !IsSpace(t[|t| - 1])
    ensures var r := "62" + t[1..]; Trim(r) == r && r[0] != '0'
    ensures ',' !in t ==> ',' !in "62" + t[1..]
  {
    var r := "62" + t[1..];
    assert r[0] == '6';
    if |t| == 1 {
      assert r[|r| - 1] == '2';
    } else {
      assert r[|r| - 1] == t[|t| - 1];
    }
    TrimFixpoint(r);
    if ',' !in t {
      forall k | 0 <= k < |r|
        ensures r[k] != ','
      {
        if k >= 2 {
          assert r[k] == t[k - 1];
        }
      }
    }
  }

  /** A token that is already a clean recipient is left as it is, so the rewrite is idempotent. */
  lemma RecipientFixpoint(token: string)
    requires Trim(token) == token && (token == "" || token[0] != '0')
    ensures Recipient(token) == token
  {
  }

  lemma RecipientIdempotent(token: string)
    ensures Recipient(Recipient(token)) == Recipient(token)
  {
    RecipientFixpoint(Recipient(token));
  }

  /** A trimmed token that starts with `0` has that `0` replaced by `62`:
      `081234567` becomes `6281234567`. */
  lemma LeadingZeroBecomesCountryCode(rest: string)
    requires rest == "" || !IsSpace(rest[|rest| - 1])
    ensures Recipient("0" + rest) == "62" + rest
  {
    var t := "0" + rest;
    assert t[0] == '0' && !IsSpace(t[|t| - 1]);
    TrimFixpoint(t);
    assert t[1..] == rest;
  }

  /** `args[0].split(",").map(...)`: one recipient per comma-separated token, so always
      one more than the number of commas and never none. */
  function ParseRecipients(s: string): (rs: seq<string>)
    ensures |rs| == Occurrences(s, ',') + 1
    ensures forall i :: 0 <= i < |rs| ==> Trim(rs[i]) == rs[i] && ',' !in rs[i] && (rs[i] == "" || rs[i][0] != '0')
    ensures forall i :: 0 <= i < |rs| ==> rs[i] == Recipient(Split(s, ',')[i])
  {
    var tokens := Split(s, ',');
    seq(|tokens|, i requires 0 <= i < |tokens| => Recipient(tokens[i]))
  }

  /** Round trip: clean recipients joined with commas are parsed back unchanged. */
  lemma ParseJoinedRecipients(numbers: seq<string>)
    requires |numbers| >= 1
    requires forall i :: 0 <= i < |numbers| ==>
      Trim(numbers[i]) == numbers[i] && ',' !in numbers[i] && (numbers[i] == "" || numbers[i][0] != '0')
    ensures ParseRecipients(Join(numbers, ",")) == numbers
  {
    SplitJoin(numbers, ',');
    var rs := ParseRecipients(Join(numbers, ","));
    forall i | 0 <= i < |numbers|
      ensures rs[i] == numbers[i]
    {
      RecipientFixpoint(numbers[i]);
    }
  }

  // ---------------------------------------------------------------------------
  // the broadcast command

  /** The `broadcast`/`bc` branch for a given broadcast type. The command always uses the
      type `text`; the other types are kept so that the branch reads as written. Every
      outcome opens and closes with a reply to the sender, and a non-owner gets the
      refusal alone. */
  function BroadcastCommand(r: Msg.Record, world: World, kind: string): (e: seq<Effect>)
    ensures |e| >= 1 && e[0].Reply? && e[|e| - 1].Reply?
    ensures !r.isOwner ==> e == [Reply(NotOwner)]
  {
    if !r.isOwner then [Reply(NotOwner)]
    else if |r.args| < 2 then [Reply(Usage)]
    else
      var recipients := ParseRecipients(r.args[0]);
      if |recipients| == 0 then [Reply(NoRecipients)]
      else if kind == "text" then
        if |r.args| < 2 then [Reply(NoMessage)]
        else
          var d := Broadcast.BroadcastText(recipients, Join(r.args[1..], " "),
                                           Broadcast.Options(TextDelay, None), world.delivery);
          [Reply(TextAnnouncement(|recipients|))] + d.trace + [Reply(Completed(d.report))]
      else if kind in MediaTypes then
        if |r.args| < 4 then [Reply("Please provide a caption and " + kind + " URL/path")]
        else
          var d := Broadcast.BroadcastMedia(recipients, Media.Str(r.args[3]), r.args[2], kind,
                                            Broadcast.Options(MediaDelay, None), world.delivery);
          [Reply("Broadcasting " + kind + " to " + NatToString(|recipients|) + " recipients...")]
            + d.trace + [Reply(Completed(d.report))]
      else
        [Reply("Unsupported broadcast type: " + kind + ". Supported types: text, image, video, audio, file")]
  }

  // ---------------------------------------------------------------------------
  // the switch

  /** The effects of one message, chosen by its command name alone: a name the switch
      knows always produces at least one effect, any other name none. */
  function Dispatch(r: Msg.Record, world: World): (e: seq<Effect>)
    ensures r.cmd in KnownCommands <==> e != []
  {
    match r.cmd
    case "menu" =>
      var send := Send(Request(r.senderId, TextContent(MenuText)));
      if world.menuSend.Delivered? then [send] else [send, Reply(ErrorPrefix + world.menuSend.message)]
    case "ping" => [Reply(Pong)]
    case "demo" => [Reply(DemoNotice), ScheduleDemo(DemoDelay)]
    case "ai" =>
      if |r.args| == 0 then [Reply(AskPrompt)]
      else [AskAi(Join(r.args, " ")), Reply(AiReply(world.aiAnswer))]
    case "broadcast" => BroadcastCommand(r, world, "text")
    case "bc" => BroadcastCommand(r, world, "text")
    case "bclist" => if !r.isOwner then [Reply(NotOwner)] else [Reply(BclistStub)]
    case _ => []
  }

  /** The switch reads the command name, the arguments, the owner flag and the sender,
      and nothing else of the record: in particular not whether the body was a command. */
  lemma DispatchReadsOnlyCommandFields(r1: Msg.Record, r2: Msg.Record, world: World)
    requires r1.cmd == r2.cmd && r1.args == r2.args && r1.isOwner == r2.isOwner && r1.senderId == r2.senderId
    ensures Dispatch(r1, world) == Dispatch(r2, world)
  {
  }

  /** An unknown command name produces no effect at all. */
  lemma UnknownCommandIsIgnored(r: Msg.Record, world: World)
    requires r.cmd !in KnownCommands
    ensures Dispatch(r, world) == []
  {
  }

  /** In particular the empty name that a body of just the prefix produces. */
  lemma EmptyNameIsIgnored(r: Msg.Record, world: World)
    requires r.cmd == ""
    ensures Dispatch(r, world) == []
  {
    UnknownCommandIsIgnored(r, world);
  }

  /** `ping` only replies `Pong!`. */
  lemma PingAnswersPong(r: Msg.Record, world: World)
    requires r.cmd == "ping"
    ensures Dispatch(r, world) == [Reply(Pong)]
  {
  }

  /** `menu` sends the menu text to the raw sender address; a failed send is reported. */
  lemma MenuSendsToSender(r: Msg.Record, world: World)
    requires r.cmd == "menu"
    ensures SentRequests(Dispatch(r, world)) == [Request(r.senderId, TextContent(MenuText))]
    ensures world.menuSend.Delivered? ==> |Dispatch(r, world)| == 1
    ensures world.menuSend.Threw? ==> Dispatch(r, world)[1..] == [Reply(ErrorPrefix + world.menuSend.message)]
  {
    var send := Send(Request(r.senderId, TextContent(MenuText)));
    assert SentRequests([send]) == [send.request] + SentRequests([]);
    if world.menuSend.Threw? {
      var e := Reply(ErrorPrefix + world.menuSend.message);
      assert SentRequests([e]) == [];
      assert [send, e][1..] == [e];
    }
  }

  /** `ai` without arguments asks for a question and never calls the AI. */
  lemma AiWithoutArguments(r: Msg.Record, world: World)
    requires r.cmd == "ai" && r.args == []
    ensures Dispatch(r, world) == [Reply(AskPrompt)]
  {
  }

  /** `ai` with arguments asks the AI the arguments joined by spaces, then replies with its answer. */
  lemma AiWithArguments(r: Msg.Record, world: World)
    requires r.cmd == "ai" && r.args != []
    ensures Dispatch(r, world) == [AskAi(Join(r.args, " ")), Reply(AiReply(world.aiAnswer))]
  {
  }

  /** The broadcast commands refuse anyone but the owner, before looking at the arguments. */
  lemma BroadcastNeedsOwner(r: Msg.Record, world: World)
    requires r.cmd in {"broadcast", "bc", "bclist"} && !r.isOwner
    ensures Dispatch(r, world) == [Reply(NotOwner)]
  {
  }

  /** The owner gets the usage text, and nothing is sent, with fewer than two arguments. */
  lemma BroadcastUsage(r: Msg.Record, world: World)
    requires r.cmd in {"broadcast", "bc"} && r.isOwner && |r.args| < 2
    ensures Dispatch(r, world) == [Reply(Usage)]
  {
  }

  /** With two or more arguments the owner's broadcast announces the recipient count, runs a
      text broadcast of the remaining arguments joined by spaces with a delay of 1000, and
      replies with its summary. */
  lemma BroadcastRuns(r: Msg.Record, world: World)
    requires r.cmd in {"broadcast", "bc"} && r.isOwner && |r.args| >= 2
    ensures var recipients := ParseRecipients(r.args[0]);
      var d := Broadcast.BroadcastText(recipients, Join(r.args[1..], " "), Broadcast.Options(TextDelay, None), world.delivery);
      Dispatch(r, world) == [Reply(TextAnnouncement(|recipients|))] + d.trace + [Reply(Completed(d.report))]
  {
    BroadcastIsTextBroadcast(r, world);
    var recipients := ParseRecipients(r.args[0]);
    assert |recipients| != 0;
  }

  /** Both broadcast command names run the broadcast branch with the type `text`. */
  lemma BroadcastIsTextBroadcast(r: Msg.Record, world: World)
    requires r.cmd in {"broadcast", "bc"}
    ensures Dispatch(r, world) == BroadcastCommand(r, world, "text")
  {
  }

  /** Every send of an owner's broadcast is the text message, one per parsed recipient, in
      order: the media branch is never taken. */
  lemma BroadcastSendsTextOnly(r: Msg.Record, world: World)
    requires r.cmd in {"broadcast", "bc"} && r.isOwner && |r.args| >= 2
    ensures var recipients := ParseRecipients(r.args[0]);
      var sent := SentRequests(Dispatch(r, world));
      |sent| == |recipients|
      && forall k :: 0 <= k < |recipients| ==> sent[k] == SendText(recipients[k], Join(r.args[1..], " "))
  {
    var recipients := ParseRecipients(r.args[0]);
    var message := Join(r.args[1..], " ");
    var options := Broadcast.Options(TextDelay, None);
    var d := Broadcast.BroadcastText(recipients, message, options, world.delivery);
    BroadcastRuns(r, world);
    FramedByReplies(TextAnnouncement(|recipients|), d.trace, Completed(d.report));
    Broadcast.TextReachesEveryone(recipients, message, options, world.delivery);
  }

  /** Each of those sends is followed by a wait of 1000. */
  lemma BroadcastWaitsBetweenSends(r: Msg.Record, world: World)
    requires r.cmd in {"broadcast", "bc"} && r.isOwner && |r.args| >= 2
    ensures var waits := Waits(Dispatch(r, world));
      |waits| == |ParseRecipients(r.args[0])| && forall k :: 0 <= k < |waits| ==> waits[k] == TextDelay
  {
    var recipients := ParseRecipients(r.args[0]);
    var message := Join(r.args[1..], " ");
    var options := Broadcast.Options(TextDelay, None);
    var d := Broadcast.BroadcastText(recipients, message, options, world.delivery);
    BroadcastRuns(r, world);
    FramedByReplies(TextAnnouncement(|recipients|), d.trace, Completed(d.report));
    var attempts := Broadcast.Attempts(recipients, Broadcast.TextPayload(message), options);
    Broadcast.WaitAfterEveryAttempt(attempts, TextDelay, |recipients|);
  }

  /** Only the owner's broadcast with two or more arguments and at least one parsed
      recipient reaches the transport. */
  lemma BroadcastSendsOnlyForOwner(r: Msg.Record, world: World, kind: string)
    ensures SentRequests(BroadcastCommand(r, world, kind)) != []
      ==> r.isOwner && |r.args| >= 2 && ParseRecipients(r.args[0]) != []
  {
    var e := BroadcastCommand(r, world, kind);
    if !r.isOwner || |r.args| < 2 || ParseRecipients(r.args[0]) == [] {
      assert |e| == 1;
      assert SentRequests(e) == [] + SentRequests([]);
    }
  }

  /** Of all commands, only `menu` and an owner's `broadcast`/`bc` ever call the transport. */
  lemma OnlyMenuAndBroadcastSend(r: Msg.Record, world: World)
    ensures SentRequests(Dispatch(r, world)) != []
      ==> r.cmd == "menu" || ((r.cmd == "broadcast" || r.cmd == "bc") && r.isOwner)
  {
    var e := Dispatch(r, world);
    if r.cmd == "broadcast" || r.cmd == "bc" {
      BroadcastIsTextBroadcast(r, world);
      BroadcastSendsOnlyForOwner(r, world, "text");
    } else if r.cmd == "ping" {
      assert SentRequests(e) == [] + SentRequests([]);
    } else if r.cmd == "demo" || r.cmd == "ai" {
      assert SentRequests(e) == [] + SentRequests(e[1..]);
      assert SentRequests(e[1..]) == [] + SentRequests([]);
    } else if r.cmd == "bclist" {
      BclistNeverSends(r, world);
    } else if r.cmd != "menu" {
      UnknownCommandIsIgnored(r, world);
    }
  }

  /** `bclist` only ever replies: the stub text to the owner, the refusal to anyone else. */
  lemma BclistNeverSends(r: Msg.Record, world: World)
    requires r.cmd == "bclist"
    ensures Dispatch(r, world) == [Reply(if r.isOwner then BclistStub else NotOwner)]
    ensures SentRequests(Dispatch(r, world)) == []
  {
    assert SentRequests([Reply(if r.isOwner then BclistStub else NotOwner)]) == [];
  }
}
