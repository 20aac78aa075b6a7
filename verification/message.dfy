/** The message normaliser: an inbound chat event becomes a message record
    with its sender, body text, command name and argument list.

    The messaging library's helpers are abstracted: the chat kind it derives
    from the chat address is a field of the event, the normalised participant
    address is given, and decoding a sender address into its user part is a
    function parameter.
 */
module Msg {
  import opened Values
  import opened Text

  /** The bot settings the normaliser reads: command prefix, argument splitter, owner number. */
  datatype Config = Config(prefix: string, splitter: char, ownerNumber: string)

  /** The shipped settings. */
  const DefaultConfig := Config("!", '|', "62xxxxxxxxxx")

  /** The mutually exclusive shapes of a chat address, as the messaging library classifies it. */
  datatype ChatKind = Direct | Group | Story | Newsletter | Unclassified

  /** The optional text-bearing fields of a non-conversation message payload. */
  datatype Fields = Fields(
    caption: Option<string>,
    text: Option<string>,
    description: Option<string>,
    title: Option<string>,
    contentType: Option<string>,
    selectedDisplayText: Option<string>,
    selectedRowId: Option<string>,        // singleSelectReply.selectedRowId
    selectedButtonId: Option<string>,
    flowParamsId: Option<string>)         // the `id` of the parsed nativeFlowResponseMessage.paramsJson

  /** The message payload, keyed by the content type the messaging library reports.
      `Untyped` is a payload for which no content type is recognised. */
  datatype Content =
    | Conversation(conversation: string)
    | Typed(contentType: string, fields: Fields)
    | Untyped

  datatype Key = Key(id: string, remoteJid: string, fromMe: bool, participant: Option<string>)

  /** An inbound event. `message` is absent for events that carry no payload. */
  datatype Event = Event(
    key: Key,
    normalizedParticipant: string,
    chatKind: ChatKind,
    message: Option<Content>)

  /** The normalised message record the dispatcher reads. */
  datatype Record = Record(
    id: string,
    chatId: string,
    chatKind: ChatKind,
    senderId: string,
    fromMe: bool,
    isOwner: bool,
    contentType: string,
    body: string,
    text: string,
    isCommand: bool,
    cmd: string,
    args: seq<string>)

  /** Why normalisation raised instead of producing a record. */
  datatype Fault =
    | SenderNotDecodable   // the user part of an undecodable sender address is read
    | NoContentType        // the fields of the payload under an unrecognised type are read

  datatype Normalized = Skipped | Threw(fault: Fault) | Ready(record: Record)

  // ---------------------------------------------------------------------------
  // sender

  /** Newsletter chats have no sender; in group and story chats the sender is the
      key's participant or, when that is empty, the normalised participant; in any
      other chat it is the chat itself. */
  function SenderId(ev: Event): string {
    match ev.chatKind
    case Newsletter => ""
    case Group => Or(ev.key.participant, ev.normalizedParticipant)
    case Story => Or(ev.key.participant, ev.normalizedParticipant)
    case _ => ev.key.remoteJid
  }

  // ---------------------------------------------------------------------------
  // body and display text

  /** The first truthy candidate, or `""` when none is: `c0 || c1 || ... || ""`. */
  function FirstTruthy(cands: seq<Option<string>>): (r: string)
    ensures r == "" <==> forall i :: 0 <= i < |cands| ==> !Truthy(cands[i])
    ensures r != "" ==>
      exists i :: 0 <= i < |cands| && cands[i] == Some(r) &&
        forall j :: 0 <= j < i ==> !Truthy(cands[j])
  {
    if |cands| == 0 then ""
    else if Truthy(cands[0]) then cands[0].value
    else
      var r := FirstTruthy(cands[1..]);
      assert forall i :: 1 <= i < |cands| ==> cands[1..][i - 1] == cands[i];
      r
  }

  /** The order in which the body is looked for in a non-conversation payload. */
  function BodyCandidates(f: Fields): seq<Option<string>> {
    [f.caption, f.text, f.selectedRowId, f.selectedButtonId, f.flowParamsId]
  }

  /** The order in which the display text is looked for in a non-conversation payload. */
  function TextCandidates(f: Fields): seq<Option<string>> {
    [f.caption, f.text, f.description, f.title, f.contentType, f.selectedDisplayText]
  }

  /** The body of a payload with a recognised type: the conversation text verbatim,
      otherwise the first truthy body candidate. */
  function Body(c: Content): string
    requires !c.Untyped?
  {
    match c
    case Conversation(t) => t
    case Typed(_, f) => FirstTruthy(BodyCandidates(f))
  }

  /** The display text of a payload with a recognised type: the conversation text
      verbatim, otherwise the first truthy display-text candidate. */
  function DisplayText(c: Content): string
    requires !c.Untyped?
  {
    match c
    case Conversation(t) => t
    case Typed(_, f) => FirstTruthy(TextCandidates(f))
  }

  /** The body fallback, spelled out field by field. */
  lemma BodyFallback(f: Fields)
    ensures Truthy(f.caption) ==> Body(Typed("", f)) == f.caption.value
    ensures !Truthy(f.caption) && Truthy(f.text) ==> Body(Typed("", f)) == f.text.value
    ensures (!Truthy(f.caption) && !Truthy(f.text) && Truthy(f.selectedRowId))
      ==> Body(Typed("", f)) == f.selectedRowId.value
    ensures (!Truthy(f.caption) && !Truthy(f.text) && !Truthy(f.selectedRowId)
             && Truthy(f.selectedButtonId))
      ==> Body(Typed("", f)) == f.selectedButtonId.value
    ensures (!Truthy(f.caption) && !Truthy(f.text) && !Truthy(f.selectedRowId)
             && !Truthy(f.selectedButtonId))
      ==> Body(Typed("", f)) == Or(f.flowParamsId, "")
  {
    var cs := BodyCandidates(f);
    assert cs[0] == f.caption && cs[1] == f.text && cs[2] == f.selectedRowId;
    assert cs[3] == f.selectedButtonId && cs[4] == f.flowParamsId;
  }

  /** The display-text fallback, spelled out field by field. */
  lemma DisplayTextFallback(f: Fields)
    ensures Truthy(f.caption) ==> DisplayText(Typed("", f)) == f.caption.value
    ensures !Truthy(f.caption) && Truthy(f.text) ==> DisplayText(Typed("", f)) == f.text.value
    ensures (!Truthy(f.caption) && !Truthy(f.text) && Truthy(f.description))
      ==> DisplayText(Typed("", f)) == f.description.value
    ensures (!Truthy(f.caption) && !Truthy(f.text) && !Truthy(f.description) && Truthy(f.title))
      ==> DisplayText(Typed("", f)) == f.title.value
    ensures (!Truthy(f.caption) && !Truthy(f.text) && !Truthy(f.description) && !Truthy(f.title)
             && Truthy(f.contentType))
      ==> DisplayText(Typed("", f)) == f.contentType.value
    ensures (!Truthy(f.caption) && !Truthy(f.text) && !Truthy(f.description) && !Truthy(f.title)
             && !Truthy(f.contentType))
      ==> DisplayText(Typed("", f)) == Or(f.selectedDisplayText, "")
  {
    var cs := TextCandidates(f);
    assert cs[0] == f.caption && cs[1] == f.text && cs[2] == f.description;
    assert cs[3] == f.title && cs[4] == f.contentType && cs[5] == f.selectedDisplayText;
  }

  // ---------------------------------------------------------------------------
  // command name

  /** Unicode NFKC normalisation, taken as the identity on the modelled text. */
  function Nfkc(s: string): string {
    s
  }

  /** Whether the trimmed body starts with the prefix. */
  predicate IsCommand(body: string, prefix: string) {
    StartsWith(Trim(body), prefix)
  }

  /** The command name: the trimmed, normalised body with the first occurrence of
      the prefix removed wherever it is, cut at the first space, lower-cased. */
  function Cmd(body: string, prefix: string): (r: string)
    ensures ' ' !in r
    ensures forall i :: 0 <= i < |r| ==> !('A' <= r[i] <= 'Z')
    ensures |r| <= |Trim(body)|
  {
    var stripped := RemoveFirst(Nfkc(Trim(body)), prefix);
    var word := FirstPiece(stripped, ' ');
    ToLowerKeepsAbsence(word, ' ');
    ToLower(word)
  }

  /** For a body that is a command, the command name is the lower-cased first
      space-delimited word after the prefix. */
  lemma CmdOfCommand(body: string, prefix: string)
    requires IsCommand(body, prefix)
    ensures Cmd(body, prefix) == ToLower(FirstPiece(Trim(body)[|prefix|..], ' '))
  {
    RemoveFirstOfPrefix(Trim(body), prefix);
  }

  /** Wherever the prefix first occurs in the trimmed body, that occurrence is cut out
      and the command name is the lower-cased first space-delimited word of the rest. */
  lemma CmdRemovesFirstOccurrence(body: string, prefix: string, k: nat)
    requires OccursAt(Trim(body), prefix, k)
    requires forall j :: 0 <= j < k ==> !OccursAt(Trim(body), prefix, j)
    ensures Cmd(body, prefix) == ToLower(FirstPiece(Trim(body)[..k] + Trim(body)[k + |prefix|..], ' '))
  {
  }

  /** When the prefix occurs nowhere in the trimmed body, the command name is the
      lower-cased first space-delimited word of that body. */
  lemma CmdWithoutPrefix(body: string, prefix: string)
    requires forall j :: !OccursAt(Trim(body), prefix, j)
    ensures Cmd(body, prefix) == ToLower(FirstPiece(Trim(body), ' '))
  {
  }

  /** The prefix is removed even in the middle of the first word: `hi!Ping x` names `hiping`. */
  lemma CmdOfInnerPrefix()
    ensures !IsCommand("hi!Ping x", "!")
    ensures Cmd("hi!Ping x", "!") == "hiping"
  {
    var s := "hi!Ping x";
    TrimOfHiPing();
    InnerPrefixFirstAt2();
    CmdRemovesFirstOccurrence(s, "!", 2);
    FirstWordOfHiPing();
    LowerHiPing();
  }

  lemma TrimOfHiPing()
    ensures Trim("hi!Ping x") == "hi!Ping x"
    ensures !IsCommand("hi!Ping x", "!")
  {
    var s := "hi!Ping x";
    assert s[0] == 'h' && s[|s| - 1] == 'x';
    TrimFixpoint(s);
    assert s[..1] != "!";
  }

  lemma InnerPrefixFirstAt2()
    ensures OccursAt("hi!Ping x", "!", 2)
    ensures forall j :: 0 <= j < 2 ==> !OccursAt("hi!Ping x", "!", j)
    ensures "hi!Ping x"[..2] + "hi!Ping x"[3..] == "hiPing x"
  {
    var s := "hi!Ping x";
    assert s[2..3] == "!";
    assert s[0..1] == "h" && s[1..2] == "i";
  }

  lemma FirstWordOfHiPing()
    ensures FirstPiece("hiPing x", ' ') == "hiPing"
  {
    assert "hiPing x" == "hiPing" + [' '] + "x";
    SplitAfterPiece("hiPing", ' ', "x");
  }

  lemma LowerHiPing()
    ensures ToLower("hiPing") == "hiping"
  {
  }

  /** A body that is the prefix alone names the empty command. */
  lemma PrefixAloneIsEmptyCmd(body: string, prefix: string)
    requires Trim(body) == prefix
    ensures Cmd(body, prefix) == ""
  {
    CmdOfCommand(body, prefix);
  }

  /** A body that is one word without the prefix anywhere in it is not a command, yet
      still names a command: the word itself, lower-cased. */
  lemma CmdOfPlainWord(w: string, prefix: string)
    requires w != "" && !IsSpace(w[0]) && !IsSpace(w[|w| - 1]) && ' ' !in w
    requires prefix != "" && prefix[0] !in w
    ensures !IsCommand(w, prefix)
    ensures Cmd(w, prefix) == ToLower(w)
  {
    TrimFixpoint(w);
    NoOccurrence(w, prefix);
    var word := FirstPiece(w, ' ');
    assert |word| == |w|;
    assert word == w[..|word|];
  }

  /** `ping` without the prefix: not a command, but it names the command `ping`. */
  lemma PlainPing()
    ensures !IsCommand("ping", DefaultConfig.prefix)
    ensures Cmd("ping", DefaultConfig.prefix) == "ping"
  {
    var w := "ping";
    assert w[0] == 'p' && w[|w| - 1] == 'g';
    assert forall k :: 0 <= k < |w| ==> w[k] != ' ' && w[k] != '!' && 'a' <= w[k] <= 'z';
    CmdOfPlainWord(w, DefaultConfig.prefix);
    ToLowerFixpoint(w);
  }

  lemma CmdExample()
    ensures Cmd("!Ping now", "!") == "ping"
  {
    TrimFixpoint("!Ping now");
    CmdOfCommand("!Ping now", "!");
    FirstWordOfPingNow();
    LowerPing();
  }

  lemma FirstWordOfPingNow()
    ensures FirstPiece("!Ping now"[1..], ' ') == "Ping"
  {
    assert "!Ping now"[1..] == "Ping" + [' '] + "now";
    SplitAfterPiece("Ping", ' ', "now");
  }

  lemma LowerPing()
    ensures ToLower("Ping") == "ping"
  {
  }

  // ---------------------------------------------------------------------------
  // arguments

  /** Length of the run of non-white-space characters at the front of `s`. */
  function WordRun(s: string): (n: nat)
    ensures n <= |s|
    ensures forall k :: 0 <= k < n ==> !IsSpace(s[k])
    ensures n < |s| ==> IsSpace(s[n])
  {
    if |s| == 0 || IsSpace(s[0]) then 0 else 1 + WordRun(s[1..])
  }

  /** Whether `\b` holds at position `k` of `s`: exactly one of its neighbours is a word character. */
  predicate AtBoundary(s: string, k: nat)
    requires k <= |s|
  {
    (k > 0 && IsWordChar(s[k - 1])) != (k < |s| && IsWordChar(s[k]))
  }

  /** The last word boundary at or before position `k`. */
  function LastBoundary(s: string, k: nat): (r: Option<nat>)
    requires k <= |s|
    ensures r.Some? ==> r.value <= k && AtBoundary(s, r.value)
    ensures r.Some? ==> forall m :: r.value < m <= k ==> !AtBoundary(s, m)
    ensures r.None? ==> forall m :: 0 <= m <= k ==> !AtBoundary(s, m)
  {
    if AtBoundary(s, k) then Some(k)
    else if k == 0 then None
    else LastBoundary(s, k - 1)
  }

  /** `s.replace(/^\S*\b/g, "")`. The greedy run of non-white-space characters at
      the front is backed off to the last word boundary within it, and that prefix
      is removed; when the run holds no boundary nothing is removed. */
  function DropLeadingWord(s: string): (r: string)
    ensures EndsWith(s, r)
    ensures |s| - |r| <= WordRun(s)
    ensures |r| < |s| ==> AtBoundary(s, |s| - |r|)
    ensures forall m :: |s| - |r| < m <= WordRun(s) ==> !AtBoundary(s, m)
    ensures r == s ==> forall m :: 0 < m <= WordRun(s) ==> !AtBoundary(s, m)
  {
    match LastBoundary(s, WordRun(s))
    case None => s
    case Some(k) => s[k..]
  }

  /** A leading word that ends in a word character and is followed by white space
      or by nothing is removed exactly. */
  lemma DropCommandWord(w: string, rest: string)
    requires |w| > 0 && IsWordChar(w[|w| - 1])
    requires forall k :: 0 <= k < |w| ==> !IsSpace(w[k])
    requires rest == "" || IsSpace(rest[0])
    ensures DropLeadingWord(w + rest) == rest
  {
    var s := w + rest;
    assert forall k :: 0 <= k < |w| ==> s[k] == w[k];
    if rest != "" {
      assert s[|w|] == rest[0];
    }
    assert WordRun(s) == |w|;
    assert AtBoundary(s, |w|);
    assert s[|w|..] == rest;
  }

  /** Every element of `xs` trimmed. */
  function TrimEach(xs: seq<string>): (r: seq<string>)
    ensures |r| == |xs|
    ensures forall i :: 0 <= i < |xs| ==> r[i] == Trim(xs[i])
  {
    seq(|xs|, i requires 0 <= i < |xs| => Trim(xs[i]))
  }

  /** `xs.filter((x) => x)`: the non-empty strings of `xs`, in order. */
  function NonEmpty(xs: seq<string>): (r: seq<string>)
    ensures |r| <= |xs|
    ensures forall i :: 0 <= i < |r| ==> r[i] != "" && r[i] in xs
    ensures forall i :: 0 <= i < |xs| && xs[i] != "" ==> xs[i] in r
  {
    if |xs| == 0 then []
    else if xs[0] == "" then NonEmpty(xs[1..])
    else
      assert xs == [xs[0]] + xs[1..];
      [xs[0]] + NonEmpty(xs[1..])
  }

  /** A list with no empty string is kept whole by the filter. */
  lemma {:induction false} NonEmptyKeepsAll(xs: seq<string>)
    requires forall i :: 0 <= i < |xs| ==> xs[i] != ""
    ensures NonEmpty(xs) == xs
  {
    if |xs| > 0 {
      NonEmptyKeepsAll(xs[1..]);
    }
  }

  /** The filter distributes over concatenation, so it keeps the order of what it keeps. */
  lemma {:induction false} NonEmptyAppend(a: seq<string>, b: seq<string>)
    ensures NonEmpty(a + b) == NonEmpty(a) + NonEmpty(b)
  {
    if |a| > 0 {
      assert (a + b)[1..] == a[1..] + b;
      NonEmptyAppend(a[1..], b);
    } else {
      assert a + b == b;
    }
  }

  /** The filter drops a single empty string and keeps any other. */
  lemma NonEmptySingle(x: string)
    ensures NonEmpty([x]) == if x == "" then [] else [x]
  {
    assert [x][1..] == [];
  }

  /** The argument list: the trimmed body with its leading word dropped, split on the
      splitter, each piece trimmed, and empty pieces discarded. Every argument is
      non-empty, has no surrounding white space, and does not contain the splitter. */
  function Args(body: string, splitter: char): (r: seq<string>)
    ensures forall i :: 0 <= i < |r| ==> r[i] != "" && Clean(r[i], splitter)
  {
    Arguments(DropLeadingWord(Trim(body)), splitter)
  }

  /** The arguments in the text that follows the command word. */
  function Arguments(rest: string, splitter: char): (r: seq<string>)
    ensures forall i :: 0 <= i < |r| ==> r[i] != "" && Clean(r[i], splitter)
  {
    var pieces := Split(rest, splitter);
    var trimmed := TrimEach(pieces);
    TrimmedPiecesClean(pieces, splitter);
    NonEmptyKeepsClean(trimmed, splitter);
    NonEmpty(trimmed)
  }

  /** An argument is clean when it has no surrounding white space (it is its own trim)
      and does not contain the splitter. */
  predicate Clean(x: string, splitter: char) {
    Trim(x) == x && splitter !in x
  }

  /** Trimmed pieces that did not contain the splitter are clean. */
  lemma TrimmedPiecesClean(pieces: seq<string>, splitter: char)
    requires forall i :: 0 <= i < |pieces| ==> splitter !in pieces[i]
    ensures forall i :: 0 <= i < |pieces| ==> Clean(TrimEach(pieces)[i], splitter)
  {
    forall i | 0 <= i < |pieces|
      ensures Clean(TrimEach(pieces)[i], splitter)
    {
      TrimIdempotent(pieces[i]);
      TrimKeepsAbsence(pieces[i], splitter);
    }
  }

  /** Filtering clean strings leaves clean, non-empty strings. */
  lemma {:induction false} NonEmptyKeepsClean(xs: seq<string>, splitter: char)
    requires forall i :: 0 <= i < |xs| ==> Clean(xs[i], splitter)
    ensures forall i :: 0 <= i < |NonEmpty(xs)| ==> NonEmpty(xs)[i] != "" && Clean(NonEmpty(xs)[i], splitter)
  {
    if |xs| > 0 {
      NonEmptyKeepsClean(xs[1..], splitter);
    }
  }

  /** A command word followed by a single clean argument yields that argument alone. */
  lemma ArgsOfOneArgument(w: string, a: string, splitter: char)
    requires |w| > 0 && IsWordChar(w[|w| - 1])
    requires forall k :: 0 <= k < |w| ==> !IsSpace(w[k])
    requires a != "" && !IsSpace(a[0]) && !IsSpace(a[|a| - 1]) && splitter !in a
    requires !IsSpace(splitter)
    ensures Args(w + " " + a, splitter) == [a]
  {
    DropWordOfTrimmed(w, a);
    ArgsAfterDrop(w + " " + a, a, splitter);
  }

  /** Round trip: a command word followed by a space and clean, non-empty arguments
      joined with the splitter yields exactly those arguments, in order. */
  lemma ArgsOfJoinedArguments(w: string, args: seq<string>, splitter: char)
    requires |w| > 0 && IsWordChar(w[|w| - 1])
    requires forall k :: 0 <= k < |w| ==> !IsSpace(w[k])
    requires |args| >= 1
    requires forall i :: 0 <= i < |args| ==> args[i] != "" && Clean(args[i], splitter)
    requires !IsSpace(splitter)
    ensures Args(w + " " + Join(args, [splitter]), splitter) == args
  {
    var joined := Join(args, [splitter]);
    JoinedEndsInArgument(args, splitter);
    DropWordOfTrimmed(w, joined);
    ArgumentsOfJoined(args, splitter);
  }

  /** Clean, non-empty arguments joined with the splitter end in a non-space character. */
  lemma JoinedEndsInArgument(args: seq<string>, splitter: char)
    requires |args| >= 1
    requires forall i :: 0 <= i < |args| ==> args[i] != "" && Clean(args[i], splitter)
    ensures var joined := Join(args, [splitter]); joined != "" && !IsSpace(joined[|joined| - 1])
  {
    var joined := Join(args, [splitter]);
    var last := args[|args| - 1];
    assert last != "" && Trim(last) == last;
    JoinLast(args, splitter);
    assert joined[|joined| - 1] == last[|last| - 1];
  }

  /** A space followed by clean, non-empty arguments joined with the splitter holds exactly those arguments. */
  lemma ArgumentsOfJoined(args: seq<string>, splitter: char)
    requires |args| >= 1
    requires forall i :: 0 <= i < |args| ==> args[i] != "" && Clean(args[i], splitter)
    requires !IsSpace(splitter)
    ensures Arguments(" " + Join(args, [splitter]), splitter) == args
  {
    SplitOfSpacedJoin(args, splitter);
    TrimEachOfSpaced(args, splitter);
    NonEmptyKeepsAll(args);
  }

  lemma SplitOfSpacedJoin(args: seq<string>, splitter: char)
    requires |args| >= 1
    requires forall i :: 0 <= i < |args| ==> splitter !in args[i]
    requires splitter != ' '
    ensures Split(" " + Join(args, [splitter]), splitter) == [" " + args[0]] + args[1..]
  {
    var pieces := [" " + args[0]] + args[1..];
    JoinExtendFirst(' ', args, splitter);
    assert forall i :: 1 <= i < |pieces| ==> pieces[i] == args[i];
    SplitJoin(pieces, splitter);
  }

  lemma TrimEachOfSpaced(args: seq<string>, splitter: char)
    requires |args| >= 1
    requires forall i :: 0 <= i < |args| ==> args[i] != "" && Clean(args[i], splitter)
    ensures TrimEach([" " + args[0]] + args[1..]) == args
  {
    var pieces := [" " + args[0]] + args[1..];
    TrimOneSpace(args[0]);
    var trimmed := TrimEach(pieces);
    assert forall i :: 1 <= i < |pieces| ==> pieces[i] == args[i];
    assert forall i :: 0 <= i < |args| ==> trimmed[i] == args[i];
  }

  /** When dropping the leading word leaves one space and a clean argument, that argument is the only one. */
  lemma ArgsAfterDrop(body: string, a: string, splitter: char)
    requires DropLeadingWord(Trim(body)) == " " + a
    requires a != "" && !IsSpace(a[0]) && !IsSpace(a[|a| - 1]) && splitter !in a
    requires !IsSpace(splitter)
    ensures Args(body, splitter) == [a]
  {
    ArgumentsOfOne(a, splitter);
  }

  lemma ArgumentsOfOne(a: string, splitter: char)
    requires a != "" && !IsSpace(a[0]) && !IsSpace(a[|a| - 1]) && splitter !in a
    requires !IsSpace(splitter)
    ensures Arguments(" " + a, splitter) == [a]
  {
    var d := " " + a;
    assert splitter !in d;
    SplitWithout(d, splitter);
    TrimOneSpace(a);
    var trimmed := TrimEach([d]);
    assert trimmed[0] == a;
    assert trimmed == [a];
    NonEmptyKeepsAll(trimmed);
  }

  lemma DropWordOfTrimmed(w: string, a: string)
    requires |w| > 0 && IsWordChar(w[|w| - 1])
    requires forall k :: 0 <= k < |w| ==> !IsSpace(w[k])
    requires a != "" && !IsSpace(a[|a| - 1])
    ensures DropLeadingWord(Trim(w + " " + a)) == " " + a
  {
    var body := w + " " + a;
    assert body[0] == w[0] && body[|body| - 1] == a[|a| - 1];
    TrimFixpoint(body);
    DropCommandWord(w, " " + a);
    assert body == w + (" " + a);
  }

  lemma TrimOneSpace(a: string)
    requires a != "" && !IsSpace(a[0]) && !IsSpace(a[|a| - 1])
    ensures Trim(" " + a) == a
  {
    var s := " " + a;
    assert s[1..] == a;
    assert LeadingSpaces(s) == 1;
    assert s[|s| - 1] == a[|a| - 1];
    assert TrailingSpaces(s) == 0;
  }

  /** The broadcast shape: recipients and message separated by the splitter. */
  lemma BroadcastArgsExample()
    ensures Args("!bc 62,63|hi", '|') == ["62,63", "hi"]
  {
    var args := ["62,63", "hi"];
    CleanBroadcastArgs();
    assert Join(args, "|") == "62,63|hi" by {
      assert args[1..] == ["hi"];
    }
    assert "!bc 62,63|hi" == "!bc" + " " + Join(args, "|");
    var w := "!bc";
    assert w[|w| - 1] == 'c';
    ArgsOfJoinedArguments(w, args, '|');
  }

  lemma CleanBroadcastArgs()
    ensures Clean("62,63", '|') && Clean("hi", '|')
  {
    var a := "62,63";
    assert a[0] == '6' && a[|a| - 1] == '3';
    TrimFixpoint(a);
    var b := "hi";
    assert b[0] == 'h' && b[|b| - 1] == 'i';
    TrimFixpoint(b);
  }

  lemma ArgsExample()
    ensures Args("!ping now", '|') == ["now"]
  {
    assert "!ping now" == "!ping" + " " + "now";
    ArgsOfOneArgument("!ping", "now", '|');
  }

  // ---------------------------------------------------------------------------
  // the record

  /** Builds the record of an event. An event without a payload is skipped; reading
      the user part of a sender address the decoder cannot decode, or the fields of
      a payload with no recognised type, raises. Otherwise `isOwner` compares the
      decoded sender user with the owner number, and `isCommand`, `cmd` and `args`
      are derived from the body with the configured prefix and splitter. */
  function Normalize(ev: Event, cfg: Config, decodeUser: string -> Option<string>): (r: Normalized)
    ensures r.Skipped? <==> ev.message.None?
    ensures r.Threw? <==>
      ev.message.Some? && (decodeUser(SenderId(ev)).None? || ev.message.value.Untyped?)
    ensures r.Threw? && decodeUser(SenderId(ev)).None? ==> r.fault == SenderNotDecodable
    ensures r.Ready? ==>
      && r.record.id == ev.key.id
      && r.record.chatId == ev.key.remoteJid
      && r.record.senderId == SenderId(ev)
      && r.record.fromMe == ev.key.fromMe
      && (r.record.isOwner <==> decodeUser(r.record.senderId) == Some(cfg.ownerNumber))
      && r.record.body == Body(ev.message.value)
      && (r.record.isCommand <==> StartsWith(Trim(r.record.body), cfg.prefix))
      && r.record.cmd == Cmd(r.record.body, cfg.prefix)
      && r.record.args == Args(r.record.body, cfg.splitter)
  {
    if ev.message.None? then Skipped
    else
      var senderId := SenderId(ev);
      match decodeUser(senderId)
      case None => Threw(SenderNotDecodable)
      case Some(user) =>
        var content := ev.message.value;
        if content.Untyped? then Threw(NoContentType)
        else
          var body := Body(content);
          Ready(Record(
            id := ev.key.id,
            chatId := ev.key.remoteJid,
            chatKind := ev.chatKind,
            senderId := senderId,
            fromMe := ev.key.fromMe,
            isOwner := user == cfg.ownerNumber,
            contentType := if content.Conversation? then "conversation" else content.contentType,
            body := body,
            text := DisplayText(content),
            isCommand := IsCommand(body, cfg.prefix),
            cmd := Cmd(body, cfg.prefix),
            args := Args(body, cfg.splitter)))
  }

  /** The sender depends on the chat kind: none for newsletters, a participant in
      group and story chats, the chat itself otherwise. */
  lemma SenderByKind(ev: Event)
    ensures ev.chatKind == Newsletter ==> SenderId(ev) == ""
    ensures ev.chatKind in {Group, Story} && Truthy(ev.key.participant)
      ==> SenderId(ev) == ev.key.participant.value
    ensures ev.chatKind in {Group, Story} && !Truthy(ev.key.participant)
      ==> SenderId(ev) == ev.normalizedParticipant
    ensures ev.chatKind in {Direct, Unclassified} ==> SenderId(ev) == ev.key.remoteJid
  {
  }
}
