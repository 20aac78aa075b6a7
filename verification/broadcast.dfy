/** Batch delivery: `broadcastText` and `broadcastMedia`.

    Both walk the recipient list in order. Each recipient gets one attempt; a
    failure is recorded against that recipient and the walk goes on. After every
    attempt, the last one included, the loop waits when a delay is set.

    Whether attempt `i` reaches the transport successfully is the oracle
    `outcome(i)`. An attempt whose send helper rejects its arguments never reaches
    the transport, and the oracle is not consulted for it.
 */
module Broadcast {
  import opened Values
  import opened Text
  import Media
  import opened Responder

  /** The options object: `delay` in milliseconds (0 when absent) and an optional file name. */
  datatype Options = Options(delay: nat, fileName: Option<string>)

  /** What is broadcast: a text, or a media source with caption and media type. */
  datatype Payload =
    | TextPayload(message: string)
    | MediaPayload(media: Media.Source, caption: string, mediaType: string)

  datatype Status = Success | Failed(error: string)

  /** One element of `results`. */
  datatype Entry = Entry(number: string, status: Status)

  /** The object both functions resolve with. */
  datatype Report = Report(total: nat, success: nat, failed: nat, results: seq<Entry>)

  /** The report, with the effects the loop issued on the way. */
  datatype Delivery = Delivery(report: Report, trace: seq<Effect>)

  // ---------------------------------------------------------------------------
  // one attempt

  /** The helper `broadcastMedia` calls for a media type, named as in that helper's
      error message: `video`, `audio` and `file` after lower-casing, `image` otherwise. */
  function HelperKind(mediaType: string): (kind: string)
    ensures kind in {"image", "video", "audio", "file"}
    ensures kind != "image" ==> kind == ToLower(mediaType)
    ensures ToLower(mediaType) in {"image", "video", "audio", "file"} ==> kind == ToLower(mediaType)
  {
    var t := ToLower(mediaType);
    if t in {"video", "audio", "file"} then t else "image"
  }

  /** The request `broadcastMedia` builds for one recipient, or the error its helper raises. */
  function MediaRequest(number: string, src: Media.Source, caption: string, mediaType: string,
                        fileName: Option<string>): (r: Result<Request>)
    ensures r.Err? <==> src.OtherValue?
    ensures r.Err? ==> r.message == InvalidSourceFor(HelperKind(mediaType))
    ensures r.Ok? ==> r.value.jid == Qualify(number) && !r.value.content.TextContent?
    ensures r.Ok? && !r.value.content.TextContent? ==> r.value.content.media == Media.Locate(src).value
    ensures r.Ok? ==> (r.value.content.ImageContent? <==> HelperKind(mediaType) == "image")
    ensures r.Ok? ==> (r.value.content.VideoContent? <==> HelperKind(mediaType) == "video")
    ensures r.Ok? ==> (r.value.content.AudioContent? <==> HelperKind(mediaType) == "audio")
    ensures r.Ok? ==> (r.value.content.DocumentContent? <==> HelperKind(mediaType) == "file")
    ensures r.Ok? && (r.value.content.ImageContent? || r.value.content.VideoContent?)
      ==> r.value.content.caption == caption
    ensures r.Ok? && r.value.content.DocumentContent?
      ==> r.value.content.fileName == FileNameFor(src, Or(fileName, ""))
  {
    match HelperKind(mediaType)
    case "video" => SendVideo(number, src, caption)
    case "audio" => SendAudio(number, src)
    case "file" => SendFile(number, src, Or(fileName, ""))
    case _ => SendImage(number, src, caption)
  }

  /** The request for one recipient, or the error raised before reaching the transport. */
  function Prepare(number: string, payload: Payload, options: Options): Result<Request> {
    match payload
    case TextPayload(message) => Ok(SendText(number, message))
    case MediaPayload(src, caption, mediaType) => MediaRequest(number, src, caption, mediaType, options.fileName)
  }

  /** The status recorded for one attempt: success exactly when the request was built
      and the transport did not throw; otherwise the message of whichever error came first. */
  function StatusOf(prepared: Result<Request>, sent: SendOutcome): (s: Status)
    ensures s.Success? <==> prepared.Ok? && sent.Delivered?
    ensures prepared.Err? ==> s == Failed(prepared.message)
    ensures prepared.Ok? && sent.Threw? ==> s == Failed(sent.message)
  {
    match prepared
    case Err(m) => Failed(m)
    case Ok(_) => if sent.Delivered? then Success else Failed(sent.message)
  }

  /** The effects of one attempt: the transport call when there is a request, then the wait. */
  function Round(prepared: Result<Request>, delay: nat): seq<Effect> {
    (if prepared.Ok? then [Send(prepared.value)] else []) + (if delay > 0 then [Pause(delay)] else [])
  }

  // ---------------------------------------------------------------------------
  // the reference description of a whole run

  /** The request, or the helper's error, for every recipient in list order. Building a
      request has no side effects, so the run can be described over this list. */
  function Attempts(numbers: seq<string>, payload: Payload, options: Options): (a: seq<Result<Request>>)
    ensures |a| == |numbers|
    ensures forall i :: 0 <= i < |numbers| ==> a[i] == Prepare(numbers[i], payload, options)
  {
    seq(|numbers|, i requires 0 <= i < |numbers| => Prepare(numbers[i], payload, options))
  }

  /** The entries of the first `n` recipients: recipient `i` is listed under its own number
      with the status of its own attempt. */
  function Entries(numbers: seq<string>, attempts: seq<Result<Request>>, outcome: nat -> SendOutcome,
                   n: nat): (es: seq<Entry>)
    requires n <= |numbers| == |attempts|
    ensures |es| == n
    ensures forall i :: 0 <= i < n ==> es[i] == Entry(numbers[i], StatusOf(attempts[i], outcome(i)))
  {
    if n == 0 then []
    else Entries(numbers, attempts, outcome, n - 1) + [Entry(numbers[n - 1], StatusOf(attempts[n - 1], outcome(n - 1)))]
  }

  /** The effects of the first `n` attempts, in order. */
  function Rounds(attempts: seq<Result<Request>>, delay: nat, n: nat): seq<Effect>
    requires n <= |attempts|
  {
    if n == 0 then [] else Rounds(attempts, delay, n - 1) + Round(attempts[n - 1], delay)
  }

  /** The number of successful entries. */
  function Successes(entries: seq<Entry>): (n: nat)
    ensures n <= |entries|
  {
    if entries == [] then 0
    else Successes(entries[..|entries| - 1]) + (if entries[|entries| - 1].status.Success? then 1 else 0)
  }

  /** Every entry succeeded exactly when the success count is the number of entries,
      and none did exactly when it is zero. */
  lemma {:induction false} SuccessesExtremes(entries: seq<Entry>)
    ensures Successes(entries) == |entries| <==> forall i :: 0 <= i < |entries| ==> entries[i].status.Success?
    ensures Successes(entries) == 0 <==> forall i :: 0 <= i < |entries| ==> entries[i].status.Failed?
  {
    if entries != [] {
      var init := entries[..|entries| - 1];
      SuccessesExtremes(init);
      assert forall i :: 0 <= i < |init| ==> init[i] == entries[i];
    }
  }

  // ---------------------------------------------------------------------------
  // the loop

  /** The loop's variables: `results`, the two counters, and the effects issued so far. */
  datatype Progress = Progress(results: seq<Entry>, success: nat, failed: nat, trace: seq<Effect>)

  /** One iteration: record the recipient's entry, count it, and issue its effects. */
  function Step(p: Progress, entry: Entry, round: seq<Effect>): Progress {
    Progress(
      p.results + [entry],
      if entry.status.Success? then p.success + 1 else p.success,
      if entry.status.Failed? then p.failed + 1 else p.failed,
      p.trace + round)
  }

  /** The iterations from recipient `i` to the end. */
  function Loop(numbers: seq<string>, attempts: seq<Result<Request>>, delay: nat,
                outcome: nat -> SendOutcome, i: nat, p: Progress): Progress
    requires i <= |numbers| == |attempts|
    decreases |numbers| - i
  {
    if i == |numbers| then p
    else
      var entry := Entry(numbers[i], StatusOf(attempts[i], outcome(i)));
      Loop(numbers, attempts, delay, outcome, i + 1, Step(p, entry, Round(attempts[i], delay)))
  }

  /** The loop invariant: after `i` iterations the variables describe exactly the first `i` recipients. */
  predicate Reached(numbers: seq<string>, attempts: seq<Result<Request>>, delay: nat,
                    outcome: nat -> SendOutcome, i: nat, p: Progress)
  {
    i <= |numbers| == |attempts|
    && p.results == Entries(numbers, attempts, outcome, i)
    && p.success == Successes(p.results)
    && p.success + p.failed == i
    && p.trace == Rounds(attempts, delay, i)
  }

  /** One iteration keeps the invariant. */
  lemma StepKeeps(numbers: seq<string>, attempts: seq<Result<Request>>, delay: nat,
                  outcome: nat -> SendOutcome, i: nat, p: Progress)
    requires i < |numbers| && Reached(numbers, attempts, delay, outcome, i, p)
    ensures Reached(numbers, attempts, delay, outcome, i + 1,
                    Step(p, Entry(numbers[i], StatusOf(attempts[i], outcome(i))), Round(attempts[i], delay)))
  {
    var q := Step(p, Entry(numbers[i], StatusOf(attempts[i], outcome(i))), Round(attempts[i], delay));
    assert q.results[..i] == p.results;
  }

  /** The loop runs to the end of the list from any state that satisfies the invariant. */
  lemma {:induction false} LoopReaches(numbers: seq<string>, attempts: seq<Result<Request>>, delay: nat,
                                       outcome: nat -> SendOutcome, i: nat, p: Progress)
    requires Reached(numbers, attempts, delay, outcome, i, p)
    ensures Reached(numbers, attempts, delay, outcome, |numbers|, Loop(numbers, attempts, delay, outcome, i, p))
    decreases |numbers| - i
  {
    if i < |numbers| {
      var q := Step(p, Entry(numbers[i], StatusOf(attempts[i], outcome(i))), Round(attempts[i], delay));
      StepKeeps(numbers, attempts, delay, outcome, i, p);
      LoopReaches(numbers, attempts, delay, outcome, i + 1, q);
      LoopUnfolds(numbers, attempts, delay, outcome, i, p);
    }
  }

  lemma LoopUnfolds(numbers: seq<string>, attempts: seq<Result<Request>>, delay: nat,
                    outcome: nat -> SendOutcome, i: nat, p: Progress)
    requires i < |numbers| == |attempts|
    ensures Loop(numbers, attempts, delay, outcome, i, p)
         == Loop(numbers, attempts, delay, outcome, i + 1,
                 Step(p, Entry(numbers[i], StatusOf(attempts[i], outcome(i))), Round(attempts[i], delay)))
  {
  }

  /** A whole run: one entry per recipient in input order, the two counters adding up to
      the total, and one round of effects per recipient. */
  function Deliver(numbers: seq<string>, payload: Payload, options: Options,
                   outcome: nat -> SendOutcome): (d: Delivery)
    ensures d.report.total == |numbers| == |d.report.results|
    ensures d.report.results == Entries(numbers, Attempts(numbers, payload, options), outcome, |numbers|)
    ensures d.report.success == Successes(d.report.results)
    ensures d.report.success + d.report.failed == d.report.total
    ensures d.trace == Rounds(Attempts(numbers, payload, options), options.delay, |numbers|)
  {
    var attempts := Attempts(numbers, payload, options);
    var start := Progress([], 0, 0, []);
    LoopReaches(numbers, attempts, options.delay, outcome, 0, start);
    var p := Loop(numbers, attempts, options.delay, outcome, 0, start);
    Delivery(Report(|numbers|, p.success, p.failed, p.results), p.trace)
  }

  /** `broadcastText`: every recipient gets the message; entry `i` succeeds exactly when
      attempt `i` was delivered, and otherwise carries the transport's error message. */
  function BroadcastText(numbers: seq<string>, message: string, options: Options,
                         outcome: nat -> SendOutcome): (d: Delivery)
    ensures d.report.total == |numbers| == |d.report.results|
    ensures d.report.success + d.report.failed == d.report.total
    ensures d.report.success == Successes(d.report.results)
    ensures forall i :: 0 <= i < |numbers| ==> d.report.results[i].number == numbers[i]
    ensures forall i :: 0 <= i < |numbers| ==>
      (d.report.results[i].status.Success? <==> outcome(i).Delivered?)
    ensures forall i :: 0 <= i < |numbers| && outcome(i).Threw? ==>
      d.report.results[i].status == Failed(outcome(i).message)
    ensures d.trace == Rounds(Attempts(numbers, TextPayload(message), options), options.delay, |numbers|)
  {
    Deliver(numbers, TextPayload(message), options, outcome)
  }

  /** `broadcastMedia`: the same walk, with the request chosen by the media type. */
  function BroadcastMedia(numbers: seq<string>, media: Media.Source, caption: string, mediaType: string,
                          options: Options, outcome: nat -> SendOutcome): (d: Delivery)
    ensures d.report.total == |numbers| == |d.report.results|
    ensures d.report.success + d.report.failed == d.report.total
    ensures d.report.success == Successes(d.report.results)
    ensures forall i :: 0 <= i < |numbers| ==> d.report.results[i].number == numbers[i]
    ensures forall i :: 0 <= i < |numbers| ==>
      (d.report.results[i].status.Success? <==> !media.OtherValue? && outcome(i).Delivered?)
    ensures forall i :: 0 <= i < |numbers| && media.OtherValue? ==>
      d.report.results[i].status == Failed(InvalidSourceFor(HelperKind(mediaType)))
    ensures forall i :: 0 <= i < |numbers| && !media.OtherValue? && outcome(i).Threw? ==>
      d.report.results[i].status == Failed(outcome(i).message)
    ensures d.trace == Rounds(Attempts(numbers, MediaPayload(media, caption, mediaType), options), options.delay, |numbers|)
  {
    var payload := MediaPayload(media, caption, mediaType);
    var d := Deliver(numbers, payload, options, outcome);
    var attempts := Attempts(numbers, payload, options);
    forall i | 0 <= i < |numbers|
      ensures d.report.results[i] == Entry(numbers[i], StatusOf(attempts[i], outcome(i)))
      ensures attempts[i].Err? <==> media.OtherValue?
      ensures attempts[i].Err? ==> attempts[i].message == InvalidSourceFor(HelperKind(mediaType))
    {
    }
    d
  }

  // ---------------------------------------------------------------------------
  // what the trace shows

  /** The transport call and the wait of one attempt. */
  lemma RoundShows(prepared: Result<Request>, delay: nat)
    ensures SentRequests(Round(prepared, delay)) == if prepared.Ok? then [prepared.value] else []
    ensures Waits(Round(prepared, delay)) == if delay > 0 then [delay] else []
  {
    var sends: seq<Effect> := if prepared.Ok? then [Send(prepared.value)] else [];
    var waits: seq<Effect> := if delay > 0 then [Pause(delay)] else [];
    SentDistributes(sends, waits);
    WaitsDistribute(sends, waits);
  }

  /** The loop waits once per attempt, failures included, exactly when a delay is set. */
  lemma {:induction false} WaitAfterEveryAttempt(attempts: seq<Result<Request>>, delay: nat, n: nat)
    requires n <= |attempts|
    ensures |Waits(Rounds(attempts, delay, n))| == if delay > 0 then n else 0
    ensures forall k :: 0 <= k < |Waits(Rounds(attempts, delay, n))| ==> Waits(Rounds(attempts, delay, n))[k] == delay
  {
    if n > 0 {
      var prev := Rounds(attempts, delay, n - 1);
      WaitAfterEveryAttempt(attempts, delay, n - 1);
      WaitsDistribute(prev, Round(attempts[n - 1], delay));
      RoundShows(attempts[n - 1], delay);
      var w := Waits(Rounds(attempts, delay, n));
      var wp := Waits(prev);
      assert w == wp + (if delay > 0 then [delay] else []);
      forall k | 0 <= k < |w|
        ensures w[k] == delay
      {
        if k < |wp| {
          assert w[k] == wp[k];
        }
      }
    }
  }

  /** With a delay, the last effect of a non-empty run is a wait. */
  lemma LastEffectIsWait(attempts: seq<Result<Request>>, delay: nat)
    requires |attempts| > 0 && delay > 0
    ensures var t := Rounds(attempts, delay, |attempts|); |t| > 0 && t[|t| - 1] == Pause(delay)
  {
  }

  /** The requests among the first `n` attempts, skipping those whose helper raised. */
  function Requests(attempts: seq<Result<Request>>, n: nat): seq<Request>
    requires n <= |attempts|
  {
    if n == 0 then []
    else Requests(attempts, n - 1) + (if attempts[n - 1].Ok? then [attempts[n - 1].value] else [])
  }

  /** The transport calls of a run are exactly the requests that could be built, in list
      order, whatever the earlier calls returned: no failure ends the walk early. */
  lemma {:induction false} EveryRequestIsSent(attempts: seq<Result<Request>>, delay: nat, n: nat)
    requires n <= |attempts|
    ensures SentRequests(Rounds(attempts, delay, n)) == Requests(attempts, n)
  {
    if n > 0 {
      EveryRequestIsSent(attempts, delay, n - 1);
      SentDistributes(Rounds(attempts, delay, n - 1), Round(attempts[n - 1], delay));
      RoundShows(attempts[n - 1], delay);
    }
  }

  /** When every request can be built, each attempt contributes exactly its own request. */
  lemma {:induction false} AllBuilt(attempts: seq<Result<Request>>, n: nat)
    requires n <= |attempts|
    requires forall i :: 0 <= i < n ==> attempts[i].Ok?
    ensures |Requests(attempts, n)| == n
    ensures forall k :: 0 <= k < n ==> Requests(attempts, n)[k] == attempts[k].value
  {
    if n > 0 {
      AllBuilt(attempts, n - 1);
      assert Requests(attempts, n) == Requests(attempts, n - 1) + [attempts[n - 1].value];
    }
  }

  /** When no request can be built, nothing is requested. */
  lemma {:induction false} NoneBuilt(attempts: seq<Result<Request>>, n: nat)
    requires n <= |attempts|
    requires forall i :: 0 <= i < n ==> attempts[i].Err?
    ensures Requests(attempts, n) == []
  {
    if n > 0 {
      NoneBuilt(attempts, n - 1);
      assert Requests(attempts, n) == Requests(attempts, n - 1) + [];
    }
  }

  /** A text broadcast calls the transport once for every recipient, in list order, whatever
      the earlier calls returned. */
  lemma TextReachesEveryone(numbers: seq<string>, message: string, options: Options, outcome: nat -> SendOutcome)
    ensures var sent := SentRequests(BroadcastText(numbers, message, options, outcome).trace);
      |sent| == |numbers| && forall k :: 0 <= k < |numbers| ==> sent[k] == SendText(numbers[k], message)
  {
    var attempts := Attempts(numbers, TextPayload(message), options);
    EveryRequestIsSent(attempts, options.delay, |numbers|);
    AllBuilt(attempts, |numbers|);
  }

  /** A media source that is neither a string nor a buffer fails every recipient with the
      helper's error. */
  lemma InvalidMediaFailsAll(numbers: seq<string>, caption: string, mediaType: string,
                             options: Options, outcome: nat -> SendOutcome)
    ensures var d := BroadcastMedia(numbers, Media.OtherValue, caption, mediaType, options, outcome);
      d.report.success == 0 && d.report.failed == |numbers|
  {
    var d := BroadcastMedia(numbers, Media.OtherValue, caption, mediaType, options, outcome);
    SuccessesExtremes(d.report.results);
  }

  /** With such a source the transport is never called. */
  lemma InvalidMediaSendsNothing(numbers: seq<string>, caption: string, mediaType: string,
                                 options: Options, outcome: nat -> SendOutcome)
    ensures SentRequests(BroadcastMedia(numbers, Media.OtherValue, caption, mediaType, options, outcome).trace) == []
  {
    var attempts := Attempts(numbers, MediaPayload(Media.OtherValue, caption, mediaType), options);
    EveryRequestIsSent(attempts, options.delay, |numbers|);
    NoneBuilt(attempts, |numbers|);
  }

  /** Three recipients, the second of which fails: the third is still attempted and succeeds. */
  lemma SecondOfThreeFails(options: Options)
    ensures var d := BroadcastText(["a", "b", "c"], "hi", options,
                                   i => if i == 1 then Threw("timeout") else Delivered);
      d.report == Report(3, 2, 1, [Entry("a", Success), Entry("b", Failed("timeout")), Entry("c", Success)])
  {
    SecondOfThreeResults(options);
    SuccessesOfSample();
  }

  lemma SecondOfThreeResults(options: Options)
    ensures BroadcastText(["a", "b", "c"], "hi", options, i => if i == 1 then Threw("timeout") else Delivered).report.results
         == [Entry("a", Success), Entry("b", Failed("timeout")), Entry("c", Success)]
  {
    var d := BroadcastText(["a", "b", "c"], "hi", options, i => if i == 1 then Threw("timeout") else Delivered);
    var rs := d.report.results;
    assert rs[0] == Entry("a", Success);
    assert rs[1] == Entry("b", Failed("timeout"));
    assert rs[2] == Entry("c", Success);
  }

  lemma SuccessesOfSample()
    ensures Successes([Entry("a", Success), Entry("b", Failed("timeout")), Entry("c", Success)]) == 2
  {
    var rs := [Entry("a", Success), Entry("b", Failed("timeout")), Entry("c", Success)];
    assert rs[..2][..1] == rs[..1];
    assert Successes(rs[..1]) == 1;
    assert Successes(rs[..2]) == 1;
  }
}
