/** The background parse worker and the hook that coordinates with it:
    a request counter, the dispatch decision between the worker and the
    main thread, and the guard that applies only the latest response. */
module MarkdownWorker {
  import opened Text
  import opened MarkdownBlocks
  import SegmentProps

  // ---------------------------------------------------------------------
  // The worker: one request message in, at most one response out

  /** A message posted to the worker. A payload that is not a string (the
      only way the parser can throw) is `None`. */
  datatype WorkerMessage = WorkerMessage(mtype: string, id: string, content: Option<string>)

  datatype WorkerResponse = WorkerResponse(rtype: string, id: string, blocks: seq<Block>, parseTime: real)

  /** The worker's message handler; `elapsed` is the measured parse time. */
  function HandleMessage(msg: WorkerMessage, elapsed: real): (r: Option<WorkerResponse>)
    ensures r.Some? <==> msg.mtype == "parse"
    ensures r.Some? ==> r.value.rtype == "parsed" && r.value.id == msg.id
    ensures r.Some? && msg.content.Some? ==>
      r.value.blocks == Segment(msg.content.value) && r.value.parseTime == elapsed
    ensures r.Some? && msg.content.None? ==> r.value.blocks == [] && r.value.parseTime == 0.0
  {
    if msg.mtype != "parse" then None
    else match msg.content
      case Some(content) => Some(WorkerResponse("parsed", msg.id, Segment(content), elapsed))
      case None => Some(WorkerResponse("parsed", msg.id, [], 0.0))
  }

  /** Whatever the worker answers carries well-formed blocks: ids block-0,
      block-1, ... in order, hence distinct. */
  lemma ResponseBlocksWellFormed(msg: WorkerMessage, elapsed: real)
    requires HandleMessage(msg, elapsed).Some?
    ensures var bs := HandleMessage(msg, elapsed).value.blocks;
      (forall k :: 0 <= k < |bs| ==> bs[k].id == BlockId(k))
      && (forall i, j :: 0 <= i < |bs| && 0 <= j < |bs| && i != j ==> bs[i].id != bs[j].id)
  {
    if msg.content.Some? {
      SegmentProps.SegmentWellFormed(msg.content.value);
      SegmentProps.SegmentIdsUnique(msg.content.value);
    }
  }

  // ---------------------------------------------------------------------
  // Dispatch decision

  const DefaultUseWorker: bool := true
  /** Documents longer than this many characters go to the worker by default. */
  const DefaultThreshold: int := 30000

  function ShouldUseWorker(useWorker: bool, length: nat, threshold: int): (r: bool)
    ensures r <==> useWorker && length > threshold
    ensures useWorker == DefaultUseWorker && threshold == DefaultThreshold ==> (r <==> length >= 30001)
  {
    useWorker && length > threshold
  }

  // ---------------------------------------------------------------------
  // The hook's state and its transitions

  /** What the hook holds: the published blocks, the parsing flag, the
      last parse time, the request counter and whether a worker exists. */
  datatype HookState = HookState(blocks: seq<Block>, isParsing: bool, parseTime: real,
                                 requestId: nat, workerReady: bool)

  const Initial := HookState([], false, 0.0, 0, false)

  /** What a parse call sets in motion: nothing, a message to the worker,
      or a main-thread parse of the given content scheduled for later. */
  datatype Dispatch = NoRequest | ToWorker(msg: WorkerMessage) | Inline(content: string)

  /** The state right after a parse call. */
  function ParseState(s: HookState, content: string): (r: HookState)
    ensures r.workerReady == s.workerReady
    ensures content == "" ==>
      r.blocks == [] && r.parseTime == 0.0 && r.requestId == s.requestId && r.isParsing == s.isParsing
    ensures content != "" ==>
      r.requestId == s.requestId + 1 && r.isParsing && r.blocks == s.blocks && r.parseTime == s.parseTime
  {
    if content == "" then s.(blocks := [], parseTime := 0.0)
    else s.(requestId := s.requestId + 1, isParsing := true)
  }

  /** The request a parse call issues. */
  function ParseDispatch(s: HookState, content: string, useWorker: bool, threshold: int): (d: Dispatch)
    ensures content == "" <==> d == NoRequest
    ensures d.ToWorker? <==> content != "" && s.workerReady && ShouldUseWorker(useWorker, |content|, threshold)
    ensures d.ToWorker? ==> d.msg == WorkerMessage("parse", NatToString(ParseState(s, content).requestId), Some(content))
    ensures d.Inline? ==> d.content == content
  {
    if content == "" then NoRequest
    else if ShouldUseWorker(useWorker, |content|, threshold) && s.workerReady then
      ToWorker(WorkerMessage("parse", NatToString(s.requestId + 1), Some(content)))
    else Inline(content)
  }

  /** Whether a response id names the latest request. */
  predicate Current(s: HookState, id: string) {
    id == NatToString(s.requestId)
  }

  /** A worker response arriving: applied only when it answers the latest request. */
  function Deliver(s: HookState, resp: WorkerResponse): (r: HookState)
    ensures r.requestId == s.requestId && r.workerReady == s.workerReady
    ensures Current(s, resp.id) ==> r.blocks == resp.blocks && r.parseTime == resp.parseTime && !r.isParsing
    ensures !Current(s, resp.id) ==> r == s
  {
    if Current(s, resp.id) then s.(blocks := resp.blocks, parseTime := resp.parseTime, isParsing := false)
    else s
  }

  /** A scheduled main-thread parse completing: applied whatever the
      request counter says now. */
  function CompleteInline(s: HookState, content: string, elapsed: real): (r: HookState)
    ensures r.blocks == Segment(content) && r.parseTime == elapsed && !r.isParsing
    ensures r.requestId == s.requestId && r.workerReady == s.workerReady
  {
    s.(blocks := Segment(content), parseTime := elapsed, isParsing := false)
  }

  /** Responses delivered one after another, in arrival order. */
  function DeliverAll(s: HookState, resps: seq<WorkerResponse>): HookState
    decreases |resps|
  {
    if resps == [] then s else DeliverAll(Deliver(s, resps[0]), resps[1..])
  }

  /** Parse calls one after another. */
  function ParseAll(s: HookState, contents: seq<string>): HookState
    decreases |contents|
  {
    if contents == [] then s else ParseAll(ParseState(s, contents[0]), contents[1..])
  }

  function NonEmptyCount(contents: seq<string>): (n: nat)
    ensures n <= |contents|
  {
    if contents == [] then 0 else (if contents[0] == "" then 0 else 1) + NonEmptyCount(contents[1..])
  }

  // ---------------------------------------------------------------------
  // Properties of the protocol

  /** The request counter counts the non-empty parses; it never decreases. */
  lemma {:induction false} RequestIdCountsParses(s: HookState, contents: seq<string>)
    ensures ParseAll(s, contents).requestId == s.requestId + NonEmptyCount(contents)
    ensures ParseAll(s, contents).workerReady == s.workerReady
    decreases |contents|
  {
    if contents != [] {
      RequestIdCountsParses(ParseState(s, contents[0]), contents[1..]);
    }
  }

  /** A response answering any earlier request is ignored. */
  lemma EarlierRequestIgnored(s: HookState, k: nat, resp: WorkerResponse)
    requires k < s.requestId && resp.id == NatToString(k)
    ensures Deliver(s, resp) == s
  {
    NatToStringInjective(k, s.requestId);
  }

  /** Once a non-empty parse has been issued, the responses to every
      request before it change nothing, however many arrive and in
      whatever order. */
  lemma {:induction false} SupersededResponsesIgnored(s: HookState, content: string,
                                                     resps: seq<WorkerResponse>, ks: seq<nat>)
    requires content != "" && |ks| == |resps|
    requires forall i :: 0 <= i < |resps| ==> ks[i] <= s.requestId && resps[i].id == NatToString(ks[i])
    ensures DeliverAll(ParseState(s, content), resps) == ParseState(s, content)
    decreases |resps|
  {
    if resps != [] {
      var t := ParseState(s, content);
      EarlierRequestIgnored(t, ks[0], resps[0]);
      SupersededResponsesIgnored(s, content, resps[1..], ks[1..]);
    }
  }

  /** Stale responses change nothing. */
  lemma {:induction false} StaleResponsesIgnored(s: HookState, resps: seq<WorkerResponse>)
    requires forall i :: 0 <= i < |resps| ==> !Current(s, resps[i].id)
    ensures DeliverAll(s, resps) == s
    decreases |resps|
  {
    if resps != [] {
      StaleResponsesIgnored(s, resps[1..]);
    }
  }

  /** Whatever arrived before, the last response answering the latest
      request decides the published blocks and parse time. */
  lemma {:induction false} LastCurrentResponseWins(s: HookState, resps: seq<WorkerResponse>, last: WorkerResponse)
    requires Current(s, last.id)
    ensures DeliverAll(s, resps + [last])
         == s.(blocks := last.blocks, parseTime := last.parseTime, isParsing := false)
    decreases |resps|
  {
    if resps == [] {
      assert [] + [last] == [last];
    } else {
      var t := Deliver(s, resps[0]);
      assert (resps + [last])[1..] == resps[1..] + [last];
      LastCurrentResponseWins(t, resps[1..], last);
    }
  }

  /** A request sent to the worker and answered before any further parse
      publishes the same blocks as the main-thread path would. */
  lemma WorkerRoundTrip(s: HookState, content: string, useWorker: bool, threshold: int, elapsed: real)
    requires ParseDispatch(s, content, useWorker, threshold).ToWorker?
    ensures var t := ParseState(s, content);
      var resp := HandleMessage(ParseDispatch(s, content, useWorker, threshold).msg, elapsed);
      resp.Some? && Current(t, resp.value.id)
      && Deliver(t, resp.value) == CompleteInline(t, content, elapsed)
  {
  }

  /** The main-thread path has no id guard: a completion scheduled by an
      earlier parse still overwrites what a later parse produced. */
  lemma InlineCompletionUnguarded(s: HookState, first: string, second: string, elapsed: real)
    requires first != "" && second != ""
    ensures var t := ParseState(ParseState(s, first), second);
      t.requestId == s.requestId + 2
      && CompleteInline(t, first, elapsed).blocks == Segment(first)
  {
  }

  /** Clearing the document keeps the in-flight flag: after a request went
      to the worker, the empty content (shorter than a non-negative
      threshold) makes the worker effect drop the worker, and the parse of
      it neither clears the flag nor issues a request whose answer could. */
  lemma ClearedDocumentStaysParsing(s: HookState, content: string, useWorker: bool, threshold: int, created: bool)
    requires ParseDispatch(s, content, useWorker, threshold).ToWorker? && threshold >= 0
    ensures var t := ParseState(s, content).(workerReady := ShouldUseWorker(useWorker, |""|, threshold) && created);
      var u := ParseState(t, "");
      u.isParsing && u.blocks == [] && !u.workerReady && u.requestId == s.requestId + 1
      && ParseDispatch(t, "", useWorker, threshold) == NoRequest
  {
  }

  /** However many empty parses follow, the flag stays as it was. */
  lemma {:induction false} EmptyParsesKeepFlag(s: HookState, contents: seq<string>)
    requires forall i :: 0 <= i < |contents| ==> contents[i] == ""
    ensures ParseAll(s, contents).isParsing == s.isParsing
    ensures ParseAll(s, contents).requestId == s.requestId
    ensures contents != [] ==> ParseAll(s, contents).blocks == []
    decreases |contents|
  {
    if contents != [] {
      EmptyParsesKeepFlag(ParseState(s, contents[0]), contents[1..]);
    }
  }

  // ---------------------------------------------------------------------
  // The hook as state updated in place

  class MarkdownWorkerHook {
    const useWorker: bool
    const threshold: int
    var blocks: seq<Block>
    var isParsing: bool
    var parseTime: real
    var requestId: nat
    var workerReady: bool

    function State(): HookState
      reads this
    {
      HookState(blocks, isParsing, parseTime, requestId, workerReady)
    }

    constructor(useWorker: bool, threshold: int)
      ensures State() == Initial
      ensures this.useWorker == useWorker && this.threshold == threshold
    {
      this.useWorker := useWorker;
      this.threshold := threshold;
      blocks := [];
      isParsing := false;
      parseTime := 0.0;
      requestId := 0;
      workerReady := false;
    }

    /** The effect run when the dispatch decision changes: the old worker
        is terminated, and a new one is created when needed; `created`
        says whether the browser provided one. */
    method SyncWorker(shouldUseWorker: bool, created: bool)
      modifies this
      ensures State() == old(State()).(workerReady := shouldUseWorker && created)
    {
      workerReady := false;
      if shouldUseWorker && !workerReady {
        workerReady := created;
      }
    }

    /** A parse call; returns the request it issues. */
    method Parse(content: string) returns (d: Dispatch)
      modifies this
      ensures State() == ParseState(old(State()), content)
      ensures d == ParseDispatch(old(State()), content, useWorker, threshold)
    {
      if content == "" {
        blocks := [];
        parseTime := 0.0;
        return NoRequest;
      }
      requestId := requestId + 1;
      var currentId := NatToString(requestId);
      if ShouldUseWorker(useWorker, |content|, threshold) && workerReady {
        isParsing := true;
        d := ToWorker(WorkerMessage("parse", currentId, Some(content)));
      } else {
        isParsing := true;
        d := Inline(content);
      }
    }

    /** The worker's message handler on the hook's side. */
    method OnWorkerMessage(resp: WorkerResponse)
      modifies this
      ensures State() == Deliver(old(State()), resp)
    {
      if resp.id == NatToString(requestId) {
        blocks := resp.blocks;
        parseTime := resp.parseTime;
        isParsing := false;
      }
    }

    /** A scheduled main-thread parse running. */
    method RunParse(content: string, elapsed: real)
      modifies this
      ensures State() == CompleteInline(old(State()), content, elapsed)
    {
      var parsed := ParseMarkdownToBlocks(content);
      blocks := parsed;
      parseTime := elapsed;
      isParsing := false;
    }
  }
}
