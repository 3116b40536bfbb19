/**
 * `LYBatchRequest`: starts all of its member requests at once and reports
 * once, when every member has succeeded or when the first one fails.
 *
 * As in the chain model, a member is named by its identity and what the
 * batch asks of a member appears as events.
 */
module Batch {
  import opened Common
  import Accessories
  import Registries

  datatype BatchState = BatchState(
    id: BatchId,
    delegate: Option<DelegateId>,
    onSuccess: Option<HandlerId>,
    onFailure: Option<HandlerId>,
    requests: seq<ReqId>,
    accessories: Option<seq<AccessoryId>>,
    failed: Option<ReqId>,
    finished: nat)

  /** A transition's new state and the events it produced. */
  datatype BOut = BOut(b: BatchState, trace: seq<Event>)

  /** A freshly allocated batch: no members, nothing finished. */
  function NewBatch(id: BatchId): (b: BatchState)
    ensures b.id == id && |b.requests| == 0 && b.finished == 0 && b.failed.None?
    ensures b.delegate.None? && b.onSuccess.None? && b.onFailure.None? && b.accessories.None?
  {
    BatchState(id, None, None, None, [], None, None, 0)
  }

  /** The method named `init(_:)`: replace the member list, nothing else. */
  function SetRequests(b: BatchState, rs: seq<ReqId>): (b': BatchState)
    ensures b'.requests == rs && b'.(requests := b.requests) == b
  {
    b.(requests := rs)
  }

  /** `setCompletionHandler(success:failure:)`. */
  function SetCompletionHandler(b: BatchState, success: Option<HandlerId>, failure: Option<HandlerId>): (b': BatchState)
    ensures b'.onSuccess == success && b'.onFailure == failure
    ensures b'.(onSuccess := b.onSuccess, onFailure := b.onFailure) == b
  {
    b.(onSuccess := success, onFailure := failure)
  }

  /** `clearCompletionHandler()`. */
  function ClearCompletionHandler(b: BatchState): (b': BatchState)
    ensures b'.onSuccess.None? && b'.onFailure.None?
    ensures b'.(onSuccess := b.onSuccess, onFailure := b.onFailure) == b
  {
    b.(onSuccess := None, onFailure := None)
  }

  /** Setting handlers and then clearing them is the same as clearing them. */
  lemma ClearUndoesSet(b: BatchState, success: Option<HandlerId>, failure: Option<HandlerId>)
    ensures ClearCompletionHandler(SetCompletionHandler(b, success, failure)) == ClearCompletionHandler(b)
  {
  }

  /** The body of `start()`'s loop: redirect each member to the batch, clear its handlers, start it. */
  function MemberStarts(rs: seq<ReqId>, id: BatchId): (t: seq<Event>)
    ensures forall i :: 0 <= i < |rs| ==> RequestStarted(rs[i]) in t && DelegateSet(rs[i], Some(BatchListener(id))) in t
    ensures forall e :: e in t ==> e.DelegateSet? || e.HandlersCleared? || e.RequestStarted?
    ensures forall e :: e in t && e.RequestStarted? ==> e.r in rs
    ensures |t| == 3 * |rs|
  {
    TriplesFacts(rs, id);
    Triples(rs, id)
  }

  /** Three events per member, in list order. */
  function Triples(rs: seq<ReqId>, id: BatchId): seq<Event>
  {
    if |rs| == 0 then []
    else [DelegateSet(rs[0], Some(BatchListener(id))), HandlersCleared(rs[0]), RequestStarted(rs[0])]
         + Triples(rs[1..], id)
  }

  lemma {:induction false} TriplesFacts(rs: seq<ReqId>, id: BatchId)
    ensures var t := Triples(rs, id);
      && (forall i :: 0 <= i < |rs| ==> RequestStarted(rs[i]) in t && DelegateSet(rs[i], Some(BatchListener(id))) in t)
      && (forall e :: e in t ==> e.DelegateSet? || e.HandlersCleared? || e.RequestStarted?)
      && (forall e :: e in t && e.RequestStarted? ==> e.r in rs)
      && |t| == 3 * |rs|
  {
    if |rs| > 0 {
      TriplesFacts(rs[1..], id);
      assert forall i :: 1 <= i < |rs| ==> rs[i] == rs[1..][i - 1];
    }
  }

  /** The `i`-th member is redirected to the batch, cleared and started, in that order, at its own slot. */
  lemma MemberStartsOrder(rs: seq<ReqId>, id: BatchId, i: nat)
    requires i < |rs|
    ensures var t := MemberStarts(rs, id);
      && t[3 * i] == DelegateSet(rs[i], Some(BatchListener(id)))
      && t[3 * i + 1] == HandlersCleared(rs[i])
      && t[3 * i + 2] == RequestStarted(rs[i])
  {
    TriplesAt(rs, id, i);
  }

  lemma {:induction false} TriplesAt(rs: seq<ReqId>, id: BatchId, i: nat)
    requires i < |rs|
    ensures var t := Triples(rs, id);
      && 3 * i + 2 < |t|
      && t[3 * i] == DelegateSet(rs[i], Some(BatchListener(id)))
      && t[3 * i + 1] == HandlersCleared(rs[i])
      && t[3 * i + 2] == RequestStarted(rs[i])
    decreases i
  {
    if i == 0 {
      assert |Triples(rs, id)| >= 3;
    } else {
      TriplesAt(rs[1..], id, i - 1);
      var rest := Triples(rs[1..], id);
      var j := 3 * (i - 1);
      assert 3 * i == j + 3;
      assert rs[1..][i - 1] == rs[i];
      ShiftThree(DelegateSet(rs[0], Some(BatchListener(id))), HandlersCleared(rs[0]), RequestStarted(rs[0]), rest, j);
    }
  }

  /** Behind a three-event head, position `j + 3` holds what position `j` of the rest holds. */
  lemma ShiftThree(a: Event, b: Event, c: Event, rest: seq<Event>, j: nat)
    requires j + 2 < |rest|
    ensures var t := [a, b, c] + rest;
      t[j + 3] == rest[j] && t[j + 4] == rest[j + 1] && t[j + 5] == rest[j + 2]
  {
  }

  /** `req.stop()` for every member, in list order. */
  function MemberStops(rs: seq<ReqId>): (t: seq<Event>)
    ensures |t| == |rs|
    ensures forall i :: 0 <= i < |rs| ==> t[i] == RequestStopped(rs[i])
    ensures forall e :: e in t ==> e.RequestStopped?
  {
    if |rs| == 0 then [] else [RequestStopped(rs[0])] + MemberStops(rs[1..])
  }

  /**
   * `start()`: refused once any member has finished (`finishedCount` is
   * never reset). Otherwise forget an earlier failure, register with the
   * batch agent, willStart, then start every member.
   */
  function Start(b: BatchState): (o: BOut)
    ensures b.finished != 0 ==> o == BOut(b, [])
    ensures b.finished == 0 ==> o.b == b.(failed := None)
    ensures b.finished == 0 ==> |o.trace| > 0 && o.trace[0] == BatchRegistered(b.id)
    ensures b.finished == 0 ==> forall i :: 0 <= i < |b.requests| ==> RequestStarted(b.requests[i]) in o.trace
  {
    if b.finished != 0 then BOut(b, [])
    else
      BOut(b.(failed := None), [BatchRegistered(b.id)] + StartBody(b))
  }

  /** Everything `start()` does after it registers. */
  function StartBody(b: BatchState): seq<Event>
  {
    Accessories.Fanout(b.accessories, WillStart, OfBatch(b.id)) + MemberStarts(b.requests, b.id)
  }

  /**
   * The opening of `start()`: register, then every willStart hook; no
   * member starts before the last hook.
   */
  lemma StartHooksFirst(b: BatchState)
    requires b.finished == 0
    ensures
      var t := Start(b).trace;
      var k := |Accessories.Fanout(b.accessories, WillStart, OfBatch(b.id))|;
      && |t| == 1 + k + 3 * |b.requests|
      && t[0] == BatchRegistered(b.id)
      && Accessories.OnlyHooks(t[1..k + 1], WillStart, OfBatch(b.id))
      && (forall j :: 0 <= j < k + 1 ==> !t[j].RequestStarted?)
  {
    var f := Accessories.Fanout(b.accessories, WillStart, OfBatch(b.id));
    assert Start(b).trace == [BatchRegistered(b.id)] + f + MemberStarts(b.requests, b.id);
    Accessories.FanoutOnlyHooks(b.accessories, WillStart, OfBatch(b.id));
    OpeningFacts(BatchRegistered(b.id), f, MemberStarts(b.requests, b.id), WillStart, OfBatch(b.id));
  }

  /** A trace made of one event, a run of hooks, then the rest, opens with no member start. */
  lemma OpeningFacts(first: Event, hooks: seq<Event>, rest: seq<Event>, hook: Hook, owner: Owner)
    requires !first.RequestStarted? && Accessories.OnlyHooks(hooks, hook, owner)
    ensures var t := [first] + hooks + rest;
      && t[0] == first
      && t[1..|hooks| + 1] == hooks
      && (forall j :: 0 <= j < |hooks| + 1 ==> !t[j].RequestStarted?)
  {
    var t := [first] + hooks + rest;
    assert t[1..|hooks| + 1] == hooks;
    forall j | 0 <= j < |hooks| + 1
      ensures !t[j].RequestStarted?
    {
      if j > 0 {
        assert t[j] == hooks[j - 1];
      }
    }
  }

  /**
   * After the hooks `start()` starts the members in list order, each
   * redirected to the batch and cleared right before it starts.
   */
  lemma StartMembersInOrder(b: BatchState, i: nat)
    requires b.finished == 0 && i < |b.requests|
    ensures
      var t := Start(b).trace;
      var k := |Accessories.Fanout(b.accessories, WillStart, OfBatch(b.id))|;
      && k + 3 + 3 * i < |t|
      && t[k + 1 + 3 * i] == DelegateSet(b.requests[i], Some(BatchListener(b.id)))
      && t[k + 2 + 3 * i] == HandlersCleared(b.requests[i])
      && t[k + 3 + 3 * i] == RequestStarted(b.requests[i])
  {
    var f := Accessories.Fanout(b.accessories, WillStart, OfBatch(b.id));
    var ms := MemberStarts(b.requests, b.id);
    var t := Start(b).trace;
    assert t == ([BatchRegistered(b.id)] + f) + ms;
    MemberStartsOrder(b.requests, b.id, i);
    assert t[|f| + 1 + 3 * i] == ms[3 * i];
    assert t[|f| + 2 + 3 * i] == ms[3 * i + 1];
    assert t[|f| + 3 + 3 * i] == ms[3 * i + 2];
  }

  /** `startWithCompletionHandler(success:failure:)`: set the handlers, then `start()`. */
  function StartWithCompletionHandler(b: BatchState, success: Option<HandlerId>, failure: Option<HandlerId>): (o: BOut)
    ensures o.b.onSuccess == success && o.b.onFailure == failure
    ensures b.finished != 0 ==> o.trace == []
  {
    Start(SetCompletionHandler(b, success, failure))
  }

  /**
   * `clearRequest()` inside `stop()`, with `stop()`'s hooks around it:
   * willStop, drop the delegate, stop every member, clear the handlers,
   * didStop, deregister.
   */
  function Stop(b: BatchState): (o: BOut)
    ensures o.b == b.(delegate := None, onSuccess := None, onFailure := None)
    ensures forall i :: 0 <= i < |b.requests| ==> RequestStopped(b.requests[i]) in o.trace
    ensures |o.trace| > 0 && o.trace[|o.trace| - 1] == BatchDeregistered(b.id)
  {
    var t := StopBody(b) + [BatchDeregistered(b.id)];
    assert forall i :: 0 <= i < |b.requests| ==> RequestStopped(b.requests[i]) in MemberStops(b.requests);
    BOut(b.(delegate := None, onSuccess := None, onFailure := None), t)
  }

  /**
   * The order of `stop()`: every willStop hook, then the members stopped
   * in list order, then the handlers cleared, then every didStop hook, and
   * the deregistration last.
   */
  lemma StopOrder(b: BatchState)
    ensures
      var t := Stop(b).trace;
      var k := |Accessories.Fanout(b.accessories, WillStop, OfBatch(b.id))|;
      var n := |b.requests|;
      && |t| == 2 * k + n + 2
      && Accessories.OnlyHooks(t[..k], WillStop, OfBatch(b.id))
      && t[k..k + n] == MemberStops(b.requests)
      && t[k + n] == BatchHandlersCleared(b.id)
      && Accessories.OnlyHooks(t[k + n + 1..|t| - 1], DidStop, OfBatch(b.id))
      && t[|t| - 1] == BatchDeregistered(b.id)
  {
    var w := Accessories.Fanout(b.accessories, WillStop, OfBatch(b.id));
    var ds := Accessories.Fanout(b.accessories, DidStop, OfBatch(b.id));
    Accessories.FanoutOnlyHooks(b.accessories, WillStop, OfBatch(b.id));
    Accessories.FanoutOnlyHooks(b.accessories, DidStop, OfBatch(b.id));
    StopTraceShape(b);
    StopSlices(w, MemberStops(b.requests), ds, BatchHandlersCleared(b.id), BatchDeregistered(b.id));
  }

  /** The parts `stop()`'s trace is made of. */
  lemma StopTraceShape(b: BatchState)
    ensures Stop(b).trace ==
      Accessories.Fanout(b.accessories, WillStop, OfBatch(b.id)) + MemberStops(b.requests)
      + [BatchHandlersCleared(b.id)] + Accessories.Fanout(b.accessories, DidStop, OfBatch(b.id))
      + [BatchDeregistered(b.id)]
    ensures |Accessories.Fanout(b.accessories, DidStop, OfBatch(b.id))| ==
            |Accessories.Fanout(b.accessories, WillStop, OfBatch(b.id))|
  {
  }

  /** Where the parts of a trace shaped like `stop()`'s sit. */
  lemma StopSlices(w: seq<Event>, ms: seq<Event>, ds: seq<Event>, c: Event, d: Event)
    ensures var t := w + ms + [c] + ds + [d];
      && |t| == |w| + |ms| + |ds| + 2
      && t[..|w|] == w
      && t[|w|..|w| + |ms|] == ms
      && t[|w| + |ms|] == c
      && t[|w| + |ms| + 1..|t| - 1] == ds
      && t[|t| - 1] == d
  {
    var t := w + ms + [c] + ds + [d];
    assert t[..|w|] == w;
    assert t[|w|..|w| + |ms|] == ms;
    assert t[|w| + |ms| + 1..|t| - 1] == ds;
  }

  /** The `i`-th member is stopped at its own position, right after the willStop hooks. */
  lemma StopMemberAt(b: BatchState, i: nat)
    requires i < |b.requests|
    ensures
      var t := Stop(b).trace;
      var k := |Accessories.Fanout(b.accessories, WillStop, OfBatch(b.id))|;
      k + i < |t| && t[k + i] == RequestStopped(b.requests[i])
  {
    var w := Accessories.Fanout(b.accessories, WillStop, OfBatch(b.id));
    var ms := MemberStops(b.requests);
    StopTraceShape(b);
    PartAt(w, ms, [BatchHandlersCleared(b.id)] + Accessories.Fanout(b.accessories, DidStop, OfBatch(b.id))
      + [BatchDeregistered(b.id)], i);
  }

  /** The `i`-th element of the middle part of a three-part sequence. */
  lemma PartAt(p: seq<Event>, q: seq<Event>, r: seq<Event>, i: nat)
    requires i < |q|
    ensures |p| + i < |p + q + r| && (p + q + r)[|p| + i] == q[i]
  {
  }

  /** Everything `stop()` does before it deregisters. */
  function StopBody(b: BatchState): seq<Event>
  {
    Accessories.Fanout(b.accessories, WillStop, OfBatch(b.id)) + MemberStops(b.requests)
    + [BatchHandlersCleared(b.id)] + Accessories.Fanout(b.accessories, DidStop, OfBatch(b.id))
  }

  /** Every member of `rs` reports its data as coming from the cache. */
  ghost predicate AllFromCache(rs: seq<ReqId>, fromCache: ReqId -> bool) {
    forall i :: 0 <= i < |rs| ==> fromCache(rs[i])
  }

  /**
   * `isDataFromCache()`: `true` unless some member answers `false`; the
   * loop stops at the first such member. `fromCache` is each member's own
   * `isDataFromCache()`.
   */
  method IsDataFromCache(b: BatchState, fromCache: ReqId -> bool) returns (result: bool)
    ensures result <==> AllFromCache(b.requests, fromCache)
    ensures |b.requests| == 0 ==> result
  {
    result := true;
    var i := 0;
    while i < |b.requests|
      invariant 0 <= i <= |b.requests|
      invariant result <==> forall j :: 0 <= j < i ==> fromCache(b.requests[j])
      decreases |b.requests| - i, result
    {
      if !fromCache(b.requests[i]) {
        result := false;
        break;
      }
      i := i + 1;
    }
  }

  /** The delegate call, when there is a delegate. */
  function DelegateCall(delegate: Option<DelegateId>, success: bool, id: BatchId): (t: seq<Event>)
    ensures delegate.None? ==> t == []
    ensures delegate.Some? && success ==> t == [BatchFinishedSent(delegate.value, id)]
    ensures delegate.Some? && !success ==> t == [BatchFailedSent(delegate.value, id)]
  {
    match delegate
    case None => []
    case Some(d) => if success then [BatchFinishedSent(d, id)] else [BatchFailedSent(d, id)]
  }

  /** The handler call, when the handler is set. */
  function HandlerCall(handler: Option<HandlerId>, success: bool, id: BatchId): (t: seq<Event>)
    ensures handler.None? ==> t == []
    ensures handler.Some? && success ==> t == [BatchSuccessHandlerCalled(handler.value, id)]
    ensures handler.Some? && !success ==> t == [BatchFailureHandlerCalled(handler.value, id)]
  {
    match handler
    case None => []
    case Some(h) => if success then [BatchSuccessHandlerCalled(h, id)] else [BatchFailureHandlerCalled(h, id)]
  }

  /**
   * How a batch reports, once: willStop, what comes before the report
   * (`stops`), the delegate, the handler, clear the handlers, didStop,
   * deregister.
   */
  function Report(b: BatchState, stops: seq<Event>, success: bool): seq<Event>
  {
    Accessories.Fanout(b.accessories, WillStop, OfBatch(b.id)) + stops
    + DelegateCall(b.delegate, success, b.id)
    + HandlerCall(if success then b.onSuccess else b.onFailure, success, b.id)
    + [BatchHandlersCleared(b.id)]
    + Accessories.Fanout(b.accessories, DidStop, OfBatch(b.id))
    + [BatchDeregistered(b.id)]
  }

  /**
   * `requestFinished(_:)`: count the member; the delivery that brings the
   * count to the number of members reports success.
   */
  function RequestFinished(b: BatchState, r: ReqId): (o: BOut)
    ensures o.b.finished == b.finished + 1
    ensures o.b.(finished := b.finished, onSuccess := b.onSuccess, onFailure := b.onFailure) == b
    ensures b.finished + 1 != |b.requests| ==> o == BOut(b.(finished := b.finished + 1), [])
    ensures b.finished + 1 == |b.requests| ==> o.b.onSuccess.None? && o.b.onFailure.None?
  {
    var b1 := b.(finished := b.finished + 1);
    if b1.finished == |b.requests| then
      BOut(ClearCompletionHandler(b1), Report(b, [], true))
    else BOut(b1, [])
  }

  /**
   * `requestFailed(_:)`: remember the member, then report failure, after
   * stopping every member. The member is remembered through the cast
   * `request as? LYRequest`: `cacheCapable` says whether `r` is an `LYRequest`,
   * and when it is not the batch remembers nil.
   */
  function RequestFailed(b: BatchState, r: ReqId, cacheCapable: bool): (o: BOut)
    ensures o.b == b.(failed := if cacheCapable then Some(r) else None, onSuccess := None, onFailure := None)
  {
    var failed := if cacheCapable then Some(r) else None;
    BOut(ClearCompletionHandler(b.(failed := failed)), Report(b, MemberStops(b.requests), false))
  }

  // ---------------------------------------------------------------------
  // Properties of the report

  /** A fan-out holds only accessory callbacks, so it counts no other event. */
  lemma FanoutCountsNothingElse(accs: Option<seq<AccessoryId>>, hook: Hook, owner: Owner, x: Event)
    requires !x.Accessory?
    ensures x !in Accessories.Fanout(accs, hook, owner)
    ensures Count(Accessories.Fanout(accs, hook, owner), x) == 0
  {
    CountPresence(Accessories.Fanout(accs, hook, owner), x);
  }

  lemma CountSingleton(e: Event, x: Event)
    ensures Count([e], x) == if e == x then 1 else 0
  {
    assert [e][1..] == [];
  }

  /** The events a report opens with, through the stops, and what follows them. */
  function ReportHead(b: BatchState, stops: seq<Event>): seq<Event>
  {
    Accessories.Fanout(b.accessories, WillStop, OfBatch(b.id)) + stops
  }

  function ReportTail(b: BatchState, success: bool): seq<Event>
  {
    DelegateCall(b.delegate, success, b.id)
    + HandlerCall(if success then b.onSuccess else b.onFailure, success, b.id)
    + [BatchHandlersCleared(b.id)]
    + Accessories.Fanout(b.accessories, DidStop, OfBatch(b.id))
    + [BatchDeregistered(b.id)]
  }

  lemma ReportSplit(b: BatchState, stops: seq<Event>, success: bool)
    ensures Report(b, stops, success) == ReportHead(b, stops) + ReportTail(b, success)
  {
  }

  /** Only member stops come before the report proper. */
  predicate OnlyStops(stops: seq<Event>) {
    forall i :: 0 <= i < |stops| ==> stops[i].RequestStopped?
  }

  /**
   * A report calls the delegate and the handler of its kind at most once,
   * exactly when they are set, and deregisters the batch exactly once.
   */
  lemma ReportCounts(b: BatchState, stops: seq<Event>, success: bool, d: DelegateId, h: HandlerId)
    requires OnlyStops(stops)
    ensures var t := Report(b, stops, success);
      && Count(t, BatchDeregistered(b.id)) == 1
      && Count(t, BatchFinishedSent(d, b.id)) == (if success && b.delegate == Some(d) then 1 else 0)
      && Count(t, BatchFailedSent(d, b.id)) == (if !success && b.delegate == Some(d) then 1 else 0)
      && Count(t, BatchSuccessHandlerCalled(h, b.id)) == (if success && b.onSuccess == Some(h) then 1 else 0)
      && Count(t, BatchFailureHandlerCalled(h, b.id)) == (if !success && b.onFailure == Some(h) then 1 else 0)
  {
    ReportCountOf(b, stops, success, BatchDeregistered(b.id));
    ReportCountOf(b, stops, success, BatchFinishedSent(d, b.id));
    ReportCountOf(b, stops, success, BatchFailedSent(d, b.id));
    ReportCountOf(b, stops, success, BatchSuccessHandlerCalled(h, b.id));
    ReportCountOf(b, stops, success, BatchFailureHandlerCalled(h, b.id));
  }

  /** Counting one reporting event in a report: the delegate call, the handler call and the deregistration. */
  lemma ReportCountOf(b: BatchState, stops: seq<Event>, success: bool, x: Event)
    requires OnlyStops(stops)
    requires x.BatchDeregistered? || x.BatchFinishedSent? || x.BatchFailedSent? ||
             x.BatchSuccessHandlerCalled? || x.BatchFailureHandlerCalled?
    ensures Count(Report(b, stops, success), x) ==
      (if DelegateCall(b.delegate, success, b.id) == [x] then 1 else 0)
      + (if HandlerCall(if success then b.onSuccess else b.onFailure, success, b.id) == [x] then 1 else 0)
      + (if x == BatchDeregistered(b.id) then 1 else 0)
  {
    var w := Accessories.Fanout(b.accessories, WillStop, OfBatch(b.id));
    var dc := DelegateCall(b.delegate, success, b.id);
    var hc := HandlerCall(if success then b.onSuccess else b.onFailure, success, b.id);
    var ds := Accessories.Fanout(b.accessories, DidStop, OfBatch(b.id));
    var t1 := w + stops;
    var t2 := t1 + dc;
    var t3 := t2 + hc;
    var t4 := t3 + [BatchHandlersCleared(b.id)];
    var t5 := t4 + ds;
    FanoutCountsNothingElse(b.accessories, WillStop, OfBatch(b.id), x);
    FanoutCountsNothingElse(b.accessories, DidStop, OfBatch(b.id), x);
    CountPresence(stops, x);
    CountAppend(w, stops, x);
    CountAppend(t1, dc, x);
    CountAppend(t2, hc, x);
    CountAppend(t3, [BatchHandlersCleared(b.id)], x);
    CountAppend(t4, ds, x);
    CountAppend(t5, [BatchDeregistered(b.id)], x);
    CountSingleton(BatchHandlersCleared(b.id), x);
    CountSingleton(BatchDeregistered(b.id), x);
    if dc != [] {
      CountSingleton(dc[0], x);
    }
    if hc != [] {
      CountSingleton(hc[0], x);
    }
  }

  /**
   * A failure stops every member before it tells the delegate or calls
   * the failure handler, and tells each of them exactly when it is set.
   */
  lemma FailureStopsMembersFirst(b: BatchState, r: ReqId, cacheCapable: bool, m: ReqId)
    requires m in b.requests
    ensures var t := RequestFailed(b, r, cacheCapable).trace;
      && (forall d: DelegateId :: b.delegate == Some(d) ==> Before(t, RequestStopped(m), BatchFailedSent(d, b.id)))
      && (forall h: HandlerId :: b.onFailure == Some(h) ==> Before(t, RequestStopped(m), BatchFailureHandlerCalled(h, b.id)))
  {
    var stops := MemberStops(b.requests);
    ReportSplit(b, stops, false);
    var head := ReportHead(b, stops);
    var i :| 0 <= i < |b.requests| && b.requests[i] == m;
    assert stops[i] == RequestStopped(m);
    forall x: Event | x.BatchFailedSent? || x.BatchFailureHandlerCalled?
      ensures x !in head
    {
      FanoutCountsNothingElse(b.accessories, WillStop, OfBatch(b.id), x);
    }
    forall d: DelegateId | b.delegate == Some(d)
      ensures Before(Report(b, stops, false), RequestStopped(m), BatchFailedSent(d, b.id))
    {
      BeforeAcross(head, ReportTail(b, false), RequestStopped(m), BatchFailedSent(d, b.id));
    }
    forall h: HandlerId | b.onFailure == Some(h)
      ensures Before(Report(b, stops, false), RequestStopped(m), BatchFailureHandlerCalled(h, b.id))
    {
      BeforeAcross(head, ReportTail(b, false), RequestStopped(m), BatchFailureHandlerCalled(h, b.id));
    }
  }

  /** On success the delegate hears first, then the handler runs, then the handlers are cleared. */
  lemma SuccessReportOrder(b: BatchState, d: DelegateId, h: HandlerId)
    requires b.finished + 1 == |b.requests|
    ensures var t := RequestFinished(b, 0).trace;
      && (b.delegate == Some(d) && b.onSuccess == Some(h) ==>
            Before(t, BatchFinishedSent(d, b.id), BatchSuccessHandlerCalled(h, b.id)))
      && (b.onSuccess == Some(h) ==> Before(t, BatchSuccessHandlerCalled(h, b.id), BatchHandlersCleared(b.id)))
      && t[|t| - 1] == BatchDeregistered(b.id)
  {
    SuccessOrderInReport(b, d, h);
  }

  lemma SuccessOrderInReport(b: BatchState, d: DelegateId, h: HandlerId)
    ensures var t := Report(b, [], true);
      && (b.delegate == Some(d) && b.onSuccess == Some(h) ==>
            Before(t, BatchFinishedSent(d, b.id), BatchSuccessHandlerCalled(h, b.id)))
      && (b.onSuccess == Some(h) ==> Before(t, BatchSuccessHandlerCalled(h, b.id), BatchHandlersCleared(b.id)))
      && t[|t| - 1] == BatchDeregistered(b.id)
  {
    if b.delegate == Some(d) && b.onSuccess == Some(h) {
      DelegateBeforeHandler(b, [], true, d, h);
    }
    if b.onSuccess == Some(h) {
      HandlerBeforeClear(b, [], true, h);
    }
  }

  /**
   * On failure, too, the delegate hears first, then the failure handler
   * runs, then the handlers are cleared, and the batch deregisters last.
   */
  lemma FailureReportOrder(b: BatchState, r: ReqId, cacheCapable: bool, d: DelegateId, h: HandlerId)
    ensures var t := RequestFailed(b, r, cacheCapable).trace;
      && (b.delegate == Some(d) && b.onFailure == Some(h) ==>
            Before(t, BatchFailedSent(d, b.id), BatchFailureHandlerCalled(h, b.id)))
      && (b.onFailure == Some(h) ==> Before(t, BatchFailureHandlerCalled(h, b.id), BatchHandlersCleared(b.id)))
      && t[|t| - 1] == BatchDeregistered(b.id)
  {
    var stops := MemberStops(b.requests);
    if b.delegate == Some(d) && b.onFailure == Some(h) {
      DelegateBeforeHandler(b, stops, false, d, h);
    }
    if b.onFailure == Some(h) {
      HandlerBeforeClear(b, stops, false, h);
    }
  }

  /** The delegate event and the handler event a report of the given kind produces. */
  function DelegateEvent(d: DelegateId, success: bool, id: BatchId): Event {
    if success then BatchFinishedSent(d, id) else BatchFailedSent(d, id)
  }

  function HandlerEvent(h: HandlerId, success: bool, id: BatchId): Event {
    if success then BatchSuccessHandlerCalled(h, id) else BatchFailureHandlerCalled(h, id)
  }

  /** In either kind of report the delegate hears before the handler runs. */
  lemma DelegateBeforeHandler(b: BatchState, stops: seq<Event>, success: bool, d: DelegateId, h: HandlerId)
    requires OnlyStops(stops)
    requires b.delegate == Some(d) && (if success then b.onSuccess else b.onFailure) == Some(h)
    ensures Before(Report(b, stops, success), DelegateEvent(d, success, b.id), HandlerEvent(h, success, b.id))
  {
    var de := DelegateEvent(d, success, b.id);
    var he := HandlerEvent(h, success, b.id);
    var w := Accessories.Fanout(b.accessories, WillStop, OfBatch(b.id));
    var t2 := w + stops + [de];
    var t3 := t2 + [he];
    var t4 := t3 + [BatchHandlersCleared(b.id)];
    var t5 := t4 + Accessories.Fanout(b.accessories, DidStop, OfBatch(b.id));
    assert Report(b, stops, success) == t5 + [BatchDeregistered(b.id)];
    FanoutCountsNothingElse(b.accessories, WillStop, OfBatch(b.id), he);
    assert he !in stops;
    assert de in t2 && he !in t2;
    BeforeAcross(t2, [he], de, he);
    BeforeExtend(t3, [BatchHandlersCleared(b.id)], de, he);
    BeforeExtend(t4, Accessories.Fanout(b.accessories, DidStop, OfBatch(b.id)), de, he);
    BeforeExtend(t5, [BatchDeregistered(b.id)], de, he);
  }

  /** In either kind of report the handler runs before the handlers are cleared. */
  lemma HandlerBeforeClear(b: BatchState, stops: seq<Event>, success: bool, h: HandlerId)
    requires OnlyStops(stops)
    requires (if success then b.onSuccess else b.onFailure) == Some(h)
    ensures Before(Report(b, stops, success), HandlerEvent(h, success, b.id), BatchHandlersCleared(b.id))
  {
    var he := HandlerEvent(h, success, b.id);
    var dc := DelegateCall(b.delegate, success, b.id);
    var w := Accessories.Fanout(b.accessories, WillStop, OfBatch(b.id));
    var t3 := w + stops + dc + [he];
    var t4 := t3 + [BatchHandlersCleared(b.id)];
    var t5 := t4 + Accessories.Fanout(b.accessories, DidStop, OfBatch(b.id));
    assert Report(b, stops, success) == t5 + [BatchDeregistered(b.id)];
    FanoutCountsNothingElse(b.accessories, WillStop, OfBatch(b.id), BatchHandlersCleared(b.id));
    assert BatchHandlersCleared(b.id) !in stops;
    assert BatchHandlersCleared(b.id) !in dc;
    assert he in t3 && BatchHandlersCleared(b.id) !in t3;
    BeforeAcross(t3, [BatchHandlersCleared(b.id)], he, BatchHandlersCleared(b.id));
    BeforeExtend(t4, Accessories.Fanout(b.accessories, DidStop, OfBatch(b.id)), he, BatchHandlersCleared(b.id));
    BeforeExtend(t5, [BatchDeregistered(b.id)], he, BatchHandlersCleared(b.id));
  }

  /**
   * The full order of a report of either kind: the willStop hooks, what
   * comes before the report, the delegate call, the handler call, the
   * handlers cleared, the didStop hooks, the deregistration.
   */
  lemma ReportOrder(b: BatchState, stops: seq<Event>, success: bool)
    ensures
      var t := Report(b, stops, success);
      var k := |Accessories.Fanout(b.accessories, WillStop, OfBatch(b.id))|;
      var dc := DelegateCall(b.delegate, success, b.id);
      var hc := HandlerCall(if success then b.onSuccess else b.onFailure, success, b.id);
      var s := k + |stops|;
      var m := s + |dc| + |hc|;
      && |t| == m + k + 2
      && Accessories.OnlyHooks(t[..k], WillStop, OfBatch(b.id))
      && t[k..s] == stops
      && t[s..s + |dc|] == dc
      && t[s + |dc|..m] == hc
      && t[m] == BatchHandlersCleared(b.id)
      && Accessories.OnlyHooks(t[m + 1..|t| - 1], DidStop, OfBatch(b.id))
      && t[|t| - 1] == BatchDeregistered(b.id)
  {
    var w := Accessories.Fanout(b.accessories, WillStop, OfBatch(b.id));
    var dc := DelegateCall(b.delegate, success, b.id);
    var hc := HandlerCall(if success then b.onSuccess else b.onFailure, success, b.id);
    var ds := Accessories.Fanout(b.accessories, DidStop, OfBatch(b.id));
    Accessories.FanoutOnlyHooks(b.accessories, WillStop, OfBatch(b.id));
    Accessories.FanoutOnlyHooks(b.accessories, DidStop, OfBatch(b.id));
    var t := Report(b, stops, success);
    assert t == w + stops + dc + hc + [BatchHandlersCleared(b.id)] + ds + [BatchDeregistered(b.id)];
    assert t[..|w|] == w;
    assert t[|w|..|w| + |stops|] == stops;
    assert t[|w| + |stops|..|w| + |stops| + |dc|] == dc;
    assert t[|w| + |stops| + |dc|..|w| + |stops| + |dc| + |hc|] == hc;
    assert t[|w| + |stops| + |dc| + |hc| + 1..|t| - 1] == ds;
  }

  // ---------------------------------------------------------------------
  // Runs

  /** The members' successes delivered one after another (the last one newest). */
  function Deliver(b: BatchState, rs: seq<ReqId>): BOut
    decreases |rs|
  {
    if |rs| == 0 then BOut(b, [])
    else
      var prev := Deliver(b, rs[..|rs| - 1]);
      var o := RequestFinished(prev.b, rs[|rs| - 1]);
      BOut(o.b, prev.trace + o.trace)
  }

  /**
   * Counted from a batch that has just started, the successes report
   * exactly once, on the delivery that completes the member count: the
   * delegate and the success handler then hear of it once, and the batch
   * deregisters once; after that, further deliveries produce nothing.
   */
  lemma {:induction false} CompletesExactlyOnce(b: BatchState, rs: seq<ReqId>, d: DelegateId, h: HandlerId)
    requires b.finished == 0 && |b.requests| > 0
    ensures var o := Deliver(b, rs);
      var done := |rs| >= |b.requests|;
      && o.b == (if done then ClearCompletionHandler(b) else b).(finished := |rs|)
      && Count(o.trace, BatchDeregistered(b.id)) == (if done then 1 else 0)
      && Count(o.trace, BatchFinishedSent(d, b.id)) == (if done && b.delegate == Some(d) then 1 else 0)
      && Count(o.trace, BatchSuccessHandlerCalled(h, b.id)) == (if done && b.onSuccess == Some(h) then 1 else 0)
    decreases |rs|
  {
    if |rs| > 0 {
      var k := |rs| - 1;
      CompletesExactlyOnce(b, rs[..k], d, h);
      var prev := Deliver(b, rs[..k]);
      var o := RequestFinished(prev.b, rs[k]);
      var xs := [BatchDeregistered(b.id), BatchFinishedSent(d, b.id), BatchSuccessHandlerCalled(h, b.id)];
      forall x | x in xs
        ensures Count(prev.trace + o.trace, x) == Count(prev.trace, x) + Count(o.trace, x)
      {
        CountAppend(prev.trace, o.trace, x);
      }
      if k + 1 == |b.requests| {
        ReportCounts(prev.b, [], true, d, h);
      }
    }
  }

  /** A batch that has counted a success can never be started again. */
  lemma StartAfterFinishIsNoOp(b: BatchState, r: ReqId)
    ensures var b' := RequestFinished(b, r).b;
      Start(b') == BOut(b', [])
  {
  }

  /** Starting a batch and then stopping it leaves the batch registry as it was. */
  lemma StartThenStopRestoresRegistry(a: Registries.BatchAgent, b: BatchState)
    requires b.finished == 0 && b.id !in a.list
    ensures var s := Start(b);
      Registries.ReplayBatchAgent(a, s.trace + Stop(s.b).trace) == a
  {
    var s := Start(b);
    Registries.ReplayBatchAppend(a, s.trace, Stop(s.b).trace);
    StartRegisters(a, b);
    StopDeregisters(Registries.AddBatchRequest(a, b.id), s.b);
    Registries.BatchAddThenRemove(a, b.id);
  }

  /** `start()` registers the batch once and touches no other registration. */
  lemma StartRegisters(a: Registries.BatchAgent, b: BatchState)
    requires b.finished == 0
    ensures Registries.ReplayBatchAgent(a, Start(b).trace) == Registries.AddBatchRequest(a, b.id)
  {
    var body := StartBody(b);
    StartBodyRegistersNothing(b);
    Registries.ReplayBatchAppend(a, [BatchRegistered(b.id)], body);
    Registries.ReplayBatchSingle(a, BatchRegistered(b.id));
    Registries.ReplayBatchIgnoresOthers(Registries.AddBatchRequest(a, b.id), body);
  }

  lemma StopBodyRegistersNothing(b: BatchState)
    ensures forall e :: e in StopBody(b) ==> !e.BatchRegistered? && !e.BatchDeregistered?
  {
    Accessories.FanoutMembers(b.accessories, WillStop, OfBatch(b.id));
    Accessories.FanoutMembers(b.accessories, DidStop, OfBatch(b.id));
  }

  lemma StartBodyRegistersNothing(b: BatchState)
    ensures forall e :: e in StartBody(b) ==> !e.BatchRegistered? && !e.BatchDeregistered?
  {
    Accessories.FanoutMembers(b.accessories, WillStart, OfBatch(b.id));
  }

  /** `stop()` deregisters the batch once and touches no other registration. */
  lemma StopDeregisters(a: Registries.BatchAgent, b: BatchState)
    ensures Registries.ReplayBatchAgent(a, Stop(b).trace) == Registries.RemoveBatchRequest(a, b.id)
  {
    var body := StopBody(b);
    StopBodyRegistersNothing(b);
    assert Stop(b).trace == body + [BatchDeregistered(b.id)];
    Registries.ReplayBatchIgnoresOthers(a, body);
    Registries.ReplayBatchAppend(a, body, [BatchDeregistered(b.id)]);
    Registries.ReplayBatchSingle(a, BatchDeregistered(b.id));
  }
}
