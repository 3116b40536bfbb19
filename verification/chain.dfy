/**
 * `LYChainRequest`: runs its member requests one after another. The state
 * is a cursor (`nextRequestIndex`) and two parallel lists, the members and
 * the completion closures; the closure of a member may append further
 * members while it runs.
 *
 * A member is named by its identity. What the chain asks of a member
 * (set its delegate to the chain, clear its handlers, `start()`, `stop()`)
 * appears as events; the member's own behaviour is modelled by the
 * request lifecycle module.
 */
module Chain {
  import opened Common
  import Accessories
  import Registries

  /** An entry of `requestHandlerList`: the shared empty closure, or a user closure. */
  datatype ChainHandler = NoOp | Callback(h: HandlerId)

  datatype ChainState = ChainState(
    id: ChainId,
    delegate: Option<DelegateId>,
    accessories: Option<seq<AccessoryId>>,
    requests: seq<ReqId>,
    handlers: seq<ChainHandler>,
    next: nat)

  /** A transition's new state and the events it produced, or a runtime crash. */
  datatype Out = Out(c: ChainState, trace: seq<Event>) | ChainTrap

  /** The two lists stay parallel: the `i`-th closure belongs to the `i`-th member. */
  predicate Parallel(c: ChainState) {
    |c.requests| == |c.handlers|
  }

  /** The cursor points at most one past the last member. */
  predicate CursorInRange(c: ChainState) {
    c.next <= |c.requests|
  }

  /** The members a trace started, in order. */
  function StartedRequests(trace: seq<Event>): (rs: seq<ReqId>)
    ensures |rs| <= |trace|
  {
    if |trace| == 0 then []
    else (if trace[0].RequestStarted? then [trace[0].r] else []) + StartedRequests(trace[1..])
  }

  lemma {:induction false} StartedRequestsAppend(t1: seq<Event>, t2: seq<Event>)
    ensures StartedRequests(t1 + t2) == StartedRequests(t1) + StartedRequests(t2)
    decreases |t1|
  {
    if |t1| == 0 {
      assert t1 + t2 == t2;
    } else {
      assert (t1 + t2)[0] == t1[0];
      assert (t1 + t2)[1..] == t1[1..] + t2;
      StartedRequestsAppend(t1[1..], t2);
    }
  }

  /** A fan-out of accessory callbacks starts no member. */
  lemma FanoutStartsNothing(accs: seq<AccessoryId>, hook: Hook, owner: Owner)
    ensures StartedRequests(Accessories.FanoutList(accs, hook, owner)) == []
  {
    NoStartsWithoutStartEvents(Accessories.FanoutList(accs, hook, owner));
  }

  lemma FanoutOptStartsNothing(accs: Option<seq<AccessoryId>>, hook: Hook, owner: Owner)
    ensures StartedRequests(Accessories.Fanout(accs, hook, owner)) == []
  {
    if accs.Some? {
      FanoutStartsNothing(accs.value, hook, owner);
    }
  }

  /** `init()`: no members, cursor at 0. */
  function NewChain(id: ChainId): (c: ChainState)
    ensures Parallel(c) && CursorInRange(c) && c.next == 0 && |c.requests| == 0
    ensures c.id == id && c.delegate.None? && c.accessories.None?
  {
    ChainState(id, None, None, [], [], 0)
  }

  /** `addRequest(_:completionHandler:)`: a nil closure is stored as the empty closure. */
  function AddRequest(c: ChainState, r: ReqId, callback: Option<HandlerId>): (c': ChainState)
    ensures c'.requests == c.requests + [r]
    ensures |c'.handlers| == |c.handlers| + 1 && c'.handlers[..|c.handlers|] == c.handlers
    ensures c'.handlers[|c.handlers|] == (if callback.None? then NoOp else Callback(callback.value))
    ensures c'.(requests := c.requests, handlers := c.handlers) == c
  {
    var h := match callback
      case None => NoOp
      case Some(f) => Callback(f);
    c.(requests := c.requests + [r], handlers := c.handlers + [h])
  }

  /** Appending members keeps the lists parallel and the cursor in range, and moves no cursor. */
  lemma AddRequestKeepsShape(c: ChainState, r: ReqId, callback: Option<HandlerId>)
    ensures Parallel(c) ==> Parallel(AddRequest(c, r, callback))
    ensures CursorInRange(c) ==> CursorInRange(AddRequest(c, r, callback))
    ensures AddRequest(c, r, callback).next == c.next
  {
  }

  /** The members a closure appends while it runs, with their closures. */
  type Additions = seq<(ReqId, Option<HandlerId>)>

  function AddAll(c: ChainState, added: Additions): (c': ChainState)
    ensures |c'.requests| == |c.requests| + |added| && c'.requests[..|c.requests|] == c.requests
    ensures forall i :: 0 <= i < |added| ==> c'.requests[|c.requests| + i] == added[i].0
    ensures |c'.handlers| == |c.handlers| + |added| && c'.handlers[..|c.handlers|] == c.handlers
    ensures c'.(requests := c.requests, handlers := c.handlers) == c
    ensures Parallel(c) ==> Parallel(c')
    decreases |added|
  {
    if |added| == 0 then c
    else
      var c1 := AddRequest(c, added[0].0, added[0].1);
      var c' := AddAll(c1, added[1..]);
      assert c'.handlers[..|c.handlers|] == c'.handlers[..|c1.handlers|][..|c.handlers|];
      assert c'.requests[..|c.requests|] == c'.requests[..|c1.requests|][..|c.requests|];
      c'
  }

  /**
   * `startNextRequest()`: when a member is left at the cursor, redirect it
   * to the chain, clear its handlers, start it and advance the cursor.
   */
  function StartNextRequest(c: ChainState): (res: (bool, ChainState, seq<Event>))
    ensures res.0 <==> c.next < |c.requests|
    ensures res.0 ==> res.1 == c.(next := c.next + 1)
    ensures res.0 ==> StartedRequests(res.2) == [c.requests[c.next]]
    ensures res.0 ==> var req := c.requests[c.next];
      Before(res.2, DelegateSet(req, Some(ChainListener(c.id))), HandlersCleared(req)) &&
      Before(res.2, HandlersCleared(req), RequestStarted(req))
    ensures !res.0 ==> res.1 == c && res.2 == []
    ensures forall e :: e in res.2 ==> e.DelegateSet? || e.HandlersCleared? || e.RequestStarted?
  {
    if c.next < |c.requests| then
      var req := c.requests[c.next];
      var t := [DelegateSet(req, Some(ChainListener(c.id))), HandlersCleared(req), RequestStarted(req)];
      assert StartedRequests(t[2..]) == [req] by {
        assert t[2..][1..] == [];
      }
      assert StartedRequests(t[1..]) == [req] by {
        assert t[1..][1..] == t[2..];
      }
      (true, c.(next := c.next + 1), t)
    else (false, c, [])
  }

  /** Advancing keeps the lists parallel and the cursor in range. */
  lemma StartNextKeepsShape(c: ChainState)
    ensures Parallel(c) ==> Parallel(StartNextRequest(c).1)
    ensures CursorInRange(c) ==> CursorInRange(StartNextRequest(c).1)
    ensures StartNextRequest(c).1.next <= c.next + 1
  {
  }

  /**
   * `start()` as written: the guard `nextRequestIndex > 0` returns early
   * when the cursor is 0, which is exactly the state a chain is in before
   * it has ever run. Otherwise, with members present: willStart, start the
   * next member, register with the chain agent.
   */
  function Start(c: ChainState): (o: Out)
    ensures o.Out?
    ensures c.next == 0 ==> o == Out(c, [])
    ensures c.next > 0 && |c.requests| == 0 ==> o == Out(c, [])
  {
    if c.next <= 0 then Out(c, [])
    else if |c.requests| > 0 then
      var (_, c', t) := StartNextRequest(c);
      Out(c', Accessories.Fanout(c.accessories, WillStart, OfChain(c.id)) + t + [ChainRegistered(c.id)])
    else Out(c, [])
  }

  /**
   * As written, once the cursor has moved and members are present,
   * `start()` fires willStart on every accessory, starts the member at the
   * cursor (when there is one) and registers the chain last.
   */
  lemma StartAsWrittenAfterCursorMoved(c: ChainState)
    requires c.next > 0 && |c.requests| > 0
    ensures var o := Start(c);
      && Accessories.HooksFirst(o.trace, c.accessories, WillStart, OfChain(c.id))
      && o.trace[|o.trace| - 1] == ChainRegistered(c.id)
      && (c.next < |c.requests| ==> o.c == c.(next := c.next + 1) && StartedRequests(o.trace) == [c.requests[c.next]])
      && (c.next >= |c.requests| ==> o.c == c && StartedRequests(o.trace) == [])
  {
    var t := StartNextRequest(c).2;
    var hooks := Accessories.Fanout(c.accessories, WillStart, OfChain(c.id));
    var trace := hooks + t + [ChainRegistered(c.id)];
    assert Start(c).trace == trace;
    StartedRequestsAppend(hooks + t, [ChainRegistered(c.id)]);
    StartedRequestsAppend(hooks, t);
    FanoutOptStartsNothing(c.accessories, WillStart, OfChain(c.id));
    assert trace[..|hooks|] == hooks;
  }

  /**
   * `start()` with the guard the log message describes ("already
   * started"): refuse only once the cursor has moved.
   */
  function StartIntended(c: ChainState): (o: Out)
    ensures o.Out?
    ensures c.next > 0 || |c.requests| == 0 ==> o == Out(c, [])
    ensures c.next == 0 && |c.requests| > 0 ==> o.c == c.(next := 1)
  {
    if c.next != 0 then Out(c, [])
    else if |c.requests| > 0 then
      var (_, c', t) := StartNextRequest(c);
      Out(c', Accessories.Fanout(c.accessories, WillStart, OfChain(c.id)) + t + [ChainRegistered(c.id)])
    else Out(c, [])
  }

  /**
   * The intended first start: willStart on every accessory, then the
   * first member and only it is started, and the chain registers last.
   */
  lemma StartIntendedEffect(c: ChainState)
    requires c.next == 0 && |c.requests| > 0
    ensures var o := StartIntended(c);
      && StartedRequests(o.trace) == [c.requests[0]]
      && o.trace[|o.trace| - 1] == ChainRegistered(c.id)
      && Accessories.HooksFirst(o.trace, c.accessories, WillStart, OfChain(c.id))
  {
    var t := StartNextRequest(c).2;
    var hooks := Accessories.Fanout(c.accessories, WillStart, OfChain(c.id));
    var trace := hooks + t + [ChainRegistered(c.id)];
    assert StartIntended(c).trace == trace;
    StartedRequestsAppend(hooks + t, [ChainRegistered(c.id)]);
    StartedRequestsAppend(hooks, t);
    FanoutOptStartsNothing(c.accessories, WillStart, OfChain(c.id));
    assert trace[..|hooks|] == hooks;
  }

  /**
   * As written, a chain built by `init()` and `addRequest` never runs:
   * `start()` produces no event and leaves the state as it was, however
   * often it is called.
   */
  lemma {:induction false} BuiltChainNeverStartsAsWritten(id: ChainId, added: Additions, k: nat)
    ensures var c := AddAll(NewChain(id), added);
      StartRepeated(c, k) == Out(c, [])
    decreases k
  {
    if k > 0 {
      BuiltChainNeverStartsAsWritten(id, added, k - 1);
    }
  }

  /** `start()` called `k` times in a row, as written. */
  function StartRepeated(c: ChainState, k: nat): Out
    decreases k
  {
    if k == 0 then Out(c, [])
    else match StartRepeated(c, k - 1)
      case ChainTrap => ChainTrap
      case Out(c1, t1) =>
        var o := Start(c1);
        if o.ChainTrap? then ChainTrap else Out(o.c, t1 + o.trace)
  }

  /** With the intended guard, the first call starts the first member and a second call is refused. */
  lemma StartIntendedOnce(c: ChainState)
    requires c.next == 0 && |c.requests| > 0
    ensures StartedRequests(StartIntended(c).trace) == [c.requests[0]]
    ensures StartIntended(StartIntended(c).c) == Out(StartIntended(c).c, [])
  {
    StartIntendedEffect(c);
  }

  /**
   * `clearRequest()`: stop the member before the cursor, then empty both
   * lists. The index is `nextRequestIndex - 1` with only an upper bound
   * check, so on a chain whose cursor is 0 the subscript is -1 and crashes.
   */
  function ClearRequest(c: ChainState): (o: Out)
    ensures c.next == 0 <==> o.ChainTrap?
    ensures o.Out? ==> o.c == c.(requests := [], handlers := [])
    ensures o.Out? && c.next <= |c.requests| ==> o.trace == [RequestStopped(c.requests[c.next - 1])]
    ensures o.Out? && c.next > |c.requests| ==> o.trace == []
  {
    var idx := c.next - 1;
    if idx < |c.requests| then
      if idx < 0 then ChainTrap
      else Out(c.(requests := [], handlers := []), [RequestStopped(c.requests[idx])])
    else Out(c.(requests := [], handlers := []), [])
  }

  /** `clearRequest()` with the lower bound checked as well. */
  function ClearRequestFixed(c: ChainState): (o: Out)
    ensures o.Out?
    ensures o.c == c.(requests := [], handlers := [])
    ensures 0 < c.next <= |c.requests| ==> o.trace == [RequestStopped(c.requests[c.next - 1])]
    ensures !(0 < c.next <= |c.requests|) ==> o.trace == []
  {
    var idx := c.next - 1;
    if 0 <= idx < |c.requests| then Out(c.(requests := [], handlers := []), [RequestStopped(c.requests[idx])])
    else Out(c.(requests := [], handlers := []), [])
  }

  /** `stop()`: willStop, clear, deregister, didStop. */
  function StopWith(c: ChainState, cleared: Out): (o: Out)
    requires cleared.Out? ==> cleared.c == c.(requests := [], handlers := [])
    requires cleared.Out? ==> forall i :: 0 <= i < |cleared.trace| ==> cleared.trace[i].RequestStopped?
    ensures cleared.ChainTrap? <==> o.ChainTrap?
    ensures o.Out? ==> o.c == c.(requests := [], handlers := []) && Parallel(o.c)
    ensures o.Out? ==> ChainDeregistered(c.id) in o.trace && StartedRequests(o.trace) == []
  {
    match cleared
    case ChainTrap => ChainTrap
    case Out(c', t) =>
      var willStop := Accessories.Fanout(c.accessories, WillStop, OfChain(c.id));
      var didStop := Accessories.Fanout(c.accessories, DidStop, OfChain(c.id));
      assert (willStop + t + [ChainDeregistered(c.id)] + didStop)[|willStop + t|] == ChainDeregistered(c.id);
      StopStartsNothing(c, t, willStop, didStop);
      Out(c', willStop + t + [ChainDeregistered(c.id)] + didStop)
  }

  /**
   * The order of `stop()`: every willStop hook, then what `clearRequest()`
   * did, then the deregistration, then every didStop hook.
   */
  lemma StopWithOrder(c: ChainState, cleared: Out)
    requires cleared.Out? ==> cleared.c == c.(requests := [], handlers := [])
    requires cleared.Out? ==> forall i :: 0 <= i < |cleared.trace| ==> cleared.trace[i].RequestStopped?
    ensures var o := StopWith(c, cleared);
      var k := |Accessories.Fanout(c.accessories, WillStop, OfChain(c.id))|;
      var n := if cleared.Out? then |cleared.trace| else 0;
      o.Out? ==>
        && |o.trace| == 2 * k + n + 1
        && Accessories.OnlyHooks(o.trace[..k], WillStop, OfChain(c.id))
        && o.trace[k..k + n] == cleared.trace
        && o.trace[k + n] == ChainDeregistered(c.id)
        && Accessories.OnlyHooks(o.trace[k + n + 1..], DidStop, OfChain(c.id))
  {
    if cleared.Out? {
      var w := Accessories.Fanout(c.accessories, WillStop, OfChain(c.id));
      var ds := Accessories.Fanout(c.accessories, DidStop, OfChain(c.id));
      Accessories.FanoutOnlyHooks(c.accessories, WillStop, OfChain(c.id));
      Accessories.FanoutOnlyHooks(c.accessories, DidStop, OfChain(c.id));
      assert StopWith(c, cleared).trace == w + cleared.trace + [ChainDeregistered(c.id)] + ds;
      StopSlices(w, cleared.trace, ds, ChainDeregistered(c.id));
    }
  }

  /** Where the parts of a trace shaped like `stop()`'s sit. */
  lemma StopSlices(w: seq<Event>, t: seq<Event>, ds: seq<Event>, d: Event)
    ensures var s := w + t + [d] + ds;
      && |s| == |w| + |t| + |ds| + 1
      && s[..|w|] == w
      && s[|w|..|w| + |t|] == t
      && s[|w| + |t|] == d
      && s[|w| + |t| + 1..] == ds
  {
    var s := w + t + [d] + ds;
    assert s[..|w|] == w;
    assert s[|w|..|w| + |t|] == t;
    assert s[|w| + |t| + 1..] == ds;
  }

  lemma StopStartsNothing(c: ChainState, t: seq<Event>, willStop: seq<Event>, didStop: seq<Event>)
    requires willStop == Accessories.Fanout(c.accessories, WillStop, OfChain(c.id))
    requires didStop == Accessories.Fanout(c.accessories, DidStop, OfChain(c.id))
    requires forall i :: 0 <= i < |t| ==> t[i].RequestStopped?
    ensures StartedRequests(willStop + t + [ChainDeregistered(c.id)] + didStop) == []
  {
    FanoutOptStartsNothing(c.accessories, WillStop, OfChain(c.id));
    FanoutOptStartsNothing(c.accessories, DidStop, OfChain(c.id));
    NoStartsWithoutStartEvents(t);
    StartedRequestsAppend(willStop + t + [ChainDeregistered(c.id)], didStop);
    StartedRequestsAppend(willStop + t, [ChainDeregistered(c.id)]);
    StartedRequestsAppend(willStop, t);
  }

  lemma {:induction false} NoStartsWithoutStartEvents(t: seq<Event>)
    requires forall i :: 0 <= i < |t| ==> !t[i].RequestStarted?
    ensures StartedRequests(t) == []
  {
    if |t| > 0 {
      NoStartsWithoutStartEvents(t[1..]);
    }
  }

  /** `stop()` as written. */
  function Stop(c: ChainState): (o: Out)
    ensures c.next == 0 <==> o.ChainTrap?
    ensures o.Out? ==> o.c == c.(requests := [], handlers := [])
    ensures o.Out? ==> ChainDeregistered(c.id) in o.trace && StartedRequests(o.trace) == []
    ensures 0 < c.next <= |c.requests| ==> RequestStopped(c.requests[c.next - 1]) in o.trace
    ensures c.next > |c.requests| ==> o.Out? && forall e :: e in o.trace ==> !e.RequestStopped?
  {
    StopWithOrder(c, ClearRequest(c));
    StopMembers(c, ClearRequest(c));
    StopWith(c, ClearRequest(c))
  }

  /** `stop()` with the corrected `clearRequest()`. */
  function StopFixed(c: ChainState): (o: Out)
    ensures o.Out? && o.c == c.(requests := [], handlers := [])
    ensures ChainDeregistered(c.id) in o.trace && StartedRequests(o.trace) == []
    ensures 0 < c.next <= |c.requests| ==> RequestStopped(c.requests[c.next - 1]) in o.trace
    ensures !(0 < c.next <= |c.requests|) ==> forall e :: e in o.trace ==> !e.RequestStopped?
  {
    StopWithOrder(c, ClearRequestFixed(c));
    StopMembers(c, ClearRequestFixed(c));
    StopWith(c, ClearRequestFixed(c))
  }

  /** The members `stop()` stops are exactly those `clearRequest()` stopped. */
  lemma StopMembers(c: ChainState, cleared: Out)
    requires cleared.Out? ==> cleared.c == c.(requests := [], handlers := [])
    requires cleared.Out? ==> forall i :: 0 <= i < |cleared.trace| ==> cleared.trace[i].RequestStopped?
    ensures cleared.Out? ==> forall e :: e in cleared.trace ==> e in StopWith(c, cleared).trace
    ensures cleared.Out? ==> forall e :: e in StopWith(c, cleared).trace && e.RequestStopped? ==> e in cleared.trace
  {
    if cleared.Out? {
      var w := Accessories.Fanout(c.accessories, WillStop, OfChain(c.id));
      var ds := Accessories.Fanout(c.accessories, DidStop, OfChain(c.id));
      Accessories.FanoutMembers(c.accessories, WillStop, OfChain(c.id));
      Accessories.FanoutMembers(c.accessories, DidStop, OfChain(c.id));
      assert StopWith(c, cleared).trace == w + cleared.trace + [ChainDeregistered(c.id)] + ds;
    }
  }

  /** Stopping a chain that has not run crashes as written; the corrected stop deregisters it. */
  lemma StopBeforeStartTraps(id: ChainId, added: Additions)
    ensures Stop(AddAll(NewChain(id), added)).ChainTrap?
    ensures StopFixed(AddAll(NewChain(id), added)).Out?
    ensures forall e :: e in StopFixed(AddAll(NewChain(id), added)).trace ==> !e.RequestStopped?
  {
  }

  /**
   * The delegate's notification and the deregistration that accompanies
   * it: `if self.delegate != nil { … }`, so nothing without a delegate.
   */
  function Notify(delegate: Option<DelegateId>, note: Note, id: ChainId): (t: seq<Event>)
    ensures delegate.None? ==> t == []
    ensures delegate.Some? ==> t == [NoteEvent(note, delegate.value, id), ChainDeregistered(id)]
    ensures StartedRequests(t) == []
  {
    match delegate
    case None => []
    case Some(d) =>
      var t := [NoteEvent(note, d, id), ChainDeregistered(id)];
      assert t[1..][1..] == [];
      t
  }

  /** Which delegate method the chain calls. */
  datatype Note = Finished | Failed(r: ReqId)

  function NoteEvent(note: Note, d: DelegateId, id: ChainId): Event
  {
    match note
    case Finished => ChainFinishedSent(d, id)
    case Failed(r) => ChainFailedSent(d, id, r)
  }

  /** The willStop and didStop fan-outs around `mid` start no member. */
  lemma BracketedStarts(accs: Option<seq<AccessoryId>>, owner: Owner, mid: seq<Event>)
    ensures StartedRequests(Bracket(accs, owner, mid)) == StartedRequests(mid)
  {
    var willStop := Accessories.Fanout(accs, WillStop, owner);
    var didStop := Accessories.Fanout(accs, DidStop, owner);
    FanoutOptStartsNothing(accs, WillStop, owner);
    FanoutOptStartsNothing(accs, DidStop, owner);
    StartedRequestsAppend(willStop + mid, didStop);
    StartedRequestsAppend(willStop, mid);
  }

  /** Accessory calls aside, `mid` and its bracketed form hold the same events. */
  lemma BracketedHas(accs: Option<seq<AccessoryId>>, owner: Owner, mid: seq<Event>, x: Event)
    requires !x.Accessory?
    ensures x in Bracket(accs, owner, mid) <==> x in mid
  {
  }

  /** `mid` between the willStop and didStop fan-outs. */
  function Bracket(accs: Option<seq<AccessoryId>>, owner: Owner, mid: seq<Event>): seq<Event>
  {
    Accessories.Fanout(accs, WillStop, owner) + mid + Accessories.Fanout(accs, DidStop, owner)
  }

  /**
   * `requestFinished(_:)`, the chain as the finished member's delegate.
   * The closure at `nextRequestIndex - 1` runs first (an out-of-range
   * subscript crashes); `added` are the members it appends while it runs.
   * Then the next member starts, or, when none is left, the chain
   * completes: willStop, the delegate's `chainRequestFinished` and the
   * deregistration (both only when there is a delegate), didStop.
   */
  function RequestFinished(c: ChainState, r: ReqId, added: Additions): (o: Out)
    ensures o.ChainTrap? <==> !(0 < c.next <= |c.handlers|)
  {
    if c.next <= 0 || c.next > |c.handlers| then ChainTrap
    else
      var (more, c2, started) := StartNextRequest(AfterClosure(c, added));
      Out(c2, ClosureCall(c, r) + (if more then started else Completion(c)))
  }

  /** The closure of the member before the cursor, called with the finished member. */
  function ClosureCall(c: ChainState, r: ReqId): seq<Event>
    requires 0 < c.next <= |c.handlers|
  {
    var cb := c.handlers[c.next - 1];
    if cb.NoOp? then [] else [ChainCallbackCalled(cb.h, c.id, r)]
  }

  /** The chain once that closure has run: the empty closure appends nothing. */
  function AfterClosure(c: ChainState, added: Additions): (c1: ChainState)
    requires 0 < c.next <= |c.handlers|
    ensures Parallel(c) ==> Parallel(c1)
    ensures |c.requests| <= |c1.requests| && c1.requests[..|c.requests|] == c.requests
    ensures |c.handlers| <= |c1.handlers| && c1.handlers[..|c.handlers|] == c.handlers
    ensures c1.(requests := c.requests, handlers := c.handlers) == c
  {
    if c.handlers[c.next - 1].NoOp? then c else AddAll(c, added)
  }

  /** The chain's completion: the delegate is told, inside the willStop and didStop fan-outs. */
  function Completion(c: ChainState): seq<Event>
  {
    Bracket(c.accessories, OfChain(c.id), Notify(c.delegate, Finished, c.id))
  }

  /**
   * What one delivery does to the chain: the member lists only grow, and
   * the member after the cursor starts when there is one.
   */
  lemma RequestFinishedShape(c: ChainState, r: ReqId, added: Additions)
    requires Parallel(c) && 0 < c.next <= |c.requests|
    ensures var o := RequestFinished(c, r, added);
      && o.Out? && Parallel(o.c) && CursorInRange(o.c)
      && |c.requests| <= |o.c.requests| && o.c.requests[..|c.requests|] == c.requests
      && o.c.handlers[..|c.handlers|] == c.handlers
      && o.c.(requests := c.requests, handlers := c.handlers, next := c.next) == c
      && (c.next < |o.c.requests| ==> o.c.next == c.next + 1 && StartedRequests(o.trace) == [o.c.requests[c.next]])
      && (c.next == |o.c.requests| ==> o.c.next == c.next && StartedRequests(o.trace) == [])
  {
    RequestFinishedState(c, r, added);
    var called := ClosureCall(c, r);
    var (more, c2, started) := StartNextRequest(AfterClosure(c, added));
    var rest := if more then started else Completion(c);
    assert StartedRequests(called) == [];
    if !more {
      BracketedStarts(c.accessories, OfChain(c.id), Notify(c.delegate, Finished, c.id));
    }
    StartedRequestsAppend(called, rest);
  }

  /** The state after one delivery: the lists grow at the end and the cursor moves at most one step. */
  lemma RequestFinishedState(c: ChainState, r: ReqId, added: Additions)
    requires Parallel(c) && 0 < c.next <= |c.requests|
    ensures var o := RequestFinished(c, r, added);
      && o.Out? && Parallel(o.c) && CursorInRange(o.c)
      && |c.requests| <= |o.c.requests| && o.c.requests[..|c.requests|] == c.requests
      && o.c.handlers[..|c.handlers|] == c.handlers
      && o.c.(requests := c.requests, handlers := c.handlers, next := c.next) == c
      && (c.next < |o.c.requests| ==> o.c.next == c.next + 1)
      && (c.next == |o.c.requests| ==> o.c.next == c.next)
  {
    var c1 := AfterClosure(c, added);
    assert RequestFinished(c, r, added).c == StartNextRequest(c1).1;
  }

  /**
   * What one delivery tells the delegate and the registry: the delegate
   * hears of completion, and the chain deregisters, exactly when no member
   * is left and there is a delegate.
   */
  lemma RequestFinishedNotifies(c: ChainState, r: ReqId, added: Additions)
    requires Parallel(c) && 0 < c.next <= |c.requests|
    ensures var o := RequestFinished(c, r, added);
      && o.Out?
      && (forall d: DelegateId :: ChainFinishedSent(d, c.id) in o.trace <==> c.delegate == Some(d) && c.next == |o.c.requests|)
      && (ChainDeregistered(c.id) in o.trace <==> c.delegate.Some? && c.next == |o.c.requests|)
  {
    RequestFinishedState(c, r, added);
    var called := ClosureCall(c, r);
    var (more, c2, started) := StartNextRequest(AfterClosure(c, added));
    var o := RequestFinished(c, r, added);
    if more {
      assert o.trace == called + started;
    } else {
      var mid := Notify(c.delegate, Finished, c.id);
      assert o.trace == called + Bracket(c.accessories, OfChain(c.id), mid);
      forall d: DelegateId
        ensures ChainFinishedSent(d, c.id) in o.trace <==> c.delegate == Some(d)
      {
        BracketedHas(c.accessories, OfChain(c.id), mid, ChainFinishedSent(d, c.id));
      }
      BracketedHas(c.accessories, OfChain(c.id), mid, ChainDeregistered(c.id));
    }
  }

  /** The closure of the finished member is called, once, and no other closure. */
  lemma RequestFinishedCallsClosure(c: ChainState, r: ReqId, added: Additions)
    requires Parallel(c) && 0 < c.next <= |c.requests|
    ensures var o := RequestFinished(c, r, added);
      && o.Out?
      && (forall h: HandlerId :: ChainCallbackCalled(h, c.id, r) in o.trace <==> c.handlers[c.next - 1] == Callback(h))
  {
    var (more, c2, started) := StartNextRequest(AfterClosure(c, added));
    var rest := if more then started else Completion(c);
    forall h: HandlerId
      ensures ChainCallbackCalled(h, c.id, r) !in rest
    {
      if !more {
        BracketedHas(c.accessories, OfChain(c.id), Notify(c.delegate, Finished, c.id), ChainCallbackCalled(h, c.id, r));
      }
    }
    assert RequestFinished(c, r, added).trace == ClosureCall(c, r) + rest;
  }

  /**
   * `requestFailed(_:)`: no further member starts and the cursor stays;
   * willStop, the delegate's `chainRequestFailed` and the deregistration
   * (both only when there is a delegate), didStop.
   */
  function RequestFailed(c: ChainState, r: ReqId): (o: Out)
    ensures o.Out? && o.c == c
  {
    Out(c, Bracket(c.accessories, OfChain(c.id), Notify(c.delegate, Failed(r), c.id)))
  }

  /** A failure starts nothing; the delegate hears of it, and the chain deregisters, only when there is a delegate. */
  lemma RequestFailedNotifies(c: ChainState, r: ReqId)
    ensures var o := RequestFailed(c, r);
      && StartedRequests(o.trace) == []
      && (forall d: DelegateId :: ChainFailedSent(d, c.id, r) in o.trace <==> c.delegate == Some(d))
      && (ChainDeregistered(c.id) in o.trace <==> c.delegate.Some?)
  {
    var mid := Notify(c.delegate, Failed(r), c.id);
    BracketedStarts(c.accessories, OfChain(c.id), mid);
    forall d: DelegateId
      ensures ChainFailedSent(d, c.id, r) in RequestFailed(c, r).trace <==> c.delegate == Some(d)
    {
      BracketedHas(c.accessories, OfChain(c.id), mid, ChainFailedSent(d, c.id, r));
    }
    BracketedHas(c.accessories, OfChain(c.id), mid, ChainDeregistered(c.id));
  }

  /** One member's completion as the chain sees it: the member and what its closure appends. */
  type Delivery = (ReqId, Additions)

  /**
   * A chain started with the intended guard, then told of `ds.len`
   * successful completions in turn (the last argument is the newest).
   */
  function RunIntended(c: ChainState, ds: seq<Delivery>): Out
    decreases |ds|
  {
    if |ds| == 0 then StartIntended(c)
    else match RunIntended(c, ds[..|ds| - 1])
      case ChainTrap => ChainTrap
      case Out(c1, t1) =>
        var o := RequestFinished(c1, ds[|ds| - 1].0, ds[|ds| - 1].1);
        if o.ChainTrap? then ChainTrap else Out(o.c, t1 + o.trace)
  }

  /**
   * Started with the intended guard, a chain never crashes on a
   * completion, and the members it has started are exactly the members
   * before its cursor, in list order: a member a closure appends runs
   * after every member queued before it.
   */
  lemma {:induction false} RunStartsInListOrder(c: ChainState, ds: seq<Delivery>)
    requires Parallel(c) && c.next == 0 && |c.requests| > 0
    ensures var o := RunIntended(c, ds);
      o.Out? && RunInvariant(c, o.c, o.trace)
    decreases |ds|
  {
    if |ds| == 0 {
      StartIntendedEffect(c);
      assert c.requests[..1] == [c.requests[0]];
    } else {
      RunStartsInListOrder(c, ds[..|ds| - 1]);
      var prev := RunIntended(c, ds[..|ds| - 1]);
      RunStep(c, prev.c, prev.trace, ds[|ds| - 1]);
    }
  }

  /**
   * After a run: the lists are parallel, the cursor has moved and stays in
   * range, the original members are still the first ones, and the started
   * members are the ones before the cursor.
   */
  predicate RunInvariant(c0: ChainState, c: ChainState, trace: seq<Event>) {
    && Parallel(c) && 0 < c.next <= |c.requests|
    && |c0.requests| <= |c.requests| && c.requests[..|c0.requests|] == c0.requests
    && StartedRequests(trace) == c.requests[..c.next]
  }

  lemma RunStep(c0: ChainState, c1: ChainState, t1: seq<Event>, d: Delivery)
    requires RunInvariant(c0, c1, t1)
    ensures var o := RequestFinished(c1, d.0, d.1);
      o.Out? && RunInvariant(c0, o.c, t1 + o.trace)
  {
    RequestFinishedShape(c1, d.0, d.1);
    var o := RequestFinished(c1, d.0, d.1);
    PrefixOfPrefix(c1.requests, o.c.requests, |c0.requests|);
    RunStepStarts(c1.requests, o.c.requests, c1.next, o.c.next, t1, o.trace);
  }

  /** The started members stay the ones before the cursor when the cursor moves at most one step. */
  lemma RunStepStarts(before: seq<ReqId>, after: seq<ReqId>, next: nat, next': nat, t1: seq<Event>, t2: seq<Event>)
    requires next <= |before| <= |after| && after[..|before|] == before
    requires StartedRequests(t1) == before[..next]
    requires next < |after| ==> next' == next + 1 && StartedRequests(t2) == [after[next]]
    requires next == |after| ==> next' == next && StartedRequests(t2) == []
    ensures StartedRequests(t1 + t2) == after[..next']
  {
    StartedRequestsAppend(t1, t2);
    PrefixOfPrefix(before, after, next);
    if next < |after| {
      assert after[..next + 1] == after[..next] + [after[next]];
    }
  }

  /** A prefix of a prefix is a prefix. */
  lemma PrefixOfPrefix<T>(s: seq<T>, t: seq<T>, n: nat)
    requires n <= |s| <= |t| && t[..|s|] == s
    ensures t[..n] == s[..n]
  {
    assert t[..n] == t[..|s|][..n];
  }
}
