/**
 * The single-request lifecycle of `LYBaseRequest` together with the
 * request record of `LYNetworkAgent`: `start`, `stop`,
 * `startWithCompletionHandler`, `clearCompletionHandler`, the task state
 * queries, `addRequest`, `cancelRequest`, `cancelAllRequest`,
 * `addRequestToRecord`/`removeRequestFromRecord` and the result delivery
 * (`handleRequestResult`, `requestDidSucceed`, `requestDidFailed`).
 *
 * `Net` is the part of the heap these touch: every live request by
 * identity, and the agent's record from task identifier to request.
 * Every asynchronous block runs next, in program order, and every
 * critical section is atomic. A transition yields the new heap and its
 * events, or `Trap` when the source crashes on a force unwrap.
 */
module RequestLifecycle {
  import opened Common
  import opened RequestConfig
  import opened Accessories
  import NetworkConfig
  import UrlBuilding
  import ErrorSummary
  import CacheEngine
  import CachedRequest

  /** `URLSessionTask.State`. */
  datatype TaskState = Running | Suspended | Canceling | Completed

  /**
   * A transport task: its `taskIdentifier`, its state, and the status code
   * of its `HTTPURLResponse` (`None` while there is none).
   */
  datatype Task = Task(id: int, state: TaskState, status: Option<int>)

  /** The per-request fields the lifecycle reads and writes. */
  datatype Req = Req(
    task: Option<Task>,
    delegate: Option<Listener>,
    onSuccess: Option<HandlerId>,
    onFailure: Option<HandlerId>,
    accessories: Option<seq<AccessoryId>>,
    error: Option<ErrorSummary.NSErr>,
    config: Configuration)

  datatype Net = Net(reqs: map<ReqId, Req>, record: map<int, ReqId>)

  datatype Result = Ok(net: Net, trace: seq<Event>) | Trap

  /** The collaborators `sessionTaskForRequest` consults. */
  datatype Transport = Transport(
    config: NetworkConfig.Config,
    isAbsolute: string -> bool,
    apply: (NetworkConfig.UrlFilterId, string) -> string,
    resolve: (string, string) -> Option<string>)

  /** Every recorded request is a live request. */
  predicate WellFormed(n: Net) {
    forall k :: k in n.record ==> n.record[k] in n.reqs
  }

  /** Moreover, every record key is the identifier of its request's current task. */
  predicate Consistent(n: Net) {
    forall k :: k in n.record ==>
      n.record[k] in n.reqs && n.reqs[n.record[k]].task.Some? && n.reqs[n.record[k]].task.value.id == k
  }

  // ---------------------------------------------------------------------
  // Task state

  /** `URLSessionTask.cancel()`: a task that has not completed starts canceling. */
  function CancelTask(t: Task): (t': Task)
    ensures t'.id == t.id && t'.status == t.status
    ensures t.state != Completed ==> t'.state == Canceling
    ensures t.state == Completed ==> t' == t
  {
    if t.state == Completed then t else t.(state := Canceling)
  }

  /** `isCancelled`. */
  function IsCancelled(q: Req): (b: bool)
    ensures q.task.None? ==> !b
  {
    match q.task
    case None => false
    case Some(t) => t.state == Canceling
  }

  /** `isExecuting`. */
  function IsExecuting(q: Req): (b: bool)
    ensures q.task.None? ==> !b
  {
    match q.task
    case None => false
    case Some(t) => t.state == Running
  }

  /** A request is never reported both cancelled and executing. */
  lemma NotCancelledAndExecuting(q: Req)
    ensures !(IsCancelled(q) && IsExecuting(q))
  {
  }

  // ---------------------------------------------------------------------
  // Handlers

  /** `clearCompletionHandler()`: both handlers become `nil`; nothing else changes. */
  function ClearCompletionHandler(q: Req): (q': Req)
    ensures q'.onSuccess.None? && q'.onFailure.None?
    ensures q'.(onSuccess := q.onSuccess, onFailure := q.onFailure) == q
  {
    q.(onSuccess := None, onFailure := None)
  }

  /** Clearing keeps the delegate, and clearing twice is clearing once. */
  lemma ClearCompletionHandlerKeepsDelegate(q: Req)
    ensures ClearCompletionHandler(q).delegate == q.delegate
    ensures ClearCompletionHandler(ClearCompletionHandler(q)) == ClearCompletionHandler(q)
  {
  }

  /** The request `r` replaced by `f` applied to it. */
  function Update(n: Net, r: ReqId, q: Req): (n': Net)
    requires r in n.reqs
    ensures n'.reqs.Keys == n.reqs.Keys && n'.reqs[r] == q && n'.record == n.record
    ensures forall o :: o in n.reqs && o != r ==> n'.reqs[o] == n.reqs[o]
  {
    n.(reqs := n.reqs[r := q])
  }

  // ---------------------------------------------------------------------
  // The agent's record

  /** `addRequestToRecord`: map the task identifier to the request, replacing any previous entry. */
  function AddRequestToRecord(n: Net, r: ReqId): (res: Result)
    requires r in n.reqs
    ensures res.Trap? <==> n.reqs[r].task.None?
    ensures res.Ok? ==>
      var id := n.reqs[r].task.value.id;
      && res.net.reqs == n.reqs
      && id in res.net.record && res.net.record[id] == r
      && res.net.record.Keys == n.record.Keys + {id}
      && (forall k :: k in n.record && k != id ==> res.net.record[k] == n.record[k])
      && res.trace == [RecordAdded(id, r)]
  {
    match n.reqs[r].task
    case None => Trap
    case Some(t) => Ok(n.(record := n.record[t.id := r]), [RecordAdded(t.id, r)])
  }

  /** `removeRequestFromRecord`: delete the task identifier's entry and no other. */
  function RemoveRequestFromRecord(n: Net, r: ReqId): (res: Result)
    requires r in n.reqs
    ensures res.Trap? <==> n.reqs[r].task.None?
    ensures res.Ok? ==>
      var id := n.reqs[r].task.value.id;
      && res.net.reqs == n.reqs
      && res.net.record.Keys == n.record.Keys - {id}
      && (forall k :: k in res.net.record ==> res.net.record[k] == n.record[k])
      && res.trace == [RecordRemoved(id)]
  {
    match n.reqs[r].task
    case None => Trap
    case Some(t) => Ok(n.(record := n.record - {t.id}), [RecordRemoved(t.id)])
  }

  /** Recording a request whose task is not yet recorded and then removing it restores the record. */
  lemma RecordAddThenRemove(n: Net, r: ReqId)
    requires r in n.reqs && n.reqs[r].task.Some? && n.reqs[r].task.value.id !in n.record
    ensures AddRequestToRecord(n, r).Ok?
    ensures RemoveRequestFromRecord(AddRequestToRecord(n, r).net, r).Ok?
    ensures RemoveRequestFromRecord(AddRequestToRecord(n, r).net, r).net == n
  {
    var n1 := AddRequestToRecord(n, r).net;
    var n2 := RemoveRequestFromRecord(n1, r).net;
    assert n2.record == n.record;
  }

  // ---------------------------------------------------------------------
  // Starting

  /**
   * The task `addRequest` creates: one for a custom URL request, otherwise
   * the one `sessionTaskForRequest` creates after building the URL (`None`
   * for HEAD). `BuildTrap` is a crash while building the URL.
   */
  datatype NewTask = Created(task: Option<Task>) | BuildTrap

  function CreateTask(q: Req, tid: int, tr: Transport): (nt: NewTask)
    ensures q.config.hasCustomUrlRequest ==> nt == Created(Some(Task(tid, Suspended, None)))
    ensures (nt.Created? && nt.task.None?) <==>
      (!q.config.hasCustomUrlRequest && q.config.httpMethod == HEAD &&
       UrlBuilding.BuildRequestUrl(q.config, tr.config, tr.isAbsolute, tr.apply, tr.resolve).Url?)
  {
    if q.config.hasCustomUrlRequest then Created(Some(Task(tid, Suspended, None)))
    else match UrlBuilding.BuildRequestUrl(q.config, tr.config, tr.isAbsolute, tr.apply, tr.resolve)
      case UrlTrap => BuildTrap
      case Url(_) =>
        if UrlBuilding.TaskVerb(q.config.httpMethod).None? then Created(None)
        else Created(Some(Task(tid, Suspended, None)))
  }

  /**
   * `LYNetworkAgent.addRequest`: install the new task, record the request
   * (crashing when there is no task) and resume the task. `tid` is the
   * identifier the transport gives the task.
   */
  function AgentAddRequest(n: Net, r: ReqId, tid: int, tr: Transport): (res: Result)
    requires r in n.reqs
    ensures res.Ok? ==>
      && res.trace == [RecordAdded(tid, r), TaskResumed(tid)]
      && res.net.reqs == n.reqs[r := n.reqs[r].(task := Some(Task(tid, Running, None)))]
      && res.net.record == n.record[tid := r]
    ensures n.reqs[r].config.hasCustomUrlRequest ==> res.Ok?
    ensures !n.reqs[r].config.hasCustomUrlRequest && n.reqs[r].config.httpMethod == HEAD ==> res.Trap?
  {
    match CreateTask(n.reqs[r], tid, tr)
    case BuildTrap => Trap
    case Created(t) =>
      var n1 := Update(n, r, n.reqs[r].(task := t));
      match AddRequestToRecord(n1, r)
      case Trap => Trap
      case Ok(n2, ev) =>
        var q := n2.reqs[r];
        Ok(Update(n2, r, q.(task := Some(q.task.value.(state := Running)))), ev + [TaskResumed(tid)])
  }

  /** `start()`: the will-start hooks, then the agent. */
  function Start(n: Net, r: ReqId, tid: int, tr: Transport): (res: Result)
    requires r in n.reqs
    ensures res.Ok? ==> res.net.reqs.Keys == n.reqs.Keys
    ensures res.Ok? ==>
      var hooks := Fanout(n.reqs[r].accessories, WillStart, OfRequest(r));
      && res.trace == hooks + [RecordAdded(tid, r), TaskResumed(tid)]
      && IsExecuting(res.net.reqs[r]) && !IsCancelled(res.net.reqs[r])
      && res.net.record.Keys == n.record.Keys + {tid} && res.net.record[tid] == r
    ensures n.reqs[r].config.hasCustomUrlRequest ==> res.Ok?
    ensures !n.reqs[r].config.hasCustomUrlRequest && n.reqs[r].config.httpMethod == HEAD ==> res.Trap?
  {
    match AgentAddRequest(n, r, tid, tr)
    case Trap => Trap
    case Ok(n1, ev) => Ok(n1, Fanout(n.reqs[r].accessories, WillStart, OfRequest(r)) + ev)
  }

  /** Every will-start hook runs before the agent records the request. */
  lemma StartHooksBeforeAgent(n: Net, r: ReqId, tid: int, tr: Transport)
    requires r in n.reqs && Start(n, r, tid, tr).Ok?
    ensures var t := Start(n, r, tid, tr).trace;
      var k := |t| - 2;
      && OnlyHooks(t[..k], WillStart, OfRequest(r))
      && t[k..] == [RecordAdded(tid, r), TaskResumed(tid)]
  {
    var accs := n.reqs[r].accessories;
    if accs.Some? {
      FanoutCallsEachOnce(accs.value, WillStart, OfRequest(r), 0);
    }
    var t := Start(n, r, tid, tr).trace;
    assert t[..|t| - 2] == Fanout(accs, WillStart, OfRequest(r));
  }

  /** A fresh task for a request not in the record keeps the record consistent. */
  lemma StartKeepsConsistent(n: Net, r: ReqId, tid: int, tr: Transport)
    requires r in n.reqs && Consistent(n) && tid !in n.record
    requires forall k :: k in n.record ==> n.record[k] != r
    requires Start(n, r, tid, tr).Ok?
    ensures Consistent(Start(n, r, tid, tr).net)
  {
  }

  /** `startWithCompletionHandler(success:failure:)`: both handlers are installed before `start()`. */
  function StartWithCompletionHandler(n: Net, r: ReqId, success: Option<HandlerId>, failure: Option<HandlerId>,
                                      tid: int, tr: Transport): (res: Result)
    requires r in n.reqs
    ensures res.Ok? ==> res.net.reqs.Keys == n.reqs.Keys
    ensures res.Ok? ==> res.net.reqs[r].onSuccess == success && res.net.reqs[r].onFailure == failure
    ensures res.Ok? <==> Start(n, r, tid, tr).Ok?
    ensures res.Ok? ==> res.trace == Start(n, r, tid, tr).trace
  {
    var n1 := Update(n, r, n.reqs[r].(onSuccess := success, onFailure := failure));
    assert n1.reqs[r].(onSuccess := n.reqs[r].onSuccess, onFailure := n.reqs[r].onFailure) == n.reqs[r];
    Start(n1, r, tid, tr)
  }

  // ---------------------------------------------------------------------
  // Stopping

  /** `LYNetworkAgent.cancelRequest`: cancel the task, drop the record entry, clear the handlers. */
  function CancelRequest(n: Net, r: ReqId): (res: Result)
    requires r in n.reqs
    ensures res.Trap? <==> n.reqs[r].task.None?
    ensures res.Ok? ==>
      var t := n.reqs[r].task.value;
      && res.trace == [TaskCancelled(t.id), RecordRemoved(t.id), HandlersCleared(r)]
      && res.net.record.Keys == n.record.Keys - {t.id}
      && (forall k :: k in res.net.record ==> res.net.record[k] == n.record[k])
      && res.net.reqs == n.reqs[r := ClearCompletionHandler(n.reqs[r]).(task := Some(CancelTask(t)))]
  {
    match n.reqs[r].task
    case None => Trap
    case Some(t) =>
      var n1 := Update(n, r, n.reqs[r].(task := Some(CancelTask(t))));
      match RemoveRequestFromRecord(n1, r)
      case Trap => Trap
      case Ok(n2, ev) =>
        Ok(Update(n2, r, ClearCompletionHandler(n2.reqs[r])), [TaskCancelled(t.id)] + ev + [HandlersCleared(r)])
  }

  /** `stop()`: will-stop hooks, delegate cleared, agent cancel, did-stop hooks. */
  function Stop(n: Net, r: ReqId): (res: Result)
    requires r in n.reqs
    ensures res.Trap? <==> n.reqs[r].task.None?
    ensures res.Ok? ==> res.net.reqs.Keys == n.reqs.Keys
    ensures res.Ok? ==>
      var q := n.reqs[r];
      var q' := res.net.reqs[r];
      && q'.delegate.None? && q'.onSuccess.None? && q'.onFailure.None?
      && q'.task == Some(CancelTask(q.task.value))
      && q'.(delegate := q.delegate, onSuccess := q.onSuccess, onFailure := q.onFailure, task := q.task) == q
      && res.net.reqs.Keys == n.reqs.Keys
      && (forall o :: o in n.reqs && o != r ==> res.net.reqs[o] == n.reqs[o])
      && res.net.record.Keys == n.record.Keys - {q.task.value.id}
      && (forall k :: k in res.net.record ==> res.net.record[k] == n.record[k])
  {
    var q := n.reqs[r];
    var n1 := Update(n, r, q.(delegate := None));
    match CancelRequest(n1, r)
    case Trap => Trap
    case Ok(n2, ev) =>
      Ok(n2, Fanout(q.accessories, WillStop, OfRequest(r)) + [DelegateSet(r, None)] + ev
             + Fanout(q.accessories, DidStop, OfRequest(r)))
  }

  /**
   * The order of `stop()`: every will-stop hook, then the delegate is
   * cleared, then the task is cancelled, the record entry removed and the
   * handlers cleared, then every did-stop hook.
   */
  lemma StopOrder(n: Net, r: ReqId)
    requires r in n.reqs && Stop(n, r).Ok?
    ensures
      var t := Stop(n, r).trace;
      var k := |Fanout(n.reqs[r].accessories, WillStop, OfRequest(r))|;
      var id := n.reqs[r].task.value.id;
      && |t| == 2 * k + 4
      && OnlyHooks(t[..k], WillStop, OfRequest(r))
      && t[k..k + 4] == [DelegateSet(r, None), TaskCancelled(id), RecordRemoved(id), HandlersCleared(r)]
      && OnlyHooks(t[k + 4..], DidStop, OfRequest(r))
  {
    var accs := n.reqs[r].accessories;
    if accs.Some? {
      FanoutCallsEachOnce(accs.value, WillStop, OfRequest(r), 0);
      FanoutCallsEachOnce(accs.value, DidStop, OfRequest(r), 0);
    }
    var t := Stop(n, r).trace;
    var k := |Fanout(accs, WillStop, OfRequest(r))|;
    assert t[..k] == Fanout(accs, WillStop, OfRequest(r));
    assert t[k + 4..] == Fanout(accs, DidStop, OfRequest(r));
  }

  /** A request stopped while its task ran is cancelled and no longer executing. */
  lemma StopCancels(n: Net, r: ReqId)
    requires r in n.reqs && IsExecuting(n.reqs[r])
    ensures Stop(n, r).Ok?
    ensures IsCancelled(Stop(n, r).net.reqs[r]) && !IsExecuting(Stop(n, r).net.reqs[r])
  {
  }

  /** `stop()` keeps the record consistent. */
  lemma StopKeepsConsistent(n: Net, r: ReqId)
    requires r in n.reqs && Consistent(n) && Stop(n, r).Ok?
    ensures Consistent(Stop(n, r).net)
  {
  }

  /**
   * Halfway through `cancelAllRequest` on a consistent record: the keys
   * not yet visited are exactly the ones left in the record, and the
   * requests of the visited keys have each been stopped once.
   */
  ghost predicate CancelProgress(n: Net, cur: Net, remaining: set<int>, stopped: seq<ReqId>)
  {
    RecordProgress(n, cur, remaining) && VisitProgress(n, remaining, stopped) && ClearProgress(n, cur, stopped)
  }

  /** The record holds exactly the unvisited keys, still mapped as at the start. */
  ghost predicate RecordProgress(n: Net, cur: Net, remaining: set<int>)
  {
    && Consistent(n) && Consistent(cur)
    && remaining <= n.record.Keys && cur.record.Keys == remaining
    && cur.reqs.Keys == n.reqs.Keys
    && (forall k :: k in remaining ==> cur.record[k] == n.record[k])
  }

  /** Each visited key's request has been stopped, once. */
  ghost predicate VisitProgress(n: Net, remaining: set<int>, stopped: seq<ReqId>)
  {
    && |stopped| + |remaining| == |n.record.Keys|
    && (forall k :: k in n.record && k !in remaining ==> n.record[k] in stopped)
    && (forall i :: 0 <= i < |stopped| ==>
          stopped[i] in n.reqs && n.reqs[stopped[i]].task.Some? &&
          n.reqs[stopped[i]].task.value.id in n.record.Keys - remaining)
    && (forall i, j :: 0 <= i < j < |stopped| ==> stopped[i] != stopped[j])
  }

  /** The stopped requests have no delegate and no handlers; the others are untouched. */
  ghost predicate ClearProgress(n: Net, cur: Net, stopped: seq<ReqId>)
  {
    && (forall i :: 0 <= i < |stopped| ==>
          stopped[i] in cur.reqs &&
          cur.reqs[stopped[i]].delegate.None? && cur.reqs[stopped[i]].onSuccess.None? &&
          cur.reqs[stopped[i]].onFailure.None?)
    && (forall o :: o in n.reqs && o !in stopped ==> o in cur.reqs && cur.reqs[o] == n.reqs[o])
  }

  /** One visit of a key still in the record stops its request and removes exactly that key. */
  lemma CancelStep(n: Net, cur: Net, remaining: set<int>, stopped: seq<ReqId>, k: int)
    requires CancelProgress(n, cur, remaining, stopped) && k in remaining
    ensures k in cur.record && cur.record[k] in cur.reqs
    ensures Stop(cur, cur.record[k]).Ok?
    ensures CancelProgress(n, Stop(cur, cur.record[k]).net, remaining - {k}, stopped + [cur.record[k]])
  {
    var r := cur.record[k];
    assert r == n.record[k];
    forall i | 0 <= i < |stopped|
      ensures stopped[i] != r
    {
      assert n.reqs[stopped[i]].task.value.id in n.record.Keys - remaining;
    }
    assert cur.reqs[r] == n.reqs[r];
    var next := Stop(cur, r).net;
    StopFacts(cur, r, next);
    assert RecordProgress(n, next, remaining - {k}) by {
      StopKeepsConsistent(cur, r);
    }
    VisitedStaysVisited(n, remaining, stopped, k);
    StoppedStayCleared(n, cur, next, stopped, r);
  }

  /** After a visit of `k`, the visited keys and their stopped requests still match. */
  lemma VisitedStaysVisited(n: Net, remaining: set<int>, stopped: seq<ReqId>, k: int)
    requires Consistent(n) && remaining <= n.record.Keys && k in remaining
    requires VisitProgress(n, remaining, stopped) && n.record[k] !in stopped
    ensures VisitProgress(n, remaining - {k}, stopped + [n.record[k]])
  {
    var stopped' := stopped + [n.record[k]];
    assert |remaining - {k}| == |remaining| - 1;
    forall i | 0 <= i < |stopped'|
      ensures stopped'[i] in n.reqs && n.reqs[stopped'[i]].task.Some?
      ensures n.reqs[stopped'[i]].task.value.id in n.record.Keys - (remaining - {k})
    {
      if i < |stopped| {
        assert stopped'[i] == stopped[i];
      }
    }
  }

  /** Stopping `r` leaves every request stopped earlier with its delegate and handlers cleared. */
  lemma StoppedStayCleared(n: Net, cur: Net, next: Net, stopped: seq<ReqId>, r: ReqId)
    requires ClearProgress(n, cur, stopped)
    requires r in next.reqs && next.reqs[r].delegate.None? && next.reqs[r].onSuccess.None? && next.reqs[r].onFailure.None?
    requires forall o :: o in cur.reqs && o != r ==> o in next.reqs && next.reqs[o] == cur.reqs[o]
    ensures ClearProgress(n, next, stopped + [r])
  {
    var stopped' := stopped + [r];
    forall i | 0 <= i < |stopped'|
      ensures stopped'[i] in next.reqs
      ensures next.reqs[stopped'[i]].delegate.None? && next.reqs[stopped'[i]].onSuccess.None?
      ensures next.reqs[stopped'[i]].onFailure.None?
    {
      if i < |stopped| {
        assert stopped'[i] == stopped[i];
      }
    }
  }

  /** What `stop()` of a request with a task does to the heap, in the form the cancel loop uses. */
  lemma StopFacts(cur: Net, r: ReqId, next: Net)
    requires r in cur.reqs && cur.reqs[r].task.Some? && next == Stop(cur, r).net
    ensures Stop(cur, r).Ok?
    ensures next.reqs.Keys == cur.reqs.Keys
    ensures next.record.Keys == cur.record.Keys - {cur.reqs[r].task.value.id}
    ensures forall j :: j in next.record ==> next.record[j] == cur.record[j]
    ensures next.reqs[r].delegate.None? && next.reqs[r].onSuccess.None? && next.reqs[r].onFailure.None?
    ensures next.reqs[r].task.Some? && next.reqs[r].task.value.id == cur.reqs[r].task.value.id
    ensures forall o :: o in cur.reqs && o != r ==> next.reqs[o] == cur.reqs[o]
  {
  }

  /**
   * `cancelAllRequest`: snapshot the record's keys, then for each key look
   * the request up again and stop it when it is still there. The lookup
   * and the `stop()` are separate steps, so a key whose entry an earlier
   * `stop()` removed is skipped. Dictionary order is unspecified: `keys`
   * is the order in which the snapshot enumerates its keys.
   */
  method CancelAllRequests(n: Net, keys: seq<int>) returns (res: Result, stopped: seq<ReqId>)
    requires WellFormed(n)
    ensures res.Ok? ==> res.net.reqs.Keys == n.reqs.Keys && res.net.record.Keys <= n.record.Keys
    ensures forall i :: 0 <= i < |stopped| ==> stopped[i] in n.reqs
    ensures Consistent(n) ==> res.Ok? && Consistent(res.net)
    // when the snapshot enumerates every key of a consistent record, every
    // recorded request is stopped exactly once and the record is emptied
    ensures Consistent(n) && Enumerates(keys, n.record.Keys) ==>
      |res.net.record| == 0 && |stopped| == |n.record|
    ensures Consistent(n) && Enumerates(keys, n.record.Keys) ==>
      forall k :: k in n.record ==> n.record[k] in stopped
    ensures Consistent(n) ==> forall i, j :: 0 <= i < j < |stopped| ==> stopped[i] != stopped[j]
    ensures Consistent(n) ==> forall i :: 0 <= i < |stopped| ==>
      res.net.reqs[stopped[i]].delegate.None? && res.net.reqs[stopped[i]].onSuccess.None? &&
      res.net.reqs[stopped[i]].onFailure.None?
  {
    var cur := n;
    var trace: seq<Event> := [];
    stopped := [];
    for i := 0 to |keys|
      invariant CancelLoop(n, cur, stopped, keys, i)
    {
      var k := keys[i];
      if k in cur.record {
        var r := cur.record[k];
        CancelLoopStep(n, cur, stopped, keys, i);
        var s := Stop(cur, r);
        if s.Trap? {
          return Trap, stopped;
        }
        cur := s.net;
        trace := trace + s.trace;
        stopped := stopped + [r];
      } else {
        CancelLoopSkip(n, cur, stopped, keys, i);
      }
    }
    if Consistent(n) {
      CancelFinished(n, cur, stopped, keys);
    }
    res := Ok(cur, trace);
  }

  /** The loop invariant of `cancelAllRequests` after the first `i` keys of the snapshot. */
  ghost predicate CancelLoop(n: Net, cur: Net, stopped: seq<ReqId>, keys: seq<int>, i: nat)
  {
    && i <= |keys|
    && WellFormed(cur)
    && cur.reqs.Keys == n.reqs.Keys && cur.record.Keys <= n.record.Keys
    && (forall j :: 0 <= j < |stopped| ==> stopped[j] in n.reqs)
    && (Consistent(n) ==> CancelProgress(n, cur, cur.record.Keys, stopped))
    && (Consistent(n) ==> forall j :: 0 <= j < i ==> keys[j] !in cur.record)
  }

  /** Visiting the `i`-th key when it is still recorded: the stop succeeds on a consistent agent, and the invariant moves on. */
  lemma CancelLoopStep(n: Net, cur: Net, stopped: seq<ReqId>, keys: seq<int>, i: nat)
    requires CancelLoop(n, cur, stopped, keys, i) && i < |keys| && keys[i] in cur.record
    ensures cur.record[keys[i]] in cur.reqs
    ensures Consistent(n) ==> Stop(cur, cur.record[keys[i]]).Ok?
    ensures var r := cur.record[keys[i]];
      Stop(cur, r).Ok? ==> CancelLoop(n, Stop(cur, r).net, stopped + [r], keys, i + 1)
  {
    var k := keys[i];
    var r := cur.record[k];
    if Consistent(n) {
      CancelStep(n, cur, cur.record.Keys, stopped, k);
    }
    var s := Stop(cur, r);
    if s.Ok? {
      assert WellFormed(s.net);
      if Consistent(n) {
        assert s.net.record.Keys == cur.record.Keys - {k};
        assert forall j :: 0 <= j < i + 1 ==> keys[j] !in s.net.record;
      }
    }
  }

  /** Visiting a key that is no longer recorded changes nothing. */
  lemma CancelLoopSkip(n: Net, cur: Net, stopped: seq<ReqId>, keys: seq<int>, i: nat)
    requires CancelLoop(n, cur, stopped, keys, i) && i < |keys| && keys[i] !in cur.record
    ensures CancelLoop(n, cur, stopped, keys, i + 1)
  {
  }

  /** What the loop has achieved once every key of the snapshot has been visited. */
  lemma CancelFinished(n: Net, cur: Net, stopped: seq<ReqId>, keys: seq<int>)
    requires CancelProgress(n, cur, cur.record.Keys, stopped)
    requires forall j :: 0 <= j < |keys| ==> keys[j] !in cur.record
    ensures Consistent(cur)
    ensures Enumerates(keys, n.record.Keys) ==>
      |cur.record| == 0 && |stopped| == |n.record| && forall k :: k in n.record ==> n.record[k] in stopped
    ensures forall i, j :: 0 <= i < j < |stopped| ==> stopped[i] != stopped[j]
    ensures forall i :: 0 <= i < |stopped| ==>
      cur.reqs[stopped[i]].delegate.None? && cur.reqs[stopped[i]].onSuccess.None? &&
      cur.reqs[stopped[i]].onFailure.None?
  {
    if Enumerates(keys, n.record.Keys) {
      VisitedAllKeys(n, cur, keys);
      assert cur.record.Keys == {};
    }
  }

  /** Once every enumerated key has been visited, nothing of the record is left. */
  lemma VisitedAllKeys(n: Net, cur: Net, keys: seq<int>)
    requires Enumerates(keys, n.record.Keys) && cur.record.Keys <= n.record.Keys
    requires forall j :: 0 <= j < |keys| ==> keys[j] !in cur.record
    ensures |cur.record| == 0
  {
    forall k | k in n.record
      ensures k !in cur.record
    {
      assert k in keys;
      var j :| 0 <= j < |keys| && keys[j] == k;
    }
    assert cur.record.Keys == {};
  }

  /** Every element of `s` occurs in `keys`. */
  predicate Enumerates(keys: seq<int>, s: set<int>)
  {
    forall k :: k in s ==> k in keys
  }

  // ---------------------------------------------------------------------
  // Result delivery

  /**
   * The callbacks `requestDidSucceed` / `requestDidFailed` deliver. Both
   * run the *complete* preprocessor and filter; they differ in the
   * delegate method and the handler.
   */
  function Delivery(r: ReqId, q: Req, success: bool): seq<Event>
  {
    [CompletePreprocessor(r)]
      + Fanout(q.accessories, WillStop, OfRequest(r))
      + [CompleteFilter(r)]
      + (match q.delegate
         case Some(d) => [if success then FinishedSent(d, r) else FailedSent(d, r)]
         case None => [])
      + (match if success then q.onSuccess else q.onFailure
         case Some(h) => [if success then SuccessHandlerCalled(h, r) else FailureHandlerCalled(h, r)]
         case None => [])
      + Fanout(q.accessories, DidStop, OfRequest(r))
  }

  /** The success callbacks of a delivery. */
  predicate SuccessEvent(e: Event) {
    e.FinishedSent? || e.SuccessHandlerCalled?
  }

  /** The failure callbacks of a delivery. */
  predicate FailureEvent(e: Event) {
    e.FailedSent? || e.FailureHandlerCalled?
  }

  /** `requestDidSucceed`. */
  function RequestDidSucceed(n: Net, r: ReqId): (res: Result)
    requires r in n.reqs
    ensures res.Ok? && res.net == n
    ensures forall i :: 0 <= i < |res.trace| ==> !FailureEvent(res.trace[i])
  {
    Ok(n, Delivery(r, n.reqs[r], true))
  }

  /**
   * `requestDidFailed`: the error is stored first; the log line then reads
   * `responseStatusCode`, which force-unwraps the HTTP response.
   */
  function RequestDidFailed(n: Net, r: ReqId, e: ErrorSummary.NSErr): (res: Result)
    requires r in n.reqs
    ensures res.Trap? <==> n.reqs[r].task.None? || n.reqs[r].task.value.status.None?
    ensures res.Ok? ==> res.net == Update(n, r, n.reqs[r].(error := Some(e)))
    ensures res.Ok? ==> forall i :: 0 <= i < |res.trace| ==> !SuccessEvent(res.trace[i])
  {
    var q := n.reqs[r].(error := Some(e));
    if q.task.None? || q.task.value.status.None? then Trap
    else Ok(Update(n, r, q), Delivery(r, q, false))
  }

  lemma {:induction false} DeliveryCallbacks(r: ReqId, q: Req, success: bool)
    ensures var t := Delivery(r, q, success);
      && (success ==> forall i :: 0 <= i < |t| ==> !FailureEvent(t[i]))
      && (!success ==> forall i :: 0 <= i < |t| ==> !SuccessEvent(t[i]))
  {
    var accs := q.accessories;
    if accs.Some? {
      FanoutCallsEachOnce(accs.value, WillStop, OfRequest(r), 0);
      FanoutCallsEachOnce(accs.value, DidStop, OfRequest(r), 0);
    }
  }

  /**
   * The order of a delivery: preprocessor, every will-stop hook, filter,
   * delegate, handler, every did-stop hook. The delegate is told exactly
   * when there is one, and the handler is called exactly when it is set.
   */
  lemma {:induction false} DeliveryOrder(r: ReqId, q: Req, success: bool)
    ensures
      var t := Delivery(r, q, success);
      var k := |Fanout(q.accessories, WillStop, OfRequest(r))|;
      var h := if success then q.onSuccess else q.onFailure;
      var m := (if q.delegate.Some? then 1 else 0) + (if h.Some? then 1 else 0);
      && |t| == 2 * k + 2 + m
      && t[0] == CompletePreprocessor(r)
      && OnlyHooks(t[1..k + 1], WillStop, OfRequest(r))
      && t[k + 1] == CompleteFilter(r)
      && (q.delegate.Some? ==> t[k + 2] == (if success then FinishedSent(q.delegate.value, r) else FailedSent(q.delegate.value, r)))
      && (h.Some? ==> t[k + 1 + m] == (if success then SuccessHandlerCalled(h.value, r) else FailureHandlerCalled(h.value, r)))
      && OnlyHooks(t[k + 2 + m..], DidStop, OfRequest(r))
  {
    var accs := q.accessories;
    if accs.Some? {
      FanoutCallsEachOnce(accs.value, WillStop, OfRequest(r), 0);
      FanoutCallsEachOnce(accs.value, DidStop, OfRequest(r), 0);
    }
    var t := Delivery(r, q, success);
    var k := |Fanout(accs, WillStop, OfRequest(r))|;
    var h := if success then q.onSuccess else q.onFailure;
    var m := (if q.delegate.Some? then 1 else 0) + (if h.Some? then 1 else 0);
    assert t[1..k + 1] == Fanout(accs, WillStop, OfRequest(r));
    assert t[k + 2 + m..] == Fanout(accs, DidStop, OfRequest(r));
  }

  /**
   * `handleRequestResult`: exactly one of succeed and failed, chosen by
   * whether there is an error; then the record entry is removed and the
   * handlers are cleared.
   */
  function HandleRequestResult(n: Net, r: ReqId, err: Option<ErrorSummary.NSErr>): (res: Result)
    requires r in n.reqs
    ensures res.Trap? <==> n.reqs[r].task.None? || (err.Some? && n.reqs[r].task.value.status.None?)
    ensures res.Ok? ==> res.net.reqs.Keys == n.reqs.Keys
    ensures res.Ok? ==>
      var id := n.reqs[r].task.value.id;
      && |res.trace| >= 2
      && res.trace[|res.trace| - 2..] == [RecordRemoved(id), HandlersCleared(r)]
      // the one delivery chosen by the error comes first, complete
      && res.trace[..|res.trace| - 2] == Delivery(r, n.reqs[r], err.None?)
      && (err.None? ==> forall i :: 0 <= i < |res.trace| ==> !FailureEvent(res.trace[i]))
      && (err.Some? ==> forall i :: 0 <= i < |res.trace| ==> !SuccessEvent(res.trace[i]))
      && res.net.record.Keys == n.record.Keys - {id}
      && res.net.reqs[r].onSuccess.None? && res.net.reqs[r].onFailure.None?
      && res.net.reqs[r].error == (if err.Some? then err else n.reqs[r].error)
      && res.net.reqs[r].delegate == n.reqs[r].delegate
  {
    var first := match err
      case None => RequestDidSucceed(n, r)
      case Some(e) => RequestDidFailed(n, r, e);
    match first
    case Trap => Trap
    case Ok(n1, ev) =>
      match RemoveRequestFromRecord(n1, r)
      case Trap => Trap
      case Ok(n2, ev2) => Ok(Update(n2, r, ClearCompletionHandler(n2.reqs[r])), ev + ev2 + [HandlersCleared(r)])
  }

  /** Delivering a result keeps the record consistent. */
  lemma HandleRequestResultKeepsConsistent(n: Net, r: ReqId, err: Option<ErrorSummary.NSErr>)
    requires r in n.reqs && Consistent(n) && HandleRequestResult(n, r, err).Ok?
    ensures Consistent(HandleRequestResult(n, r, err).net)
  {
  }

  // ---------------------------------------------------------------------
  // `LYRequest.start()` on the heap

  /** The cache-side inputs of one `LYRequest.start()`. */
  datatype CacheSide = CacheSide(
    req: CacheEngine.CacheRequest,
    vars: CacheEngine.CacheVars,
    store: CacheEngine.Store,
    networkData: Option<Bytes>,
    dataPath: string,
    metaPath: string,
    env: CacheEngine.Env)

  /**
   * `LYRequest.start()` on the heap, given the cache side's decision `s`:
   * either the base start (`startWithoutCache`) or the delivery of the
   * cached response, which ends by clearing the handlers.
   */
  function StartCachedFrom(n: Net, r: ReqId, tid: int, tr: Transport, s: CachedRequest.Started): (res: Result)
    requires r in n.reqs
    requires s.path == CachedRequest.FromCache ==>
      s.trace == CachedRequest.HitTrace(r, n.reqs[r].delegate, n.reqs[r].onSuccess)
    ensures s.path == CachedRequest.WithoutCache ==> res == Start(n, r, tid, tr)
    ensures res.Trap? <==> s.path == CachedRequest.StartTrapped || (s.path == CachedRequest.WithoutCache && Start(n, r, tid, tr).Trap?)
    ensures res.Ok? ==> res.net.reqs.Keys == n.reqs.Keys
    // a cache hit never reaches the agent and fires no accessory hook
    ensures s.path == CachedRequest.FromCache ==>
      && res.Ok?
      && res.net.record == n.record
      && NoAccessoryEvents(res.trace) && NoAgentEvents(res.trace)
      && res.net.reqs[r] == ClearCompletionHandler(n.reqs[r])
  {
    var q := n.reqs[r];
    match s.path
    case WithoutCache => Start(n, r, tid, tr)
    case StartTrapped => Trap
    case FromCache =>
      CachedRequest.HitTraceOrder(r, q.delegate, q.onSuccess);
      Ok(Update(n, r, ClearCompletionHandler(q)), s.trace)
  }

  /** The cache side of `start()` with the library's `loadCache()` and metadata coder. */
  function CacheDecision(n: Net, r: ReqId, c: CacheSide): CachedRequest.Started
    requires r in n.reqs && c.dataPath != c.metaPath
  {
    CachedRequest.StartAsWritten(r, c.req, c.vars, c.store, n.reqs[r].delegate, n.reqs[r].onSuccess,
                                 c.networkData, c.dataPath, c.metaPath, c.env)
  }

  /** The cache side of `start()` on the corrected cache pipeline. */
  function CacheDecisionFixed(n: Net, r: ReqId, c: CacheSide): CachedRequest.Started
    requires r in n.reqs && c.dataPath != c.metaPath
  {
    CachedRequest.Start(r, c.req, c.vars, c.store, n.reqs[r].delegate, n.reqs[r].onSuccess,
                        c.networkData, c.dataPath, c.metaPath, c.env)
  }

  /** A cache decision delivers exactly the hit trace when it is a hit. */
  lemma HitDecisionTrace(r: ReqId, req: CacheEngine.CacheRequest, loaded: CacheEngine.Loaded, vars: CacheEngine.CacheVars,
                         store: CacheEngine.Store, delegate: Option<Listener>, onSuccess: Option<HandlerId>,
                         networkData: Option<Bytes>, dataPath: string, metaPath: string, c: CacheEngine.Coder,
                         env: CacheEngine.Env)
    requires dataPath != metaPath
    ensures var s := CachedRequest.StartWith(r, req, loaded, vars, store, delegate, onSuccess, networkData,
                                             dataPath, metaPath, c, env);
      s.path == CachedRequest.FromCache ==> s.trace == CachedRequest.HitTrace(r, delegate, onSuccess)
  {
  }

  /**
   * `LYRequest.start()` as the library writes it: with `ignoreCache` it is
   * the base start; a cache hit leaves the agent's record alone, fires no
   * hook and only clears the handlers.
   */
  function StartCached(n: Net, r: ReqId, tid: int, tr: Transport, c: CacheSide): (res: Result)
    requires r in n.reqs && c.dataPath != c.metaPath
    ensures c.req.ignoreCache ==> res == Start(n, r, tid, tr)
    ensures res.Ok? ==> res.net.reqs.Keys == n.reqs.Keys
    ensures CacheDecision(n, r, c).path == CachedRequest.FromCache ==>
      && res.Ok? && res.net.record == n.record
      && NoAccessoryEvents(res.trace) && NoAgentEvents(res.trace)
      && res.net.reqs[r] == ClearCompletionHandler(n.reqs[r])
  {
    var q := n.reqs[r];
    HitDecisionTrace(r, c.req, CacheEngine.LoadCache(c.req, c.dataPath, c.metaPath, c.store, c.vars, CacheEngine.AsWritten, c.env),
                     c.vars, c.store, q.delegate, q.onSuccess, c.networkData, c.dataPath, c.metaPath, CacheEngine.AsWritten, c.env);
    StartCachedFrom(n, r, tid, tr, CacheDecision(n, r, c))
  }

  /** `LYRequest.start()` on the corrected cache pipeline, with the same guarantees. */
  function StartCachedFixed(n: Net, r: ReqId, tid: int, tr: Transport, c: CacheSide): (res: Result)
    requires r in n.reqs && c.dataPath != c.metaPath
    ensures c.req.ignoreCache ==> res == Start(n, r, tid, tr)
    ensures res.Ok? ==> res.net.reqs.Keys == n.reqs.Keys
    ensures CacheDecisionFixed(n, r, c).path == CachedRequest.FromCache ==>
      && res.Ok? && res.net.record == n.record
      && NoAccessoryEvents(res.trace) && NoAgentEvents(res.trace)
      && res.net.reqs[r] == ClearCompletionHandler(n.reqs[r])
  {
    var q := n.reqs[r];
    HitDecisionTrace(r, c.req, CacheEngine.LoadCacheFixed(c.req, c.dataPath, c.metaPath, c.store, c.vars, CacheEngine.WithEncoding, c.env),
                     c.vars, c.store, q.delegate, q.onSuccess, c.networkData, c.dataPath, c.metaPath, CacheEngine.WithEncoding, c.env);
    StartCachedFrom(n, r, tid, tr, CacheDecisionFixed(n, r, c))
  }

  /**
   * As written, a request that does not ignore the cache and finds a fresh
   * response saved for it starts over the network, through the agent,
   * exactly as if it had no cache.
   */
  lemma FreshSaveStartsOverNetworkAsWritten(n: Net, r: ReqId, tid: int, tr: Transport, c: CacheSide,
                                            base: string, net: NetworkConfig.Config, before: CacheEngine.Store,
                                            data: Bytes, saveTime: int)
    requires r in n.reqs
    requires !c.req.ignoreCache && c.req.policy.cacheTime > 0 && 0 <= c.env.now - saveTime <= c.req.policy.cacheTime
    requires c.dataPath == CacheEngine.DataPath(c.req, base, net, c.env)
    requires c.metaPath == CacheEngine.MetaPath(c.req, base, net, c.env)
    requires c.store == CacheEngine.SaveResponseData(c.req, c.dataPath, c.metaPath, before, false, Some(data),
                                                     CacheEngine.AsWritten, c.env.(now := saveTime), true, true)
    ensures c.dataPath != c.metaPath && StartCached(n, r, tid, tr, c) == Start(n, r, tid, tr)
  {
    CachedRequest.FreshSavedResponseIsNotServedAsWritten(r, c.req, base, net, before, c.vars, data, c.env, saveTime,
                                                         n.reqs[r].delegate, n.reqs[r].onSuccess, c.networkData);
  }

  /**
   * On the corrected pipeline the same request is served from the cache:
   * the agent's record is untouched and no task is created or resumed.
   */
  lemma FreshSaveServedFromCacheFixed(n: Net, r: ReqId, tid: int, tr: Transport, c: CacheSide,
                                      base: string, net: NetworkConfig.Config, before: CacheEngine.Store,
                                      data: Bytes, saveTime: int)
    requires r in n.reqs
    requires !c.req.ignoreCache && c.req.policy.cacheTime > 0 && 0 <= c.env.now - saveTime <= c.req.policy.cacheTime
    requires c.req.config.responseSerializer != JsonResponseSerializer
    requires c.dataPath == CacheEngine.DataPath(c.req, base, net, c.env)
    requires c.metaPath == CacheEngine.MetaPath(c.req, base, net, c.env)
    requires c.store == CacheEngine.SaveResponseData(c.req, c.dataPath, c.metaPath, before, false, Some(data),
                                                     CacheEngine.WithEncoding, c.env.(now := saveTime), true, true)
    ensures c.dataPath != c.metaPath
    ensures var res := StartCachedFixed(n, r, tid, tr, c);
      res.Ok? && res.net.record == n.record && NoAgentEvents(res.trace)
  {
    CachedRequest.FreshSavedResponseIsServed(r, c.req, base, net, before, c.vars, data, c.env, saveTime,
                                             n.reqs[r].delegate, n.reqs[r].onSuccess, c.networkData);
  }
}
