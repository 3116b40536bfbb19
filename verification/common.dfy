/**
 * Shared vocabulary of the LYNetwork model: optional values, object
 * identities, and the ordered events that request, chain and batch
 * transitions emit.
 *
 * Objects of the library (requests, chains, batches, delegates, closures,
 * accessories) are reference types; the model names each one by an
 * identity, so that `==` on identities is Swift's `ObjectIdentifier`
 * comparison.
 */
module Common {

  /** Swift's `Optional`: `nil` is `None`. */
  datatype Option<+T> = None | Some(value: T)

  /** An octet of response data. */
  newtype Byte = x: int | 0 <= x < 256
  type Bytes = seq<Byte>

  type ReqId = nat
  type ChainId = nat
  type BatchId = nat
  type AccessoryId = nat
  /** A user object that adopts one of the delegate protocols. */
  type DelegateId = nat
  /** A completion closure. */
  type HandlerId = nat

  /** The three callbacks of the accessory protocol. */
  datatype Hook = WillStart | WillStop | DidStop

  /** The object an accessory callback is about. */
  datatype Owner = OfRequest(r: ReqId) | OfBatch(b: BatchId) | OfChain(c: ChainId)

  /**
   * The receiver of a request's `requestFinished` / `requestFailed`: a user
   * delegate, or a chain or batch that redirected the request to itself.
   */
  datatype Listener = UserDelegate(d: DelegateId) | ChainListener(c: ChainId) | BatchListener(b: BatchId)

  /** Everything the model treats as observable, in the order it happens. */
  datatype Event =
    | Accessory(acc: AccessoryId, hook: Hook, owner: Owner)
      // a single request's configuration hooks and callbacks
    | CompletePreprocessor(r: ReqId)
    | CompleteFilter(r: ReqId)
    | FinishedSent(to: Listener, r: ReqId)
    | FailedSent(to: Listener, r: ReqId)
    | SuccessHandlerCalled(h: HandlerId, r: ReqId)
    | FailureHandlerCalled(h: HandlerId, r: ReqId)
    | HandlersCleared(r: ReqId)
    | DelegateSet(r: ReqId, delegate: Option<Listener>)
      // a composite asking one of its members to start or stop
    | RequestStarted(r: ReqId)
    | RequestStopped(r: ReqId)
      // the transport task and the agent's record
    | TaskResumed(task: int)
    | TaskCancelled(task: int)
    | RecordAdded(task: int, r: ReqId)
    | RecordRemoved(task: int)
      // chain coordinator
    | ChainCallbackCalled(h: HandlerId, c: ChainId, r: ReqId)
    | ChainFinishedSent(d: DelegateId, c: ChainId)
    | ChainFailedSent(d: DelegateId, c: ChainId, r: ReqId)
    | ChainRegistered(c: ChainId)
    | ChainDeregistered(c: ChainId)
      // batch coordinator
    | BatchFinishedSent(d: DelegateId, b: BatchId)
    | BatchFailedSent(d: DelegateId, b: BatchId)
    | BatchSuccessHandlerCalled(h: HandlerId, b: BatchId)
    | BatchFailureHandlerCalled(h: HandlerId, b: BatchId)
    | BatchHandlersCleared(b: BatchId)
    | BatchRegistered(b: BatchId)
    | BatchDeregistered(b: BatchId)

  /** No event of `trace` is an accessory callback. */
  predicate NoAccessoryEvents(trace: seq<Event>) {
    forall i :: 0 <= i < |trace| ==> !trace[i].Accessory?
  }

  /** No event of `trace` touches the transport task or the agent's record. */
  predicate NoAgentEvents(trace: seq<Event>) {
    forall i :: 0 <= i < |trace| ==>
      !trace[i].TaskResumed? && !trace[i].TaskCancelled? && !trace[i].RecordAdded? && !trace[i].RecordRemoved?
  }

  /** Index of the first occurrence of `e` in `trace`, or `|trace|` when absent. */
  function IndexOf(trace: seq<Event>, e: Event): (i: nat)
    ensures i <= |trace|
    ensures i < |trace| ==> trace[i] == e
    ensures forall j :: 0 <= j < i ==> trace[j] != e
  {
    if |trace| == 0 then 0
    else if trace[0] == e then 0
    else 1 + IndexOf(trace[1..], e)
  }

  /** `a` occurs in `trace`, and strictly before the first `b` (if any). */
  predicate Before(trace: seq<Event>, a: Event, b: Event) {
    IndexOf(trace, a) < |trace| && IndexOf(trace, a) < IndexOf(trace, b)
  }

  /** The first occurrence in a concatenation is in the first part when there is one there. */
  lemma {:induction false} IndexOfAppend(p: seq<Event>, q: seq<Event>, e: Event)
    ensures e in p ==> IndexOf(p + q, e) == IndexOf(p, e)
    ensures e !in p ==> IndexOf(p + q, e) == |p| + IndexOf(q, e)
  {
    if |p| > 0 {
      assert (p + q)[0] == p[0];
      assert (p + q)[1..] == p[1..] + q;
      IndexOfAppend(p[1..], q, e);
    } else {
      assert p + q == q;
    }
  }

  /** An event of the first part comes before every event that first occurs after it. */
  lemma BeforeAcross(p: seq<Event>, q: seq<Event>, a: Event, b: Event)
    requires a in p && b !in p
    ensures Before(p + q, a, b)
  {
    IndexOfAppend(p, q, a);
    IndexOfAppend(p, q, b);
  }

  /** Appending events keeps an order that already holds. */
  lemma BeforeExtend(p: seq<Event>, q: seq<Event>, a: Event, b: Event)
    requires Before(p, a, b)
    ensures Before(p + q, a, b)
  {
    IndexOfAppend(p, q, a);
    IndexOfAppend(p, q, b);
  }

  /** Number of occurrences of `x` in `s`. */
  function Count<T(==)>(s: seq<T>, x: T): nat
  {
    if |s| == 0 then 0 else (if s[0] == x then 1 else 0) + Count(s[1..], x)
  }

  /** Occurrences in a concatenation add up. */
  lemma {:induction false} CountAppend<T>(a: seq<T>, b: seq<T>, x: T)
    ensures Count(a + b, x) == Count(a, x) + Count(b, x)
  {
    if |a| > 0 {
      assert (a + b)[0] == a[0];
      assert (a + b)[1..] == a[1..] + b;
      CountAppend(a[1..], b, x);
    } else {
      assert a + b == b;
    }
  }

  /** An element that does not occur is counted zero times, and one that does at least once. */
  lemma {:induction false} CountPresence<T>(s: seq<T>, x: T)
    ensures Count(s, x) == 0 <==> x !in s
  {
    if |s| > 0 {
      CountPresence(s[1..], x);
      assert s == [s[0]] + s[1..];
    }
  }
}
