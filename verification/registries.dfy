/**
 * The two composite registries, `LYBatchRequestAgent` and
 * `LYChainRequestAgent`: each keeps an array of the composites currently
 * running, appends on add and removes with the `Array.remove` extension,
 * which deletes the first element equal to its argument. Batch and chain
 * equality is object identity, which the model's identities are.
 * The `lysynchronized` critical sections are atomic here.
 */
module Registries {
  import opened Common

  /** `index(of:)`: the position of the first element equal to `x`, `|s|` when there is none. */
  function FirstIndex<T(==)>(s: seq<T>, x: T): (i: nat)
    ensures i <= |s|
    ensures i < |s| <==> x in s
    ensures i < |s| ==> s[i] == x
    ensures forall j :: 0 <= j < i ==> s[j] != x
  {
    if |s| == 0 then 0
    else if s[0] == x then 0
    else 1 + FirstIndex(s[1..], x)
  }

  /** `Array.remove(_:)`: delete the element at `index(of: x)`, if there is one. */
  function RemoveFirst<T(==)>(s: seq<T>, x: T): (r: seq<T>)
    ensures x !in s ==> r == s
    ensures x in s ==> |r| == |s| - 1
    // the copy removed is the first: everything before it and after it is kept in place
    ensures x in s ==> forall j :: 0 <= j < |r| ==> r[j] == (if j < FirstIndex(s, x) then s[j] else s[j + 1])
  {
    var i := FirstIndex(s, x);
    if i == |s| then s else s[..i] + s[i + 1..]
  }

  /** `t` is `s` with some elements left out, the rest in their original order. */
  ghost predicate Subsequence<T>(t: seq<T>, s: seq<T>)
    decreases |s|
  {
    |t| == 0 || (|s| > 0 && ((t[0] == s[0] && Subsequence(t[1..], s[1..])) || Subsequence(t, s[1..])))
  }

  /**
   * Removing the first equal element keeps every other element, in order,
   * and takes exactly one copy of `x` away: the first one, so no `x`
   * precedes the gap and the elements after the gap shift down by one.
   */
  lemma RemoveFirstKeepsOrder<T>(s: seq<T>, x: T)
    ensures Subsequence(RemoveFirst(s, x), s)
    ensures multiset(RemoveFirst(s, x)) == multiset(s) - multiset{x}
    ensures x in s ==>
      var i := FirstIndex(s, x);
      && x !in s[..i]
      && RemoveFirst(s, x)[..i] == s[..i]
      && RemoveFirst(s, x)[i..] == s[i + 1..]
  {
    var i := FirstIndex(s, x);
    if i == |s| {
      SubsequenceRefl(s);
    } else {
      DropOneIsSubsequence(s, i);
      assert s == s[..i] + [x] + s[i + 1..];
      assert multiset(s) == multiset(s[..i]) + multiset{x} + multiset(s[i + 1..]);
    }
  }

  lemma {:induction false} DropOneIsSubsequence<T>(s: seq<T>, i: nat)
    requires i < |s|
    ensures Subsequence(s[..i] + s[i + 1..], s)
    decreases i
  {
    var t := s[..i] + s[i + 1..];
    if i == 0 {
      assert t == s[1..];
      SubsequenceRefl(s[1..]);
    } else {
      DropOneIsSubsequence(s[1..], i - 1);
      assert t[0] == s[0];
      assert t[1..] == s[1..][..i - 1] + s[1..][i..];
    }
  }

  lemma {:induction false} SubsequenceRefl<T>(s: seq<T>)
    ensures Subsequence(s, s)
    decreases |s|
  {
    if |s| > 0 {
      SubsequenceRefl(s[1..]);
    }
  }

  /** Appending an element that is not yet present and then removing it restores the list. */
  lemma RemoveAfterAppend<T>(s: seq<T>, x: T)
    requires x !in s
    ensures RemoveFirst(s + [x], x) == s
  {
    var i := FirstIndex(s + [x], x);
    assert (s + [x])[|s|] == x;
    assert i == |s|;
    assert (s + [x])[..i] == s;
  }

  // ---------------------------------------------------------------------
  // LYBatchRequestAgent

  datatype BatchAgent = BatchAgent(list: seq<BatchId>)

  /** The shared agent as its private initializer leaves it. */
  function NewBatchAgent(): (a: BatchAgent)
    ensures |a.list| == 0
  {
    BatchAgent([])
  }

  /** `addBatchRequest`: append at the end. */
  function AddBatchRequest(a: BatchAgent, b: BatchId): (a': BatchAgent)
    ensures |a'.list| == |a.list| + 1 && a'.list[|a.list|] == b
    ensures a'.list[..|a.list|] == a.list
  {
    BatchAgent(a.list + [b])
  }

  /** `removeBatchRequest`: drop the first entry identical to `b`. */
  function RemoveBatchRequest(a: BatchAgent, b: BatchId): (a': BatchAgent)
    ensures b !in a.list ==> a' == a
    ensures b in a.list ==> |a'.list| == |a.list| - 1
    ensures multiset(a'.list) == multiset(a.list) - multiset{b}
  {
    RemoveFirstKeepsOrder(a.list, b);
    BatchAgent(RemoveFirst(a.list, b))
  }

  /** Registering a batch that was not registered and deregistering it restores the agent. */
  lemma BatchAddThenRemove(a: BatchAgent, b: BatchId)
    requires b !in a.list
    ensures RemoveBatchRequest(AddBatchRequest(a, b), b) == a
  {
    RemoveAfterAppend(a.list, b);
  }

  /** Deregistering keeps every other batch in its original relative order. */
  lemma BatchRemoveKeepsOrder(a: BatchAgent, b: BatchId)
    ensures Subsequence(RemoveBatchRequest(a, b).list, a.list)
  {
    RemoveFirstKeepsOrder(a.list, b);
  }

  // ---------------------------------------------------------------------
  // LYChainRequestAgent

  datatype ChainAgent = ChainAgent(list: seq<ChainId>)

  /** The shared agent's initial (empty) list. */
  function NewChainAgent(): (a: ChainAgent)
    ensures |a.list| == 0
  {
    ChainAgent([])
  }

  /** `addChainRequest`: append at the end. */
  function AddChainRequest(a: ChainAgent, c: ChainId): (a': ChainAgent)
    ensures |a'.list| == |a.list| + 1 && a'.list[|a.list|] == c
    ensures a'.list[..|a.list|] == a.list
  {
    ChainAgent(a.list + [c])
  }

  /** `removeChainRequest`: drop the first entry identical to `c`. */
  function RemoveChainRequest(a: ChainAgent, c: ChainId): (a': ChainAgent)
    ensures c !in a.list ==> a' == a
    ensures c in a.list ==> |a'.list| == |a.list| - 1
    ensures multiset(a'.list) == multiset(a.list) - multiset{c}
  {
    RemoveFirstKeepsOrder(a.list, c);
    ChainAgent(RemoveFirst(a.list, c))
  }

  /** Registering a chain that was not registered and deregistering it restores the agent. */
  lemma ChainAddThenRemove(a: ChainAgent, c: ChainId)
    requires c !in a.list
    ensures RemoveChainRequest(AddChainRequest(a, c), c) == a
  {
    RemoveAfterAppend(a.list, c);
  }

  /** Deregistering keeps every other chain in its original relative order. */
  lemma ChainRemoveKeepsOrder(a: ChainAgent, c: ChainId)
    ensures Subsequence(RemoveChainRequest(a, c).list, a.list)
  {
    RemoveFirstKeepsOrder(a.list, c);
  }

  /** The batch registry after replaying the register/deregister events of a trace. */
  function ReplayBatchAgent(a: BatchAgent, trace: seq<Event>): BatchAgent
    decreases |trace|
  {
    if |trace| == 0 then a
    else
      var a' := match trace[0]
        case BatchRegistered(b) => AddBatchRequest(a, b)
        case BatchDeregistered(b) => RemoveBatchRequest(a, b)
        case _ => a;
      ReplayBatchAgent(a', trace[1..])
  }

  /** The chain registry after replaying the register/deregister events of a trace. */
  function ReplayChainAgent(a: ChainAgent, trace: seq<Event>): ChainAgent
    decreases |trace|
  {
    if |trace| == 0 then a
    else
      var a' := match trace[0]
        case ChainRegistered(c) => AddChainRequest(a, c)
        case ChainDeregistered(c) => RemoveChainRequest(a, c)
        case _ => a;
      ReplayChainAgent(a', trace[1..])
  }

  /** Replaying one event. */
  lemma ReplayBatchSingle(a: BatchAgent, e: Event)
    ensures e.BatchRegistered? ==> ReplayBatchAgent(a, [e]) == AddBatchRequest(a, e.b)
    ensures e.BatchDeregistered? ==> ReplayBatchAgent(a, [e]) == RemoveBatchRequest(a, e.b)
  {
    var t := [e];
    assert t[0] == e && t[1..] == [];
  }

  lemma {:induction false} ReplayBatchAppend(a: BatchAgent, t1: seq<Event>, t2: seq<Event>)
    ensures ReplayBatchAgent(a, t1 + t2) == ReplayBatchAgent(ReplayBatchAgent(a, t1), t2)
    decreases |t1|
  {
    if |t1| == 0 {
      assert t1 + t2 == t2;
    } else {
      assert (t1 + t2)[0] == t1[0];
      assert (t1 + t2)[1..] == t1[1..] + t2;
      var a' := match t1[0]
        case BatchRegistered(b) => AddBatchRequest(a, b)
        case BatchDeregistered(b) => RemoveBatchRequest(a, b)
        case _ => a;
      ReplayBatchAppend(a', t1[1..], t2);
    }
  }

  lemma {:induction false} ReplayChainAppend(a: ChainAgent, t1: seq<Event>, t2: seq<Event>)
    ensures ReplayChainAgent(a, t1 + t2) == ReplayChainAgent(ReplayChainAgent(a, t1), t2)
    decreases |t1|
  {
    if |t1| == 0 {
      assert t1 + t2 == t2;
    } else {
      assert (t1 + t2)[0] == t1[0];
      assert (t1 + t2)[1..] == t1[1..] + t2;
      var a' := match t1[0]
        case ChainRegistered(c) => AddChainRequest(a, c)
        case ChainDeregistered(c) => RemoveChainRequest(a, c)
        case _ => a;
      ReplayChainAppend(a', t1[1..], t2);
    }
  }

  /** Events other than batch registration leave the batch registry alone. */
  lemma {:induction false} ReplayBatchIgnoresOthers(a: BatchAgent, t: seq<Event>)
    requires forall e :: e in t ==> !e.BatchRegistered? && !e.BatchDeregistered?
    ensures ReplayBatchAgent(a, t) == a
    decreases |t|
  {
    if |t| > 0 {
      assert t[0] in t;
      ReplayBatchIgnoresOthers(a, t[1..]);
    }
  }

  /** Events other than chain registration leave the chain registry alone. */
  lemma {:induction false} ReplayChainIgnoresOthers(a: ChainAgent, t: seq<Event>)
    requires forall e :: e in t ==> !e.ChainRegistered? && !e.ChainDeregistered?
    ensures ReplayChainAgent(a, t) == a
    decreases |t|
  {
    if |t| > 0 {
      assert t[0] in t;
      ReplayChainIgnoresOthers(a, t[1..]);
    }
  }
}
