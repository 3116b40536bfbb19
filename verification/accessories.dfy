/**
 * The accessory fan-out shared by requests, batches and chains: the three
 * `toggleAccessories…CallBack` extensions call one hook on every accessory
 * of the optional accessory list, in list order. The three extensions are
 * the same code with a different receiver, so one function with an `owner`
 * parameter models all nine of them.
 */
module Accessories {
  import opened Common

  /** The events one `forEach` over a (non-nil) accessory list produces. */
  function FanoutList(accs: seq<AccessoryId>, hook: Hook, owner: Owner): seq<Event>
  {
    seq(|accs|, i requires 0 <= i < |accs| => Accessory(accs[i], hook, owner))
  }

  /**
   * `toggleAccessoriesWillStartCallBack` (hook `WillStart`), `…WillStop…`
   * and `…DidStop…`: a nil list produces no call at all.
   */
  function Fanout(accs: Option<seq<AccessoryId>>, hook: Hook, owner: Owner): (evs: seq<Event>)
    ensures accs.None? ==> evs == []
    ensures accs.Some? ==> |evs| == |accs.value|
    ensures accs.Some? ==>
      forall i :: 0 <= i < |evs| ==> evs[i] == Accessory(accs.value[i], hook, owner)
  {
    match accs
    case None => []
    case Some(list) => FanoutList(list, hook, owner)
  }

  /** A fan-out holds only the given hook's callbacks on the given owner. */
  lemma FanoutOnlyHooks(accs: Option<seq<AccessoryId>>, hook: Hook, owner: Owner)
    ensures OnlyHooks(Fanout(accs, hook, owner), hook, owner)
  {
    if accs.Some? {
      FanoutCallsEachOnce(accs.value, hook, owner, 0);
    }
  }

  /** A fan-out holds accessory callbacks and nothing else. */
  lemma FanoutMembers(accs: Option<seq<AccessoryId>>, hook: Hook, owner: Owner)
    ensures forall e :: e in Fanout(accs, hook, owner) ==> e.Accessory?
  {
  }

  /** Every event of a fan-out is an accessory callback with the given hook and owner. */
  predicate OnlyHooks(evs: seq<Event>, hook: Hook, owner: Owner) {
    forall i :: 0 <= i < |evs| ==> evs[i].Accessory? && evs[i].hook == hook && evs[i].owner == owner
  }

  /** `trace` opens with the full fan-out of `hook` over `accs`. */
  predicate HooksFirst(trace: seq<Event>, accs: Option<seq<AccessoryId>>, hook: Hook, owner: Owner) {
    var f := Fanout(accs, hook, owner);
    |f| <= |trace| && trace[..|f|] == f
  }

  /**
   * Each accessory of the list is called exactly as many times as it
   * occurs in the list (once when it was added once), and with the given
   * hook only.
   */
  lemma {:induction false} FanoutCallsEachOnce(accs: seq<AccessoryId>, hook: Hook, owner: Owner, a: AccessoryId)
    ensures OnlyHooks(FanoutList(accs, hook, owner), hook, owner)
    ensures Count(FanoutList(accs, hook, owner), Accessory(a, hook, owner)) == Count(accs, a)
  {
    if |accs| != 0 {
      FanoutCallsEachOnce(accs[1..], hook, owner, a);
      var evs := FanoutList(accs, hook, owner);
      assert evs[1..] == FanoutList(accs[1..], hook, owner);
    }
  }

  /** Fan-out distributes over list concatenation: registration order is call order. */
  lemma FanoutAppend(xs: seq<AccessoryId>, ys: seq<AccessoryId>, hook: Hook, owner: Owner)
    ensures FanoutList(xs + ys, hook, owner) == FanoutList(xs, hook, owner) + FanoutList(ys, hook, owner)
  {
  }

  /** `addAccessory(_:)`: a nil list becomes a list, and the accessory goes at its end. */
  function AddAccessory(accs: Option<seq<AccessoryId>>, a: AccessoryId): (accs': Option<seq<AccessoryId>>)
    ensures accs'.Some?
    ensures accs.None? ==> accs'.value == [a]
    ensures accs.Some? ==> accs'.value == accs.value + [a]
  {
    match accs
    case None => Some([a])
    case Some(list) => Some(list + [a])
  }

  /** An added accessory is called last, after the accessories added before it. */
  lemma AddedAccessoryCalledLast(accs: Option<seq<AccessoryId>>, a: AccessoryId, hook: Hook, owner: Owner)
    ensures Fanout(AddAccessory(accs, a), hook, owner) == Fanout(accs, hook, owner) + [Accessory(a, hook, owner)]
  {
    if accs.Some? {
      FanoutAppend(accs.value, [a], hook, owner);
    }
  }
}
