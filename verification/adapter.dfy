/** Adapter enumeration and the discovery countdown of
    `bluezero/adapter.py`. The bus is replaced by an explicit snapshot, and
    the GLib timer by explicit calls of the timeout callback. */
module Adapter {
  import opened Wrappers
  import opened DbusTools

  /** `AdapterError('No Bluetooth adapter found')`, and the two Python
      errors the scan itself can raise: `TypeError` for a `None` interface
      bag, `KeyError` for an adapter without an `Address`. */
  datatype AdapterError =
    | NoAdapterFound
    | NotIterable(path: string)
    | MissingAddress(path: string)

  predicate IsAdapter(e: Entry) {
    Carries(e, AdapterIface)
  }

  predicate HasAddress(e: Entry) {
    IsAdapter(e) && "Address" in e.bag.value[AdapterIface]
  }

  function AddressOf(e: Entry): string
    requires HasAddress(e)
  {
    e.bag.value[AdapterIface]["Address"]
  }

  /** A snapshot as the bus delivers it: every object has an interface
      dictionary, and every adapter has an address. */
  predicate WellShaped(objs: Snapshot) {
    forall i :: 0 <= i < |objs| ==> objs[i].bag.Some? && (IsAdapter(objs[i]) ==> HasAddress(objs[i]))
  }

  /** The positions, from `from` on, of the adapters in the snapshot, in
      snapshot order. */
  ghost function AdapterIndices(objs: Snapshot, from: nat := 0): (r: seq<nat>)
    requires from <= |objs|
    ensures forall k :: 0 <= k < |r| ==> from <= r[k] < |objs| && IsAdapter(objs[r[k]])
    ensures forall k, l :: 0 <= k < l < |r| ==> r[k] < r[l]
    ensures forall i :: from <= i < |objs| && IsAdapter(objs[i]) ==> i in r && r[0] <= i
    decreases |objs| - from
  {
    if from == |objs| then []
    else
      var rest := AdapterIndices(objs, from + 1);
      if IsAdapter(objs[from]) then [from] + rest else rest
  }

  /** The loop of `list_adapters` over the objects from position `from`
      on: the addresses of the adapters, in snapshot order, or the error
      the loop raises first. */
  function CollectAddresses(objs: Snapshot, from: nat := 0): (r: Result<seq<string>, AdapterError>)
    requires from <= |objs|
    ensures r.Failure? ==> !r.error.NoAdapterFound?
    decreases |objs| - from
  {
    if from == |objs| then Success([])
    else
      var e := objs[from];
      match e.bag
      case None => Failure(NotIterable(e.path))
      case Some(ifaces) =>
        if AdapterIface in ifaces then
          if "Address" !in ifaces[AdapterIface] then Failure(MissingAddress(e.path))
          else
            var rest :- CollectAddresses(objs, from + 1);
            Success([ifaces[AdapterIface]["Address"]] + rest)
        else
          CollectAddresses(objs, from + 1)
  }

  /** The loop finishes exactly when every object from `from` on has an
      interface dictionary and every adapter among them an address. */
  lemma {:induction false} CollectAddressesSucceeds(objs: Snapshot, from: nat)
    requires from <= |objs|
    ensures CollectAddresses(objs, from).Success? <==> forall i :: from <= i < |objs| ==>
      objs[i].bag.Some? && (IsAdapter(objs[i]) ==> HasAddress(objs[i]))
    decreases |objs| - from
  {
    if from < |objs| {
      CollectAddressesSucceeds(objs, from + 1);
    }
  }

  /** A finished loop holds one address per adapter, in snapshot order. */
  lemma {:induction false} CollectAddressesValues(objs: Snapshot, from: nat)
    requires from <= |objs| && CollectAddresses(objs, from).Success?
    ensures var r := CollectAddresses(objs, from).value;
      var idx := AdapterIndices(objs, from);
      && |r| == |idx|
      && forall k :: 0 <= k < |idx| ==> HasAddress(objs[idx[k]]) && r[k] == AddressOf(objs[idx[k]])
    decreases |objs| - from
  {
    if from < |objs| {
      var e := objs[from];
      CollectAddressesValues(objs, from + 1);
      var tail := CollectAddresses(objs, from + 1).value;
      var rest := AdapterIndices(objs, from + 1);
      if IsAdapter(e) {
        var r := CollectAddresses(objs, from).value;
        var idx := AdapterIndices(objs, from);
        assert r == [AddressOf(e)] + tail;
        assert idx == [from] + rest;
        forall k | 0 <= k < |idx|
          ensures HasAddress(objs[idx[k]]) && r[k] == AddressOf(objs[idx[k]])
        {
          if k > 0 {
            assert idx[k] == rest[k - 1] && r[k] == tail[k - 1];
          }
        }
      }
    }
  }

  /** `list_adapters`. On a well-shaped snapshot it fails exactly when no
      object carries `org.bluez.Adapter1`, and otherwise returns every
      adapter's address, in snapshot order. */
  function ListAdapters(objs: Snapshot): (r: Result<seq<string>, AdapterError>)
    ensures r.Success? <==> WellShaped(objs) && exists i :: 0 <= i < |objs| && IsAdapter(objs[i])
    ensures r == Failure(NoAdapterFound) <==>
      WellShaped(objs) && forall i :: 0 <= i < |objs| ==> !IsAdapter(objs[i])
    ensures r.Success? ==>
      var idx := AdapterIndices(objs);
      && |r.value| == |idx| >= 1
      && forall k :: 0 <= k < |idx| ==> HasAddress(objs[idx[k]]) && r.value[k] == AddressOf(objs[idx[k]])
  {
    CollectAddressesSucceeds(objs, 0);
    var addresses :- CollectAddresses(objs);
    CollectAddressesValues(objs, 0);
    if |addresses| < 1 then
      Failure(NoAdapterFound)
    else
      Success(addresses)
  }

  /** `default_adapter`: the address of the first adapter in the snapshot. */
  function DefaultAdapter(objs: Snapshot): (r: Result<string, AdapterError>)
    ensures r.Success? <==> ListAdapters(objs).Success?
    ensures r.Failure? ==> r.error == ListAdapters(objs).error
    ensures r.Success? ==>
      exists i :: 0 <= i < |objs| && HasAddress(objs[i]) && r.value == AddressOf(objs[i])
        && forall j :: 0 <= j < i ==> !IsAdapter(objs[j])
  {
    var adapters :- ListAdapters(objs);
    Success(adapters[0])
  }

  // ---------------------------------------------------------------------
  // Discovery countdown
  // ---------------------------------------------------------------------

  /** The two fields `_nearby_timeout` and `_nearby_count`. */
  datatype Discovery = Discovery(timeout: int, count: int)

  /** The calls the callback makes on the bus and the main loop. */
  datatype Effect = StopDiscovery | QuitMainloop

  /** What one call of the callback does: the new counter, its return value
      (GLib keeps the timer while it is `True`) and its calls. */
  datatype Tick = Tick(next: Discovery, again: bool, effects: seq<Effect>)

  /** `nearby_discovery(timeout=10)`: the counter restarts. Starting the
      discovery and running the main loop are bus and loop calls. */
  function NearbyDiscovery(d: Discovery, timeout: int := 10): (r: Discovery)
    ensures r.timeout == timeout && r.count == 0
  {
    d.(timeout := timeout, count := 0)
  }

  /** `_discovering_timeout`: count one more second; once the count passes
      the timeout, stop discovering, quit the loop and drop the timer. */
  function DiscoveringTimeout(d: Discovery): (r: Tick)
    ensures r.next == Discovery(d.timeout, d.count + 1)
    ensures !r.again <==> d.count + 1 > d.timeout
    ensures r.effects == if r.again then [] else [StopDiscovery, QuitMainloop]
  {
    var next := d.(count := d.count + 1);
    if next.count > next.timeout then
      Tick(next, false, [StopDiscovery, QuitMainloop])
    else
      Tick(next, true, [])
  }

  /** The return values of `n` consecutive calls of the callback. */
  function Returns(d: Discovery, n: nat): (r: seq<bool>)
    ensures |r| == n
    decreases n
  {
    if n == 0 then []
    else
      var tick := DiscoveringTimeout(d);
      [tick.again] + Returns(tick.next, n - 1)
  }

  /** The GLib timer: the callback runs until it returns `False`. The
      result is how many times it ran and the counter it left. */
  function RunTimer(d: Discovery): (r: (nat, Discovery))
    ensures r.0 >= 1 && r.1.timeout == d.timeout && r.1.count > d.timeout
    ensures r.1.count == d.count + r.0
    decreases if d.count < d.timeout then d.timeout - d.count else 0
  {
    var tick := DiscoveringTimeout(d);
    if tick.again then
      var (n, last) := RunTimer(tick.next);
      (n + 1, last)
    else
      (1, tick.next)
  }

  /** From a count not past the timeout, the callback returns `True` until
      the count reaches the timeout, and `False` on the call after. */
  lemma {:induction false} ReturnsCountdown(d: Discovery)
    requires 0 <= d.count <= d.timeout
    ensures Returns(d, d.timeout - d.count + 1) == seq(d.timeout - d.count, _ => true) + [false]
    decreases d.timeout - d.count
  {
    var tick := DiscoveringTimeout(d);
    if d.count < d.timeout {
      ReturnsCountdown(tick.next);
    }
  }

  /** After `nearby_discovery(t)`, the first `t` calls return `True` and
      call `t + 1` returns `False`, having stopped discovery and quit the
      main loop. */
  lemma NearbyDiscoveryReturns(d: Discovery, t: nat)
    ensures Returns(NearbyDiscovery(d, t), t + 1) == seq(t, _ => true) + [false]
  {
    ReturnsCountdown(NearbyDiscovery(d, t));
  }

  /** With the default timeout of 10, the timer fires 11 times and leaves
      the count at 11. */
  lemma NearbyDiscoveryDefault(d: Discovery)
    ensures NearbyDiscovery(d).timeout == 10
    ensures RunTimer(NearbyDiscovery(d)) == (11, Discovery(10, 11))
  {
    RunTimerCount(NearbyDiscovery(d));
  }

  /** Run to completion, the timer fires `max(t, 0) + 1` times after
      `nearby_discovery(t)` and leaves the count one past the timeout. */
  lemma {:induction false} RunTimerCount(d: Discovery)
    ensures RunTimer(d).1 == Discovery(d.timeout, if d.count <= d.timeout then d.timeout + 1 else d.count + 1)
    ensures RunTimer(d).0 == if d.count <= d.timeout then d.timeout - d.count + 1 else 1
    decreases if d.count < d.timeout then d.timeout - d.count else 0
  {
    var tick := DiscoveringTimeout(d);
    if tick.again {
      RunTimerCount(tick.next);
    }
  }

  lemma NearbyDiscoveryRunTimer(d: Discovery, t: int)
    ensures RunTimer(NearbyDiscovery(d, t)) == (if t >= 0 then t + 1 else 1, Discovery(t, if t >= 0 then t + 1 else 1))
  {
    RunTimerCount(NearbyDiscovery(d, t));
  }
}
