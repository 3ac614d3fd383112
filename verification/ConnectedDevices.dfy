/** The server's list of connected devices (frameworks/native/nearlink_ssap_server.cpp)
    on the no-duplicates list of utils/include/nearlink_safe_list.h. */
module ConnectedDevices {
  import opened Common

  predicate NoDuplicates<V(==)>(xs: seq<V>) {
    forall i, j :: 0 <= i < j < |xs| ==> xs[i] != xs[j]
  }

  function Inserted<V(==)>(xs: seq<V>, v: V): seq<V> {
    if v in xs then xs else xs + [v]
  }

  /** `Erase` stops at the first match. */
  function Erased<V(==)>(xs: seq<V>, v: V): seq<V> {
    if xs == [] then [] else if xs[0] == v then xs[1..] else [xs[0]] + Erased(xs[1..], v)
  }

  lemma {:induction false} ErasedKeeps<V>(xs: seq<V>, v: V, w: V)
    ensures v != w ==> (w in Erased(xs, v) <==> w in xs)
    ensures w in Erased(xs, v) ==> w in xs
  {
    if xs == [] {
    } else {
      ErasedKeeps(xs[1..], v, w);
      assert xs == [xs[0]] + xs[1..];
    }
  }

  lemma {:induction false} ErasedNoDuplicates<V>(xs: seq<V>, v: V)
    requires NoDuplicates(xs)
    ensures NoDuplicates(Erased(xs, v))
  {
    if xs == [] || xs[0] == v {
    } else {
      ErasedNoDuplicates(xs[1..], v);
      ErasedKeeps(xs[1..], v, xs[0]);
      assert xs[0] !in xs[1..];
      assert xs[0] !in Erased(xs[1..], v);
    }
  }

  /** One `Erase` forgets the element exactly when it was listed at most once. */
  lemma {:induction false} ErasedForgets<V>(xs: seq<V>, v: V)
    ensures v !in Erased(xs, v) <==> multiset(xs)[v] <= 1
  {
    if xs == [] {
    } else {
      assert xs == [xs[0]] + xs[1..];
      if xs[0] != v {
        ErasedForgets(xs[1..], v);
      } else {
        assert multiset(xs)[v] == 1 + multiset(xs[1..])[v];
        assert v in xs[1..] <==> v in multiset(xs[1..]);
      }
    }
  }

  lemma {:induction false} OnceInNoDuplicates<V>(xs: seq<V>, v: V)
    requires NoDuplicates(xs)
    ensures multiset(xs)[v] <= 1
  {
    if xs == [] {
    } else {
      OnceInNoDuplicates(xs[1..], v);
      assert xs == [xs[0]] + xs[1..];
      if xs[0] == v {
        assert v !in xs[1..];
      }
    }
  }

  lemma ErasedStep<V>(xs: seq<V>, i: nat, v: V)
    requires i < |xs|
    ensures xs[..i] + Erased(xs[i..], v) ==
            if xs[i] == v then xs[..i] + xs[i + 1..] else xs[..i + 1] + Erased(xs[i + 1..], v)
  {
    assert xs[i..][1..] == xs[i + 1..];
    assert xs[..i] + [xs[i]] == xs[..i + 1];
  }

  lemma ErasedNothing<V>(v: V)
    ensures Erased([], v) == []
  {
  }

  class SafeList<V(==)> {
    var list: seq<V>

    ghost predicate Valid()
      reads this
    {
      NoDuplicates(list)
    }

    constructor ()
      ensures Valid() && list == []
    {
      list := [];
    }

    method Insert(value: V)
      modifies this
      ensures list == Inserted(old(list), value)
      ensures old(Valid()) ==> Valid()
    {
      for i := 0 to |list|
        invariant list == old(list) && value !in list[..i]
      {
        if list[i] == value {
          return;
        }
      }
      assert list[..|list|] == list;
      list := list + [value];
    }

    method Erase(value: V)
      modifies this
      ensures list == Erased(old(list), value)
      ensures old(Valid()) ==> Valid()
    {
      hide Erased;
      ghost var start := list;
      if NoDuplicates(list) {
        ErasedNoDuplicates(list, value);
      }
      assert list[0..] == list;
      var i := 0;
      while i < |list|
        invariant 0 <= i <= |list| && list == start
        invariant list[..i] + Erased(list[i..], value) == Erased(start, value)
      {
        ErasedStep(list, i, value);
        if list[i] == value {
          list := list[..i] + list[i + 1..];
          return;
        }
        i := i + 1;
      }
      ErasedNothing(value);
      assert list[i..] == [] && list[..i] == list;
    }

    /** `Find` with an equality test. */
    method Find(value: V) returns (found: bool)
      ensures found <==> value in list
    {
      for i := 0 to |list|
        invariant value !in list[..i]
      {
        if list[i] == value {
          return true;
        }
      }
      assert list[..|list|] == list;
      return false;
    }
  }

  // -------------------------------------------------------------------- devices

  datatype Device = Device(address: string, transport: nat)

  datatype Event = Event(device: Device, state: ConnState)

  function Step(xs: seq<Device>, e: Event): seq<Device> {
    match e.state
    case Connected => Inserted(xs, e.device)
    case Disconnected => Erased(xs, e.device)
    case _ => xs
  }

  function Run(xs: seq<Device>, es: seq<Event>): seq<Device>
    decreases |es|
  {
    if es == [] then xs else Run(Step(xs, es[0]), es[1..])
  }

  /** The last CONNECTED or DISCONNECTED event for `d` was CONNECTED. */
  predicate LastConnected(es: seq<Event>, d: Device) {
    if es == [] then false
    else
      var e := es[|es| - 1];
      if e.device == d && (e.state == Connected || e.state == Disconnected) then e.state == Connected
      else LastConnected(es[..|es| - 1], d)
  }

  lemma {:induction false} RunSnoc(xs: seq<Device>, es: seq<Event>, e: Event)
    ensures Run(xs, es + [e]) == Step(Run(xs, es), e)
    decreases |es|
  {
    if es == [] {
      assert (es + [e])[1..] == [];
    } else {
      assert (es + [e])[1..] == es[1..] + [e];
      RunSnoc(Step(xs, es[0]), es[1..], e);
    }
  }

  /** After any event sequence the list has no duplicates, and holds a device exactly when
      its last CONNECTED or DISCONNECTED event was CONNECTED. */
  lemma {:induction false} ListIsHistory(es: seq<Event>, d: Device)
    ensures NoDuplicates(Run([], es))
    ensures d in Run([], es) <==> LastConnected(es, d)
    decreases |es|
  {
    if es == [] {
    } else {
      var before, e := es[..|es| - 1], es[|es| - 1];
      ListIsHistory(before, d);
      assert es == before + [e];
      RunSnoc([], before, e);
      var xs := Run([], before);
      ErasedKeeps(xs, e.device, d);
      ErasedNoDuplicates(xs, e.device);
      ErasedForgets(xs, e.device);
      OnceInNoDuplicates(xs, e.device);
    }
  }

  class SsapServer {
    const connectedDevices: SafeList<Device>
    const hasCallback: bool   // the server was created with a user callback
    ghost var events: seq<Event>

    /** The list follows the events, unless nobody is there to be told about them. */
    ghost predicate Valid()
      reads this, connectedDevices
    {
      connectedDevices.list == if hasCallback then Run([], events) else []
    }

    constructor (hasCallback: bool)
      ensures Valid() && events == [] && fresh(connectedDevices) && this.hasCallback == hasCallback
    {
      connectedDevices := new SafeList();
      this.hasCallback := hasCallback;
      events := [];
    }

    /** Without a user callback every event is ignored. */
    method OnConnectionStateChanged(e: Event)
      requires Valid()
      modifies this, connectedDevices
      ensures Valid() && events == old(events) + [e]
      ensures !hasCallback ==> connectedDevices.list == old(connectedDevices.list)
    {
      RunSnoc([], events, e);
      if !hasCallback {
        events := events + [e];
        return;
      }
      if e.state == Connected {
        connectedDevices.Insert(e.device);
      } else if e.state == Disconnected {
        connectedDevices.Erase(e.device);
      }
      events := events + [e];
    }

    method FindConnectedDevice(d: Device) returns (found: bool)
      requires Valid()
      ensures found <==> hasCallback && LastConnected(events, d)
    {
      ListIsHistory(events, d);
      found := connectedDevices.Find(d);
    }
  }
}
