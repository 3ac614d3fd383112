/** `SleDataTransfer` and its `PortSocketManager` in their own, updating form; every
    method is proved to take exactly the step of `TransferTables`. */
module TransferClient {
  import opened Common
  import opened LittleEndian
  import opened FrameCodec
  import opened TransferTables
  import TransferHistory
  import Link

  datatype ErrCode =
    | NoError | NotSupported | SleOff | UnavailableProxy | InvalidParam | DuplicateRegister | Limited
    | NoRegister | InternalError | SocketTransFailed | FromService(code: int)

  /** What an API call finds before it looks at the tables: whether the device supports
      the stack, the stack is on, and the service's remote object can be looked up. */
  datatype Stack = Stack(supported: bool, enabled: bool, found: bool)

  // ---------------------------------------------------------- composing erasures

  lemma EraseMore(s: State, done: set<Key>, k: Key)
    requires k in s.ports && k !in done
    ensures var t := Erased(s, done);
            && k in t.ports && t.ports[k] == s.ports[k]
            && Erased(s, done + {k}) == t.(ports := t.ports - {k},
                                           listeners := t.listeners - {s.ports[k].fd},
                                           closed := t.closed + multiset{s.ports[k].fd})
  {
    hide Bag;
    var both := Only(s.ports, done + {k});
    BagRemove(both, k);
    assert both - {k} == Only(s.ports, done);
    assert s.ports - (done + {k}) == s.ports - done - {k};
    assert Fds(both) == Fds(Only(s.ports, done)) + {s.ports[k].fd} by {
      forall f | f in Fds(Only(s.ports, done)) ensures f in Fds(both) {
        var j :| j in Only(s.ports, done) && s.ports[j].fd == f;
        assert j in both && both[j].fd == f;
      }
      assert k in both && both[k].fd == s.ports[k].fd;
    }
  }

  lemma EraseNone(s: State)
    ensures Erased(s, {}) == s
  {
    assert Only(s.ports, {}) == map[];
    assert Fds(Only(s.ports, {})) == {};
    assert s.ports - {} == s.ports;
  }

  lemma EraseTwice(s: State, a: set<Key>, b: set<Key>)
    requires b <= s.ports.Keys - a
    ensures Erased(Erased(s, a), b) == Erased(s, a + b)
  {
    hide Bag, Only, Fds;
    var all := Only(s.ports, a + b);
    BagSplit(all, a);
    FdsUnion(all, a);
    OnlyTwice(s.ports, a, b);
    Regroup(s.closed, Bag(Only(s.ports, a)), Bag(Only(s.ports - a, b)));
  }

  lemma OnlyTwice(m: Sockets, a: set<Key>, b: set<Key>)
    requires b <= m.Keys - a
    ensures Only(Only(m, a + b), a) == Only(m, a)
    ensures Only(m, a + b) - a == Only(m - a, b)
    ensures m - (a + b) == m - a - b
  {
  }

  lemma ErasedRemote(s: State, keys: set<Key>)
    ensures Erased(s.(remote := true), keys) == Erased(s, keys).(remote := true)
  {
  }

  predicate Matches(k: Key, port: Port, address: Option<Text>) {
    k.port == port && (address == None || k.address == address.value)
  }

  function Matching(m: Sockets, port: Port, address: Option<Text>): set<Key> {
    set k | k in m && Matches(k, port, address)
  }

  lemma ErasedPorts(s: State, port: Port, address: Option<Text>)
    ensures Erased(s, Matching(s.ports, port, address)).ports ==
            map k | k in s.ports && !(k.port == port && (address == None || k.address == address.value)) :: s.ports[k]
  {
    hide Bag, Fds, Only;
  }

  /** What a connection event does to the socket table: a CONNECTED with a descriptor for a live
      callback of a registered port stores it, a DISCONNECTED for such a callback removes
      exactly the peer's entry, listener and descriptor; nothing else changes an entry, and a
      descriptor nobody hears of is closed. */
  ghost predicate Heard(s: State, t: State, c: Connection) {
    var heard, peer := c.owner && c.alive && c.port in s.callbacks, Key(c.port, c.address);
    && t.uuidAndPort == s.uuidAndPort && t.callbacks == s.callbacks
    && t.ports == (if heard && c.state == Connected && c.fd != INVALID_FD
                   then s.ports[peer := PortInfo(c.mtu, c.fd)]
                   else map k | k in s.ports && !(heard && c.state == Disconnected && k == peer) :: s.ports[k])
    && (c.owner && !heard && c.fd != INVALID_FD ==> t.closed == s.closed + multiset{c.fd})
    && (heard && c.state == Disconnected && peer in s.ports ==>
          t.closed == s.closed + multiset{s.ports[peer].fd} && t.listeners == s.listeners - {s.ports[peer].fd})
  }

  lemma ConnectTables(s: State, c: Connection)
    ensures Heard(s, ConnectStep(s, c), c)
  {
    hide Heard, ConnectStep;
    if c.owner && c.alive && c.port in s.callbacks {
      HeardTables(s, c);
    } else {
      UnheardTables(s, c);
    }
  }

  lemma UnheardTables(s: State, c: Connection)
    requires !(c.owner && c.alive && c.port in s.callbacks)
    ensures Heard(s, ConnectStep(s, c), c)
  {
    hide Bag, Fds, Only, SetSocket, Erased;
    assert s.ports == map k | k in s.ports :: s.ports[k];
  }

  lemma HeardTables(s: State, c: Connection)
    requires c.owner && c.alive && c.port in s.callbacks
    ensures Heard(s, ConnectStep(s, c), c)
  {
    var peer := Key(c.port, c.address);
    TransferHistory.OnlyOne(s.ports, peer);
    hide Bag, Fds, Only;
    if c.state == Disconnected {
      assert s.ports - {peer} == map k | k in s.ports && k != peer :: s.ports[k];
    } else if c.state != Connected || c.fd == INVALID_FD {
      assert s.ports == map k | k in s.ports :: s.ports[k];
    }
  }

  lemma DestroyTables(s: State, u: Text)
    requires UuidAccepted(u)
    ensures DestroyStep(s.(remote := true), u) == DestroyStep(s, u)
    ensures u !in s.uuidAndPort ==> DestroyStep(s, u) == s.(remote := true)
    ensures u in s.uuidAndPort ==>
            var t, p := DestroyStep(s, u), s.uuidAndPort[u];
            && t.uuidAndPort == (map v | v in s.uuidAndPort && v != u :: s.uuidAndPort[v])
            && t.callbacks == (map q | q in s.callbacks && q != p :: s.callbacks[q])
            && t.ports == (map k | k in s.ports && k.port != p :: s.ports[k])
  {
    hide Bag, Fds, Only;
  }

  lemma MatchingPort(s: State, port: Port)
    ensures Matching(s.ports, port, None) == OfPort(s.ports, port)
  {
  }

  lemma MatchingPeer(s: State, port: Port, address: Text)
    ensures Erased(s, Matching(s.ports, port, Some(address))) == Erased(s, {Key(port, address)})
  {
    var key := Key(port, address);
    var keys := Matching(s.ports, port, Some(address));
    assert keys == if key in s.ports then {key} else {};
    assert Only(s.ports, keys) == Only(s.ports, {key});
    assert s.ports - keys == s.ports - {key};
  }

  // ------------------------------------------------------------------- the object

  class SleDataTransfer {
    var uuidAndPort: map<Text, Port>
    var callbacks: map<Port, nat>
    var ports: Sockets
    var listeners: set<int>
    var remote: bool   // the service's remote object is cached
    ghost var received: multiset<int>
    ghost var closed: multiset<int>

    ghost function Abs(): State
      reads this
    {
      State(uuidAndPort, callbacks, ports, listeners, remote, received, closed)
    }

    constructor ()
      ensures Abs() == INIT
    {
      uuidAndPort, callbacks, ports, listeners, remote := map[], map[], map[], {}, false;
      received, closed := multiset{}, multiset{};
    }

    /** `FindAndRmv` over the socket table: visits every entry once, in any order. */
    method EraseSockets(port: Port, address: Option<Text>)
      modifies this
      ensures Abs() == Erased(old(Abs()), Matching(old(ports), port, address))
      ensures ports == map k |
                k in old(ports) && !(k.port == port && (address == None || k.address == address.value)) :: old(ports)[k]
    {
      hide Bag, Erased;
      var todo := ports.Keys;
      ghost var start := Abs();
      ghost var done: set<Key> := {};
      EraseNone(start);
      while todo != {}
        invariant todo <= start.ports.Keys
        invariant done == set k | k in start.ports && k !in todo && Matches(k, port, address)
        invariant Abs() == Erased(start, done)
      {
        var k :| k in todo;
        todo := todo - {k};
        EraseMore(start, done, k);
        if Matches(k, port, address) {
          var fd := ports[k].fd;
          listeners := listeners - {fd};
          ports := ports - {k};
          closed := closed + multiset{fd};
          done := done + {k};
        }
      }
      assert done == Matching(start.ports, port, address);
      ErasedPorts(start, port, address);
    }

    /** `SetSocket`: the descriptor gets an owner and a listener; whatever entry was there is
        closed, so nothing is lost and, for a descriptor not owned yet, nothing has two owners. */
    method SetSocketEntry(k: Key, info: PortInfo)
      modifies this
      ensures closed + Bag(ports) == old(closed + Bag(ports)) + multiset{info.fd}
      ensures old(Owned(Abs()) && info.fd !in Bag(ports)) ==> Owned(Abs())
      ensures Abs() == SetSocket(old(Abs()), k, info)
    {
      hide Bag;
      SetSocketConserves(Abs(), k, info);
      if Owned(Abs()) && info.fd !in Bag(ports) {
        SetSocketOwned(Abs(), k, info);
      }
      closed := closed + Bag(Only(ports, {k}));
      ports := ports[k := info];
      listeners := listeners + {info.fd};
    }

    /** `GetProxy`: the cached remote object, or one that is looked up and then cached. */
    method GetProxy(found: bool) returns (ok: bool)
      modifies this`remote
      ensures ok == remote == (old(remote) || found)
    {
      if !remote && found {
        remote := true;
      }
      return remote;
    }

    /** `answer` and `code` are the service's reply. */
    method CreatePort(uuid: Text, callback: Option<nat>, stack: Stack, answer: Port, code: int)
      returns (r: ErrCode)
      modifies this
      ensures r == NotSupported <==> !stack.supported
      ensures r == SleOff <==> stack.supported && callback.Some? && !stack.enabled
      ensures r == InvalidParam <==>
              stack.supported && (callback == None || (stack.enabled && !UuidAccepted(uuid)))
      ensures var valid := stack.supported && stack.enabled && callback.Some? && UuidAccepted(uuid);
              var ready := valid && (old(remote) || stack.found);
              && (r == UnavailableProxy <==> valid && !ready)
              && (r == DuplicateRegister <==> ready && uuid in old(uuidAndPort))
              && (r == Limited <==> ready && uuid !in old(uuidAndPort) && |old(uuidAndPort)| >= PORT_CNT_LIMIT)
              && (r == FromService(code) <==>
                  ready && uuid !in old(uuidAndPort) && |old(uuidAndPort)| < PORT_CNT_LIMIT)
              && Abs() == if ready then CreateStep(old(Abs()), uuid, callback.value, answer) else old(Abs())
      ensures ports == old(ports)
      ensures if r == FromService(code) && answer != 0
              then
                && uuidAndPort == old(uuidAndPort)[uuid := answer]
                && callbacks == old(callbacks)[answer := callback.value]
              else uuidAndPort == old(uuidAndPort) && callbacks == old(callbacks)
    {
      if !stack.supported { return NotSupported; }
      if callback == None { return InvalidParam; }
      if !stack.enabled { return SleOff; }
      if !UuidAccepted(uuid) { return InvalidParam; }
      var proxy := GetProxy(stack.found);
      if !proxy { return UnavailableProxy; }
      if uuid in uuidAndPort { return DuplicateRegister; }
      if |uuidAndPort| >= PORT_CNT_LIMIT { return Limited; }
      if answer == 0 { return FromService(code); }
      callbacks := callbacks[answer := callback.value];
      uuidAndPort := uuidAndPort[uuid := answer];
      return FromService(code);
    }

    method DestroyPort(uuid: Text, stack: Stack, code: int) returns (r: ErrCode)
      modifies this
      ensures r == NotSupported <==> !stack.supported
      ensures r == SleOff <==> stack.supported && !stack.enabled
      ensures r == InvalidParam <==> stack.supported && stack.enabled && !UuidAccepted(uuid)
      ensures var valid := stack.supported && stack.enabled && UuidAccepted(uuid);
              var ready := valid && (old(remote) || stack.found);
              && (r == UnavailableProxy <==> valid && !ready)
              && (r == NoRegister <==> ready && uuid !in old(uuidAndPort))
              && (r == FromService(code) <==> ready && uuid in old(uuidAndPort))
              && Abs() == if ready then DestroyStep(old(Abs()), uuid) else old(Abs())
      ensures r == FromService(code) ==>
                && uuidAndPort == (map u | u in old(uuidAndPort) && u != uuid :: old(uuidAndPort)[u])
                && callbacks == (map p | p in old(callbacks) && p != old(uuidAndPort)[uuid] :: old(callbacks)[p])
                && ports == (map k | k in old(ports) && k.port != old(uuidAndPort)[uuid] :: old(ports)[k])
      ensures r != FromService(code) ==>
                uuidAndPort == old(uuidAndPort) && callbacks == old(callbacks) && ports == old(ports)
    {
      hide Bag, Fds, Only, OfPort, Erased, DestroyStep;
      if !stack.supported { return NotSupported; }
      if !stack.enabled { return SleOff; }
      if !UuidAccepted(uuid) { return InvalidParam; }
      DestroyTables(Abs(), uuid);
      var proxy := GetProxy(stack.found);
      if !proxy { return UnavailableProxy; }
      DestroyTables(Abs(), uuid);
      if uuid !in uuidAndPort { return NoRegister; }
      var port := uuidAndPort[uuid];
      DropPort(uuid, port);
      return FromService(code);
    }

    /** The three erasures of `DestroyPort`. */
    method DropPort(uuid: Text, port: Port)
      requires uuid in uuidAndPort && uuidAndPort[uuid] == port && UuidAccepted(uuid) && remote
      modifies this
      ensures Abs() == DestroyStep(old(Abs()), uuid)
    {
      hide Bag, Fds, Only;
      uuidAndPort := uuidAndPort - {uuid};
      callbacks := callbacks - {port};
      MatchingPort(Abs(), port);
      EraseSockets(port, None);
    }

    /** The callback stub, which takes a descriptor from the request only for CONNECTED. As long as
        the transfer object exists no descriptor is lost, whatever the request holds. */
    method OnConnectionStateChangedInner(c: Connection) returns (ok: bool)
      modifies this
      ensures Abs() == Step(old(Abs()), Event.Connect(c))
      ensures ok <==> !(c.state == Connected && c.fd < 0)
      ensures old(Conserved(Abs())) ==> (Conserved(Abs()) <==> (Brings(c) ==> c.owner))
      ensures ok ==> Heard(old(Abs()), Abs(), if c.state == Connected then c else c.(fd := INVALID_FD))
      ensures !ok ==> Abs() == old(Abs())
    {
      hide Bag, ConnectStep;
      if Conserved(Abs()) {
        StubConserves(Abs(), c);
      }
      var fd := INVALID_FD;
      if c.state == Connected {
        fd := c.fd;
        if fd < 0 {
          return false;
        }
      }
      OnConnectionStateChanged(c.(fd := fd));
      return true;
    }

    method OnConnectionStateChanged(c: Connection)
      modifies this
      ensures Abs() == ConnectStep(old(Abs()), c)
      ensures Heard(old(Abs()), Abs(), c)
    {
      hide Bag, Fds, Only, Heard;
      ConnectTables(Abs(), c);
      if c.fd != INVALID_FD {
        received := received + multiset{c.fd};
      }
      if !c.owner {
        return;
      }
      if c.port !in callbacks || !c.alive {
        if c.fd != INVALID_FD {
          closed := closed + multiset{c.fd};
        }
        return;
      }
      if c.state == Connected && c.fd != INVALID_FD {
        SetSocketEntry(Key(c.port, c.address), PortInfo(c.mtu, c.fd));
      }
      if c.state == Disconnected {
        MatchingPeer(Abs(), c.port, c.address);
        EraseSockets(c.port, Some(c.address));
      }
    }

    /** The stack was switched off. The remote object is needed to destroy the ports, and is
        there as long as the tables agree. */
    method OnStateOff(found: bool)
      modifies this
      ensures Abs() == StateOffStep(old(Abs()), found)
      ensures old(Agree(Abs())) ==> NoTables(Abs())
    {
      hide Bag, Erased, Agree, NoTables;
      if Agree(Abs()) {
        EmptiedTables(Abs(), found);
      }
      ErasedRemote(Abs(), OfPorts(ports, uuidAndPort.Values));
      var proxy := GetProxy(found);
      if !proxy {
        return;
      }
      RemovePorts();
    }

    /** `FindAndRmv` over the uuid table: every port is destroyed while its entry is removed. */
    method RemovePorts()
      modifies this
      ensures Abs() == Erased(old(Abs()), OfPorts(old(ports), old(uuidAndPort).Values))
                       .(uuidAndPort := map[], callbacks := old(callbacks) - old(uuidAndPort).Values)
    {
      hide Bag, Erased, OfPort, OfPorts, Matching, Left, Visited;
      ghost var start := Abs();
      var todo := uuidAndPort.Keys;
      EraseNone(start);
      VisitAll(start);
      while todo != {}
        invariant todo <= start.uuidAndPort.Keys
        invariant uuidAndPort == Left(start.uuidAndPort, todo)
        invariant callbacks == start.callbacks - Visited(start.uuidAndPort, todo)
        invariant Abs() == Erased(start, OfPorts(start.ports, Visited(start.uuidAndPort, todo)))
                           .(uuidAndPort := uuidAndPort, callbacks := callbacks)
      {
        var u :| u in todo;
        VisitOne(start, todo, u);
        var port := uuidAndPort[u];
        callbacks := callbacks - {port};
        ghost var before := Abs();
        MatchingPort(before, port);
        EraseSockets(port, None);
        ErasePortsStep(start, Visited(start.uuidAndPort, todo), port, before);
        uuidAndPort := uuidAndPort - {u};
        todo := todo - {u};
      }
    }

    /** The service died: sockets of every known port go first, then both tables. */
    method OnServiceStopped()
      modifies this
      ensures Abs() == ServiceStoppedStep(old(Abs()))
    {
      hide Bag, Erased, OfPort, OfPorts, Matching, Left, Visited;
      ghost var start := Abs();
      var todo := uuidAndPort.Keys;
      EraseNone(start);
      VisitAll(start);
      while todo != {}
        invariant todo <= start.uuidAndPort.Keys
        invariant uuidAndPort == start.uuidAndPort && callbacks == start.callbacks
        invariant Abs() == Erased(start, OfPorts(start.ports, Visited(start.uuidAndPort, todo)))
                           .(uuidAndPort := uuidAndPort, callbacks := callbacks)
      {
        var u :| u in todo;
        VisitOne(start, todo, u);
        var port := uuidAndPort[u];
        ghost var before := Abs();
        MatchingPort(before, port);
        EraseSockets(port, None);
        ErasePortsStep(start, Visited(start.uuidAndPort, todo), port, before);
        todo := todo - {u};
      }
      callbacks := map[];
      uuidAndPort := map[];
      remote := false;
    }

    /** Resolves the socket, frames the payload and asks the socket for admission; the
        bytes go to `sent.0`. A missing socket entry is reported as success although
        nothing is written. */
    method WriteData(address: Text, uuid: Text, data: seq<byte>, stack: Stack,
                     bufSize: int, inQueue: nat, k: Link.Kernel)
      returns (r: ErrCode, sent: Option<(int, seq<byte>)>)
      requires |address| <= 0x7FFF_FFFF
      ensures sent.Some? ==>
                && uuid in uuidAndPort && Key(uuidAndPort[uuid], address) in ports
                && sent.value.0 == ports[Key(uuidAndPort[uuid], address)].fd
                && sent.value.1 == Frame(Packet(address, uuid, uuidAndPort[uuid], data))
                && 0 < |data| <= DATA_MAX_LEN && r == NoError
      ensures r == NotSupported <==> !stack.supported
      ensures r == SleOff <==> stack.supported && !stack.enabled
      ensures var ready := stack.supported && stack.enabled && address != [] && UuidAccepted(uuid);
              var known := ready && uuid in uuidAndPort;
              var sendable := known && 0 < |data| <= DATA_MAX_LEN;
              && (r == InternalError <==> ready && !known)
              && (r == InvalidParam <==> stack.supported && stack.enabled && (!ready || (known && !sendable)))
              && (r == NoError && sent == None <==> sendable && Key(uuidAndPort[uuid], address) !in ports)
              && (r == NoError && sent.Some? <==>
                  sendable && Key(uuidAndPort[uuid], address) in ports
                  && Link.WriteResult(bufSize, inQueue,
                                      FrameLength(Packet(address, uuid, uuidAndPort[uuid], data)), k) == Link.Success)
              && (r == SocketTransFailed <==> sendable && r != NoError)
    {
      hide Frame;
      sent := None;
      if !stack.supported { return NotSupported, None; }
      if !stack.enabled { return SleOff, None; }
      if address == [] || !UuidAccepted(uuid) { return InvalidParam, None; }
      if uuid !in uuidAndPort { return InternalError, None; }
      var port := uuidAndPort[uuid];
      if |data| == 0 || |data| > DATA_MAX_LEN { return InvalidParam, None; }
      var packageData := SerializeData(Packet(address, uuid, port, data));
      if packageData == null { return SocketTransFailed, None; }
      var key := Key(port, address);
      if key !in ports { return NoError, None; }
      var state := Link.WriteResult(bufSize, inQueue, packageData.Length, k);
      if state != Link.Success { return SocketTransFailed, None; }
      return NoError, Some((ports[key].fd, packageData[..]));
    }
  }

  /** The uuid entries not visited yet, and the ports of the others. */
  ghost function Left(m: map<Text, Port>, todo: set<Text>): map<Text, Port> {
    map u | u in m && u in todo :: m[u]
  }

  ghost function Visited(m: map<Text, Port>, todo: set<Text>): set<Port> {
    set u | u in m && u !in todo :: m[u]
  }

  lemma VisitAll(s: State)
    ensures var m := s.uuidAndPort;
            && Left(m, m.Keys) == m && Visited(m, m.Keys) == {}
            && Left(m, {}) == map[] && Visited(m, {}) == m.Values
    ensures OfPorts(s.ports, {}) == {} && s.callbacks - {} == s.callbacks
  {
  }

  lemma VisitOne(s: State, todo: set<Text>, u: Text)
    requires u in todo && todo <= s.uuidAndPort.Keys
    ensures var m := s.uuidAndPort;
            && u in Left(m, todo) && Left(m, todo)[u] == m[u] && Left(m, todo - {u}) == Left(m, todo) - {u}
            && Visited(m, todo - {u}) == Visited(m, todo) + {m[u]}
            && s.callbacks - Visited(m, todo) - {m[u]} == s.callbacks - (Visited(m, todo) + {m[u]})
  {
  }

  /** Destroying one more port extends the erased part of the start state. */
  lemma ErasePortsStep(start: State, donePorts: set<Port>, port: Port, before: State)
    requires before == Erased(start, OfPorts(start.ports, donePorts))
                       .(uuidAndPort := before.uuidAndPort, callbacks := before.callbacks)
    ensures Erased(before, OfPort(before.ports, port)) ==
            Erased(start, OfPorts(start.ports, donePorts + {port}))
            .(uuidAndPort := before.uuidAndPort, callbacks := before.callbacks)
  {
    hide Bag;
    var a := OfPorts(start.ports, donePorts);
    var b := OfPort(before.ports, port);
    assert before.ports == start.ports - a;
    EraseTwice(start, a, b);
    assert a + b == OfPorts(start.ports, donePorts + {port});
  }
}
