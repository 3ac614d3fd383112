/** The three linked tables of `SleDataTransfer` (uuid to port, port to callback,
    (port, address) to socket) and the descriptors they own, as a state machine
    over the API calls and service events that change them
    (frameworks/native/nearlink_sle_datatransfer.cpp, socket/nearlink_socket_manager.cpp). */
module TransferTables {
  import opened Common
  import opened LittleEndian
  import opened FrameCodec

  type Text = seq<byte>

  const PORT_CNT_LIMIT := 120
  const INVALID_FD := -1

  datatype Key = Key(port: Port, address: Text)

  /** `PortInfo`: an entry owns its descriptor and closes it when destroyed. */
  datatype PortInfo = PortInfo(mtu: nat, fd: int)

  type Sockets = map<Key, PortInfo>

  /** The tables; `listeners` are the worker's callback keys, and `remote` tells whether the
      service's remote object is cached. `received` and `closed` count, per descriptor number,
      arrivals from the service and close calls. */
  datatype State = State(
    uuidAndPort: map<Text, Port>,
    callbacks: map<Port, nat>,
    ports: Sockets,
    listeners: set<int>,
    remote: bool,
    received: multiset<int>,
    closed: multiset<int>)

  const INIT := State(map[], map[], map[], {}, false, multiset{}, multiset{})

  /** One connection event as the service sends it, with the descriptor that a reader of the
      request would find; `owner` and `alive` tell whether the weak pointers to the transfer
      object and to the user callback lock. */
  datatype Connection = Connection(
    port: Port, address: Text, mtu: nat, state: ConnState, fd: int, owner: bool, alive: bool)

  datatype Event =
    | Create(uuid: Text, callback: nat, port: Port)
    | Destroy(uuid: Text)
    | Connect(connection: Connection)
    | StateOff(found: bool)    // whether the remote object can be looked up if it is not cached
    | ServiceStopped

  // ------------------------------------------------------- descriptors in a table

  ghost function Pick(m: Sockets): (k: Key)
    requires m != map[]
    ensures k in m
  {
    var k :| k in m; k
  }

  /** The descriptors owned by a socket table, with multiplicity. */
  ghost function Bag(m: Sockets): multiset<int> {
    if m == map[] then multiset{}
    else multiset{m[Pick(m)].fd} + Bag(m - {Pick(m)})
  }

  function Only(m: Sockets, keys: set<Key>): Sockets {
    map k | k in m && k in keys :: m[k]
  }

  ghost function Fds(m: Sockets): set<int> {
    set k | k in m :: m[k].fd
  }

  lemma BagPick(m: Sockets)
    requires m != map[]
    ensures Bag(m) == multiset{m[Pick(m)].fd} + Bag(m - {Pick(m)})
  {
  }

  lemma SwapRemovals(m: Sockets, j: Key, k: Key)
    ensures m - {j} - {k} == m - {k} - {j}
  {
  }

  lemma {:induction false} BagRemove(m: Sockets, k: Key)
    requires k in m
    ensures Bag(m) == multiset{m[k].fd} + Bag(m - {k})
    decreases |m|
  {
    hide Bag;
    BagPick(m);
    var j := Pick(m);
    if j == k {
    } else {
      assert k in m - {j} && j in m - {k};
      BagRemove(m - {j}, k);
      BagRemove(m - {k}, j);
      SwapRemovals(m, j, k);
    }
  }

  lemma BagInsert(m: Sockets, k: Key, v: PortInfo)
    ensures Bag(m[k := v]) == multiset{v.fd} + Bag(m - {k})
  {
    hide Bag;
    BagRemove(m[k := v], k);
    assert m[k := v] - {k} == m - {k};
  }

  lemma PartRemoved(m: Sockets, keys: set<Key>, k: Key)
    requires k in m
    ensures k in keys ==> (m - {k}) - keys == m - keys && Only(m - {k}, keys) == Only(m, keys) - {k}
    ensures k !in keys ==> (m - {k}) - keys == (m - keys) - {k} && Only(m - {k}, keys) == Only(m, keys)
    ensures k in keys ==> k in Only(m, keys) && Only(m, keys)[k] == m[k]
  {
  }

  lemma Regroup(f: multiset<int>, x: multiset<int>, y: multiset<int>)
    ensures f + (x + y) == x + (f + y) == (f + x) + y
  {
  }

  lemma {:induction false} BagSplit(m: Sockets, keys: set<Key>)
    ensures Bag(m) == Bag(m - keys) + Bag(Only(m, keys))
    decreases |m|
  {
    if m == map[] {
      assert m - keys == map[] && Only(m, keys) == map[];
    } else {
      hide Bag, Only;
      var k := Pick(m);
      var m' := m - {k};
      BagRemove(m, k);
      BagSplit(m', keys);
      PartRemoved(m, keys, k);
      Regroup(multiset{m[k].fd}, Bag(m' - keys), Bag(Only(m', keys)));
      if k in keys {
        BagRemove(Only(m, keys), k);
      } else {
        BagRemove(m - keys, k);
      }
    }
  }

  lemma {:induction false} BagHolds(m: Sockets, f: int)
    ensures f in Bag(m) <==> exists k :: k in m && m[k].fd == f
    decreases |m|
  {
    if m == map[] {
    } else {
      var j := Pick(m);
      BagHolds(m - {j}, f);
      if k :| k in m && m[k].fd == f {
        if k != j {
          assert k in m - {j};
        }
      }
    }
  }

  // ---------------------------------------------------------------- transitions

  /** Erases the given socket entries: each loses its listener and closes its descriptor. */
  ghost function Erased(s: State, keys: set<Key>): State {
    s.(ports := s.ports - keys,
       listeners := s.listeners - Fds(Only(s.ports, keys)),
       closed := s.closed + Bag(Only(s.ports, keys)))
  }

  function OfPort(m: Sockets, p: Port): set<Key> {
    set k | k in m && k.port == p
  }

  function OfPorts(m: Sockets, ps: set<Port>): set<Key> {
    set k | k in m && k.port in ps
  }

  /** `SetSocket`: an existing entry under the same key is destroyed, which closes
      its descriptor, but its listener stays registered. */
  ghost function SetSocket(s: State, k: Key, info: PortInfo): State {
    s.(ports := s.ports[k := info],
       listeners := s.listeners + {info.fd},
       closed := s.closed + Bag(Only(s.ports, {k})))
  }

  ghost function ConnectStep(s: State, c: Connection): State {
    var got := if c.fd == INVALID_FD then s else s.(received := s.received + multiset{c.fd});
    if !c.owner then got
    else if c.port !in s.callbacks || !c.alive then
      if c.fd == INVALID_FD then got else got.(closed := got.closed + multiset{c.fd})
    else
      var key := Key(c.port, c.address);
      var set_ := if c.state == Connected && c.fd != INVALID_FD
                  then SetSocket(got, key, PortInfo(c.mtu, c.fd)) else got;
      if c.state == Disconnected then Erased(set_, {key}) else set_
  }

  /** What the callback stub passes on: it reads a descriptor from the request only for
      CONNECTED, drops the request if that fails, and passes no descriptor otherwise. */
  function Passed(c: Connection): Option<Connection> {
    if c.state != Connected then Some(c.(fd := INVALID_FD))
    else if c.fd < 0 then None
    else Some(c)
  }

  ghost function StubStep(s: State, c: Connection): State {
    match Passed(c)
    case None => s
    case Some(d) => ConnectStep(s, d)
  }

  predicate UuidAccepted(uuid: Text) {
    if |uuid| == 4 then uuid == [0x30, 0x36, 0x30, 0x44] else |uuid| == 36
  }

  /** `port` is the service's answer; zero means that no port was created. */
  predicate Creates(s: State, uuid: Text, port: Port) {
    UuidAccepted(uuid) && uuid !in s.uuidAndPort && |s.uuidAndPort| < PORT_CNT_LIMIT && port != 0
  }

  ghost function CreateStep(s: State, uuid: Text, callback: nat, port: Port): State {
    if !UuidAccepted(uuid) then s
    else if !Creates(s, uuid, port) then s.(remote := true)
    else s.(callbacks := s.callbacks[port := callback], uuidAndPort := s.uuidAndPort[uuid := port], remote := true)
  }

  ghost function DestroyStep(s: State, uuid: Text): State {
    if !UuidAccepted(uuid) then s
    else if uuid !in s.uuidAndPort then s.(remote := true)
    else
      var p := s.uuidAndPort[uuid];
      Erased(s, OfPort(s.ports, p))
        .(uuidAndPort := s.uuidAndPort - {uuid}, callbacks := s.callbacks - {p}, remote := true)
  }

  /** Without the remote object the handler returns at once. */
  ghost function StateOffStep(s: State, found: bool): State {
    if !s.remote && !found then s
    else
      Erased(s, OfPorts(s.ports, s.uuidAndPort.Values))
        .(uuidAndPort := map[], callbacks := s.callbacks - s.uuidAndPort.Values, remote := true)
  }

  ghost function ServiceStoppedStep(s: State): State {
    Erased(s, OfPorts(s.ports, s.uuidAndPort.Values)).(uuidAndPort := map[], callbacks := map[], remote := false)
  }

  ghost function Step(s: State, e: Event): State {
    match e
    case Create(uuid, cb, port) => CreateStep(s, uuid, cb, port)
    case Destroy(uuid) => DestroyStep(s, uuid)
    case Connect(c) => StubStep(s, c)
    case StateOff(found) => StateOffStep(s, found)
    case ServiceStopped => ServiceStoppedStep(s)
  }

  ghost function Run(s: State, es: seq<Event>): State
    decreases |es|
  {
    if es == [] then s else Run(Step(s, es[0]), es[1..])
  }

  // ------------------------------------------------------------------ invariants

  ghost predicate Injective(m: map<Text, Port>) {
    forall u, v :: u in m && v in m && m[u] == m[v] ==> u == v
  }

  /** Table agreement; whoever has a port has got the remote object for it. */
  ghost predicate Agree(s: State) {
    && |s.uuidAndPort| <= PORT_CNT_LIMIT
    && Injective(s.uuidAndPort)
    && s.uuidAndPort.Values == s.callbacks.Keys
    && 0 !in s.callbacks
    && (forall k :: k in s.ports ==> k.port in s.callbacks)
    && (s.uuidAndPort != map[] ==> s.remote)
  }

  /** Every arrival is either closed or owned by a table entry, once per arrival. */
  ghost predicate Conserved(s: State) {
    s.received == s.closed + Bag(s.ports)
  }

  /** No descriptor has two owners, and every owned descriptor has a listener. */
  ghost predicate Owned(s: State) {
    && (forall f :: Bag(s.ports)[f] <= 1)
    && (forall k :: k in s.ports ==> s.ports[k].fd in s.listeners)
  }

  /** The request brings a descriptor into the process. */
  predicate Brings(c: Connection) {
    c.state == Connected && c.fd >= 0
  }

  /** What is expected: the service answers with an unused port, the kernel numbers a new
      descriptor differently from those that are open, and the transfer object exists. */
  ghost predicate Expected(s: State, e: Event) {
    match e
    case Create(_, _, port) => port !in s.callbacks
    case Connect(c) => Brings(c) ==> c.owner && c.fd !in Bag(s.ports)
    case _ => true
  }

  ghost predicate ExpectedRun(s: State, es: seq<Event>)
    decreases |es|
  {
    es == [] || (Expected(s, es[0]) && ExpectedRun(Step(s, es[0]), es[1..]))
  }

  // ------------------------------------------------------------------- agreement

  lemma RemoveUuid(m: map<Text, Port>, u: Text)
    requires u in m && Injective(m)
    ensures (m - {u}).Values == m.Values - {m[u]} && Injective(m - {u}) && |m - {u}| <= |m|
  {
    forall p | p in m.Values - {m[u]} ensures p in (m - {u}).Values {
      var v :| v in m && m[v] == p;
      assert v in m - {u};
    }
    assert (m - {u}).Keys == m.Keys - {u};
  }

  lemma InsertUuidValues(m: map<Text, Port>, u: Text, p: Port)
    requires u !in m
    ensures m[u := p].Values == m.Values + {p} && |m[u := p]| == |m| + 1
  {
    var m' := m[u := p];
    assert m'.Keys == m.Keys + {u};
    assert m'[u] == p;
    forall q | q in m.Values ensures q in m'.Values {
      var v :| v in m && m[v] == q;
      assert m'[v] == q;
    }
  }

  lemma InsertUuidInjective(m: map<Text, Port>, u: Text, p: Port)
    requires u !in m && Injective(m)
    ensures Injective(m[u := p]) <==> p !in m.Values
  {
    var m' := m[u := p];
    if p in m.Values {
      var v :| v in m && m[v] == p;
      assert v in m' && u in m' && m'[v] == m'[u];
    }
  }

  /** Creating a port keeps the tables in agreement exactly when the service's
      answer is not a port already in use. */
  lemma CreateKeepsAgreement(s: State, uuid: Text, callback: nat, port: Port)
    requires Agree(s) && Creates(s, uuid, port)
    ensures Agree(CreateStep(s, uuid, callback, port)) <==> port !in s.callbacks
  {
    hide Injective;
    InsertUuidValues(s.uuidAndPort, uuid, port);
    InsertUuidInjective(s.uuidAndPort, uuid, port);
  }

  lemma DestroyKeepsAgreement(s: State, uuid: Text)
    requires Agree(s)
    ensures Agree(DestroyStep(s, uuid))
  {
    hide Bag, Injective, Fds, Only;
    if uuid in s.uuidAndPort {
      RemoveUuid(s.uuidAndPort, uuid);
    }
  }

  lemma ConnectKeepsAgreement(s: State, c: Connection)
    requires Agree(s)
    ensures Agree(ConnectStep(s, c))
  {
    hide Bag, Injective, Fds, Only;
  }

  lemma StepKeepsAgreement(s: State, e: Event)
    requires Agree(s) && Expected(s, e)
    ensures Agree(Step(s, e))
  {
    hide Bag, Agree, DestroyStep, ConnectStep, StateOffStep, ServiceStoppedStep;
    match e {
      case Create(uuid, cb, port) =>
        RemoteAgrees(s);
        if Creates(s, uuid, port) {
          CreateKeepsAgreement(s, uuid, cb, port);
        }
      case Destroy(uuid) => DestroyKeepsAgreement(s, uuid);
      case Connect(c) =>
        if Passed(c).Some? {
          ConnectKeepsAgreement(s, Passed(c).value);
        }
      case StateOff(found) =>
        EmptiedTables(s, found);
        EmptyAgrees(StateOffStep(s, found));
      case ServiceStopped =>
        EmptiedTables(s, false);
        EmptyAgrees(ServiceStoppedStep(s));
    }
  }

  lemma RemoteAgrees(s: State)
    requires Agree(s)
    ensures Agree(s.(remote := true))
  {
    hide Injective;
  }

  lemma EmptyAgrees(s: State)
    requires NoTables(s)
    ensures Agree(s)
  {
    assert s.uuidAndPort.Values == {};
  }

  ghost predicate NoTables(s: State) {
    s.uuidAndPort == map[] && s.callbacks == map[] && s.ports == map[]
  }

  /** Switching the stack off and losing the service both leave all three tables empty. The
      early return of the first is harmless: if the remote object is gone, so are the ports. */
  lemma EmptiedTables(s: State, found: bool)
    requires Agree(s)
    ensures NoTables(StateOffStep(s, found)) && NoTables(ServiceStoppedStep(s))
    ensures StateOffStep(s, found).closed == ServiceStoppedStep(s).closed
  {
    hide Bag;
    var keys := OfPorts(s.ports, s.uuidAndPort.Values);
    assert s.ports - keys == map[];
    assert s.callbacks - s.uuidAndPort.Values == map[];
    if s.uuidAndPort == map[] {
      assert s.uuidAndPort.Values == {};
      assert Only(s.ports, keys) == map[];
      NoBag();
    }
  }

  lemma NoBag()
    ensures Bag(map[]) == multiset{}
  {
  }

  // ---------------------------------------------------------------- conservation

  lemma ErasedConserves(s: State, keys: set<Key>)
    ensures var t := Erased(s, keys); t.closed + Bag(t.ports) == s.closed + Bag(s.ports)
  {
    BagSplit(s.ports, keys);
  }

  lemma SetSocketConserves(s: State, k: Key, info: PortInfo)
    ensures var t := SetSocket(s, k, info);
            t.closed + Bag(t.ports) == s.closed + Bag(s.ports) + multiset{info.fd}
  {
    BagInsert(s.ports, k, info);
    BagSplit(s.ports, {k});
  }

  predicate Leaks(s: State, c: Connection) {
    c.fd != INVALID_FD && (!c.owner || (c.port in s.callbacks && c.alive && c.state != Connected))
  }

  ghost function Balance(s: State): multiset<int> {
    s.closed + Bag(s.ports)
  }

  /** What one connection event adds to the closed and owned descriptors. */
  lemma ConnectBalance(s: State, c: Connection)
    ensures Balance(ConnectStep(s, c)) ==
            Balance(s) + if c.fd == INVALID_FD || Leaks(s, c) then multiset{} else multiset{c.fd}
    ensures ConnectStep(s, c).received ==
            s.received + if c.fd == INVALID_FD then multiset{} else multiset{c.fd}
  {
    hide Bag, Only, Fds;
    var got := if c.fd == INVALID_FD then s else s.(received := s.received + multiset{c.fd});
    if c.owner && c.port in s.callbacks && c.alive {
      var key := Key(c.port, c.address);
      if c.state == Connected && c.fd != INVALID_FD {
        SetSocketConserves(got, key, PortInfo(c.mtu, c.fd));
      } else if c.state == Disconnected {
        ErasedConserves(got, {key});
      }
    }
  }

  /** A descriptor leaks exactly when it arrives after the transfer object is gone, or for a
      live callback with a state other than CONNECTED. */
  lemma ConnectConservesExactly(s: State, c: Connection)
    requires Conserved(s)
    ensures Conserved(ConnectStep(s, c)) <==>
            c.fd == INVALID_FD || (c.owner && (c.port !in s.callbacks || !c.alive || c.state == Connected))
  {
    hide Bag, ConnectStep;
    ConnectBalance(s, c);
    var t := ConnectStep(s, c);
    assert t.received == Balance(t) <==> t.received[c.fd] == Balance(t)[c.fd];
  }

  /** Behind the stub the second input does not exist: a request conserves descriptors unless it
      brings one to a transfer object that is gone. */
  lemma StubConserves(s: State, c: Connection)
    requires Conserved(s)
    ensures Conserved(StubStep(s, c)) <==> (Brings(c) ==> c.owner)
    ensures StubStep(s, c).received == s.received + if Brings(c) then multiset{c.fd} else multiset{}
  {
    hide Bag, ConnectStep;
    if Passed(c).Some? {
      ConnectBalance(s, Passed(c).value);
      ConnectConservesExactly(s, Passed(c).value);
    }
  }

  lemma StepConserves(s: State, e: Event)
    requires Conserved(s) && Expected(s, e)
    ensures Conserved(Step(s, e))
  {
    hide Bag;
    match e {
      case Create(_, _, _) =>
      case Destroy(uuid) =>
        if uuid in s.uuidAndPort {
          ErasedConserves(s, OfPort(s.ports, s.uuidAndPort[uuid]));
        }
      case Connect(c) => StubConserves(s, c);
      case StateOff(_) => ErasedConserves(s, OfPorts(s.ports, s.uuidAndPort.Values));
      case ServiceStopped => ErasedConserves(s, OfPorts(s.ports, s.uuidAndPort.Values));
    }
  }

  // ------------------------------------------------------------------- ownership

  lemma TwoOwners(m: Sockets, j: Key, k: Key)
    requires j in m && k in m && j != k && m[j].fd == m[k].fd
    ensures Bag(m)[m[k].fd] >= 2
  {
    BagRemove(m, j);
    BagRemove(m - {j}, k);
  }

  lemma ErasedOwned(s: State, keys: set<Key>)
    requires Owned(s)
    ensures Owned(Erased(s, keys))
  {
    hide Bag;
    BagSplit(s.ports, keys);
    var gone := Only(s.ports, keys);
    forall k | k in s.ports - keys ensures s.ports[k].fd !in Fds(gone) {
      if s.ports[k].fd in Fds(gone) {
        var j :| j in gone && gone[j].fd == s.ports[k].fd;
        TwoOwners(s.ports, j, k);
      }
    }
  }

  lemma SetSocketOwned(s: State, k: Key, info: PortInfo)
    requires Owned(s) && info.fd !in Bag(s.ports)
    ensures Owned(SetSocket(s, k, info))
  {
    hide Bag;
    BagInsert(s.ports, k, info);
    BagSplit(s.ports, {k});
    assert Bag(s.ports - {k}) <= Bag(s.ports);
  }

  lemma StepOwned(s: State, e: Event)
    requires Owned(s) && Expected(s, e)
    ensures Owned(Step(s, e))
  {
    hide Bag;
    match e {
      case Create(_, _, _) =>
      case Destroy(uuid) =>
        if uuid in s.uuidAndPort {
          ErasedOwned(s, OfPort(s.ports, s.uuidAndPort[uuid]));
        }
      case Connect(c) =>
        if c.owner && c.port in s.callbacks && c.alive {
          var key := Key(c.port, c.address);
          if Brings(c) {
            SetSocketOwned(s.(received := s.received + multiset{c.fd}), key, PortInfo(c.mtu, c.fd));
          } else if c.state == Disconnected {
            ErasedOwned(s, {key});
          }
        }
      case StateOff(_) => ErasedOwned(s, OfPorts(s.ports, s.uuidAndPort.Values));
      case ServiceStopped => ErasedOwned(s, OfPorts(s.ports, s.uuidAndPort.Values));
    }
  }

  // ---------------------------------------------------------------- whole runs

  ghost predicate Good(s: State) {
    Agree(s) && Conserved(s) && Owned(s)
  }

  lemma {:induction false} RunGood(s: State, es: seq<Event>)
    requires Good(s) && ExpectedRun(s, es)
    ensures Good(Run(s, es))
    decreases |es|
  {
    hide Agree, Conserved, Owned, Expected, Step;
    if es == [] {
    } else {
      StepKeepsAgreement(s, es[0]);
      StepConserves(s, es[0]);
      StepOwned(s, es[0]);
      RunGood(Step(s, es[0]), es[1..]);
    }
  }

  /** Over every expected run: the tables agree, every arrival of a descriptor has been
      closed exactly once or is still owned by exactly one socket entry, and the
      descriptors still open are exactly those held in the socket table. */
  lemma TablesAndDescriptors(es: seq<Event>)
    requires ExpectedRun(INIT, es)
    ensures var s := Run(INIT, es);
            && Agree(s)
            && s.closed <= s.received
            && (forall f :: f in s.received - s.closed <==> exists k :: k in s.ports && s.ports[k].fd == f)
            && (forall f :: s.received[f] - s.closed[f] <= 1)
            && (forall j, k :: j in s.ports && k in s.ports && s.ports[j].fd == s.ports[k].fd ==> j == k)
  {
    hide Agree;
    assert Good(INIT) by { EmptyAgrees(INIT); }
    RunGood(INIT, es);
    var s := Run(INIT, es);
    forall f ensures f in s.received - s.closed <==> exists k :: k in s.ports && s.ports[k].fd == f {
      BagHolds(s.ports, f);
    }
    forall j, k | j in s.ports && k in s.ports && s.ports[j].fd == s.ports[k].fd ensures j == k {
      if j != k {
        TwoOwners(s.ports, j, k);
      }
    }
  }

  /** Switching the stack off at the end of a run closes whatever is still open. */
  lemma StateOffClosesEverything(es: seq<Event>)
    requires ExpectedRun(INIT, es)
    ensures forall found :: StateOffStep(Run(INIT, es), found).closed == StateOffStep(Run(INIT, es), found).received
  {
    hide Agree;
    assert Good(INIT) by { EmptyAgrees(INIT); }
    RunGood(INIT, es);
    var s := Run(INIT, es);
    forall found ensures StateOffStep(s, found).closed == StateOffStep(s, found).received {
      StepConserves(s, StateOff(found));
      EmptiedTables(s, found);
      NoBag();
    }
  }

  /** The worker's listener table equals the owned descriptors after a CONNECTED event
      exactly when no entry with another descriptor is overwritten: replacing an entry
      closes the old descriptor but leaves its listener behind. */
  lemma ReconnectKeepsStaleListener(s: State, c: Connection)
    requires Owned(s) && s.listeners == Fds(s.ports)
    requires Brings(c) && c.fd !in Bag(s.ports)
    requires c.owner && c.port in s.callbacks && c.alive
    ensures var t := ConnectStep(s, c);
            t.listeners == Fds(t.ports) <==> Key(c.port, c.address) !in s.ports
  {
    hide Bag;
    var key := Key(c.port, c.address);
    var t := ConnectStep(s, c);
    assert t.ports == s.ports[key := PortInfo(c.mtu, c.fd)];
    assert t.listeners == s.listeners + {c.fd};
    if key in s.ports {
      var stale := s.ports[key].fd;
      BagHolds(s.ports, stale);
      if stale in Fds(t.ports) {
        var k :| k in t.ports && t.ports[k].fd == stale;
        TwoOwners(s.ports, k, key);
        assert false;
      }
      assert stale in t.listeners;
    } else {
      forall f | f in t.listeners ensures f in Fds(t.ports) {
        if f == c.fd {
          assert t.ports[key].fd == f;
        } else {
          var k :| k in s.ports && s.ports[k].fd == f;
          assert t.ports[k].fd == f;
        }
      }
      forall f | f in Fds(t.ports) ensures f in t.listeners {
        var k :| k in t.ports && t.ports[k].fd == f;
        if k != key {
          assert s.ports[k].fd in Fds(s.ports);
        }
      }
    }
  }

  /** The event stores a socket. */
  predicate Stores(s: State, e: Event) {
    && e.Connect? && Brings(e.connection) && e.connection.owner
    && e.connection.port in s.callbacks && e.connection.alive
  }

  /** ... over an existing entry. */
  predicate Overwrites(s: State, e: Event) {
    Stores(s, e) && Key(e.connection.port, e.connection.address) in s.ports
  }

  lemma FdsUnion(m: Sockets, a: set<Key>)
    ensures Fds(m) == Fds(Only(m, a)) + Fds(m - a)
  {
    forall f | f in Fds(m) ensures f in Fds(Only(m, a)) + Fds(m - a) {
      var k :| k in m && m[k].fd == f;
      if k in a {
        assert k in Only(m, a) && Only(m, a)[k].fd == f;
      } else {
        assert k in m - a && (m - a)[k].fd == f;
      }
    }
    forall f | f in Fds(Only(m, a)) + Fds(m - a) ensures f in Fds(m) {
      if f in Fds(Only(m, a)) {
        var k :| k in Only(m, a) && Only(m, a)[k].fd == f;
        assert k in m && m[k].fd == f;
      } else {
        var k :| k in m - a && (m - a)[k].fd == f;
        assert k in m && m[k].fd == f;
      }
    }
  }

  lemma ErasedListeners(s: State, keys: set<Key>)
    requires Owned(s) && s.listeners == Fds(s.ports)
    ensures Erased(s, keys).listeners == Fds(s.ports - keys)
  {
    hide Bag;
    var gone, rest := Only(s.ports, keys), s.ports - keys;
    FdsUnion(s.ports, keys);
    forall f | f in Fds(rest) ensures f !in Fds(gone) {
      var k :| k in rest && rest[k].fd == f;
      if j :| j in gone && gone[j].fd == f {
        TwoOwners(s.ports, j, k);
      }
    }
  }

  /** Every call and event keeps the worker's listeners equal to the owned descriptors, with
      the one exception of an overwriting CONNECTED event. */
  lemma StepListeners(s: State, e: Event)
    requires Owned(s) && Expected(s, e) && s.listeners == Fds(s.ports)
    ensures Step(s, e).listeners == Fds(Step(s, e).ports) <==> !Overwrites(s, e)
  {
    hide Bag, Owned, Fds;
    match e {
      case Create(_, _, _) =>
      case Destroy(uuid) =>
        if uuid in s.uuidAndPort {
          ErasedListeners(s, OfPort(s.ports, s.uuidAndPort[uuid]));
        }
      case Connect(c) =>
        if c.owner && c.port in s.callbacks && c.alive {
          if Brings(c) {
            ReconnectKeepsStaleListener(s, c);
          } else if c.state == Disconnected {
            ErasedListeners(s, {Key(c.port, c.address)});
          }
        }
      case StateOff(_) => ErasedListeners(s, OfPorts(s.ports, s.uuidAndPort.Values));
      case ServiceStopped => ErasedListeners(s, OfPorts(s.ports, s.uuidAndPort.Values));
    }
  }

  ghost predicate NoOverwrite(s: State, es: seq<Event>)
    decreases |es|
  {
    es == [] || (!Overwrites(s, es[0]) && NoOverwrite(Step(s, es[0]), es[1..]))
  }

  lemma {:induction false} RunListeners(s: State, es: seq<Event>)
    requires Good(s) && s.listeners == Fds(s.ports) && ExpectedRun(s, es) && NoOverwrite(s, es)
    ensures Run(s, es).listeners == Fds(Run(s, es).ports)
    decreases |es|
  {
    hide Agree, Conserved, Owned, Expected, Step, Fds, Overwrites;
    if es == [] {
    } else {
      StepKeepsAgreement(s, es[0]);
      StepConserves(s, es[0]);
      StepOwned(s, es[0]);
      StepListeners(s, es[0]);
      RunListeners(Step(s, es[0]), es[1..]);
    }
  }

  /** If peers disconnect before they connect again, the worker listens on exactly the
      sockets in the table throughout the run. */
  lemma ListenersFollowSockets(es: seq<Event>)
    requires ExpectedRun(INIT, es) && NoOverwrite(INIT, es)
    ensures Run(INIT, es).listeners == Fds(Run(INIT, es).ports)
  {
    assert Good(INIT) by { EmptyAgrees(INIT); }
    assert Fds(INIT.ports) == {};
    RunListeners(INIT, es);
  }

  lemma ErasedListener(s: State, keys: set<Key>, f: int)
    requires Owned(s)
    ensures f in Fds(Only(s.ports, keys)) <==> f in Fds(s.ports) && f !in Fds(s.ports - keys)
  {
    hide Bag;
    var gone, rest := Only(s.ports, keys), s.ports - keys;
    FdsUnion(s.ports, keys);
    if f in Fds(gone) && f in Fds(rest) {
      var j :| j in gone && gone[j].fd == f;
      var k :| k in rest && rest[k].fd == f;
      TwoOwners(s.ports, j, k);
    }
  }

  lemma StoredFds(s: State, k: Key, info: PortInfo)
    requires k !in s.ports
    ensures Fds(s.ports) <= Fds(SetSocket(s, k, info).ports)
  {
    hide Bag;
    forall f | f in Fds(s.ports) ensures f in Fds(s.ports[k := info]) {
      var j :| j in s.ports && s.ports[j].fd == f;
      assert j in s.ports[k := info] && s.ports[k := info][j].fd == f;
    }
  }

  /** A listener goes exactly when the entry that owns its descriptor is erased; overwriting
      that entry does not take it away, and neither does anything else. */
  lemma ListenerLeavesExactly(s: State, e: Event, f: int)
    requires Owned(s) && f in s.listeners
    ensures var t := Step(s, e);
            f !in t.listeners <==> f in Fds(s.ports) && f !in Fds(t.ports) && !Overwrites(s, e)
  {
    hide Bag, Owned, Fds;
    match e {
      case Create(_, _, _) =>
      case Destroy(uuid) =>
        if uuid in s.uuidAndPort {
          ErasedListener(s, OfPort(s.ports, s.uuidAndPort[uuid]), f);
        }
      case Connect(c) =>
        if c.owner && c.port in s.callbacks && c.alive {
          var key := Key(c.port, c.address);
          if Brings(c) {
            if key !in s.ports {
              StoredFds(s, key, PortInfo(c.mtu, c.fd));
            }
          } else if c.state == Disconnected {
            ErasedListener(s, {key}, f);
          }
        }
      case StateOff(_) => ErasedListener(s, OfPorts(s.ports, s.uuidAndPort.Values), f);
      case ServiceStopped => ErasedListener(s, OfPorts(s.ports, s.uuidAndPort.Values), f);
    }
  }

  /** Entries come from the table before, or are the one just stored. */
  lemma EntriesComeFrom(s: State, e: Event, k: Key)
    requires k in Step(s, e).ports
    ensures (k in s.ports && Step(s, e).ports[k] == s.ports[k])
            || (Stores(s, e) && k == Key(e.connection.port, e.connection.address)
                && Step(s, e).ports[k].fd == e.connection.fd)
  {
    hide Bag, Fds, Only, OfPort, OfPorts;
  }

  /** No event of the run stores a socket under this descriptor number. */
  ghost predicate NeverStored(s: State, es: seq<Event>, f: int)
    decreases |es|
  {
    es == [] || (!(Stores(s, es[0]) && es[0].connection.fd == f) && NeverStored(Step(s, es[0]), es[1..], f))
  }

  /** The listener of an overwritten descriptor stays until that number is stored again. */
  lemma {:induction false} StaleListenerStays(s: State, es: seq<Event>, f: int)
    requires Owned(s) && ExpectedRun(s, es) && NeverStored(s, es, f)
    requires f in s.listeners && f !in Fds(s.ports)
    ensures f in Run(s, es).listeners && f !in Fds(Run(s, es).ports)
    decreases |es|
  {
    hide Owned, Expected, Step, Overwrites, Stores;
    if es == [] {
    } else {
      var t := Step(s, es[0]);
      StepOwned(s, es[0]);
      ListenerLeavesExactly(s, es[0], f);
      if f in Fds(t.ports) {
        var k :| k in t.ports && t.ports[k].fd == f;
        EntriesComeFrom(s, es[0], k);
      }
      StaleListenerStays(t, es[1..], f);
    }
  }
}
