/** What the three tables of `TransferTables` hold, told from the list of past calls and events
    alone: who registered a uuid last, and which connection event stored a socket last. */
module TransferHistory {
  import opened Common
  import opened FrameCodec
  import opened TransferTables

  datatype Registration = Registration(port: Port, callback: nat)

  /** The last successful create of this uuid, unless a destroy of it, a state-off or a service
      stop followed. A create succeeds for an acceptable uuid that is not registered, while
      fewer than 120 are, if the service answers with a port. */
  function RegisteredAs(es: seq<Event>, u: Text): Option<Registration>
    decreases |es|, 0
  {
    if es == [] then None
    else
      var before, e := es[..|es| - 1], es[|es| - 1];
      match e
      case Create(v, callback, port) =>
        if v == u && RegisteredAs(before, u) == None && UuidAccepted(u) && |Uuids(before)| < 120 && port != 0
        then Some(Registration(port, callback))
        else RegisteredAs(before, u)
      case Destroy(v) => if v == u then None else RegisteredAs(before, u)
      case Connect(_) => RegisteredAs(before, u)
      case StateOff(_) => None
      case ServiceStopped => None
  }

  /** The uuids registered after these events. */
  function Uuids(es: seq<Event>): set<Text>
    decreases |es|, 1
  {
    set i | 0 <= i < |es| && es[i].Create? && RegisteredAs(es, es[i].uuid).Some? :: es[i].uuid
  }

  ghost predicate PortInUse(es: seq<Event>, p: Port) {
    exists u :: RegisteredAs(es, u).Some? && RegisteredAs(es, u).value.port == p
  }

  /** The last event that concerned the socket of this port and address: a CONNECTED with a
      descriptor for a live callback of a registered port stores it; a DISCONNECTED for such
      a callback, a destroy of the port, a state-off and a service stop remove it. */
  ghost function SocketOf(es: seq<Event>, k: Key): Option<PortInfo>
    decreases |es|
  {
    if es == [] then None
    else
      var before, e := es[..|es| - 1], es[|es| - 1];
      match e
      case Create(_, _, _) => SocketOf(before, k)
      case Destroy(u) =>
        if RegisteredAs(before, u).Some? && RegisteredAs(before, u).value.port == k.port then None
        else SocketOf(before, k)
      case Connect(c) =>
        if c.port != k.port || c.address != k.address || !c.owner || !c.alive || !PortInUse(before, c.port)
        then SocketOf(before, k)
        else if c.state == Connected && c.fd >= 0 then Some(PortInfo(c.mtu, c.fd))
        else if c.state == Disconnected then None
        else SocketOf(before, k)
      case StateOff(_) => None
      case ServiceStopped => None
  }

  /** The remote object is cached by a call with an acceptable uuid or a state-off that finds it,
      and forgotten when the service stops. */
  predicate RemoteCached(es: seq<Event>)
    decreases |es|
  {
    if es == [] then false
    else
      var before, e := es[..|es| - 1], es[|es| - 1];
      match e
      case Create(v, _, _) => UuidAccepted(v) || RemoteCached(before)
      case Destroy(v) => UuidAccepted(v) || RemoteCached(before)
      case Connect(_) => RemoteCached(before)
      case StateOff(found) => found || RemoteCached(before)
      case ServiceStopped => false
  }

  /** The descriptors that came with CONNECTED requests. */
  function Arrivals(es: seq<Event>): multiset<int>
    decreases |es|
  {
    if es == [] then multiset{}
    else
      var before, e := es[..|es| - 1], es[|es| - 1];
      if e.Connect? && e.connection.state == Connected && e.connection.fd >= 0
      then Arrivals(before) + multiset{e.connection.fd}
      else Arrivals(before)
  }

  /** The tables hold exactly that. */
  ghost predicate Tells(es: seq<Event>, s: State) {
    && (forall u :: u in s.uuidAndPort <==> RegisteredAs(es, u).Some?)
    && (forall u :: u in s.uuidAndPort ==>
          && s.uuidAndPort[u] in s.callbacks
          && RegisteredAs(es, u) == Some(Registration(s.uuidAndPort[u], s.callbacks[s.uuidAndPort[u]])))
    && (forall k :: k in s.ports <==> SocketOf(es, k).Some?)
    && (forall k :: k in s.ports ==> SocketOf(es, k) == Some(s.ports[k]))
    && s.remote == RemoteCached(es)
    && s.received == Arrivals(es)
  }

  // ------------------------------------------------------------------------ runs

  lemma {:induction false} RunSnoc(s: State, es: seq<Event>, e: Event)
    ensures Run(s, es + [e]) == Step(Run(s, es), e)
    ensures ExpectedRun(s, es + [e]) <==> ExpectedRun(s, es) && Expected(Run(s, es), e)
    decreases |es|
  {
    hide Step, Expected;
    if es == [] {
      assert [e][1..] == [] && es + [e] == [e];
      assert Run(Step(s, e), []) == Step(s, e);
      assert ExpectedRun(Step(s, e), []);
    } else {
      assert (es + [e])[1..] == es[1..] + [e];
      RunSnoc(Step(s, es[0]), es[1..], e);
    }
  }

  lemma {:induction false} OnlyCreatedAreRegistered(es: seq<Event>, u: Text)
    requires RegisteredAs(es, u).Some?
    ensures exists i :: 0 <= i < |es| && es[i].Create? && es[i].uuid == u
    decreases |es|
  {
    var before, e := es[..|es| - 1], es[|es| - 1];
    if e.Create? && e.uuid == u {
    } else {
      OnlyCreatedAreRegistered(before, u);
      var i :| 0 <= i < |before| && before[i].Create? && before[i].uuid == u;
      assert es[i] == before[i];
    }
  }

  lemma UuidsAreKeys(es: seq<Event>, s: State)
    requires Tells(es, s)
    ensures Uuids(es) == s.uuidAndPort.Keys
  {
    hide RegisteredAs, SocketOf;
    forall u | u in s.uuidAndPort ensures u in Uuids(es) {
      OnlyCreatedAreRegistered(es, u);
    }
  }

  lemma PortsInUseAreKeys(es: seq<Event>, s: State, p: Port)
    requires Tells(es, s) && Agree(s)
    ensures PortInUse(es, p) <==> p in s.callbacks
  {
    hide RegisteredAs, SocketOf;
    if p in s.callbacks {
      assert p in s.uuidAndPort.Values;
      var u :| u in s.uuidAndPort && s.uuidAndPort[u] == p;
      assert RegisteredAs(es, u).value.port == p;
    }
  }

  lemma LastEvent(es: seq<Event>, e: Event)
    ensures (es + [e])[..|es + [e]| - 1] == es && (es + [e])[|es + [e]| - 1] == e
  {
  }

  // ----------------------------------------------------------------------- steps

  /** What the tables hold of a uuid. */
  function Holds(s: State, u: Text): Option<Registration> {
    if u in s.uuidAndPort && s.uuidAndPort[u] in s.callbacks
    then Some(Registration(s.uuidAndPort[u], s.callbacks[s.uuidAndPort[u]]))
    else None
  }

  lemma TellsHolds(es: seq<Event>, s: State, u: Text)
    requires Tells(es, s)
    ensures Holds(s, u) == RegisteredAs(es, u)
  {
    hide RegisteredAs, SocketOf;
  }

  lemma AgreeInjective(s: State, u: Text, v: Text)
    requires Agree(s) && u in s.uuidAndPort && v in s.uuidAndPort && s.uuidAndPort[u] == s.uuidAndPort[v]
    ensures u == v
  {
  }

  lemma AgreeKeys(s: State, u: Text)
    requires Agree(s) && u in s.uuidAndPort
    ensures s.uuidAndPort[u] in s.callbacks
  {
    assert s.uuidAndPort[u] in s.uuidAndPort.Values;
  }

  /** Whatever the table holds of a uuid has a callback. */
  ghost predicate Complete(s: State) {
    forall u :: u in s.uuidAndPort ==> s.uuidAndPort[u] in s.callbacks
  }

  lemma CreateHolds(s: State, v: Text, callback: nat, port: Port, u: Text)
    requires Complete(s) && port !in s.callbacks
    ensures Holds(CreateStep(s, v, callback, port), u) ==
            if v == u && u !in s.uuidAndPort && UuidAccepted(u) && |s.uuidAndPort| < 120 && port != 0
            then Some(Registration(port, callback))
            else Holds(s, u)
    ensures Complete(CreateStep(s, v, callback, port))
  {
  }

  lemma DestroyHolds(s: State, v: Text, u: Text)
    requires Agree(s) && Complete(s)
    ensures UuidAccepted(v) ==> Holds(DestroyStep(s, v), u) == if v == u then None else Holds(s, u)
    ensures !UuidAccepted(v) ==> DestroyStep(s, v) == s
    ensures Complete(DestroyStep(s, v))
  {
    hide Agree, Bag, Fds, Only, OfPort;
    forall w | w in s.uuidAndPort && v in s.uuidAndPort && w != v ensures s.uuidAndPort[w] != s.uuidAndPort[v] {
      if s.uuidAndPort[w] == s.uuidAndPort[v] {
        AgreeInjective(s, w, v);
      }
    }
  }

  lemma StepRegistration(es: seq<Event>, s: State, e: Event, u: Text)
    requires Tells(es, s) && Agree(s) && Expected(s, e)
    ensures Holds(Step(s, e), u) == RegisteredAs(es + [e], u)
    ensures Complete(Step(s, e))
  {
    hide Agree, Bag, Tells, SocketOf, CreateStep, DestroyStep, StateOffStep, ServiceStoppedStep, Holds;
    LastEvent(es, e);
    TellsHolds(es, s, u);
    UuidsAreKeys(es, s);
    TellsComplete(es, s);
    match e {
      case Create(v, callback, port) =>
        CreateHolds(s, v, callback, port, u);
        HoldsKey(s, u);
      case Destroy(v) =>
        DestroyHolds(s, v, u);
        RegisteredAccepted(es, v);
      case Connect(c) => ConnectHolds(s, c, u);
      case StateOff(found) =>
        EmptiedTables(s, found);
        HoldsKey(StateOffStep(s, found), u);
      case ServiceStopped =>
        EmptiedTables(s, true);
        HoldsKey(ServiceStoppedStep(s), u);
    }
  }

  lemma TellsComplete(es: seq<Event>, s: State)
    requires Tells(es, s)
    ensures Complete(s)
  {
    hide RegisteredAs, SocketOf;
  }

  lemma HoldsKey(s: State, u: Text)
    requires Complete(s)
    ensures Holds(s, u) == None <==> u !in s.uuidAndPort
  {
  }

  lemma ConnectHolds(s: State, c: Connection, u: Text)
    ensures Holds(StubStep(s, c), u) == Holds(s, u)
    ensures Complete(s) ==> Complete(StubStep(s, c))
  {
    hide Bag, Fds, Only;
  }

  lemma {:induction false} RegisteredAccepted(es: seq<Event>, u: Text)
    ensures RegisteredAs(es, u).Some? ==> UuidAccepted(u)
    decreases |es|
  {
    if es == [] {
    } else {
      RegisteredAccepted(es[..|es| - 1], u);
    }
  }

  /** What the tables hold of a socket. */
  function Socket(s: State, k: Key): Option<PortInfo> {
    if k in s.ports then Some(s.ports[k]) else None
  }

  lemma TellsSocket(es: seq<Event>, s: State, k: Key)
    requires Tells(es, s)
    ensures Socket(s, k) == SocketOf(es, k)
  {
    hide RegisteredAs, SocketOf;
  }

  lemma StepSocket(es: seq<Event>, s: State, e: Event, k: Key)
    requires Tells(es, s) && Agree(s) && Expected(s, e)
    ensures Socket(Step(s, e), k) == SocketOf(es + [e], k)
  {
    hide Agree, Bag, Fds, Only, OfPorts, Tells, RegisteredAs, PortInUse;
    LastEvent(es, e);
    TellsSocket(es, s, k);
    match e {
      case Create(v, callback, port) =>
      case Destroy(v) =>
        TellsHolds(es, s, v);
        RegisteredAccepted(es, v);
        if v in s.uuidAndPort {
          AgreeKeys(s, v);
        }
      case Connect(c) => PortsInUseAreKeys(es, s, c.port);
      case StateOff(found) => EmptiedTables(s, found);
      case ServiceStopped => EmptiedTables(s, true);
    }
  }

  lemma StepRest(es: seq<Event>, s: State, e: Event)
    requires s.remote == RemoteCached(es) && s.received == Arrivals(es)
    ensures Step(s, e).remote == RemoteCached(es + [e]) && Step(s, e).received == Arrivals(es + [e])
  {
    hide Bag, Fds, Only, OfPort, OfPorts, ConnectStep;
    LastEvent(es, e);
    if e.Connect? {
      ConnectKeepsRemote(s, e.connection);
      if Passed(e.connection).Some? {
        ConnectBalance(s, Passed(e.connection).value);
      }
    }
  }

  lemma ConnectKeepsRemote(s: State, c: Connection)
    ensures StubStep(s, c).remote == s.remote
  {
    hide Bag, Fds, Only;
  }

  lemma StepTells(es: seq<Event>, s: State, e: Event)
    requires Tells(es, s) && Agree(s) && Expected(s, e)
    ensures Tells(es + [e], Step(s, e))
  {
    hide Agree, Expected, Step, RegisteredAs, SocketOf, RemoteCached, Arrivals;
    var t := Step(s, e);
    StepRest(es, s, e);
    forall u
      ensures u in t.uuidAndPort <==> RegisteredAs(es + [e], u).Some?
      ensures u in t.uuidAndPort ==>
                && t.uuidAndPort[u] in t.callbacks
                && RegisteredAs(es + [e], u) == Some(Registration(t.uuidAndPort[u], t.callbacks[t.uuidAndPort[u]]))
    {
      StepRegistration(es, s, e, u);
      HoldsKey(t, u);
    }
    forall k
      ensures k in t.ports <==> SocketOf(es + [e], k).Some?
      ensures k in t.ports ==> SocketOf(es + [e], k) == Some(t.ports[k])
    {
      StepSocket(es, s, e, k);
    }
  }

  // ----------------------------------------------------------------- main result

  /** After every expected run of calls and events the tables hold exactly what the history
      tells: a uuid with its port and callback if and only if its last successful create was
      not undone, and a socket with its descriptor and mtu if and only if the last event
      that concerned it stored it; every descriptor that came is closed or in that table. */
  lemma {:induction false} TablesAreHistory(es: seq<Event>)
    requires ExpectedRun(INIT, es)
    ensures Tells(es, Run(INIT, es))
    ensures Good(Run(INIT, es))
    decreases |es|
  {
    hide Good, Step, Expected, ExpectedRun, RegisteredAs, SocketOf;
    if es == [] {
      NothingYet();
    } else {
      var before, e := es[..|es| - 1], es[|es| - 1];
      assert es == before + [e];
      RunSnoc(INIT, before, e);
      TablesAreHistory(before);
      var s := Run(INIT, before);
      GoodStep(s, e);
      StepTells(before, s, e);
    }
  }

  lemma GoodStep(s: State, e: Event)
    requires Good(s) && Expected(s, e)
    ensures Good(Step(s, e)) && Agree(s)
  {
    hide Agree, Conserved, Owned, Step, Expected;
    StepKeepsAgreement(s, e);
    StepConserves(s, e);
    StepOwned(s, e);
  }

  lemma NothingYet()
    ensures Tells([], Run(INIT, [])) && Good(Run(INIT, []))
  {
    EmptyAgrees(INIT);
  }

  /** In particular a DISCONNECTED event for a live callback removes exactly the socket of its
      peer, with its listener, and closes exactly its descriptor. */
  lemma DisconnectedRemoves(s: State, c: Connection)
    requires Good(s) && c.state == Disconnected && c.owner && c.alive && c.port in s.callbacks
    ensures var t := Step(s, Event.Connect(c));
            var k := Key(c.port, c.address);
            && t.ports == (map j | j in s.ports && j != k :: s.ports[j])
            && t.closed == s.closed + (if k in s.ports then multiset{s.ports[k].fd} else multiset{})
            && t.listeners == s.listeners - (if k in s.ports then {s.ports[k].fd} else {})
            && t.uuidAndPort == s.uuidAndPort && t.callbacks == s.callbacks
  {
    hide Bag, Fds, Only, Agree, Conserved, Owned;
    OnlyOne(s.ports, Key(c.port, c.address));
  }

  lemma OnlyOne(m: Sockets, k: Key)
    ensures k in m ==> Bag(Only(m, {k})) == multiset{m[k].fd} && Fds(Only(m, {k})) == {m[k].fd}
    ensures k !in m ==> Bag(Only(m, {k})) == multiset{} && Fds(Only(m, {k})) == {}
  {
    var one := Only(m, {k});
    if k in m {
      assert one == map[k := m[k]] && one - {k} == map[];
      BagRemove(one, k);
      assert one[k].fd in Fds(one);
    } else {
      assert one == map[];
    }
  }

  lemma OfPortBag(s: State, p: Port, f: int)
    requires Owned(s)
    ensures Bag(Only(s.ports, OfPort(s.ports, p)))[f] ==
            if exists k :: k in s.ports && k.port == p && s.ports[k].fd == f then 1 else 0
  {
    hide Bag;
    var gone := Only(s.ports, OfPort(s.ports, p));
    BagSplit(s.ports, OfPort(s.ports, p));
    BagHolds(gone, f);
    if k :| k in s.ports && k.port == p && s.ports[k].fd == f {
      assert k in gone && gone[k].fd == f;
    }
    assert Bag(gone)[f] <= Bag(s.ports)[f];
  }

  /** A destroy of a registered uuid removes it, its port's callback and every socket of that
      port, closes exactly their descriptors, and leaves everything else. */
  lemma DestroyRemoves(s: State, u: Text)
    requires Good(s) && UuidAccepted(u) && u in s.uuidAndPort
    ensures var t := Step(s, Event.Destroy(u));
            var p := s.uuidAndPort[u];
            && t.uuidAndPort == (map v | v in s.uuidAndPort && v != u :: s.uuidAndPort[v])
            && t.callbacks == (map q | q in s.callbacks && q != p :: s.callbacks[q])
            && t.ports == (map k | k in s.ports && k.port != p :: s.ports[k])
            && (forall f :: t.closed[f] ==
                  s.closed[f] + if exists k :: k in s.ports && k.port == p && s.ports[k].fd == f then 1 else 0)
  {
    hide Agree, Owned, Conserved, Bag, Fds;
    var p := s.uuidAndPort[u];
    forall f ensures Bag(Only(s.ports, OfPort(s.ports, p)))[f] ==
                     if exists k :: k in s.ports && k.port == p && s.ports[k].fd == f then 1 else 0 {
      OfPortBag(s, p, f);
    }
  }
}
