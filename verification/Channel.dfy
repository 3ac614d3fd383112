/** Tables and sockets in one machine: the three tables of `TransferTables`, the table of the
    service at the other end, and for every socket pair the byte queue towards the framework
    and its history. The service creates a pair and may send at once; its other end arrives
    with a CONNECTED request, is stored or closed, and is read by the worker through the
    callbacks as they stand at that moment. */
module Channel {
  import opened Common
  import opened LittleEndian
  import opened FrameCodec
  import opened TransferTables
  import Link

  /** A socket pair whose framework end is open or on its way: the port it was made for, and
      the direction towards the framework. */
  datatype Wire = Wire(port: Port, link: Link.State)

  /** `ends` maps the framework's descriptors to pairs, `service` the service's entries. */
  datatype Whole = Whole(tables: State, wires: map<nat, Wire>, ends: map<int, nat>, service: map<Key, nat>, made: nat)

  /** `Call` names the pair whose end the request brings, if it brings one. `Send` carries one
      record for the service's entry of `key`: its port is the key's, its address the one shown
      to the receiver. `alive` are the callbacks that lock during a read. */
  datatype Action =
    | Offer(key: Key)
    | Withdraw(key: Key)
    | Call(event: Event, pair: nat)
    | Send(key: Key, address: Text, uuid: Text, data: seq<byte>, kernel: Link.Kernel)
    | Read(fd: int, alive: set<nat>)

  const START := Whole(INIT, map[], map[], map[], 0)

  function PacketOf(a: Action): Packet
    requires a.Send?
  {
    Packet(a.address, a.uuid, a.key.port, a.data)
  }

  /** What `ReceivedData` sees of the callback table. */
  function Visible(s: State, alive: set<nat>): Link.Callbacks {
    map p | p in s.callbacks :: s.callbacks[p] in alive
  }

  predicate BringsEnd(e: Event) {
    e.Connect? && Brings(e.connection)
  }

  /** The descriptors closed between two states of the tables. */
  function Gone(s: State, t: State): multiset<int> {
    t.closed - s.closed
  }

  ghost function NextEnds(s: Whole, e: Event, pair: nat): map<int, nat> {
    var gone := Gone(s.tables, Step(s.tables, e));
    var kept := map f | f in s.ends && f !in gone :: s.ends[f];
    if Stores(s.tables, e) then kept[e.connection.fd := pair] else kept
  }

  /** The pairs that lose their framework end. */
  ghost function Lost(s: Whole, e: Event, pair: nat): set<nat> {
    var gone := Gone(s.tables, Step(s.tables, e));
    (set f | f in s.ends && f in gone :: s.ends[f])
    + (if BringsEnd(e) && !Stores(s.tables, e) then {pair} else {})
  }

  /** A send without an entry, or to a pair whose other end is closed, queues nothing; so does a
      wake-up for a descriptor no longer open. */
  ghost function Next(bufSize: int, s: Whole, a: Action): Whole {
    match a
    case Offer(key) =>
      s.(wires := s.wires[s.made := Wire(key.port, Link.EMPTY)], service := s.service[key := s.made],
         made := s.made + 1)
    case Withdraw(key) => s.(service := s.service - {key})
    case Call(e, pair) =>
      s.(tables := Step(s.tables, e), ends := NextEnds(s, e, pair), wires := s.wires - Lost(s, e, pair))
    case Send(key, _, _, _, kernel) =>
      if key !in s.service || s.service[key] !in s.wires then s
      else
        var n := s.service[key];
        Updated(s, n, Link.SendStep(bufSize, s.wires[n].link, PacketOf(a), kernel))
    case Read(f, alive) =>
      if f !in s.tables.listeners || f !in s.ends || s.ends[f] !in s.wires then s
      else Updated(s, s.ends[f], Link.ReadStep(s.wires[s.ends[f]].link, Visible(s.tables, alive)))
  }

  function Updated(s: Whole, n: nat, link: Link.State): Whole
    requires n in s.wires
  {
    s.(wires := s.wires[n := Wire(s.wires[n].port, link)])
  }

  /** The environment: an expected service that passes on the end of a pair made for that port,
      once, with working queue reports and whole sends. */
  ghost predicate Fair(s: Whole, a: Action) {
    match a
    case Call(e, pair) =>
      && Expected(s.tables, e)
      && (BringsEnd(e) ==> pair in s.wires && s.wires[pair].port == e.connection.port && pair !in s.ends.Values)
    case Send(_, _, _, _, kernel) => Link.Whole(Link.Send(PacketOf(a), kernel))
    case _ => true
  }

  ghost function Reached(bufSize: int, s: Whole, acts: seq<Action>): Whole
    decreases |acts|
  {
    if acts == [] then s else Reached(bufSize, Next(bufSize, s, acts[0]), acts[1..])
  }

  ghost predicate FairRun(bufSize: int, s: Whole, acts: seq<Action>)
    decreases |acts|
  {
    acts == [] || (Fair(s, acts[0]) && FairRun(bufSize, Next(bufSize, s, acts[0]), acts[1..]))
  }

  // ------------------------------------------------------------------ invariants

  /** The framework's descriptors are exactly those in its socket table, each the end of its
      own pair. */
  ghost predicate Wired(s: Whole) {
    && s.ends.Keys == Fds(s.tables.ports)
    && (forall f :: f in s.ends ==> s.ends[f] in s.wires)
    && (forall f, g :: f in s.ends && g in s.ends && s.ends[f] == s.ends[g] ==> f == g)
  }

  /** A queue is sound, and carries only records for one port. */
  ghost predicate Carries(bufSize: int, w: Link.State, p: Port) {
    Link.Sound(bufSize, w) && forall i :: 0 <= i < |w.accepted| ==> w.accepted[i].port == p
  }

  ghost predicate AllCarry(bufSize: int, s: Whole) {
    forall n :: n in s.wires ==> n < s.made && Carries(bufSize, s.wires[n].link, s.wires[n].port)
  }

  /** Both tables use a pair for the port it was made for. */
  ghost predicate PortsMatch(s: Whole) {
    && (forall k :: k in s.service ==>
          s.service[k] < s.made && (s.service[k] in s.wires ==> s.wires[s.service[k]].port == k.port))
    && (forall k :: k in s.tables.ports && s.tables.ports[k].fd in s.ends && s.ends[s.tables.ports[k].fd] in s.wires ==>
          s.wires[s.ends[s.tables.ports[k].fd]].port == k.port)
  }

  ghost predicate Inv(bufSize: int, s: Whole) {
    Good(s.tables) && Wired(s) && AllCarry(bufSize, s) && PortsMatch(s)
  }

  // --------------------------------------------------- closing drops its own queue

  lemma ClosedGrows(s: State, e: Event)
    ensures s.closed <= Step(s, e).closed
  {
    hide Bag;
  }

  lemma FdsIsBag(m: Sockets, f: int)
    ensures f in Fds(m) <==> f in Bag(m)
  {
    BagHolds(m, f);
  }

  function Arrived(e: Event): multiset<int> {
    if BringsEnd(e) then multiset{e.connection.fd} else multiset{}
  }

  lemma ReceivedGrows(s: State, e: Event)
    requires Conserved(s)
    ensures Step(s, e).received == s.received + Arrived(e)
  {
    hide Bag, ConnectStep;
    if e.Connect? {
      StubConserves(s, e.connection);
    }
  }

  /** The owned descriptors after an event are those before it and the arriving one,
      without the closed ones. */
  lemma BagStep(s: State, e: Event)
    requires Good(s) && Expected(s, e)
    ensures Bag(s.ports) + Arrived(e) == Bag(Step(s, e).ports) + Gone(s, Step(s, e))
  {
    hide Bag, Step, Agree, Owned, Arrived;
    StepConserves(s, e);
    ClosedGrows(s, e);
    ReceivedGrows(s, e);
    var t := Step(s, e);
    assert t.closed == s.closed + Gone(s, t);
    Cancel(s.closed, Bag(s.ports), Arrived(e), Bag(t.ports), Gone(s, t));
  }

  lemma Cancel(a: multiset<int>, b: multiset<int>, c: multiset<int>, d: multiset<int>, e: multiset<int>)
    requires (a + b) + c == (a + e) + d
    ensures b + c == d + e
  {
    forall f ensures (b + c)[f] == (d + e)[f] {
      assert ((a + b) + c)[f] == ((a + e) + d)[f];
    }
  }

  lemma StoredIsOwned(s: State, e: Event)
    requires Stores(s, e)
    ensures e.connection.fd in Fds(Step(s, e).ports)
  {
    hide Bag;
    var c := e.connection;
    assert Step(s, e).ports[Key(c.port, c.address)].fd == c.fd;
  }

  lemma OwnedOnce(s: State, f: int)
    requires Good(s)
    ensures Bag(s.ports)[f] <= 1
  {
    hide Bag, Agree, Conserved;
  }

  lemma ArrivalIsNew(s: State, e: Event, f: int)
    requires Expected(s, e) && f in Fds(s.ports)
    ensures f !in Arrived(e) && (Stores(s, e) ==> f != e.connection.fd)
  {
    hide Bag;
    FdsIsBag(s.ports, f);
  }

  /** A call or event closes an owned descriptor exactly when it leaves the socket table. */
  lemma ClosedExactly(s: State, e: Event, f: int)
    requires Good(s) && Expected(s, e) && f in Fds(s.ports)
    ensures f in Gone(s, Step(s, e)) <==> f !in Fds(Step(s, e).ports)
  {
    hide Bag, Step, Agree, Expected, Fds, Gone;
    ArrivalIsNew(s, e, f);
    BagStep(s, e);
    FdsIsBag(Step(s, e).ports, f);
    FdsIsBag(s.ports, f);
    OwnedOnce(s, f);
    var t := Step(s, e);
    assert (Bag(s.ports) + Arrived(e))[f] == (Bag(t.ports) + Gone(s, t))[f];
  }

  lemma NotOwnedLater(s: State, e: Event, f: int)
    requires f !in Fds(s.ports) && !(Stores(s, e) && f == e.connection.fd)
    ensures f !in Fds(Step(s, e).ports)
  {
    hide Bag, Step, Stores;
    if k :| k in Step(s, e).ports && Step(s, e).ports[k].fd == f {
      EntriesComeFrom(s, e, k);
    }
  }

  /** What becomes of the descriptors of the framework in a call. */
  lemma EndsAfter(s: Whole, e: Event, pair: nat, f: int)
    requires Good(s.tables) && Wired(s) && Expected(s.tables, e)
    ensures var ends := NextEnds(s, e, pair);
            && (f in ends <==> f in Fds(Step(s.tables, e).ports))
            && (f in ends ==> ends[f] == if Stores(s.tables, e) && f == e.connection.fd then pair
                                         else if f in s.ends then s.ends[f] else pair)
            && (f in ends && f !in s.ends ==> Stores(s.tables, e) && f == e.connection.fd)
            && (f in s.ends ==> !(Stores(s.tables, e) && f == e.connection.fd))
  {
    hide Bag, Step, Good, Expected, Fds, Gone;
    if f in s.ends {
      ClosedExactly(s.tables, e, f);
      ArrivalIsNew(s.tables, e, f);
    } else if Stores(s.tables, e) && f == e.connection.fd {
      StoredIsOwned(s.tables, e);
    } else {
      NotOwnedLater(s.tables, e, f);
    }
  }

  /** A call or event drops the queue of a pair exactly when it closes its framework end: a
      stored descriptor leaves the socket table, or the arriving one is not stored. Every other
      queue is untouched, that of the arriving pair included. */
  lemma ClosingDropsItsOwnQueue(bufSize: int, s: Whole, e: Event, pair: nat, n: nat)
    requires Good(s.tables) && Wired(s) && Fair(s, Call(e, pair)) && n in s.wires
    ensures var r := Next(bufSize, s, Call(e, pair));
            && (n !in r.wires <==>
                || (exists f :: f in s.ends && s.ends[f] == n && f !in Fds(r.tables.ports))
                || (n == pair && BringsEnd(e) && !Stores(s.tables, e)))
            && (n in r.wires ==> r.wires[n] == s.wires[n])
  {
    hide Bag, Step, Good, Expected, Fds, Gone, Stores;
    var t := Step(s.tables, e);
    forall f | f in s.ends ensures f in Gone(s.tables, t) <==> f !in Fds(t.ports) {
      ClosedExactly(s.tables, e, f);
    }
  }

  // ------------------------------------------------------------------ every action

  lemma CallWired(bufSize: int, s: Whole, e: Event, pair: nat)
    requires Inv(bufSize, s) && Fair(s, Call(e, pair))
    ensures Wired(Next(bufSize, s, Call(e, pair)))
  {
    hide Bag, Step, Good, Expected, Stores, NextEnds, Lost, PortsMatch, AllCarry;
    var r := Next(bufSize, s, Call(e, pair));
    forall f ensures f in r.ends <==> f in Fds(r.tables.ports) {
      EndsAfter(s, e, pair, f);
    }
    forall f | f in r.ends ensures r.ends[f] in r.wires {
      KeptEnds(bufSize, s, e, pair, f);
    }
    forall f, g | f in r.ends && g in r.ends && r.ends[f] == r.ends[g] ensures f == g {
      EndsAfter(s, e, pair, f);
      EndsAfter(s, e, pair, g);
      StoresBrings(s.tables, e);
    }
  }

  lemma StoresBrings(s: State, e: Event)
    ensures Stores(s, e) ==> BringsEnd(e)
  {
  }

  lemma KeptEnds(bufSize: int, s: Whole, e: Event, pair: nat, f: int)
    requires Good(s.tables) && Wired(s) && Fair(s, Call(e, pair)) && f in NextEnds(s, e, pair)
    ensures var r := Next(bufSize, s, Call(e, pair));
            r.ends[f] in r.wires && r.wires[r.ends[f]] == s.wires[r.ends[f]]
  {
    hide Bag, Step, Good, Expected, Stores, NextEnds, Lost, Fds;
    StoresBrings(s.tables, e);
    EndsAfter(s, e, pair, f);
    ClosingDropsItsOwnQueue(bufSize, s, e, pair, NextEnds(s, e, pair)[f]);
  }

  lemma CallPorts(bufSize: int, s: Whole, e: Event, pair: nat)
    requires Inv(bufSize, s) && Fair(s, Call(e, pair))
    ensures PortsMatch(Next(bufSize, s, Call(e, pair)))
  {
    hide Bag, Step, Good, Expected, NextEnds, Lost, AllCarry, Stores;
    var r := Next(bufSize, s, Call(e, pair));
    forall k | k in r.tables.ports && r.tables.ports[k].fd in r.ends && r.ends[r.tables.ports[k].fd] in r.wires
      ensures r.wires[r.ends[r.tables.ports[k].fd]].port == k.port
    {
      var f := r.tables.ports[k].fd;
      EndsAfter(s, e, pair, f);
      KeptEnds(bufSize, s, e, pair, f);
      EntriesComeFrom(s.tables, e, k);
      StoresBrings(s.tables, e);
      if k in s.tables.ports && s.tables.ports[k].fd == f {
        assert f in Fds(s.tables.ports);
      }
    }
  }

  lemma CallInv(bufSize: int, s: Whole, e: Event, pair: nat)
    requires Inv(bufSize, s) && Fair(s, Call(e, pair))
    ensures Inv(bufSize, Next(bufSize, s, Call(e, pair)))
  {
    hide Bag, Step, Agree, Conserved, Owned, Expected, Wired, PortsMatch, Carries, NextEnds, Lost;
    StepKeepsAgreement(s.tables, e);
    StepConserves(s.tables, e);
    StepOwned(s.tables, e);
    CallWired(bufSize, s, e, pair);
    CallPorts(bufSize, s, e, pair);
  }

  lemma EmptyCarries(bufSize: int, p: Port)
    ensures Carries(bufSize, Link.EMPTY, p)
  {
    Link.DecodeNothing();
  }

  lemma OfferInv(bufSize: int, s: Whole, key: Key)
    requires Inv(bufSize, s)
    ensures Inv(bufSize, Next(bufSize, s, Offer(key)))
  {
    hide Good, Carries, Fds;
    EmptyCarries(bufSize, key.port);
    assert s.made !in s.wires;
  }

  lemma SendCarries(bufSize: int, w: Link.State, p: Port, packet: Packet, kernel: Link.Kernel)
    requires 0 < bufSize <= Link.MAX_SAFE_BUFFER && Carries(bufSize, w, p) && packet.port == p
    requires Link.Whole(Link.Send(packet, kernel))
    ensures Carries(bufSize, Link.SendStep(bufSize, w, packet, kernel), p)
  {
    hide Frame, DecodeAll;
    Link.SendSound(bufSize, w, packet, kernel);
  }

  lemma ReadCarries(bufSize: int, w: Link.State, p: Port, cbs: Link.Callbacks)
    requires 0 < bufSize <= Link.MAX_SAFE_BUFFER && Carries(bufSize, w, p)
    ensures Carries(bufSize, Link.ReadStep(w, cbs), p)
  {
    hide DecodeAll;
    Link.ReadSound(bufSize, w, cbs);
  }

  lemma UpdatedInv(bufSize: int, s: Whole, n: nat, link: Link.State)
    requires Inv(bufSize, s) && n in s.wires && Carries(bufSize, link, s.wires[n].port)
    ensures Inv(bufSize, Updated(s, n, link))
  {
    hide Good, Carries, Fds;
    assert Updated(s, n, link).wires.Keys == s.wires.Keys;
  }

  lemma NextInv(bufSize: int, s: Whole, a: Action)
    requires 0 < bufSize <= Link.MAX_SAFE_BUFFER && Inv(bufSize, s) && Fair(s, a)
    ensures Inv(bufSize, Next(bufSize, s, a))
  {
    match a {
      case Offer(key) => OfferInv(bufSize, s, key);
      case Withdraw(key) => WithdrawInv(bufSize, s, key);
      case Call(e, pair) => CallInv(bufSize, s, e, pair);
      case Send(key, _, _, _, kernel) => SendInv(bufSize, s, a);
      case Read(f, alive) => ReadInv(bufSize, s, f, alive);
    }
  }

  lemma WithdrawInv(bufSize: int, s: Whole, key: Key)
    requires Inv(bufSize, s)
    ensures Inv(bufSize, Next(bufSize, s, Withdraw(key)))
  {
    hide Good, Carries, Fds;
  }

  lemma SendInv(bufSize: int, s: Whole, a: Action)
    requires 0 < bufSize <= Link.MAX_SAFE_BUFFER && Inv(bufSize, s) && a.Send? && Fair(s, a)
    ensures Inv(bufSize, Next(bufSize, s, a))
  {
    hide Good, Carries, Fds, Wired, Link.SendStep, Link.Whole;
    if a.key in s.service && s.service[a.key] in s.wires {
      var n := s.service[a.key];
      SendCarries(bufSize, s.wires[n].link, a.key.port, PacketOf(a), a.kernel);
      UpdatedInv(bufSize, s, n, Link.SendStep(bufSize, s.wires[n].link, PacketOf(a), a.kernel));
    }
  }

  lemma ReadInv(bufSize: int, s: Whole, f: int, alive: set<nat>)
    requires 0 < bufSize <= Link.MAX_SAFE_BUFFER && Inv(bufSize, s)
    ensures Inv(bufSize, Next(bufSize, s, Read(f, alive)))
  {
    hide Good, Carries, Fds, Wired, Link.ReadStep;
    if f in s.tables.listeners && f in s.ends && s.ends[f] in s.wires {
      var w := s.wires[s.ends[f]];
      ReadCarries(bufSize, w.link, w.port, Visible(s.tables, alive));
      UpdatedInv(bufSize, s, s.ends[f], Link.ReadStep(w.link, Visible(s.tables, alive)));
    }
  }

  lemma {:induction false} RunInv(bufSize: int, s: Whole, acts: seq<Action>)
    requires 0 < bufSize <= Link.MAX_SAFE_BUFFER && Inv(bufSize, s) && FairRun(bufSize, s, acts)
    ensures Inv(bufSize, Reached(bufSize, s, acts))
    decreases |acts|
  {
    hide Inv, Fair, Next;
    if acts == [] {
    } else {
      NextInv(bufSize, s, acts[0]);
      RunInv(bufSize, Next(bufSize, s, acts[0]), acts[1..]);
    }
  }

  lemma StartInv(bufSize: int)
    ensures Inv(bufSize, START)
  {
    EmptyAgrees(INIT);
    assert Fds(INIT.ports) == {};
  }

  // ---------------------------------------------------------------- main results

  /** Over every run of calls, events, sends and reads: on every pair whose framework end is
      open or on its way, no read was refused, the admission test was never skipped, and the
      records the service's sends were accepted for are those read from it followed by those
      still queued, in order, all of them for the port the pair was made for. */
  lemma DeliveryOnPairs(bufSize: int, acts: seq<Action>, n: nat)
    requires 0 < bufSize <= Link.MAX_SAFE_BUFFER && FairRun(bufSize, START, acts)
    requires n in Reached(bufSize, START, acts).wires
    ensures var w := Reached(bufSize, START, acts).wires[n];
            && w.link.rejected == 0 && |w.link.queue| < bufSize
            && (exists queued :: w.link.queue == Frames(queued) && w.link.accepted == w.link.consumed + queued)
            && (forall i :: 0 <= i < |w.link.accepted| ==> w.link.accepted[i].port == w.port)
  {
    hide Frames, DecodeAll, Good, Wired, PortsMatch, Reached, FairRun;
    StartInv(bufSize);
    RunInv(bufSize, START, acts);
    var w := Reached(bufSize, START, acts).wires[n];
    assert Carries(bufSize, w.link, w.port);
    StreamGrammar(w.link.queue, DecodeAll(w.link.queue).value);
  }

  /** ... and every entry of the framework's socket table has such a pair of its own, made for
      its port and listened on. */
  lemma DeliveryThroughTables(bufSize: int, acts: seq<Action>, k: Key)
    requires 0 < bufSize <= Link.MAX_SAFE_BUFFER && FairRun(bufSize, START, acts)
    requires k in Reached(bufSize, START, acts).tables.ports
    ensures var s := Reached(bufSize, START, acts);
            var f := s.tables.ports[k].fd;
            && f in s.ends && f in s.tables.listeners && s.ends[f] in s.wires
            && (forall g :: g in s.ends && s.ends[g] == s.ends[f] ==> g == f)
            && var w := s.wires[s.ends[f]];
            && w.port == k.port && w.link.rejected == 0 && |w.link.queue| < bufSize
            && (exists queued :: w.link.queue == Frames(queued) && w.link.accepted == w.link.consumed + queued)
            && (forall i :: 0 <= i < |w.link.accepted| ==> w.link.accepted[i].port == k.port)
  {
    hide Frames, Agree, Conserved, Bag, Reached, FairRun, AllCarry;
    StartInv(bufSize);
    RunInv(bufSize, START, acts);
    var s := Reached(bufSize, START, acts);
    assert s.tables.ports[k].fd in Fds(s.tables.ports);
    DeliveryOnPairs(bufSize, acts, s.ends[s.tables.ports[k].fd]);
  }

  lemma {:induction false} DispatchOnePort(ps: seq<Packet>, p: Port, cbs: Link.Callbacks)
    requires p in cbs && forall i :: 0 <= i < |ps| ==> ps[i].port == p
    ensures Link.Dispatch(ps, cbs) == if cbs[p] then ps else []
  {
    if ps == [] {
    } else {
      DispatchOnePort(ps[1..], p, cbs);
    }
  }

  /** At any point of any such run, a read on an entry's descriptor empties its queue, what was
      sent before the descriptor was stored included, and hands all of it to the callback of
      the entry's port if that still locks, and nothing otherwise: the port is registered as
      long as its entry exists. */
  lemma ReadDelivers(bufSize: int, acts: seq<Action>, k: Key, alive: set<nat>)
    requires 0 < bufSize <= Link.MAX_SAFE_BUFFER && FairRun(bufSize, START, acts)
    requires k in Reached(bufSize, START, acts).tables.ports
    ensures var s := Reached(bufSize, START, acts);
            var f := s.tables.ports[k].fd;
            var r := Next(bufSize, s, Read(f, alive));
            && k.port in s.tables.callbacks && f in s.ends && s.ends[f] in s.wires && s.ends[f] in r.wires
            && var before, after := s.wires[s.ends[f]].link, r.wires[s.ends[f]].link;
            && after.queue == [] && after.consumed == before.accepted
            && |before.consumed| <= |before.accepted|
            && after.delivered == before.delivered +
               if s.tables.callbacks[k.port] in alive then before.accepted[|before.consumed|..] else []
  {
    hide Frames, DecodeAll, Inv, Reached, FairRun, Link.ReadStep, Carries;
    StartInv(bufSize);
    RunInv(bufSize, START, acts);
    var s := Reached(bufSize, START, acts);
    EntryFacts(bufSize, s, k);
    QueueDelivered(bufSize, s.wires[s.ends[s.tables.ports[k].fd]].link, k.port, Visible(s.tables, alive));
  }

  /** What an entry of the socket table comes with. */
  lemma EntryFacts(bufSize: int, s: Whole, k: Key)
    requires Inv(bufSize, s) && k in s.tables.ports
    ensures var f := s.tables.ports[k].fd;
            && f in s.tables.listeners && f in s.ends && s.ends[f] in s.wires && k.port in s.tables.callbacks
            && s.wires[s.ends[f]].port == k.port && Carries(bufSize, s.wires[s.ends[f]].link, k.port)
            && (forall j :: j in s.tables.ports && s.tables.ports[j].fd == f ==> j == k)
  {
    hide Bag, Conserved, Carries;
    var f := s.tables.ports[k].fd;
    assert f in Fds(s.tables.ports);
    forall j | j in s.tables.ports && s.tables.ports[j].fd == f ensures j == k {
      if j != k {
        TwoOwners(s.tables.ports, j, k);
      }
    }
  }

  lemma OwnerOf(s: Whole, f: int) returns (k: Key)
    requires Wired(s) && f in s.ends
    ensures k in s.tables.ports && s.tables.ports[k].fd == f
  {
    k :| k in s.tables.ports && s.tables.ports[k].fd == f;
  }

  lemma QueueDelivered(bufSize: int, w: Link.State, p: Port, cbs: Link.Callbacks)
    requires 0 < bufSize <= Link.MAX_SAFE_BUFFER && Carries(bufSize, w, p) && p in cbs
    ensures var r := Link.ReadStep(w, cbs);
            && |w.consumed| <= |w.accepted| && r.queue == [] && r.consumed == w.accepted == r.accepted
            && r.delivered == w.delivered + if cbs[p] then w.accepted[|w.consumed|..] else []
  {
    hide DecodeAll, Link.Dispatch;
    Link.DecodeNothing();
    var ps := DecodeAll(w.queue).value;
    assert w.queue[..|w.queue|] == w.queue;
    assert ps == w.accepted[|w.consumed|..];
    DispatchOnePort(ps, p, cbs);
  }

  // ------------------------------------------------- everything read is delivered

  /** On every pair, what was read was handed to the callback. */
  ghost predicate Handed(s: Whole) {
    forall n :: n in s.wires ==> s.wires[n].link.delivered == s.wires[n].link.consumed
  }

  /** A read finds records for a port whose callback no longer locks. */
  ghost predicate DeadRead(s: Whole, a: Action) {
    && a.Read? && a.fd in s.tables.listeners && a.fd in s.ends && s.ends[a.fd] in s.wires
    && s.wires[s.ends[a.fd]].link.queue != []
    && exists k :: k in s.tables.ports && s.tables.ports[k].fd == a.fd
                   && k.port in s.tables.callbacks && s.tables.callbacks[k.port] !in a.alive
  }

  lemma QuietHanded(bufSize: int, s: Whole, a: Action)
    requires Handed(s) && !a.Read?
    ensures Handed(Next(bufSize, s, a))
  {
    hide Step, Bag, Stores, Frame, NextEnds, Lost;
  }

  lemma ReadHanded(bufSize: int, s: Whole, f: int, alive: set<nat>)
    requires 0 < bufSize <= Link.MAX_SAFE_BUFFER && Inv(bufSize, s) && Handed(s)
    ensures Handed(Next(bufSize, s, Read(f, alive))) <==> !DeadRead(s, Read(f, alive))
  {
    hide Inv, Carries, Link.ReadStep;
    if f in s.tables.listeners && f in s.ends && s.ends[f] in s.wires {
      InvWired(bufSize, s);
      var k := OwnerOf(s, f);
      EntryFacts(bufSize, s, k);
      var n := s.ends[f];
      var w, cbs := s.wires[n].link, Visible(s.tables, alive);
      QueueDelivered(bufSize, w, k.port, cbs);
      QueuedRecords(bufSize, w, k.port);
      var r := Next(bufSize, s, Read(f, alive));
      assert r.wires[n].link.delivered == r.wires[n].link.consumed <==> w.queue == [] || cbs[k.port];
    }
  }

  lemma InvWired(bufSize: int, s: Whole)
    requires Inv(bufSize, s)
    ensures Wired(s)
  {
  }

  lemma QueuedRecords(bufSize: int, w: Link.State, p: Port)
    requires Carries(bufSize, w, p)
    ensures |w.consumed| <= |w.accepted| && w.accepted == w.consumed + w.accepted[|w.consumed|..]
    ensures w.accepted[|w.consumed|..] == [] <==> w.queue == []
  {
    Link.DecodeNothing();
    assert w.accepted[|w.consumed|..] == DecodeAll(w.queue).value;
  }

  /** Every action keeps it, with the one exception of a read for a dead callback. */
  lemma NextHanded(bufSize: int, s: Whole, a: Action)
    requires 0 < bufSize <= Link.MAX_SAFE_BUFFER && Inv(bufSize, s) && Handed(s)
    ensures Handed(Next(bufSize, s, a)) <==> !DeadRead(s, a)
  {
    hide Inv, Handed, Next;
    if a.Read? {
      ReadHanded(bufSize, s, a.fd, a.alive);
    } else {
      QuietHanded(bufSize, s, a);
    }
  }

  ghost predicate AlwaysHanded(bufSize: int, s: Whole, acts: seq<Action>)
    decreases |acts|
  {
    Handed(s) && (acts == [] || AlwaysHanded(bufSize, Next(bufSize, s, acts[0]), acts[1..]))
  }

  ghost predicate NoDeadRead(bufSize: int, s: Whole, acts: seq<Action>)
    decreases |acts|
  {
    acts == [] || (!DeadRead(s, acts[0]) && NoDeadRead(bufSize, Next(bufSize, s, acts[0]), acts[1..]))
  }

  lemma {:induction false} RunHanded(bufSize: int, s: Whole, acts: seq<Action>)
    requires 0 < bufSize <= Link.MAX_SAFE_BUFFER && Inv(bufSize, s) && FairRun(bufSize, s, acts) && Handed(s)
    ensures AlwaysHanded(bufSize, s, acts) <==> NoDeadRead(bufSize, s, acts)
    decreases |acts|
  {
    hide Inv, Fair, Next, Handed, DeadRead;
    if acts == [] {
    } else {
      NextInv(bufSize, s, acts[0]);
      NextHanded(bufSize, s, acts[0]);
      if !DeadRead(s, acts[0]) {
        RunHanded(bufSize, Next(bufSize, s, acts[0]), acts[1..]);
      } else {
        NotHandedNow(bufSize, Next(bufSize, s, acts[0]), acts[1..]);
      }
    }
  }

  lemma NotHandedNow(bufSize: int, s: Whole, acts: seq<Action>)
    requires !Handed(s)
    ensures !AlwaysHanded(bufSize, s, acts)
  {
  }

  /** Over every run: everything read was delivered, at every moment and on every pair, exactly
      when no read found records for a callback that no longer locks. */
  lemma DeliveredExactly(bufSize: int, acts: seq<Action>)
    requires 0 < bufSize <= Link.MAX_SAFE_BUFFER && FairRun(bufSize, START, acts)
    ensures AlwaysHanded(bufSize, START, acts) <==> NoDeadRead(bufSize, START, acts)
  {
    StartInv(bufSize);
    RunHanded(bufSize, START, acts);
  }
}
