/** What a socket pair of `Channel` carries, told from the list of past actions alone: which
    sends were accepted, what is still queued, and what was handed to callbacks. */
module ChannelHistory {
  import opened Common
  import opened LittleEndian
  import opened FrameCodec
  import opened TransferTables
  import opened TransferHistory
  import opened Channel
  import Link

  function Events(acts: seq<Action>): seq<Event> {
    if acts == [] then []
    else
      var before, a := acts[..|acts| - 1], acts[|acts| - 1];
      if a.Call? then Events(before) + [a.event] else Events(before)
  }

  function Offers(acts: seq<Action>): nat {
    if acts == [] then 0
    else Offers(acts[..|acts| - 1]) + if acts[|acts| - 1].Offer? then 1 else 0
  }

  /** The pair the service made last for this key, unless it withdrew it. */
  function ServicePair(acts: seq<Action>, key: Key): Option<nat> {
    if acts == [] then None
    else
      var before, a := acts[..|acts| - 1], acts[|acts| - 1];
      if a == Offer(key) then Some(Offers(before))
      else if a == Withdraw(key) then None
      else ServicePair(before, key)
  }

  /** The request stores the socket of this key. */
  ghost predicate StoresAt(es: seq<Event>, e: Event, k: Key) {
    && e.Connect? && e.connection.state == Connected && e.connection.fd >= 0
    && e.connection.port == k.port && e.connection.address == k.address
    && e.connection.owner && e.connection.alive && PortInUse(es, k.port)
  }

  /** The pair whose framework end is the socket of this key. */
  ghost function EndPair(acts: seq<Action>, k: Key): Option<nat> {
    if acts == [] || SocketOf(Events(acts), k) == None then None
    else
      var before, a := acts[..|acts| - 1], acts[|acts| - 1];
      if a.Call? && StoresAt(Events(before), a.event, k) then Some(a.pair) else EndPair(before, k)
  }

  /** A request brought the framework end of the pair. */
  predicate Brought(acts: seq<Action>, n: nat) {
    exists i :: 0 <= i < |acts| && BringsPair(acts[i], n)
  }

  predicate BringsPair(a: Action, n: nat) {
    && a.Call? && a.pair == n
    && a.event.Connect? && a.event.connection.state == Connected && a.event.connection.fd >= 0
  }

  /** The framework end is on its way, or is some socket. */
  ghost predicate OpenPair(acts: seq<Action>, n: nat) {
    n < Offers(acts) && (!Brought(acts, n) || exists k :: EndPair(acts, k) == Some(n))
  }

  /** The worker finds the socket `f` of this pair, for the port of `k`. */
  ghost predicate ReadsFrom(acts: seq<Action>, n: nat, f: int, k: Key) {
    && EndPair(acts, k) == Some(n)
    && SocketOf(Events(acts), k).Some? && SocketOf(Events(acts), k).value.fd == f
  }

  ghost predicate CallbackLocks(es: seq<Event>, p: Port, alive: set<nat>) {
    exists u :: RegisteredAs(es, u).Some? && RegisteredAs(es, u).value.port == p
                && RegisteredAs(es, u).value.callback in alive
  }

  /** The length of a frame and of several. */
  function Length(p: Packet): nat {
    34 + |p.address| + |p.uuid| + |p.data|
  }

  function Total(ps: seq<Packet>): nat {
    if ps == [] then 0 else Total(ps[..|ps| - 1]) + Length(ps[|ps| - 1])
  }

  /** Records accepted for a pair, those not read yet, and those handed to the callback. */
  datatype Traffic = Traffic(sent: seq<Packet>, pending: seq<Packet>, handed: seq<Packet>)

  /** A send is accepted if the service's entry leads to this pair, its other end is open,
      address and uuid are not empty, the frame with its allowance of 1512 bytes fits into
      what the queue leaves of the buffer, and the kernel takes it. A read through a socket of
      the pair takes everything, for the callback if that still locks. */
  ghost function TrafficOf(bufSize: int, acts: seq<Action>, n: nat): Traffic {
    if acts == [] then Traffic([], [], [])
    else
      var before, a := acts[..|acts| - 1], acts[|acts| - 1];
      var t := TrafficOf(bufSize, before, n);
      match a
      case Send(key, address, uuid, data, kernel) =>
        var p := Packet(address, uuid, key.port, data);
        if ServicePair(before, key) == Some(n) && OpenPair(before, n) && address != [] && uuid != []
           && Total(t.pending) + Length(p) + 1512 <= bufSize && kernel.sent > 0
        then Traffic(t.sent + [p], t.pending + [p], t.handed)
        else t
      case Read(f, alive) =>
        if exists k :: ReadsFrom(before, n, f, k) && CallbackLocks(Events(before), k.port, alive)
        then Traffic(t.sent, [], t.handed + t.pending)
        else if exists k :: ReadsFrom(before, n, f, k) then Traffic(t.sent, [], t.handed)
        else t
      case _ => t
  }

  // ------------------------------------------------------------ the pairs and ends

  /** Tables, service entries, ends and pairs are what the history tells. */
  ghost predicate PairsTold(acts: seq<Action>, s: Whole) {
    && Tells(Events(acts), s.tables)
    && s.made == Offers(acts)
    && (forall key :: key in s.service <==> ServicePair(acts, key).Some?)
    && (forall key :: key in s.service ==> ServicePair(acts, key) == Some(s.service[key]))
    && (forall k :: k in s.tables.ports ==>
          s.tables.ports[k].fd in s.ends && EndPair(acts, k) == Some(s.ends[s.tables.ports[k].fd]))
    && (forall n: nat :: n in s.ends.Values ==> Brought(acts, n))
    && (forall n: nat :: Brought(acts, n) ==> n < s.made)
    && (forall n: nat :: n in s.wires <==> n < s.made && (!Brought(acts, n) || n in s.ends.Values))
  }

  lemma LastAction(acts: seq<Action>, a: Action)
    ensures (acts + [a])[..|acts + [a]| - 1] == acts && (acts + [a])[|acts + [a]| - 1] == a
  {
  }

  lemma BroughtSnoc(acts: seq<Action>, a: Action, n: nat)
    ensures Brought(acts + [a], n) <==> Brought(acts, n) || BringsPair(a, n)
  {
    if Brought(acts, n) {
      var i :| 0 <= i < |acts| && BringsPair(acts[i], n);
      assert (acts + [a])[i] == acts[i];
    }
    if BringsPair(a, n) {
      assert (acts + [a])[|acts|] == a;
    }
    if Brought(acts + [a], n) {
      var i :| 0 <= i < |acts + [a]| && BringsPair((acts + [a])[i], n);
      if i < |acts| {
        assert acts[i] == (acts + [a])[i];
      }
    }
  }

  lemma EndPairNone(acts: seq<Action>, s: Whole, k: Key)
    requires PairsTold(acts, s)
    ensures EndPair(acts, k).Some? <==> k in s.tables.ports
  {
    hide Tells;
    TellsSocket(Events(acts), s.tables, k);
  }

  /** Open pairs are those with a queue. */
  lemma OpenIsWired(acts: seq<Action>, s: Whole, n: nat)
    requires PairsTold(acts, s) && Wired(s)
    ensures n in s.wires <==> OpenPair(acts, n)
  {
    hide Tells, EndPair, Brought;
    if n in s.ends.Values {
      var f :| f in s.ends && s.ends[f] == n;
      var k := OwnerOf(s, f);
      assert EndPair(acts, k) == Some(n);
    }
    if k :| EndPair(acts, k) == Some(n) {
      EndPairNone(acts, s, k);
    }
  }

  lemma StoresIsStoresAt(es: seq<Event>, s: State, e: Event, k: Key)
    requires Tells(es, s) && Agree(s)
    ensures StoresAt(es, e, k) <==> Stores(s, e) && k == Key(e.connection.port, e.connection.address)
  {
    hide Tells, Agree, PortInUse;
    PortsInUseAreKeys(es, s, k.port);
  }

  lemma CallEndPair(bufSize: int, acts: seq<Action>, s: Whole, e: Event, pair: nat, k: Key)
    requires PairsTold(acts, s) && Inv(bufSize, s) && Fair(s, Call(e, pair))
    requires Tells(Events(acts) + [e], Step(s.tables, e)) && k in Step(s.tables, e).ports
    ensures var r := Next(bufSize, s, Call(e, pair));
            && r.tables.ports[k].fd in r.ends
            && EndPair(acts + [Call(e, pair)], k) == Some(r.ends[r.tables.ports[k].fd])
  {
    hide Step, Tells, Agree, Conserved, Owned, AllCarry, PortsMatch, Expected, NextEnds, Lost;
    hide StoresAt, Stores, SocketOf;
    var a := Call(e, pair);
    LastAction(acts, a);
    var f := Step(s.tables, e).ports[k].fd;
    assert f in Fds(Step(s.tables, e).ports);
    EndsAfter(s, e, pair, f);
    EntriesComeFrom(s.tables, e, k);
    StoresIsStoresAt(Events(acts), s.tables, e, k);
    TellsSocket(Events(acts) + [e], Step(s.tables, e), k);
    StoredAt(s.tables, e, k);
  }

  lemma StoredAt(s: State, e: Event, k: Key)
    requires Stores(s, e) && k == Key(e.connection.port, e.connection.address) ==> k in Step(s, e).ports
    ensures Stores(s, e) && k == Key(e.connection.port, e.connection.address) ==>
              Step(s, e).ports[k].fd == e.connection.fd
  {
    hide Bag, Fds, Only;
  }

  lemma CallPairs(bufSize: int, acts: seq<Action>, s: Whole, e: Event, pair: nat, n: nat)
    requires PairsTold(acts, s) && Inv(bufSize, s) && Fair(s, Call(e, pair))
    ensures var r := Next(bufSize, s, Call(e, pair));
            && (n in r.ends.Values ==> Brought(acts + [Call(e, pair)], n))
            && (Brought(acts + [Call(e, pair)], n) ==> n < r.made)
            && (n in r.wires <==> n < r.made && (!Brought(acts + [Call(e, pair)], n) || n in r.ends.Values))
  {
    hide Step, Tells, Agree, Conserved, Owned, PortsMatch, Expected, NextEnds, Lost, SocketOf, Brought, Stores;
    var r := Next(bufSize, s, Call(e, pair));
    BroughtSnoc(acts, Call(e, pair), n);
    StoresBrings(s.tables, e);
    CallWired(bufSize, s, e, pair);
    if n in r.ends.Values {
      var f :| f in r.ends && r.ends[f] == n;
      EndsAfter(s, e, pair, f);
      assert r.ends[f] in r.wires;
    }
    if n in s.wires {
      ClosingDropsItsOwnQueue(bufSize, s, e, pair, n);
      if n in s.ends.Values {
        var f :| f in s.ends && s.ends[f] == n;
        EndsAfter(s, e, pair, f);
      }
      if Stores(s.tables, e) && n == pair {
        StoredIsOwned(s.tables, e);
        EndsAfter(s, e, pair, e.connection.fd);
      }
    }
  }

  lemma CallTold(bufSize: int, acts: seq<Action>, s: Whole, e: Event, pair: nat)
    requires PairsTold(acts, s) && Inv(bufSize, s) && Fair(s, Call(e, pair))
    ensures PairsTold(acts + [Call(e, pair)], Next(bufSize, s, Call(e, pair)))
  {
    hide Step, Tells, Agree, Conserved, Owned, AllCarry, PortsMatch, Wired, Expected, NextEnds, Lost, EndPair, Brought;
    var a := Call(e, pair);
    var r := Next(bufSize, s, a);
    LastAction(acts, a);
    StepTells(Events(acts), s.tables, e);
    forall k | k in r.tables.ports
      ensures r.tables.ports[k].fd in r.ends && EndPair(acts + [a], k) == Some(r.ends[r.tables.ports[k].fd])
    {
      CallEndPair(bufSize, acts, s, e, pair, k);
    }
    forall n: nat
      ensures n in r.ends.Values ==> Brought(acts + [a], n)
      ensures Brought(acts + [a], n) ==> n < r.made
      ensures n in r.wires <==> n < r.made && (!Brought(acts + [a], n) || n in r.ends.Values)
    {
      CallPairs(bufSize, acts, s, e, pair, n);
    }
  }

  lemma QuietEndPair(acts: seq<Action>, a: Action, k: Key)
    requires !a.Call?
    ensures EndPair(acts + [a], k) == EndPair(acts, k) && Events(acts + [a]) == Events(acts)
    ensures forall n: nat :: Brought(acts + [a], n) <==> Brought(acts, n)
  {
    hide SocketOf, Brought;
    LastAction(acts, a);
    forall n: nat ensures Brought(acts + [a], n) <==> Brought(acts, n) {
      BroughtSnoc(acts, a, n);
    }
  }

  lemma QuietHistory(acts: seq<Action>, a: Action)
    requires !a.Call?
    ensures Events(acts + [a]) == Events(acts)
    ensures forall k :: EndPair(acts + [a], k) == EndPair(acts, k)
    ensures forall n: nat :: Brought(acts + [a], n) <==> Brought(acts, n)
    ensures !a.Offer? ==> Offers(acts + [a]) == Offers(acts)
    ensures !a.Offer? && !a.Withdraw? ==> forall key :: ServicePair(acts + [a], key) == ServicePair(acts, key)
  {
    hide EndPair, Brought;
    LastAction(acts, a);
    QuietEndPair(acts, a, Key(0, []));
    forall k ensures EndPair(acts + [a], k) == EndPair(acts, k) {
      QuietEndPair(acts, a, k);
    }
  }

  lemma QuietTold(bufSize: int, acts: seq<Action>, s: Whole, a: Action)
    requires PairsTold(acts, s) && Inv(bufSize, s) && !a.Call?
    ensures PairsTold(acts + [a], Next(bufSize, s, a))
  {
    hide Inv, Tells, EndPair, Brought, Offers, ServicePair, Events, Link.SendStep, Link.ReadStep;
    QuietHistory(acts, a);
    if a.Offer? || a.Withdraw? {
      InvWired(bufSize, s);
      ServiceTold(bufSize, acts, s, a);
    } else {
      assert Next(bufSize, s, a).wires.Keys == s.wires.Keys;
    }
  }

  lemma ServiceHistory(acts: seq<Action>, a: Action, j: Key)
    requires a.Offer? || a.Withdraw?
    ensures Offers(acts + [a]) == Offers(acts) + if a.Offer? then 1 else 0
    ensures ServicePair(acts + [a], j) ==
            if j != a.key then ServicePair(acts, j) else if a.Offer? then Some(Offers(acts)) else None
  {
    LastAction(acts, a);
  }

  lemma ServiceTold(bufSize: int, acts: seq<Action>, s: Whole, a: Action)
    requires PairsTold(acts, s) && Wired(s) && (a.Offer? || a.Withdraw?)
    ensures PairsTold(acts + [a], Next(bufSize, s, a))
  {
    hide Tells, EndPair, Brought, Fds, ServicePair, Offers, Events;
    QuietHistory(acts, a);
    ServiceHistory(acts, a, a.key);
    forall j ensures ServicePair(acts + [a], j) ==
                     if j != a.key then ServicePair(acts, j) else if a.Offer? then Some(Offers(acts)) else None {
      ServiceHistory(acts, a, j);
    }
    if a.Offer? {
      OfferedPairs(bufSize, acts, s, a.key);
    }
  }

  lemma OfferedPairs(bufSize: int, acts: seq<Action>, s: Whole, key: Key)
    requires PairsTold(acts, s)
    ensures var r := Next(bufSize, s, Offer(key));
            && r.ends == s.ends && r.made == s.made + 1
            && forall n: nat :: n in r.wires <==> n < r.made && (!Brought(acts, n) || n in s.ends.Values)
  {
    hide Tells, EndPair, Brought, Fds, ServicePair, Offers, Events;
    var r := Next(bufSize, s, Offer(key));
    assert r.wires.Keys == s.wires.Keys + {s.made};
  }

  // ------------------------------------------------------------------- the traffic

  ghost predicate Told(t: Traffic, w: Link.State) {
    && w.accepted == t.sent && w.queue == Frames(t.pending) && w.accepted == w.consumed + t.pending
    && w.delivered == t.handed
  }

  ghost predicate ToldAt(bufSize: int, acts: seq<Action>, s: Whole, n: nat) {
    n in s.wires ==> Told(TrafficOf(bufSize, acts, n), s.wires[n].link)
  }

  ghost predicate AllTold(bufSize: int, acts: seq<Action>, s: Whole) {
    forall n: nat :: ToldAt(bufSize, acts, s, n)
  }

  lemma {:induction false} NotOffered(bufSize: int, acts: seq<Action>, n: nat)
    requires n >= Offers(acts)
    ensures TrafficOf(bufSize, acts, n) == Traffic([], [], [])
  {
    hide OpenPair, ReadsFrom, CallbackLocks;
    if acts == [] {
    } else {
      NotOffered(bufSize, acts[..|acts| - 1], n);
      OpenOffered(acts[..|acts| - 1], n);
    }
  }

  lemma OpenOffered(acts: seq<Action>, n: nat)
    ensures OpenPair(acts, n) ==> n < Offers(acts)
  {
  }

  lemma {:induction false} TotalIsLength(ps: seq<Packet>)
    ensures |Frames(ps)| == Total(ps)
  {
    hide Frame;
    if ps == [] {
    } else {
      var before, p := ps[..|ps| - 1], ps[|ps| - 1];
      TotalIsLength(before);
      assert ps == before + [p];
      FramesConcat(before, [p]);
      Link.FramesOne(p);
    }
  }

  lemma SendTold(bufSize: int, t: Traffic, w: Link.State, p: Packet, kernel: Link.Kernel)
    requires 0 < bufSize <= Link.MAX_SAFE_BUFFER && Told(t, w) && Link.Sound(bufSize, w)
    requires Link.Whole(Link.Send(p, kernel))
    ensures Told(if p.address != [] && p.uuid != [] && Total(t.pending) + Length(p) + 1512 <= bufSize && kernel.sent > 0
                 then Traffic(t.sent + [p], t.pending + [p], t.handed) else t,
                 Link.SendStep(bufSize, w, p, kernel))
  {
    hide Frame, Frames, DecodeAll;
    TotalIsLength(t.pending);
    FramesConcat(t.pending, [p]);
    Link.FramesOne(p);
    assert Frame(p)[..FrameLength(p)] == Frame(p);
  }

  lemma ReadTold(bufSize: int, t: Traffic, w: Link.State, port: Port, cbs: Link.Callbacks)
    requires 0 < bufSize <= Link.MAX_SAFE_BUFFER && Told(t, w) && Carries(bufSize, w, port) && port in cbs
    ensures Told(Traffic(t.sent, [], if cbs[port] then t.handed + t.pending else t.handed), Link.ReadStep(w, cbs))
  {
    hide Frame, DecodeAll, Link.ReadStep, Carries;
    QueueDelivered(bufSize, w, port, cbs);
    assert w.accepted[|w.consumed|..] == t.pending;
    Link.FramesNone();
  }

  lemma LocksIsVisible(es: seq<Event>, s: State, p: Port, alive: set<nat>)
    requires Tells(es, s) && Agree(s) && p in s.callbacks
    ensures CallbackLocks(es, p, alive) <==> s.callbacks[p] in alive
  {
    hide RegisteredAs, SocketOf;
    assert p in s.uuidAndPort.Values;
    var u :| u in s.uuidAndPort && s.uuidAndPort[u] == p;
    assert RegisteredAs(es, u) == Some(Registration(p, s.callbacks[p]));
  }

  lemma ReadsFromExactly(bufSize: int, acts: seq<Action>, s: Whole, n: nat, f: int, k: Key)
    requires PairsTold(acts, s) && Inv(bufSize, s)
    ensures ReadsFrom(acts, n, f, k) <==>
            k in s.tables.ports && s.tables.ports[k].fd == f && f in s.ends && s.ends[f] == n
  {
    hide Tells, EndPair, SocketOf, Good, AllCarry, PortsMatch, Wired;
    EndPairNone(acts, s, k);
    TellsSocket(Events(acts), s.tables, k);
  }

  lemma SendTraffic(bufSize: int, acts: seq<Action>, s: Whole, a: Action, n: nat)
    requires 0 < bufSize <= Link.MAX_SAFE_BUFFER && a.Send? && Fair(s, a)
    requires PairsTold(acts, s) && Inv(bufSize, s) && ToldAt(bufSize, acts, s, n) && n in s.wires
    ensures ToldAt(bufSize, acts + [a], Next(bufSize, s, a), n)
  {
    hide Tells, Good, EndPair, Brought, OpenPair, Told, ReadsFrom, CallbackLocks, Link.SendStep, Link.Whole, PortsMatch;
    LastAction(acts, a);
    OpenIsWired(acts, s, n);
    var w := s.wires[n];
    assert Link.Sound(bufSize, w.link) by { CarriesSound(bufSize, w.link, w.port); }
    SendTold(bufSize, TrafficOf(bufSize, acts, n), w.link, PacketOf(a), a.kernel);
  }

  lemma CarriesSound(bufSize: int, w: Link.State, p: Port)
    requires Carries(bufSize, w, p)
    ensures Link.Sound(bufSize, w)
  {
  }

  lemma ReadTraffic(bufSize: int, acts: seq<Action>, s: Whole, f: int, alive: set<nat>, n: nat)
    requires 0 < bufSize <= Link.MAX_SAFE_BUFFER
    requires PairsTold(acts, s) && Inv(bufSize, s) && ToldAt(bufSize, acts, s, n) && n in s.wires
    ensures ToldAt(bufSize, acts + [Read(f, alive)], Next(bufSize, s, Read(f, alive)), n)
  {
    hide Tells, Told, TrafficOf, ReadsFrom, CallbackLocks, EndPair, Brought, Inv, Link.ReadStep;
    var a := Read(f, alive);
    InvWired(bufSize, s);
    ReadHistory(bufSize, acts, f, alive, n);
    var t := TrafficOf(bufSize, acts, n);
    if f in s.ends && s.ends[f] == n {
      var k := OwnerOf(s, f);
      EntryFacts(bufSize, s, k);
      ReadsFromExactly(bufSize, acts, s, n, f, k);
      LocksHere(bufSize, acts, s, k.port, alive);
      ReadTold(bufSize, t, s.wires[n].link, k.port, Visible(s.tables, alive));
      forall j | ReadsFrom(acts, n, f, j) ensures j == k {
        ReadsFromExactly(bufSize, acts, s, n, f, j);
      }
    } else {
      forall j ensures !ReadsFrom(acts, n, f, j) {
        ReadsFromExactly(bufSize, acts, s, n, f, j);
      }
    }
  }

  lemma LocksHere(bufSize: int, acts: seq<Action>, s: Whole, p: Port, alive: set<nat>)
    requires PairsTold(acts, s) && Inv(bufSize, s) && p in s.tables.callbacks
    ensures CallbackLocks(Events(acts), p, alive) <==> s.tables.callbacks[p] in alive
  {
    hide Tells, Agree, Conserved, Owned, Wired, AllCarry, PortsMatch;
    LocksIsVisible(Events(acts), s.tables, p, alive);
  }

  lemma ReadHistory(bufSize: int, acts: seq<Action>, f: int, alive: set<nat>, n: nat)
    ensures var t := TrafficOf(bufSize, acts, n);
            TrafficOf(bufSize, acts + [Read(f, alive)], n) ==
            if exists k :: ReadsFrom(acts, n, f, k) && CallbackLocks(Events(acts), k.port, alive)
            then Traffic(t.sent, [], t.handed + t.pending)
            else if exists k :: ReadsFrom(acts, n, f, k) then Traffic(t.sent, [], t.handed)
            else t
  {
    hide ReadsFrom, CallbackLocks;
    LastAction(acts, Read(f, alive));
  }

  lemma StillTraffic(bufSize: int, acts: seq<Action>, a: Action, n: nat)
    requires !a.Send? && !a.Read?
    ensures TrafficOf(bufSize, acts + [a], n) == TrafficOf(bufSize, acts, n)
  {
    LastAction(acts, a);
  }

  lemma NextTold(bufSize: int, acts: seq<Action>, s: Whole, a: Action)
    requires 0 < bufSize <= Link.MAX_SAFE_BUFFER && Fair(s, a)
    requires PairsTold(acts, s) && Inv(bufSize, s) && AllTold(bufSize, acts, s)
    ensures AllTold(bufSize, acts + [a], Next(bufSize, s, a))
  {
    hide PairsTold, Inv, Told, TrafficOf, Step, NextEnds, Lost, Link.SendStep, Link.ReadStep, Link.Whole, Expected;
    var r := Next(bufSize, s, a);
    forall n: nat | n in r.wires ensures ToldAt(bufSize, acts + [a], r, n) {
      assert ToldAt(bufSize, acts, s, n);
      match a {
        case Send(_, _, _, _, _) => SendTraffic(bufSize, acts, s, a, n);
        case Read(f, alive) => ReadTraffic(bufSize, acts, s, f, alive, n);
        case _ =>
          StillTraffic(bufSize, acts, a, n);
          if a.Offer? && n == s.made {
            OfferedNow(bufSize, acts, s);
          }
      }
    }
  }

  lemma OfferedNow(bufSize: int, acts: seq<Action>, s: Whole)
    requires PairsTold(acts, s)
    ensures Told(TrafficOf(bufSize, acts, s.made), Link.EMPTY)
  {
    NotOffered(bufSize, acts, s.made);
    Link.FramesNone();
  }

  // ----------------------------------------------------------------- main result

  lemma {:induction false} ReachedSnoc(bufSize: int, s: Whole, acts: seq<Action>, a: Action)
    ensures Reached(bufSize, s, acts + [a]) == Next(bufSize, Reached(bufSize, s, acts), a)
    ensures FairRun(bufSize, s, acts + [a]) <==> FairRun(bufSize, s, acts) && Fair(Reached(bufSize, s, acts), a)
    decreases |acts|
  {
    hide Next, Fair;
    if acts == [] {
      assert [a][1..] == [] && acts + [a] == [a];
      assert Reached(bufSize, Next(bufSize, s, a), []) == Next(bufSize, s, a);
      assert FairRun(bufSize, Next(bufSize, s, a), []);
    } else {
      assert (acts + [a])[1..] == acts[1..] + [a];
      ReachedSnoc(bufSize, Next(bufSize, s, acts[0]), acts[1..], a);
    }
  }

  lemma {:induction false} EverythingTold(bufSize: int, acts: seq<Action>)
    requires 0 < bufSize <= Link.MAX_SAFE_BUFFER && FairRun(bufSize, START, acts)
    ensures var s := Reached(bufSize, START, acts);
            PairsTold(acts, s) && Inv(bufSize, s) && AllTold(bufSize, acts, s)
    decreases |acts|
  {
    hide Inv, Next, Fair, PairsTold, AllTold, FairRun;
    if acts == [] {
      StartTold(bufSize);
    } else {
      var before, a := acts[..|acts| - 1], acts[|acts| - 1];
      assert acts == before + [a];
      ReachedSnoc(bufSize, START, before, a);
      EverythingTold(bufSize, before);
      var s := Reached(bufSize, START, before);
      NextInv(bufSize, s, a);
      NextTold(bufSize, before, s, a);
      if a.Call? {
        CallTold(bufSize, before, s, a.event, a.pair);
      } else {
        QuietTold(bufSize, before, s, a);
      }
    }
  }

  lemma StartTold(bufSize: int)
    ensures PairsTold([], START) && Inv(bufSize, START) && AllTold(bufSize, [], START)
    ensures Reached(bufSize, START, []) == START
  {
    NothingYet();
    StartInv(bufSize);
  }

  /** After every fair run, the pairs that still have a queue are exactly those whose framework
      end is on its way or stored, and of each of them: the accepted records are exactly the
      sends that the history admits, in order, the queue holds the frames of those sent since
      the last read, and what was delivered are those read while the callback of the port
      still locked. */
  lemma TrafficIsHistory(bufSize: int, acts: seq<Action>, n: nat)
    requires 0 < bufSize <= Link.MAX_SAFE_BUFFER && FairRun(bufSize, START, acts)
    ensures var s := Reached(bufSize, START, acts);
            && (n in s.wires <==> OpenPair(acts, n))
            && (n in s.wires ==>
                  var t, w := TrafficOf(bufSize, acts, n), s.wires[n].link;
                  && w.accepted == t.sent
                  && w.queue == Frames(t.pending)
                  && w.delivered == t.handed)
  {
    hide FairRun, Reached, OpenPair, TrafficOf;
    EverythingTold(bufSize, acts);
    var s := Reached(bufSize, START, acts);
    InvWired(bufSize, s);
    OpenIsWired(acts, s, n);
    assert ToldAt(bufSize, acts, s, n);
  }

  /** In particular: a record sent through an open pair with room for it is accepted, and the next
      read of the socket of that pair delivers it after everything sent before, if the callback
      locks. */
  lemma SentIsDelivered(bufSize: int, acts: seq<Action>, a: Action, n: nat, k: Key, f: int, alive: set<nat>)
    requires 0 < bufSize <= Link.MAX_SAFE_BUFFER && FairRun(bufSize, START, acts + [a])
    requires a.Send? && ServicePair(acts, a.key) == Some(n) && ReadsFrom(acts, n, f, k)
    requires a.address != [] && a.uuid != [] && a.kernel.sent > 0
    requires Total(TrafficOf(bufSize, acts, n).pending) + 34 + |a.address| + |a.uuid| + |a.data| + 1512 <= bufSize
    requires CallbackLocks(Events(acts), k.port, alive)
    ensures var t := TrafficOf(bufSize, acts, n);
            var r := Reached(bufSize, START, acts + [a] + [Read(f, alive)]);
            && n in r.wires
            && r.wires[n].link.accepted == t.sent + [Packet(a.address, a.uuid, a.key.port, a.data)]
            && r.wires[n].link.delivered == t.handed + t.pending + [Packet(a.address, a.uuid, a.key.port, a.data)]
            && r.wires[n].link.queue == []
  {
    hide FairRun, Reached, EndPair, Brought, OpenPair, CallbackLocks, ReadsFrom, TrafficOf, Inv, PairsTold, AllTold;
    var read := Read(f, alive);
    ReachedSnoc(bufSize, START, acts, a);
    ReachedSnoc(bufSize, START, acts + [a], read);
    assert Fair(Reached(bufSize, START, acts + [a]), read);
    EverythingTold(bufSize, acts);
    ReadsOpen(bufSize, acts, Reached(bufSize, START, acts), n, f, k);
    QuietOpen(acts, a, n);
    QuietOpen(acts + [a], read, n);
    TrafficIsHistory(bufSize, acts + [a] + [read], n);
    SendHistory(bufSize, acts, a, n);
    SameReads(acts, a, n, f, k);
    ReadHistory(bufSize, acts + [a], f, alive, n);
    Link.FramesNone();
  }

  lemma SendHistory(bufSize: int, acts: seq<Action>, a: Action, n: nat)
    requires a.Send? && ServicePair(acts, a.key) == Some(n) && OpenPair(acts, n)
    requires a.address != [] && a.uuid != [] && a.kernel.sent > 0
    requires Total(TrafficOf(bufSize, acts, n).pending) + Length(PacketOf(a)) + 1512 <= bufSize
    ensures var t := TrafficOf(bufSize, acts, n);
            TrafficOf(bufSize, acts + [a], n) == Traffic(t.sent + [PacketOf(a)], t.pending + [PacketOf(a)], t.handed)
  {
    hide OpenPair, ServicePair;
    LastAction(acts, a);
  }

  lemma SameReads(acts: seq<Action>, a: Action, n: nat, f: int, k: Key)
    requires !a.Call?
    ensures ReadsFrom(acts + [a], n, f, k) <==> ReadsFrom(acts, n, f, k)
    ensures Events(acts + [a]) == Events(acts)
  {
    hide EndPair, SocketOf;
    QuietEndPair(acts, a, k);
  }

  lemma QuietOpen(acts: seq<Action>, a: Action, n: nat)
    requires !a.Call? && !a.Offer?
    ensures OpenPair(acts + [a], n) <==> OpenPair(acts, n)
  {
    hide EndPair, Brought;
    LastAction(acts, a);
    forall k ensures EndPair(acts + [a], k) == EndPair(acts, k) {
      QuietEndPair(acts, a, k);
    }
    QuietEndPair(acts, a, Key(0, []));
    if k :| EndPair(acts, k) == Some(n) {
      assert EndPair(acts + [a], k) == Some(n);
    }
  }

  lemma ReadsOpen(bufSize: int, acts: seq<Action>, s: Whole, n: nat, f: int, k: Key)
    requires PairsTold(acts, s) && Inv(bufSize, s) && ReadsFrom(acts, n, f, k)
    ensures OpenPair(acts, n)
  {
    hide Tells, EndPair, Brought, Inv;
    InvWired(bufSize, s);
    ReadsFromExactly(bufSize, acts, s, n, f, k);
    OpenIsWired(acts, s, n);
  }
}
