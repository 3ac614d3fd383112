/** One direction of a data-transfer socket pair: `OutputStream::Write` at one end
    (socket/nearlink_socket_outputstream.cpp), `ReceivedData` at the other
    (frameworks/native/nearlink_sle_datatransfer.cpp). The kernel is a byte queue. */
module Link {
  import opened Common
  import opened LittleEndian
  import opened FrameCodec

  const SOCKET_BUFFER_SIZE := 51200
  const SOCKET_PACKET_HEAD_LENGTH := 1512
  const SOCKET_BUFFER_THRESHOLD_REPORT := 40 * 1024

  /** The largest send buffer whose content always fits one `recv`. */
  const MAX_SAFE_BUFFER := SOCKET_BUFFER_SIZE + SOCKET_PACKET_HEAD_LENGTH

  datatype TransState = Success | InternalFault | CacheFull

  /** The kernel's side of one `Write`: whether both size queries worked, and what
      `send` returned (at most the frame length). */
  datatype Kernel = Kernel(reports: bool, sent: int)

  /** Ports with a callback entry, and whether the weak pointer still locks. */
  type Callbacks = map<Port, bool>

  // ------------------------------------------------------------ specification

  /** The admission test: skipped unless the queue report says there is room left. */
  predicate Admitted(bufSize: int, inQueue: nat, length: nat, reports: bool) {
    reports && bufSize > inQueue ==> length + SOCKET_PACKET_HEAD_LENGTH <= bufSize - inQueue
  }

  function WriteResult(bufSize: int, inQueue: nat, length: nat, k: Kernel): TransState {
    if !Admitted(bufSize, inQueue, length, k.reports) then CacheFull
    else if k.sent <= 0 then InternalFault
    else Success
  }

  function Taken(length: nat, k: Kernel): (n: nat)
    ensures n <= length
  {
    if k.sent <= 0 then 0 else if k.sent <= length then k.sent else length
  }

  function Received(queue: seq<byte>): (n: nat)
    ensures n <= |queue|
  {
    if |queue| <= SOCKET_BUFFER_SIZE then |queue| else SOCKET_BUFFER_SIZE
  }

  /** What the receive loop hands to user callbacks: it stops at the first record
      whose port has no entry and skips records whose callback is gone. */
  function Dispatch(ps: seq<Packet>, cbs: Callbacks): seq<Packet> {
    if ps == [] || ps[0].port !in cbs then []
    else (if cbs[ps[0].port] then [ps[0]] else []) + Dispatch(ps[1..], cbs)
  }

  predicate Registered(ps: seq<Packet>, cbs: Callbacks) {
    forall i :: 0 <= i < |ps| ==> ps[i].port in cbs
  }

  /** The queue together with the history of the link: records whose send reported
      success, records decoded by reads, records handed to callbacks, and the
      number of non-empty reads the decoder refused. */
  datatype State = State(queue: seq<byte>, accepted: seq<Packet>, consumed: seq<Packet>,
                         delivered: seq<Packet>, rejected: nat)

  const EMPTY := State([], [], [], [], 0)

  datatype Event =
    | Send(packet: Packet, kernel: Kernel)
    | Read(cbs: Callbacks)

  function SendStep(bufSize: int, s: State, p: Packet, k: Kernel): State {
    if p.address == [] || p.uuid == [] then s
    else if WriteResult(bufSize, |s.queue|, FrameLength(p), k) != Success then s
    else s.(queue := s.queue + Frame(p)[..Taken(FrameLength(p), k)], accepted := s.accepted + [p])
  }

  function ReadStep(s: State, cbs: Callbacks): State {
    if s.queue == [] then s
    else
      var n := Received(s.queue);
      var rest := s.(queue := s.queue[n..]);
      match DecodeAll(s.queue[..n])
      case None => rest.(rejected := s.rejected + 1)
      case Some(ps) => rest.(consumed := s.consumed + ps, delivered := s.delivered + Dispatch(ps, cbs))
  }

  function Step(bufSize: int, s: State, e: Event): State {
    match e
    case Send(p, k) => SendStep(bufSize, s, p, k)
    case Read(cbs) => ReadStep(s, cbs)
  }

  function Run(bufSize: int, s: State, es: seq<Event>): State
    decreases |es|
  {
    if es == [] then s else Run(bufSize, Step(bufSize, s, es[0]), es[1..])
  }

  /** The environment assumption: queue reports work, and a `send` that takes
      anything takes the whole frame. */
  predicate Whole(e: Event) {
    e.Send? ==> e.kernel.reports && (e.kernel.sent <= 0 || e.kernel.sent == FrameLength(e.packet))
  }

  predicate AllWhole(es: seq<Event>) {
    forall i :: 0 <= i < |es| ==> Whole(es[i])
  }

  /** Sends use only `ports`, and each of them has a live callback at every read. */
  ghost predicate LiveOn(es: seq<Event>, ports: set<Port>) {
    forall i :: 0 <= i < |es| ==>
                  match es[i]
                  case Send(p, _) => p.port in ports
                  case Read(cbs) => forall q <- ports :: q in cbs && cbs[q]
  }

  // ----------------------------------------------------------------- invariant

  ghost predicate Sound(bufSize: int, s: State) {
    && DecodeAll(s.queue).Some?
    && s.accepted == s.consumed + DecodeAll(s.queue).value
    && s.rejected == 0
    && (s.queue == [] || |s.queue| + SOCKET_PACKET_HEAD_LENGTH <= bufSize)
  }

  lemma SendSound(bufSize: int, s: State, p: Packet, k: Kernel)
    requires 0 < bufSize <= MAX_SAFE_BUFFER && Sound(bufSize, s) && Whole(Send(p, k))
    ensures Sound(bufSize, SendStep(bufSize, s, p, k))
  {
    hide Frame, Frames, DecodeAll;
    var s' := SendStep(bufSize, s, p, k);
    if s' != s {
      var ps := DecodeAll(s.queue).value;
      StreamGrammar(s.queue, ps);
      assert Frame(p)[..FrameLength(p)] == Frame(p);
      assert s'.queue == s.queue + Frame(p);
      AppendDecodes(s.queue, ps, p);
    }
  }

  lemma AppendDecodes(queue: seq<byte>, ps: seq<Packet>, p: Packet)
    requires queue == Frames(ps) && AllSendable(ps) && Sendable(p)
    requires |queue| + FrameLength(p) < SIZE_LIMIT
    ensures DecodeAll(queue + Frame(p)) == Some(ps + [p])
  {
    hide Frame, DecodeAll, Sendable;
    FramesConcat(ps, [p]);
    assert [p][1..] == [] && Frames([p]) == Frame(p);
    StreamGrammar(queue + Frame(p), ps + [p]);
  }

  lemma DecodeNothing()
    ensures DecodeAll([]) == Some([])
  {
  }

  lemma ReadSound(bufSize: int, s: State, cbs: Callbacks)
    requires 0 < bufSize <= MAX_SAFE_BUFFER && Sound(bufSize, s)
    ensures Sound(bufSize, ReadStep(s, cbs))
    ensures ReadStep(s, cbs).queue == []
  {
    hide DecodeAll;
    assert DecodeAll([]) == Some([]) by { DecodeNothing(); }
    assert s.queue[..|s.queue|] == s.queue;
  }

  lemma {:induction false} RunSound(bufSize: int, s: State, es: seq<Event>)
    requires 0 < bufSize <= MAX_SAFE_BUFFER && Sound(bufSize, s) && AllWhole(es)
    ensures Sound(bufSize, Run(bufSize, s, es))
    decreases |es|
  {
    hide Sound, SendStep, ReadStep;
    if es == [] {
    } else {
      match es[0] {
        case Send(p, k) => SendSound(bufSize, s, p, k);
        case Read(cbs) => ReadSound(bufSize, s, cbs);
      }
      RunSound(bufSize, Step(bufSize, s, es[0]), es[1..]);
    }
  }

  lemma {:induction false} DispatchAll(ps: seq<Packet>, cbs: Callbacks)
    requires forall i :: 0 <= i < |ps| ==> ps[i].port in cbs && cbs[ps[i].port]
    ensures Dispatch(ps, cbs) == ps
  {
    if ps == [] {
    } else {
      DispatchAll(ps[1..], cbs);
    }
  }

  ghost predicate Live(s: State, ports: set<Port>) {
    s.delivered == s.consumed && forall i :: 0 <= i < |s.accepted| ==> s.accepted[i].port in ports
  }

  lemma StepLive(bufSize: int, s: State, e: Event, ports: set<Port>)
    requires 0 < bufSize <= MAX_SAFE_BUFFER && Sound(bufSize, s) && LiveOn([e], ports)
    requires Live(s, ports)
    ensures Live(Step(bufSize, s, e), ports)
  {
    hide DecodeAll, Frame, Dispatch;
    assert [e][0] == e;
    if e.Read? && s.queue != [] {
      assert s.queue[..|s.queue|] == s.queue;
      var ps := DecodeAll(s.queue).value;
      forall i | 0 <= i < |ps| ensures ps[i].port in ports {
        assert ps[i] == s.accepted[|s.consumed| + i];
      }
      DispatchAll(ps, e.cbs);
    }
  }

  lemma {:induction false} RunDelivers(bufSize: int, s: State, es: seq<Event>, ports: set<Port>)
    requires 0 < bufSize <= MAX_SAFE_BUFFER && Sound(bufSize, s) && AllWhole(es) && LiveOn(es, ports)
    requires Live(s, ports)
    ensures Live(Run(bufSize, s, es), ports)
    decreases |es|
  {
    hide Sound, Live, SendStep, ReadStep;
    if es == [] {
    } else {
      assert LiveOn([es[0]], ports) && LiveOn(es[1..], ports);
      StepLive(bufSize, s, es[0], ports);
      assert AllWhole(es[..1]);
      RunSound(bufSize, s, es[..1]);
      assert es[..1][1..] == [];
      RunDelivers(bufSize, Step(bufSize, s, es[0]), es[1..], ports);
    }
  }

  // -------------------------------------------------------------- main results

  /** Delivery over every interleaving of sends and reads: accepted records are
      exactly the delivered ones followed by the queued ones, in order; the branch of
      `Write` that skips the admission test is not reached; no read is refused. */
  lemma EndToEndDelivery(bufSize: int, es: seq<Event>, ports: set<Port>)
    requires 0 < bufSize <= MAX_SAFE_BUFFER && AllWhole(es)
    ensures var s := Run(bufSize, EMPTY, es);
            && |s.queue| < bufSize
            && s.rejected == 0
            && (exists queued ::
                  s.queue == Frames(queued) && s.accepted == s.consumed + queued)
            && (LiveOn(es, ports) ==> s.delivered == s.consumed)
  {
    hide Frames, DecodeAll;
    assert Sound(bufSize, EMPTY) by { DecodeNothing(); }
    RunSound(bufSize, EMPTY, es);
    var s := Run(bufSize, EMPTY, es);
    StreamGrammar(s.queue, DecodeAll(s.queue).value);
    if LiveOn(es, ports) {
      RunDelivers(bufSize, EMPTY, es, ports);
    }
  }

  /** A frame one byte longer than a `recv`. */
  function Oversized(): (p: Packet)
    ensures FrameLength(p) == SOCKET_BUFFER_SIZE + 1 && Sendable(p)
    ensures p.address != [] && p.uuid != []
  {
    Packet([1], [1], 1, seq(SOCKET_BUFFER_SIZE + 1 - MIN_FRAME - 2, _ => 0))
  }

  /** A read that cuts a frame loses everything it took, whole frames included. */
  lemma CutReadLosesAll(s: State, ps: seq<Packet>, cbs: Callbacks)
    requires s.queue == Frames(ps) && AllSendable(ps) && |s.queue| < SIZE_LIMIT && s.queue != []
    requires forall i :: 0 <= i <= |ps| ==> |Frames(ps[..i])| != Received(s.queue)
    ensures ReadStep(s, cbs) == s.(queue := s.queue[Received(s.queue)..], rejected := s.rejected + 1)
  {
    CutInsideFrameRejects(ps, Received(s.queue));
  }

  /** The buffer sizes for which no run of whole sends ever has a read refused are
      exactly 1..52712. */
  lemma SafeBufferSizes(bufSize: int)
    ensures (forall es | AllWhole(es) :: Run(bufSize, EMPTY, es).rejected == 0)
            <==> 0 < bufSize <= 52712
  {
    if 0 < bufSize <= MAX_SAFE_BUFFER {
      forall es | AllWhole(es)
        ensures Run(bufSize, EMPTY, es).rejected == 0
      {
        EndToEndDelivery(bufSize, es, {});
      }
    } else {
      UnsafeBufferRun(bufSize);
    }
  }

  lemma UnsafeBufferRun(bufSize: int)
    requires !(0 < bufSize <= MAX_SAFE_BUFFER)
    ensures exists es :: AllWhole(es) && Run(bufSize, EMPTY, es).rejected != 0
  {
    hide Frame, Frames, DecodeAll, Oversized;
    var p := Oversized();
    var send, read := Send(p, Kernel(true, FrameLength(p))), Read(map[]);
    var es := [send, read];
    var s := Step(bufSize, EMPTY, send);
    assert Frame(p)[..FrameLength(p)] == Frame(p);
    assert s.queue == Frame(p) == Frames([p]) by {
      FramesOne(p);
    }
    assert Frames([p][..0]) == [] by { FramesNone(); }
    assert [p][..1] == [p];
    CutReadLosesAll(s, [p], map[]);
    assert es[1..] == [read] && es[1..][1..] == [];
    assert Run(bufSize, s, [read]) == Run(bufSize, Step(bufSize, s, read), []);
    assert Run(bufSize, EMPTY, es) == Run(bufSize, s, [read]);
    assert AllWhole(es);
  }

  lemma FramesOne(p: Packet)
    ensures Frames([p]) == Frame(p)
  {
    hide Frame;
    assert [p][1..] == [];
    assert Frames([p]) == Frame(p) + Frames([]);
  }

  lemma FramesNone()
    ensures Frames([]) == []
  {
  }

  /** `Write` reports success for any positive `send`; if one takes only part of a
      frame, the next read refuses the whole batch, earlier frames included. */
  lemma ShortSendPoisonsBatch(bufSize: int, s: State, ps: seq<Packet>, p: Packet, k: Kernel, cbs: Callbacks)
    requires s.queue == Frames(ps) && AllSendable(ps) && Sendable(p)
    requires |s.queue| + FrameLength(p) <= SOCKET_BUFFER_SIZE
    requires p.address != [] && p.uuid != []
    requires WriteResult(bufSize, |s.queue|, FrameLength(p), k) == Success && k.sent < FrameLength(p)
    ensures var sent := SendStep(bufSize, s, p, k);
            && sent.accepted == s.accepted + [p]
            && ReadStep(sent, cbs).delivered == s.delivered
            && ReadStep(sent, cbs).rejected == s.rejected + 1
            && ReadStep(sent, cbs).queue == []
  {
    hide Frame, Frames, DecodeAll, Sendable;
    var sent := SendStep(bufSize, s, p, k);
    var all := ps + [p];
    var cut := |s.queue| + k.sent;
    FramesConcat(ps, [p]);
    FramesOne(p);
    assert Frames(all)[..cut] == sent.queue;
    forall i | 0 <= i <= |all| ensures |Frames(all[..i])| != cut {
      if i <= |ps| {
        assert ps[..i] + ps[i..] == ps && all[..i] == ps[..i];
        FramesConcat(ps[..i], ps[i..]);
      } else {
        assert all[..i] == all;
      }
    }
    CutInsideFrameRejects(all, cut);
    assert sent.queue[..|sent.queue|] == sent.queue;
  }

  // ------------------------------------------------------------------ the code

  class Socket {
    const bufSize: int
    var queue: seq<byte>
    var callbacks: Callbacks
    var delivered: seq<Packet>
    ghost var history: State

    ghost predicate Valid()
      reads this
    {
      history.queue == queue && history.delivered == delivered
    }

    constructor (bufSize: int)
      ensures Valid() && this.bufSize == bufSize && history == EMPTY && callbacks == map[]
    {
      this.bufSize := bufSize;
      queue, callbacks, delivered := [], map[], [];
      history := EMPTY;
    }

    method Write(buf: seq<byte>, k: Kernel) returns (r: TransState)
      requires k.sent <= |buf|
      modifies this`queue
      ensures r == CacheFull <==>
              k.reports && |old(queue)| < bufSize && bufSize - |old(queue)| < |buf| + 1512
      ensures r == Success ==> k.sent > 0
      ensures r == InternalFault ==> k.sent <= 0
      ensures r == WriteResult(bufSize, |old(queue)|, |buf|, k)
      ensures queue == if r == Success then old(queue) + buf[..k.sent] else old(queue)
    {
      var bytesInBuffer := |queue|;
      if k.reports && bufSize > bytesInBuffer {
        var availableLength := bufSize - bytesInBuffer;
        var sendLength := |buf| + SOCKET_PACKET_HEAD_LENGTH;
        if availableLength < sendLength {
          return CacheFull;
        }
      }
      if k.sent <= 0 {
        return InternalFault;
      }
      queue := queue + buf[..k.sent];
      return Success;
    }

    /** Serialises one record and writes it through the entry of its port and address. With
        no such entry (`present` is false) success is reported and nothing is written. */
    method SendPacket(p: Packet, k: Kernel, present: bool) returns (r: TransState)
      requires Valid()
      requires FrameLength(p) < SIZE_LIMIT && k.sent <= FrameLength(p)
      modifies this
      ensures Valid() && callbacks == old(callbacks)
      ensures history == if present then SendStep(bufSize, old(history), p, k) else old(history)
      ensures r == Success <==> p.address != [] && p.uuid != []
                                && (present ==> WriteResult(bufSize, |old(queue)|, FrameLength(p), k) == Success)
      ensures r == Success && history.accepted == old(history.accepted) <==>
              p.address != [] && p.uuid != [] && !present
      ensures r == Success && present ==>
                history.accepted == old(history.accepted) + [p] && queue == old(queue) + Frame(p)[..k.sent]
      ensures r != Success || !present ==> history.accepted == old(history.accepted) && queue == old(queue)
    {
      hide Frame;
      var packageData := SerializeData(p);
      if packageData == null {
        return InternalFault;
      }
      if !present {
        return Success;
      }
      r := Write(packageData[..], k);
      history := SendStep(bufSize, history, p, k);
    }

    /** Reads once, decodes the batch and hands every record to its callback; after a long
        read it also tells the service, which answers `reported`. It succeeds exactly if all
        of that worked. */
    method ReceivedData(reported: bool) returns (ok: bool)
      requires Valid()
      modifies this
      ensures Valid() && callbacks == old(callbacks)
      ensures history == ReadStep(old(history), callbacks)
      ensures var n := Received(old(queue));
              var decoded := DecodeAll(old(queue)[..n]);
              ok <==>
              && n > 0 && decoded.Some? && Registered(decoded.value, callbacks)
              && (n >= SOCKET_BUFFER_THRESHOLD_REPORT ==> reported)
    {
      hide Frames, DecodeAll, Dispatch, Registered;
      var n := Received(queue);
      var buf := queue[..n];
      queue := queue[n..];
      history := ReadStep(history, callbacks);
      if n == 0 {
        return false;
      }
      var packageList := DeserializeDataList(buf);
      StreamGrammar(buf, packageList);
      assert Frames([]) == [] by { FramesNone(); }
      if packageList == [] {
        return false;
      }
      var dispatched := DispatchRecords(packageList);
      if !dispatched {
        return false;
      }
      if n >= SOCKET_BUFFER_THRESHOLD_REPORT && !reported {
        return false;
      }
      return true;
    }

    /** Hands records to their callbacks, up to the first port without one. */
    method DispatchRecords(packageList: seq<Packet>) returns (ok: bool)
      modifies this`delivered
      ensures delivered == old(delivered) + Dispatch(packageList, callbacks)
      ensures ok <==> Registered(packageList, callbacks)
    {
      hide Dispatch;
      ghost var all := delivered + Dispatch(packageList, callbacks);
      assert packageList[0..] == packageList;
      for i := 0 to |packageList|
        invariant all == delivered + Dispatch(packageList[i..], callbacks)
        invariant forall j :: 0 <= j < i ==> packageList[j].port in callbacks
      {
        var dataParams := packageList[i];
        DispatchStep(packageList, i, callbacks);
        if dataParams.port !in callbacks {
          return false;
        }
        if callbacks[dataParams.port] {
          delivered := delivered + [dataParams];
        }
      }
      DispatchNone(callbacks);
      assert packageList[|packageList|..] == [];
      return true;
    }
  }

  lemma DispatchStep(ps: seq<Packet>, i: nat, cbs: Callbacks)
    requires i < |ps|
    ensures Dispatch(ps[i..], cbs) ==
            if ps[i].port !in cbs then []
            else (if cbs[ps[i].port] then [ps[i]] else []) + Dispatch(ps[i + 1..], cbs)
  {
    assert ps[i..][0] == ps[i] && ps[i..][1..] == ps[i + 1..];
  }

  /** Appending a record adds exactly that record, and only if all ports up to it are registered
      and its callback locks. */
  lemma {:induction false} DispatchSnoc(ps: seq<Packet>, p: Packet, cbs: Callbacks)
    ensures Dispatch(ps + [p], cbs) ==
            if (forall i :: 0 <= i < |ps| ==> ps[i].port in cbs) && p.port in cbs && cbs[p.port]
            then Dispatch(ps, cbs) + [p]
            else Dispatch(ps, cbs)
  {
    if ps == [] {
      assert [p][1..] == [] && ps + [p] == [p];
    } else {
      assert (ps + [p])[1..] == ps[1..] + [p];
      DispatchSnoc(ps[1..], p, cbs);
      assert forall i :: 1 <= i < |ps| ==> ps[i] == ps[1..][i - 1];
    }
  }

  lemma DispatchNone(cbs: Callbacks)
    ensures Dispatch([], cbs) == []
  {
  }
}
