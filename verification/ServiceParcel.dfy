/** The nested parcel of an SSAP service (ipc_parcel/parcel/nearlink_ssap_*_parcel.cpp and
    nearlink_uuid_parcel.cpp) over a parcel seen as a sequence of typed values. */
module ServiceParcel {
  import opened Common
  import opened Uuid

  type U16 = n: int | 0 <= n < 0x1_0000
  type U32 = n: int | 0 <= n < 0x1_0000_0000

  datatype Token = T8(b: bv8) | T16(h: U16) | T32(n: U32) | T64(w: bv64) | TBool(v: bool)

  datatype Descriptor = Descriptor(handle: U16, kind: bv8, value: seq<bv8>, writeInd: bv8, permission: U16)
  datatype Event = Event(handle: U16, uuid: Uuid, parameter: seq<bv8>)
  datatype Method = Method(handle: U16, uuid: Uuid, parameter: seq<bv8>, result: seq<bv8>, permission: U16)
  datatype Property = Property(handle: U16, uuid: Uuid, value: seq<bv8>, opInd: U32,
                               descriptors: seq<Descriptor>, permission: U16)
  datatype Service = Service(
    handle: U16, startHandle: U16, endHandle: U16, isPrimary: bool, uuid: Uuid, opInd: U32,
    includes: seq<Service>, properties: seq<Property>, methods: seq<Method>,
    events: seq<Event>, descriptors: seq<Descriptor>)

  const SERVICE_MAX := 0x100       // lists of a service
  const PROPERTY_MAX := 0x1000     // value and descriptor list of a property
  const DESCRIPTOR_MAX := 0x100    // value of a descriptor
  const METHOD_MAX := 0x1000
  const EVENT_MAX := 0x1000

  // ------------------------------------------------------------- writer's output

  /** `size()` stored into a `uint32_t`. */
  function Count(n: nat): U32 {
    n % 0x1_0000_0000
  }

  function Each<T>(xs: seq<T>, enc: T -> seq<Token>): seq<Token> {
    if xs == [] then [] else enc(xs[0]) + Each(xs[1..], enc)
  }

  function Vector<T>(xs: seq<T>, enc: T -> seq<Token>): seq<Token> {
    [T32(Count(|xs|))] + Each(xs, enc)
  }

  function EncByte(b: bv8): seq<Token> { [T8(b)] }

  function EncUuid(u: Uuid): seq<Token> { [T64(MostBits(u)), T64(LeastBits(u))] }

  function EncDescriptor(d: Descriptor): seq<Token> {
    [T16(d.handle), T8(d.kind)] + (Vector(d.value, EncByte) + [T8(d.writeInd), T16(d.permission)])
  }

  function EncEvent(e: Event): seq<Token> {
    [T16(e.handle)] + (EncUuid(e.uuid) + Vector(e.parameter, EncByte))
  }

  function EncMethod(m: Method): seq<Token> {
    [T16(m.handle)]
    + (EncUuid(m.uuid) + (Vector(m.parameter, EncByte) + (Vector(m.result, EncByte) + [T16(m.permission)])))
  }

  function EncProperty(p: Property): seq<Token> {
    [T16(p.handle)]
    + (EncUuid(p.uuid)
       + (Vector(p.value, EncByte) + ([T32(p.opInd)] + (Vector(p.descriptors, EncDescriptor) + [T16(p.permission)]))))
  }

  /** `includeServices_` is not written. */
  function EncService(s: Service): seq<Token> {
    [T16(s.handle), T16(s.startHandle), T16(s.endHandle), TBool(s.isPrimary)]
    + (EncUuid(s.uuid)
       + ([T32(s.opInd)]
          + (Vector(s.properties, EncProperty)
             + (Vector(s.methods, EncMethod) + (Vector(s.events, EncEvent) + Vector(s.descriptors, EncDescriptor))))))
  }

  lemma OneByte(b: bv8)
    ensures Vector([b], EncByte) == [T32(1), T8(b)]
  {
    assert [b][1..] == [];
    assert Each([b], EncByte) == EncByte(b) + Each([], EncByte);
  }

  lemma One<T>(x: T, enc: T -> seq<Token>)
    ensures Vector([x], enc) == [T32(1)] + enc(x)
  {
    assert [x][1..] == [];
    assert Each([x], enc) == enc(x) + Each([], enc);
  }

  /** The order of the typed values, by example: each list is its count and its elements. */
  lemma Layout(h: U16, k: bv8, b: bv8, w: bv8, p: U16, u: Uuid, c: bv8, n: U32)
    ensures EncDescriptor(Descriptor(h, k, [b], w, p)) == [T16(h), T8(k), T32(1), T8(b), T8(w), T16(p)]
    ensures EncEvent(Event(h, u, [b])) == [T16(h), T64(MostBits(u)), T64(LeastBits(u)), T32(1), T8(b)]
    ensures EncMethod(Method(h, u, [b], [c], p)) ==
            [T16(h), T64(MostBits(u)), T64(LeastBits(u)), T32(1), T8(b), T32(1), T8(c), T16(p)]
    ensures EncProperty(Property(h, u, [b], n, [], p)) ==
            [T16(h), T64(MostBits(u)), T64(LeastBits(u)), T32(1), T8(b), T32(n), T32(0), T16(p)]
  {
    hide MostBits, LeastBits;
    OneByte(b);
    OneByte(c);
    assert Vector([], EncDescriptor) == [T32(0)];
  }

  /** ... and of a service with one member of each kind; its include list is not there. */
  lemma ServiceLayout(s: Service, p: Property, m: Method, e: Event, d: Descriptor)
    requires s.properties == [p] && s.methods == [m] && s.events == [e] && s.descriptors == [d]
    ensures EncService(s) ==
            [T16(s.handle), T16(s.startHandle), T16(s.endHandle), TBool(s.isPrimary),
             T64(MostBits(s.uuid)), T64(LeastBits(s.uuid)), T32(s.opInd), T32(1)]
            + EncProperty(p) + [T32(1)] + EncMethod(m) + [T32(1)] + EncEvent(e) + [T32(1)] + EncDescriptor(d)
  {
    hide MostBits, LeastBits, EncProperty, EncMethod, EncEvent, EncDescriptor, Vector;
    One(p, EncProperty);
    One(m, EncMethod);
    One(e, EncEvent);
    One(d, EncDescriptor);
  }

  // ---------------------------------------------------------------------- reader

  type Reader<T> = seq<Token> -> Option<(T, seq<Token>)>

  function Take<T>(n: nat, ts: seq<Token>, dec: Reader<T>): Option<(seq<T>, seq<Token>)> {
    if n == 0 then Some(([], ts))
    else
      match dec(ts)
      case None => None
      case Some((x, rest)) =>
        match Take(n - 1, rest, dec)
        case None => None
        case Some((xs, end)) => Some(([x] + xs, end))
  }

  function DecVector<T>(ts: seq<Token>, max: nat, dec: Reader<T>): Option<(seq<T>, seq<Token>)> {
    if ts == [] || !ts[0].T32? || ts[0].n > max then None else Take(ts[0].n, ts[1..], dec)
  }

  function DecByte(ts: seq<Token>): Option<(bv8, seq<Token>)> {
    if ts == [] || !ts[0].T8? then None else Some((ts[0].b, ts[1..]))
  }

  function DecUuid(ts: seq<Token>): Option<(Uuid, seq<Token>)> {
    if |ts| < 2 || !ts[0].T64? || !ts[1].T64? then None
    else Some((FromHalves(ts[0].w, ts[1].w), ts[2..]))
  }

  function DecDescriptor(ts: seq<Token>): Option<(Descriptor, seq<Token>)> {
    if |ts| < 2 || !ts[0].T16? || !ts[1].T8? then None
    else
      match DecVector(ts[2..], DESCRIPTOR_MAX, DecByte)
      case None => None
      case Some((value, r)) =>
        if |r| < 2 || !r[0].T8? || !r[1].T16? then None
        else Some((Descriptor(ts[0].h, ts[1].b, value, r[0].b, r[1].h), r[2..]))
  }

  function DecEvent(ts: seq<Token>): Option<(Event, seq<Token>)> {
    if ts == [] || !ts[0].T16? then None
    else
      match DecUuid(ts[1..])
      case None => None
      case Some((uuid, r)) =>
        match DecVector(r, EVENT_MAX, DecByte)
        case None => None
        case Some((parameter, end)) => Some((Event(ts[0].h, uuid, parameter), end))
  }

  function DecMethod(ts: seq<Token>): Option<(Method, seq<Token>)> {
    if ts == [] || !ts[0].T16? then None
    else
      match DecUuid(ts[1..])
      case None => None
      case Some((uuid, r1)) =>
        match DecVector(r1, METHOD_MAX, DecByte)
        case None => None
        case Some((parameter, r2)) =>
          match DecVector(r2, METHOD_MAX, DecByte)
          case None => None
          case Some((result, r3)) =>
            if r3 == [] || !r3[0].T16? then None
            else Some((Method(ts[0].h, uuid, parameter, result, r3[0].h), r3[1..]))
  }

  function DecProperty(ts: seq<Token>): Option<(Property, seq<Token>)> {
    if ts == [] || !ts[0].T16? then None
    else
      match DecUuid(ts[1..])
      case None => None
      case Some((uuid, r1)) =>
        match DecVector(r1, PROPERTY_MAX, DecByte)
        case None => None
        case Some((value, r2)) =>
          if r2 == [] || !r2[0].T32? then None
          else
            match DecVector(r2[1..], PROPERTY_MAX, DecDescriptor)
            case None => None
            case Some((descriptors, r3)) =>
              if r3 == [] || !r3[0].T16? then None
              else Some((Property(ts[0].h, uuid, value, r2[0].n, descriptors, r3[0].h), r3[1..]))
  }

  /** The four member lists of a service. */
  datatype Members = Members(properties: seq<Property>, methods: seq<Method>,
                             events: seq<Event>, descriptors: seq<Descriptor>)

  function EncMembers(m: Members): seq<Token> {
    Vector(m.properties, EncProperty)
    + (Vector(m.methods, EncMethod) + (Vector(m.events, EncEvent) + Vector(m.descriptors, EncDescriptor)))
  }

  function DecMembers(ts: seq<Token>): Option<(Members, seq<Token>)> {
    match DecVector(ts, SERVICE_MAX, DecProperty)
    case None => None
    case Some((properties, r1)) =>
      match DecVector(r1, SERVICE_MAX, DecMethod)
      case None => None
      case Some((methods, r2)) =>
        match DecVector(r2, SERVICE_MAX, DecEvent)
        case None => None
        case Some((events, r3)) =>
          match DecVector(r3, SERVICE_MAX, DecDescriptor)
          case None => None
          case Some((descriptors, end)) => Some((Members(properties, methods, events, descriptors), end))
  }

  function MembersOf(s: Service): Members {
    Members(s.properties, s.methods, s.events, s.descriptors)
  }

  function DecService(ts: seq<Token>): Option<(Service, seq<Token>)> {
    if |ts| < 4 || !ts[0].T16? || !ts[1].T16? || !ts[2].T16? || !ts[3].TBool? then None
    else
      match DecUuid(ts[4..])
      case None => None
      case Some((uuid, r1)) =>
        if r1 == [] || !r1[0].T32? then None
        else
          match DecMembers(r1[1..])
          case None => None
          case Some((m, end)) =>
            Some((Service(ts[0].h, ts[1].h, ts[2].h, ts[3].v, uuid, r1[0].n, [],
                          m.properties, m.methods, m.events, m.descriptors), end))
  }

  // ---------------------------------------------------------------------- limits

  /** What the reader can return. */
  predicate OkDescriptor(d: Descriptor) { |d.value| <= DESCRIPTOR_MAX }
  predicate OkEvent(e: Event) { |e.parameter| <= EVENT_MAX }
  predicate OkMethod(m: Method) { |m.parameter| <= METHOD_MAX && |m.result| <= METHOD_MAX }
  predicate OkProperty(p: Property) {
    |p.value| <= PROPERTY_MAX && |p.descriptors| <= PROPERTY_MAX && All(p.descriptors, OkDescriptor)
  }
  predicate OkMembers(m: Members) {
    && |m.properties| <= SERVICE_MAX && All(m.properties, OkProperty)
    && |m.methods| <= SERVICE_MAX && All(m.methods, OkMethod)
    && |m.events| <= SERVICE_MAX && All(m.events, OkEvent)
    && |m.descriptors| <= SERVICE_MAX && All(m.descriptors, OkDescriptor)
  }

  /** The limits in numbers: 256 members of each kind, 4096 bytes or descriptors in a property,
      4096 bytes in a method's or an event's lists, 256 in a descriptor's value. */
  lemma LimitsInNumbers(m: Members)
    ensures OkMembers(m) <==>
            && |m.properties| <= 256 && |m.methods| <= 256 && |m.events| <= 256 && |m.descriptors| <= 256
            && (forall i :: 0 <= i < |m.properties| ==>
                  && |m.properties[i].value| <= 4096 && |m.properties[i].descriptors| <= 4096
                  && forall j :: 0 <= j < |m.properties[i].descriptors| ==>
                       |m.properties[i].descriptors[j].value| <= 256)
            && (forall i :: 0 <= i < |m.methods| ==> |m.methods[i].parameter| <= 4096 && |m.methods[i].result| <= 4096)
            && (forall i :: 0 <= i < |m.events| ==> |m.events[i].parameter| <= 4096)
            && (forall i :: 0 <= i < |m.descriptors| ==> |m.descriptors[i].value| <= 256)
  {
    assert All(m.descriptors, OkDescriptor) <==>
           forall i :: 0 <= i < |m.descriptors| ==> |m.descriptors[i].value| <= 256;
    forall i | 0 <= i < |m.properties|
      ensures OkProperty(m.properties[i]) <==>
              && |m.properties[i].value| <= 4096 && |m.properties[i].descriptors| <= 4096
              && forall j :: 0 <= j < |m.properties[i].descriptors| ==> |m.properties[i].descriptors[j].value| <= 256
    {
    }
  }

  predicate AnyByte(b: bv8) { true }

  predicate All<T>(xs: seq<T>, ok: T -> bool) {
    forall i :: 0 <= i < |xs| ==> ok(xs[i])
  }

  // ----------------------------------------------------- the reader is an inverse

  /** `dec` accepts exactly the encodings of acceptable values, and leaves the rest. */
  ghost predicate Exact<T(!new)>(enc: T -> seq<Token>, dec: Reader<T>, ok: T -> bool) {
    forall ts, x, rest :: dec(ts) == Some((x, rest)) <==> ts == enc(x) + rest && ok(x)
  }

  lemma {:induction false} TakeExact<T(!new)>(enc: T -> seq<Token>, dec: Reader<T>, ok: T -> bool,
                                              n: nat, ts: seq<Token>, xs: seq<T>, rest: seq<Token>)
    requires Exact(enc, dec, ok)
    ensures Take(n, ts, dec) == Some((xs, rest)) <==> |xs| == n && ts == Each(xs, enc) + rest && All(xs, ok)
  {
    if n == 0 {
      if |xs| == 0 {
        assert Each(xs, enc) + rest == rest;
      }
    } else {
      if |xs| == n && ts == Each(xs, enc) + rest && All(xs, ok) {
        var tail := Each(xs[1..], enc) + rest;
        assert ts == enc(xs[0]) + tail;
        assert dec(ts) == Some((xs[0], tail));
        TakeExact(enc, dec, ok, n - 1, tail, xs[1..], rest);
        assert xs == [xs[0]] + xs[1..];
      }
      if Take(n, ts, dec) == Some((xs, rest)) {
        var tail := dec(ts).value.1;
        assert dec(ts) == Some((xs[0], tail));
        TakeExact(enc, dec, ok, n - 1, tail, xs[1..], rest);
        assert ts == enc(xs[0]) + (Each(xs[1..], enc) + rest);
        assert ts == Each(xs, enc) + rest;
      }
    }
  }

  lemma VectorExact<T(!new)>(enc: T -> seq<Token>, dec: Reader<T>, ok: T -> bool, max: nat,
                             ts: seq<Token>, xs: seq<T>, rest: seq<Token>)
    requires Exact(enc, dec, ok) && max < 0x1_0000_0000
    ensures DecVector(ts, max, dec) == Some((xs, rest)) <==>
            ts == Vector(xs, enc) + rest && |xs| <= max && All(xs, ok)
  {
    hide Each, Take;
    if ts != [] && ts[0].T32? {
      TakeExact(enc, dec, ok, ts[0].n, ts[1..], xs, rest);
      assert ts == [ts[0]] + ts[1..];
    }
    if ts == Vector(xs, enc) + rest {
      assert ts[0] == T32(Count(|xs|)) && ts[1..] == Each(xs, enc) + rest;
    }
  }

  lemma BytesExact()
    ensures Exact(EncByte, DecByte, AnyByte)
  {
  }

  lemma ByteVector(max: nat, ts: seq<Token>, v: seq<bv8>, rest: seq<Token>)
    requires max < 0x1_0000_0000
    ensures DecVector(ts, max, DecByte) == Some((v, rest)) <==> ts == Vector(v, EncByte) + rest && |v| <= max
  {
    hide Vector, DecVector;
    BytesExact();
    VectorExact(EncByte, DecByte, AnyByte, max, ts, v, rest);
  }

  lemma UuidExact(ts: seq<Token>, u: Uuid, rest: seq<Token>)
    ensures DecUuid(ts) == Some((u, rest)) <==> ts == EncUuid(u) + rest
  {
    hide MostBits, LeastBits, FromHalves;
    if ts == EncUuid(u) + rest {
      HalvesRoundTrip(u, 0, 0);
    }
    if DecUuid(ts) == Some((u, rest)) {
      HalvesRoundTrip(u, ts[0].w, ts[1].w);
      assert ts == [ts[0], ts[1]] + ts[2..];
    }
  }

  lemma DescriptorExact(ts: seq<Token>, d: Descriptor, rest: seq<Token>)
    ensures DecDescriptor(ts) == Some((d, rest)) <==> ts == EncDescriptor(d) + rest && OkDescriptor(d)
  {
    hide Vector, DecVector;
    if ts == EncDescriptor(d) + rest {
      var r := [T8(d.writeInd), T16(d.permission)] + rest;
      assert ts[2..] == Vector(d.value, EncByte) + r;
      assert r[2..] == rest;
      ByteVector(DESCRIPTOR_MAX, ts[2..], d.value, r);
      if DecVector(ts[2..], DESCRIPTOR_MAX, DecByte).Some? {
        var (v, q) := DecVector(ts[2..], DESCRIPTOR_MAX, DecByte).value;
        ByteVector(DESCRIPTOR_MAX, ts[2..], v, q);
      }
    }
    if DecDescriptor(ts) == Some((d, rest)) {
      var r := DecVector(ts[2..], DESCRIPTOR_MAX, DecByte).value.1;
      ByteVector(DESCRIPTOR_MAX, ts[2..], d.value, r);
      assert r == [T8(d.writeInd), T16(d.permission)] + rest;
      assert ts == [T16(d.handle), T8(d.kind)] + ts[2..];
    }
  }

  lemma DescriptorsExact()
    ensures Exact(EncDescriptor, DecDescriptor, OkDescriptor)
  {
    hide EncDescriptor, DecDescriptor, OkDescriptor;
    forall ts, d, rest
      ensures DecDescriptor(ts) == Some((d, rest)) <==> ts == EncDescriptor(d) + rest && OkDescriptor(d)
    {
      DescriptorExact(ts, d, rest);
    }
  }

  lemma EventExact(ts: seq<Token>, e: Event, rest: seq<Token>)
    ensures DecEvent(ts) == Some((e, rest)) <==> ts == EncEvent(e) + rest && OkEvent(e)
  {
    hide Vector, DecVector, EncUuid, DecUuid;
    if ts == EncEvent(e) + rest && OkEvent(e) {
      var r := Vector(e.parameter, EncByte) + rest;
      assert ts[1..] == EncUuid(e.uuid) + r;
      UuidExact(ts[1..], e.uuid, r);
      ByteVector(EVENT_MAX, r, e.parameter, rest);
    }
    if DecEvent(ts) == Some((e, rest)) {
      var r := DecUuid(ts[1..]).value.1;
      UuidExact(ts[1..], e.uuid, r);
      ByteVector(EVENT_MAX, r, e.parameter, rest);
      assert ts == [T16(e.handle)] + ts[1..];
    }
  }

  lemma EventsExact()
    ensures Exact(EncEvent, DecEvent, OkEvent)
  {
    hide EncEvent, DecEvent, OkEvent;
    forall ts, e, rest ensures DecEvent(ts) == Some((e, rest)) <==> ts == EncEvent(e) + rest && OkEvent(e) {
      EventExact(ts, e, rest);
    }
  }

  lemma MethodExact(ts: seq<Token>, m: Method, rest: seq<Token>)
    ensures DecMethod(ts) == Some((m, rest)) <==> ts == EncMethod(m) + rest && OkMethod(m)
  {
    hide Vector, DecVector, EncUuid, DecUuid;
    if ts == EncMethod(m) + rest && OkMethod(m) {
      var r3 := [T16(m.permission)] + rest;
      var r2 := Vector(m.result, EncByte) + r3;
      var r1 := Vector(m.parameter, EncByte) + r2;
      assert ts[1..] == EncUuid(m.uuid) + r1;
      UuidExact(ts[1..], m.uuid, r1);
      ByteVector(METHOD_MAX, r1, m.parameter, r2);
      ByteVector(METHOD_MAX, r2, m.result, r3);
      assert r3[1..] == rest;
    }
    if DecMethod(ts) == Some((m, rest)) {
      var r1 := DecUuid(ts[1..]).value.1;
      UuidExact(ts[1..], m.uuid, r1);
      var r2 := DecVector(r1, METHOD_MAX, DecByte).value.1;
      ByteVector(METHOD_MAX, r1, m.parameter, r2);
      var r3 := DecVector(r2, METHOD_MAX, DecByte).value.1;
      ByteVector(METHOD_MAX, r2, m.result, r3);
      assert r3 == [T16(m.permission)] + rest;
      assert ts == [T16(m.handle)] + ts[1..];
      assert ts == EncMethod(m) + rest;
    }
  }

  lemma MethodsExact()
    ensures Exact(EncMethod, DecMethod, OkMethod)
  {
    hide EncMethod, DecMethod, OkMethod;
    forall ts, m, rest ensures DecMethod(ts) == Some((m, rest)) <==> ts == EncMethod(m) + rest && OkMethod(m) {
      MethodExact(ts, m, rest);
    }
  }

  lemma PropertyExact(ts: seq<Token>, p: Property, rest: seq<Token>)
    ensures DecProperty(ts) == Some((p, rest)) <==> ts == EncProperty(p) + rest && OkProperty(p)
  {
    hide Vector, DecVector, EncUuid, DecUuid, Exact, All;
    DescriptorsExact();
    if ts == EncProperty(p) + rest && OkProperty(p) {
      var r3 := [T16(p.permission)] + rest;
      var r2 := [T32(p.opInd)] + (Vector(p.descriptors, EncDescriptor) + r3);
      var r1 := Vector(p.value, EncByte) + r2;
      assert ts[1..] == EncUuid(p.uuid) + r1;
      UuidExact(ts[1..], p.uuid, r1);
      ByteVector(PROPERTY_MAX, r1, p.value, r2);
      assert r2[1..] == Vector(p.descriptors, EncDescriptor) + r3;
      VectorExact(EncDescriptor, DecDescriptor, OkDescriptor, PROPERTY_MAX, r2[1..], p.descriptors, r3);
      assert r3[1..] == rest;
    }
    if DecProperty(ts) == Some((p, rest)) {
      var r1 := DecUuid(ts[1..]).value.1;
      UuidExact(ts[1..], p.uuid, r1);
      var r2 := DecVector(r1, PROPERTY_MAX, DecByte).value.1;
      ByteVector(PROPERTY_MAX, r1, p.value, r2);
      var r3 := DecVector(r2[1..], PROPERTY_MAX, DecDescriptor).value.1;
      VectorExact(EncDescriptor, DecDescriptor, OkDescriptor, PROPERTY_MAX, r2[1..], p.descriptors, r3);
      assert r3 == [T16(p.permission)] + rest;
      assert r2 == [T32(p.opInd)] + r2[1..];
      assert ts == [T16(p.handle)] + ts[1..];
      assert ts == EncProperty(p) + rest;
    }
  }

  lemma PropertiesExact()
    ensures Exact(EncProperty, DecProperty, OkProperty)
  {
    hide EncProperty, DecProperty, OkProperty;
    forall ts, p, rest ensures DecProperty(ts) == Some((p, rest)) <==> ts == EncProperty(p) + rest && OkProperty(p) {
      PropertyExact(ts, p, rest);
    }
  }

  lemma MembersExact(ts: seq<Token>, m: Members, rest: seq<Token>)
    ensures DecMembers(ts) == Some((m, rest)) <==> ts == EncMembers(m) + rest && OkMembers(m)
  {
    hide Vector, DecVector, Exact, All;
    PropertiesExact();
    MethodsExact();
    EventsExact();
    DescriptorsExact();
    if ts == EncMembers(m) + rest && OkMembers(m) {
      var r3 := Vector(m.descriptors, EncDescriptor) + rest;
      var r2 := Vector(m.events, EncEvent) + r3;
      var r1 := Vector(m.methods, EncMethod) + r2;
      assert ts == Vector(m.properties, EncProperty) + r1;
      VectorExact(EncProperty, DecProperty, OkProperty, SERVICE_MAX, ts, m.properties, r1);
      VectorExact(EncMethod, DecMethod, OkMethod, SERVICE_MAX, r1, m.methods, r2);
      VectorExact(EncEvent, DecEvent, OkEvent, SERVICE_MAX, r2, m.events, r3);
      VectorExact(EncDescriptor, DecDescriptor, OkDescriptor, SERVICE_MAX, r3, m.descriptors, rest);
    }
    if DecMembers(ts) == Some((m, rest)) {
      var r1 := DecVector(ts, SERVICE_MAX, DecProperty).value.1;
      VectorExact(EncProperty, DecProperty, OkProperty, SERVICE_MAX, ts, m.properties, r1);
      var r2 := DecVector(r1, SERVICE_MAX, DecMethod).value.1;
      VectorExact(EncMethod, DecMethod, OkMethod, SERVICE_MAX, r1, m.methods, r2);
      var r3 := DecVector(r2, SERVICE_MAX, DecEvent).value.1;
      VectorExact(EncEvent, DecEvent, OkEvent, SERVICE_MAX, r2, m.events, r3);
      VectorExact(EncDescriptor, DecDescriptor, OkDescriptor, SERVICE_MAX, r3, m.descriptors, rest);
      assert ts == EncMembers(m) + rest;
    }
  }

  /** The reader returns a service exactly for its own encoding: every limit holds at
      every level, the include list is empty, and what follows is left in place. */
  lemma ServiceExact(ts: seq<Token>, s: Service, rest: seq<Token>)
    ensures DecService(ts) == Some((s, rest)) <==>
            ts == EncService(s) + rest && OkMembers(MembersOf(s)) && s.includes == []
  {
    hide Vector, DecVector, EncUuid, DecUuid, OkMembers, DecMembers;
    var m := MembersOf(s);
    if ts == EncService(s) + rest && OkMembers(m) && s.includes == [] {
      var r2 := EncMembers(m) + rest;
      var r1 := [T32(s.opInd)] + r2;
      assert ts[4..] == EncUuid(s.uuid) + r1;
      UuidExact(ts[4..], s.uuid, r1);
      assert r1[1..] == r2;
      MembersExact(r2, m, rest);
    }
    if DecService(ts) == Some((s, rest)) {
      var r1 := DecUuid(ts[4..]).value.1;
      UuidExact(ts[4..], s.uuid, r1);
      MembersExact(r1[1..], m, rest);
      assert r1 == [T32(s.opInd)] + r1[1..];
      assert ts == [T16(s.handle), T16(s.startHandle), T16(s.endHandle), TBool(s.isPrimary)] + ts[4..];
      assert ts == EncService(s) + rest;
    }
  }

  // -------------------------------------------------------------- what is written

  /** The writer's own test, on the count as stored in a `uint32_t`. */
  predicate WritableDescriptor(d: Descriptor) { OkDescriptor(d) }
  predicate WritableProperty(p: Property) {
    |p.value| <= PROPERTY_MAX && Count(|p.descriptors|) <= PROPERTY_MAX && All(p.descriptors, WritableDescriptor)
  }
  predicate Writable(s: Service) {
    && Count(|s.properties|) <= SERVICE_MAX && All(s.properties, WritableProperty)
    && Count(|s.methods|) <= SERVICE_MAX && All(s.methods, OkMethod)
    && Count(|s.events|) <= SERVICE_MAX && All(s.events, OkEvent)
    && Count(|s.descriptors|) <= SERVICE_MAX && All(s.descriptors, WritableDescriptor)
  }

  /** No list is so long that its count wraps. */
  predicate CountsFit(s: Service) {
    && |s.properties| < 0x1_0000_0000 && |s.methods| < 0x1_0000_0000
    && |s.events| < 0x1_0000_0000 && |s.descriptors| < 0x1_0000_0000
    && forall i :: 0 <= i < |s.properties| ==> |s.properties[i].descriptors| < 0x1_0000_0000
  }

  /** For a service the writer accepts, reading gives the same service back, without its
      includes and with any suffix untouched, exactly when no list count wraps. */
  lemma RoundTrip(s: Service, suffix: seq<Token>)
    requires Writable(s)
    ensures DecService(EncService(s) + suffix) == Some((s.(includes := []), suffix)) <==> CountsFit(s)
  {
    var t := s.(includes := []);
    hide EncService, DecService;
    assert EncService(t) == EncService(s) by { EncIgnoresIncludes(s); }
    ServiceExact(EncService(s) + suffix, t, suffix);
    LimitsMatch(s);
  }

  lemma EncIgnoresIncludes(s: Service)
    ensures EncService(s.(includes := [])) == EncService(s)
  {
    hide Vector;
  }

  /** Up to wrapping counts, the writer's limits are the reader's at every level. */
  lemma LimitsMatch(s: Service)
    ensures Writable(s) && CountsFit(s) <==> OkMembers(MembersOf(s))
  {
  }

  /** The wrap is reachable: 2^32 events are written under a count of zero. */
  lemma WrappedCountBreaksRoundTrip() returns (s: Service)
    ensures Writable(s) && !CountsFit(s)
    ensures DecService(EncService(s)) != Some((s, []))
  {
    var e := Event(0, ZERO_UUID, []);
    s := Service(0, 0, 0, true, ZERO_UUID, 0, [], [], [], seq(0x1_0000_0000, _ => e), []);
    RoundTrip(s, []);
    assert EncService(s) + [] == EncService(s);
  }
}
