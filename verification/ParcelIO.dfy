/** The parcel writers and readers in their own form: loops that push values and move a
    read cursor (ipc_parcel/parcel/nearlink_ssap_*_parcel.cpp). */
module ParcelIO {
  import opened Common
  import opened Uuid
  import opened ServiceParcel

  /** `whole` is `done` followed by what is still to be read. */
  ghost predicate Continues<T(!new)>(whole: Option<(seq<T>, seq<Token>)>, done: seq<T>,
                                     more: Option<(seq<T>, seq<Token>)>)
  {
    whole == match more
             case None => None
             case Some((xs, end)) => Some((done + xs, end))
  }

  lemma TakeFirst<T(!new)>(whole: Option<(seq<T>, seq<Token>)>, done: seq<T>, n: nat, ts: seq<Token>, dec: Reader<T>)
    requires n > 0 && Continues(whole, done, Take(n, ts, dec))
    ensures dec(ts).None? ==> whole.None?
    ensures dec(ts).Some? ==> Continues(whole, done + [dec(ts).value.0], Take(n - 1, dec(ts).value.1, dec))
  {
    if dec(ts).Some? {
      var (x, rest) := dec(ts).value;
      if Take(n - 1, rest, dec).Some? {
        var xs := Take(n - 1, rest, dec).value.0;
        assert done + ([x] + xs) == done + [x] + xs;
      }
    }
  }

  lemma TakeStart<T(!new)>(n: nat, ts: seq<Token>, dec: Reader<T>)
    ensures Continues(Take(n, ts, dec), [], Take(n, ts, dec))
  {
    if Take(n, ts, dec).Some? {
      assert [] + Take(n, ts, dec).value.0 == Take(n, ts, dec).value.0;
    }
  }

  lemma EachFirst<T>(xs: seq<T>, i: nat, enc: T -> seq<Token>)
    requires i < |xs|
    ensures Each(xs[i..], enc) == enc(xs[i]) + Each(xs[i + 1..], enc)
  {
    assert xs[i..][1..] == xs[i + 1..];
  }

  lemma EachNone<T>(enc: T -> seq<Token>)
    ensures Each([], enc) == []
  {
  }

  class Parcel {
    var data: seq<Token>
    var cursor: nat

    ghost predicate Valid()
      reads this
    {
      cursor <= |data|
    }

    ghost function Rest(): seq<Token>
      requires Valid()
      reads this
    {
      data[cursor..]
    }

    constructor ()
      ensures Valid() && data == [] && cursor == 0
    {
      data, cursor := [], 0;
    }

    // ------------------------------------------------------------------ writing

    method Write(ts: seq<Token>)
      modifies this`data
      ensures data == old(data) + ts
    {
      data := data + ts;
    }

    method WriteBytes(v: seq<bv8>, max: nat) returns (ok: bool)
      modifies this`data
      ensures ok <==> |v| <= max
      ensures ok ==> data == old(data) + Vector(v, EncByte)
      ensures !ok ==> data == old(data)
    {
      if |v| > max {
        return false;
      }
      ghost var goal := data + Vector(v, EncByte);
      data := data + [T32(Count(|v|))];
      assert v[0..] == v;
      for i := 0 to |v|
        invariant data + Each(v[i..], EncByte) == goal
      {
        EachFirst(v, i, EncByte);
        data := data + [T8(v[i])];
      }
      EachNone(EncByte);
      return true;
    }

    method WriteUuid(u: Uuid)
      modifies this`data
      ensures data == old(data) + EncUuid(u)
    {
      hide Word;
      var most := SignificantBits(u, true);
      var least := SignificantBits(u, false);
      data := data + [T64(most)];
      data := data + [T64(least)];
    }

    method WriteDescriptor(d: Descriptor) returns (ok: bool)
      modifies this`data
      ensures ok <==> WritableDescriptor(d)
      ensures ok ==> data == old(data) + EncDescriptor(d)
      ensures old(data) <= data
    {
      hide Vector;
      Write([T16(d.handle), T8(d.kind)]);
      ok := WriteBytes(d.value, DESCRIPTOR_MAX);
      if !ok { return; }
      Write([T8(d.writeInd), T16(d.permission)]);
    }

    method WriteDescriptors(ds: seq<Descriptor>, max: nat) returns (ok: bool)
      modifies this`data
      ensures ok <==> Count(|ds|) <= max && All(ds, WritableDescriptor)
      ensures ok ==> data == old(data) + Vector(ds, EncDescriptor)
      ensures old(data) <= data
    {
      hide EncDescriptor, WritableDescriptor;
      if Count(|ds|) > max {
        return false;
      }
      ghost var goal := data + Vector(ds, EncDescriptor);
      data := data + [T32(Count(|ds|))];
      assert ds[0..] == ds;
      for i := 0 to |ds|
        invariant old(data) <= data && data + Each(ds[i..], EncDescriptor) == goal
        invariant All(ds[..i], WritableDescriptor)
      {
        EachFirst(ds, i, EncDescriptor);
        ghost var before := data;
        ok := WriteDescriptor(ds[i]);
        if !ok { return; }
        assert data + Each(ds[i + 1..], EncDescriptor) == before + Each(ds[i..], EncDescriptor);
      }
      EachNone(EncDescriptor);
      assert ds[..|ds|] == ds;
      return true;
    }

    method WriteEvent(e: Event) returns (ok: bool)
      modifies this`data
      ensures ok <==> OkEvent(e)
      ensures ok ==> data == old(data) + EncEvent(e)
      ensures old(data) <= data
    {
      hide Vector, EncUuid;
      Write([T16(e.handle)]);
      WriteUuid(e.uuid);
      ok := WriteBytes(e.parameter, EVENT_MAX);
    }

    method WriteMethod(m: Method) returns (ok: bool)
      modifies this`data
      ensures ok <==> OkMethod(m)
      ensures ok ==> data == old(data) + EncMethod(m)
      ensures old(data) <= data
    {
      hide Vector, EncUuid;
      Write([T16(m.handle)]);
      WriteUuid(m.uuid);
      ok := WriteBytes(m.parameter, METHOD_MAX);
      if !ok { return; }
      ok := WriteBytes(m.result, METHOD_MAX);
      if !ok { return; }
      Write([T16(m.permission)]);
    }

    method WriteProperty(p: Property) returns (ok: bool)
      modifies this`data
      ensures ok <==> WritableProperty(p)
      ensures ok ==> data == old(data) + EncProperty(p)
      ensures old(data) <= data
    {
      hide Vector, EncUuid, All;
      Write([T16(p.handle)]);
      WriteUuid(p.uuid);
      ok := WriteBytes(p.value, PROPERTY_MAX);
      if !ok { return; }
      Write([T32(p.opInd)]);
      ok := WriteDescriptors(p.descriptors, PROPERTY_MAX);
      if !ok { return; }
      Write([T16(p.permission)]);
    }

    method WriteProperties(ps: seq<Property>) returns (ok: bool)
      modifies this`data
      ensures ok <==> Count(|ps|) <= SERVICE_MAX && All(ps, WritableProperty)
      ensures ok ==> data == old(data) + Vector(ps, EncProperty)
      ensures old(data) <= data
    {
      hide EncProperty, WritableProperty;
      if Count(|ps|) > SERVICE_MAX {
        return false;
      }
      ghost var goal := data + Vector(ps, EncProperty);
      data := data + [T32(Count(|ps|))];
      assert ps[0..] == ps;
      for i := 0 to |ps|
        invariant old(data) <= data && data + Each(ps[i..], EncProperty) == goal
        invariant All(ps[..i], WritableProperty)
      {
        EachFirst(ps, i, EncProperty);
        ghost var before := data;
        ok := WriteProperty(ps[i]);
        if !ok { return; }
        assert data + Each(ps[i + 1..], EncProperty) == before + Each(ps[i..], EncProperty);
      }
      EachNone(EncProperty);
      assert ps[..|ps|] == ps;
      return true;
    }

    method WriteMethods(ms: seq<Method>) returns (ok: bool)
      modifies this`data
      ensures ok <==> Count(|ms|) <= SERVICE_MAX && All(ms, OkMethod)
      ensures ok ==> data == old(data) + Vector(ms, EncMethod)
      ensures old(data) <= data
    {
      hide EncMethod, OkMethod;
      if Count(|ms|) > SERVICE_MAX {
        return false;
      }
      ghost var goal := data + Vector(ms, EncMethod);
      data := data + [T32(Count(|ms|))];
      assert ms[0..] == ms;
      for i := 0 to |ms|
        invariant old(data) <= data && data + Each(ms[i..], EncMethod) == goal
        invariant All(ms[..i], OkMethod)
      {
        EachFirst(ms, i, EncMethod);
        ghost var before := data;
        ok := WriteMethod(ms[i]);
        if !ok { return; }
        assert data + Each(ms[i + 1..], EncMethod) == before + Each(ms[i..], EncMethod);
      }
      EachNone(EncMethod);
      assert ms[..|ms|] == ms;
      return true;
    }

    method WriteEvents(es: seq<Event>) returns (ok: bool)
      modifies this`data
      ensures ok <==> Count(|es|) <= SERVICE_MAX && All(es, OkEvent)
      ensures ok ==> data == old(data) + Vector(es, EncEvent)
      ensures old(data) <= data
    {
      hide EncEvent, OkEvent;
      if Count(|es|) > SERVICE_MAX {
        return false;
      }
      ghost var goal := data + Vector(es, EncEvent);
      data := data + [T32(Count(|es|))];
      assert es[0..] == es;
      for i := 0 to |es|
        invariant old(data) <= data && data + Each(es[i..], EncEvent) == goal
        invariant All(es[..i], OkEvent)
      {
        EachFirst(es, i, EncEvent);
        ghost var before := data;
        ok := WriteEvent(es[i]);
        if !ok { return; }
        assert data + Each(es[i + 1..], EncEvent) == before + Each(es[i..], EncEvent);
      }
      EachNone(EncEvent);
      assert es[..|es|] == es;
      return true;
    }

    /** `NearlinkSsapServiceParcel::Marshalling`. */
    method WriteService(s: Service) returns (ok: bool)
      modifies this`data
      ensures ok <==> Writable(s)
      ensures ok ==> data == old(data) + EncService(s)
      ensures old(data) <= data
    {
      hide Vector, EncUuid, All;
      Write([T16(s.handle), T16(s.startHandle), T16(s.endHandle), TBool(s.isPrimary)]);
      WriteUuid(s.uuid);
      Write([T32(s.opInd)]);
      ok := WriteProperties(s.properties);
      if !ok { return; }
      ok := WriteMethods(s.methods);
      if !ok { return; }
      ok := WriteEvents(s.events);
      if !ok { return; }
      ok := WriteDescriptors(s.descriptors, SERVICE_MAX);
    }

    // ------------------------------------------------------------------ reading

    /** The next token, if there is one. */
    method Next() returns (t: Option<Token>)
      requires Valid()
      modifies this`cursor
      ensures Valid()
      ensures t == if old(Rest()) == [] then None else Some(old(Rest())[0])
      ensures Rest() == if old(Rest()) == [] then [] else old(Rest())[1..]
    {
      if cursor == |data| {
        return None;
      }
      t := Some(data[cursor]);
      cursor := cursor + 1;
    }

    method ReadBytes(max: nat) returns (r: Option<seq<bv8>>)
      requires Valid()
      modifies this`cursor
      ensures Valid()
      ensures r.None? <==> DecVector(old(Rest()), max, DecByte).None?
      ensures r.Some? ==> DecVector(old(Rest()), max, DecByte) == Some((r.value, Rest()))
    {
      var size := Next();
      if size == None || !size.value.T32? || size.value.n > max {
        return None;
      }
      var n, v := size.value.n, [];
      ghost var whole := Take(n, Rest(), DecByte);
      TakeStart(n, Rest(), DecByte);
      for i := 0 to n
        invariant Valid() && Continues(whole, v, Take(n - i, Rest(), DecByte))
      {
        TakeFirst(whole, v, n - i, Rest(), DecByte);
        var t := Next();
        if t == None || !t.value.T8? {
          return None;
        }
        v := v + [t.value.b];
      }
      assert v + [] == v;
      return Some(v);
    }

    method ReadUuid() returns (r: Option<Uuid>)
      requires Valid()
      modifies this`cursor
      ensures Valid()
      ensures r.None? <==> DecUuid(old(Rest())).None?
      ensures r.Some? ==> DecUuid(old(Rest())) == Some((r.value, Rest()))
    {
      hide FromHalves, Word;
      ghost var ts := Rest();
      var most := Next();
      if most == None || !most.value.T64? {
        return None;
      }
      var least := Next();
      if least == None || !least.value.T64? {
        return None;
      }
      assert ts[1..][1..] == ts[2..];
      var u := ConvertFromMostAndLeastBit(most.value.w, least.value.w);
      return Some(u);
    }

    method ReadDescriptor() returns (r: Option<Descriptor>)
      requires Valid()
      modifies this`cursor
      ensures Valid()
      ensures r.None? <==> DecDescriptor(old(Rest())).None?
      ensures r.Some? ==> DecDescriptor(old(Rest())) == Some((r.value, Rest()))
    {
      hide DecVector;
      ghost var ts := Rest();
      var handle := Next();
      if handle == None || !handle.value.T16? { return None; }
      var kind := Next();
      if kind == None || !kind.value.T8? { return None; }
      assert ts[1..][1..] == ts[2..];
      var value := ReadBytes(DESCRIPTOR_MAX);
      if value == None { return None; }
      ghost var q := Rest();
      var writeInd := Next();
      if writeInd == None || !writeInd.value.T8? { return None; }
      var permission := Next();
      if permission == None || !permission.value.T16? { return None; }
      assert q[1..][1..] == q[2..];
      return Some(Descriptor(handle.value.h, kind.value.b, value.value, writeInd.value.b, permission.value.h));
    }

    method ReadDescriptors(max: nat) returns (r: Option<seq<Descriptor>>)
      requires Valid()
      modifies this`cursor
      ensures Valid()
      ensures r.None? <==> DecVector(old(Rest()), max, DecDescriptor).None?
      ensures r.Some? ==> DecVector(old(Rest()), max, DecDescriptor) == Some((r.value, Rest()))
    {
      hide DecDescriptor;
      var size := Next();
      if size == None || !size.value.T32? || size.value.n > max {
        return None;
      }
      var n, v := size.value.n, [];
      ghost var whole := Take(n, Rest(), DecDescriptor);
      TakeStart(n, Rest(), DecDescriptor);
      for i := 0 to n
        invariant Valid() && Continues(whole, v, Take(n - i, Rest(), DecDescriptor))
      {
        TakeFirst(whole, v, n - i, Rest(), DecDescriptor);
        var x := ReadDescriptor();
        if x == None {
          return None;
        }
        v := v + [x.value];
      }
      assert v + [] == v;
      return Some(v);
    }

    method ReadEvent() returns (r: Option<Event>)
      requires Valid()
      modifies this`cursor
      ensures Valid()
      ensures r.None? <==> DecEvent(old(Rest())).None?
      ensures r.Some? ==> DecEvent(old(Rest())) == Some((r.value, Rest()))
    {
      hide DecVector, DecUuid;
      var handle := Next();
      if handle == None || !handle.value.T16? { return None; }
      var uuid := ReadUuid();
      if uuid == None { return None; }
      var parameter := ReadBytes(EVENT_MAX);
      if parameter == None { return None; }
      return Some(Event(handle.value.h, uuid.value, parameter.value));
    }

    method ReadMethod() returns (r: Option<Method>)
      requires Valid()
      modifies this`cursor
      ensures Valid()
      ensures r.None? <==> DecMethod(old(Rest())).None?
      ensures r.Some? ==> DecMethod(old(Rest())) == Some((r.value, Rest()))
    {
      hide DecVector, DecUuid;
      var handle := Next();
      if handle == None || !handle.value.T16? { return None; }
      var uuid := ReadUuid();
      if uuid == None { return None; }
      var parameter := ReadBytes(METHOD_MAX);
      if parameter == None { return None; }
      var result := ReadBytes(METHOD_MAX);
      if result == None { return None; }
      var permission := Next();
      if permission == None || !permission.value.T16? { return None; }
      return Some(Method(handle.value.h, uuid.value, parameter.value, result.value, permission.value.h));
    }

    method ReadProperty() returns (r: Option<Property>)
      requires Valid()
      modifies this`cursor
      ensures Valid()
      ensures r.None? <==> DecProperty(old(Rest())).None?
      ensures r.Some? ==> DecProperty(old(Rest())) == Some((r.value, Rest()))
    {
      hide DecVector, DecUuid;
      var handle := Next();
      if handle == None || !handle.value.T16? { return None; }
      var uuid := ReadUuid();
      if uuid == None { return None; }
      var value := ReadBytes(PROPERTY_MAX);
      if value == None { return None; }
      var opInd := Next();
      if opInd == None || !opInd.value.T32? { return None; }
      var descriptors := ReadDescriptors(PROPERTY_MAX);
      if descriptors == None { return None; }
      var permission := Next();
      if permission == None || !permission.value.T16? { return None; }
      return Some(Property(handle.value.h, uuid.value, value.value, opInd.value.n, descriptors.value,
                           permission.value.h));
    }

    method ReadProperties() returns (r: Option<seq<Property>>)
      requires Valid()
      modifies this`cursor
      ensures Valid()
      ensures r.None? <==> DecVector(old(Rest()), SERVICE_MAX, DecProperty).None?
      ensures r.Some? ==> DecVector(old(Rest()), SERVICE_MAX, DecProperty) == Some((r.value, Rest()))
    {
      hide DecProperty;
      var size := Next();
      if size == None || !size.value.T32? || size.value.n > SERVICE_MAX {
        return None;
      }
      var n, v := size.value.n, [];
      ghost var whole := Take(n, Rest(), DecProperty);
      TakeStart(n, Rest(), DecProperty);
      for i := 0 to n
        invariant Valid() && Continues(whole, v, Take(n - i, Rest(), DecProperty))
      {
        TakeFirst(whole, v, n - i, Rest(), DecProperty);
        var x := ReadProperty();
        if x == None {
          return None;
        }
        v := v + [x.value];
      }
      assert v + [] == v;
      return Some(v);
    }

    method ReadMethods() returns (r: Option<seq<Method>>)
      requires Valid()
      modifies this`cursor
      ensures Valid()
      ensures r.None? <==> DecVector(old(Rest()), SERVICE_MAX, DecMethod).None?
      ensures r.Some? ==> DecVector(old(Rest()), SERVICE_MAX, DecMethod) == Some((r.value, Rest()))
    {
      hide DecMethod;
      var size := Next();
      if size == None || !size.value.T32? || size.value.n > SERVICE_MAX {
        return None;
      }
      var n, v := size.value.n, [];
      ghost var whole := Take(n, Rest(), DecMethod);
      TakeStart(n, Rest(), DecMethod);
      for i := 0 to n
        invariant Valid() && Continues(whole, v, Take(n - i, Rest(), DecMethod))
      {
        TakeFirst(whole, v, n - i, Rest(), DecMethod);
        var x := ReadMethod();
        if x == None {
          return None;
        }
        v := v + [x.value];
      }
      assert v + [] == v;
      return Some(v);
    }

    method ReadEvents() returns (r: Option<seq<Event>>)
      requires Valid()
      modifies this`cursor
      ensures Valid()
      ensures r.None? <==> DecVector(old(Rest()), SERVICE_MAX, DecEvent).None?
      ensures r.Some? ==> DecVector(old(Rest()), SERVICE_MAX, DecEvent) == Some((r.value, Rest()))
    {
      hide DecEvent;
      var size := Next();
      if size == None || !size.value.T32? || size.value.n > SERVICE_MAX {
        return None;
      }
      var n, v := size.value.n, [];
      ghost var whole := Take(n, Rest(), DecEvent);
      TakeStart(n, Rest(), DecEvent);
      for i := 0 to n
        invariant Valid() && Continues(whole, v, Take(n - i, Rest(), DecEvent))
      {
        TakeFirst(whole, v, n - i, Rest(), DecEvent);
        var x := ReadEvent();
        if x == None {
          return None;
        }
        v := v + [x.value];
      }
      assert v + [] == v;
      return Some(v);
    }

    /** `SsapServiceMemberRead`. */
    method ReadMembers() returns (r: Option<Members>)
      requires Valid()
      modifies this`cursor
      ensures Valid()
      ensures r.None? <==> DecMembers(old(Rest())).None?
      ensures r.Some? ==> DecMembers(old(Rest())) == Some((r.value, Rest()))
    {
      hide DecVector;
      var properties := ReadProperties();
      if properties == None { return None; }
      var methods := ReadMethods();
      if methods == None { return None; }
      var events := ReadEvents();
      if events == None { return None; }
      var descriptors := ReadDescriptors(SERVICE_MAX);
      if descriptors == None { return None; }
      return Some(Members(properties.value, methods.value, events.value, descriptors.value));
    }

    /** `NearlinkSsapServiceParcel::ReadFromParcel`: succeeds exactly on the encoding of a
        service within the limits, returns it without includes and stops right after it. */
    method ReadService() returns (r: Option<Service>)
      requires Valid()
      modifies this`cursor
      ensures Valid()
      ensures r.None? <==> DecService(old(Rest())).None?
      ensures r.Some? ==> old(Rest()) == EncService(r.value) + Rest()
                          && OkMembers(MembersOf(r.value)) && r.value.includes == []
    {
      hide DecUuid, DecMembers, EncService, OkMembers;
      ghost var ts := Rest();
      var handle := Next();
      if handle == None || !handle.value.T16? { return None; }
      var startHandle := Next();
      if startHandle == None || !startHandle.value.T16? { return None; }
      var endHandle := Next();
      if endHandle == None || !endHandle.value.T16? { return None; }
      var isPrimary := Next();
      if isPrimary == None || !isPrimary.value.TBool? { return None; }
      assert ts[1..][1..][1..][1..] == ts[4..];
      var uuid := ReadUuid();
      if uuid == None { return None; }
      var opInd := Next();
      if opInd == None || !opInd.value.T32? { return None; }
      var m := ReadMembers();
      if m == None { return None; }
      var s := Service(handle.value.h, startHandle.value.h, endHandle.value.h, isPrimary.value.v, uuid.value,
                       opInd.value.n, [], m.value.properties, m.value.methods, m.value.events, m.value.descriptors);
      ServiceExact(ts, s, Rest());
      return Some(s);
    }
  }
}
