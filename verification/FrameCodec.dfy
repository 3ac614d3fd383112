/** The frame format of the data-transfer socket
    (socket/nearlink_datatransfer_parcel.cpp): a total-length word, then
    length-prefixed address and uuid, a two-byte port and a length-prefixed payload. */
module FrameCodec {
  import opened Common
  import opened LittleEndian

  type Port = p: int | 0 <= p < 0x1_0000

  datatype Packet = Packet(address: seq<byte>, uuid: seq<byte>, port: Port, data: seq<byte>)

  const DATA_MAX_LEN := 65535
  const SIZE_LIMIT := 0x1_0000_0000_0000_0000
  const MIN_FRAME := 34

  // ---------------------------------------------------------------- grammar

  function Field(f: seq<byte>): seq<byte> {
    ToBytes(|f|, WORD) + f
  }

  function Body(p: Packet): (s: seq<byte>)
    ensures |s| == FrameLength(p) - WORD
  {
    Field(p.address) + (Field(p.uuid) + (ToBytes(p.port, 2) + Field(p.data)))
  }

  function FrameLength(p: Packet): nat {
    WORD + (WORD + |p.address|) + (WORD + |p.uuid|) + 2 + (WORD + |p.data|)
  }

  /** One record on the wire. */
  function Frame(p: Packet): (s: seq<byte>)
    ensures |s| == FrameLength(p) >= MIN_FRAME
  {
    ToBytes(FrameLength(p), WORD) + Body(p)
  }

  function Frames(ps: seq<Packet>): seq<byte> {
    if ps == [] then [] else Frame(ps[0]) + Frames(ps[1..])
  }

  /** What one frame can carry: its length fits the length word and the payload
      is within the limit the reader enforces. */
  predicate Sendable(p: Packet) {
    FrameLength(p) < SIZE_LIMIT && |p.data| <= DATA_MAX_LEN
  }

  predicate AllSendable(ps: seq<Packet>) {
    forall i :: 0 <= i < |ps| ==> Sendable(ps[i])
  }

  /** One frame byte by byte: every length in eight bytes, the port in two, low byte first. */
  lemma FrameInBytes(a: byte, u: byte, v: byte, d: byte, lo: byte, hi: byte)
    ensures Frame(Packet([a], [u, v], lo + 256 * hi, [d])) ==
            [38, 0, 0, 0, 0, 0, 0, 0]
            + [1, 0, 0, 0, 0, 0, 0, 0, a]
            + [2, 0, 0, 0, 0, 0, 0, 0, u, v]
            + [lo, hi]
            + [1, 0, 0, 0, 0, 0, 0, 0, d]
  {
    SmallWord(38);
    SmallWord(1);
    SmallWord(2);
    TwoBytes(lo, hi);
  }

  lemma SmallWord(n: byte)
    ensures ToBytes(n, WORD) == [n, 0, 0, 0, 0, 0, 0, 0]
  {
    ZeroBytes(7);
    assert ToBytes(0, 7) == [0, 0, 0, 0, 0, 0, 0];
  }

  lemma {:induction false} ZeroBytes(k: nat)
    ensures ToBytes(0, k) == seq(k, _ => 0)
  {
    if k == 0 {
    } else {
      ZeroBytes(k - 1);
    }
  }

  lemma TwoBytes(lo: byte, hi: byte)
    ensures ToBytes(lo + 256 * hi, 2) == [lo, hi]
  {
    assert ToBytes(hi, 1) == [hi] + ToBytes(0, 0);
  }

  // ---------------------------------------------------------------- reader

  function TakeField(s: seq<byte>, limit: nat): (r: Option<(seq<byte>, seq<byte>)>) {
    if |s| < WORD then None
    else
      var n := FromBytes(s[..WORD]);
      if n > limit || |s| - WORD < n then None
      else Some((s[WORD..WORD + n], s[WORD + n..]))
  }

  function DecodeBody(s: seq<byte>): (r: Option<Packet>) {
    match TakeField(s, |s|)
    case None => None
    case Some((address, rest)) => DecodeUuid(address, rest)
  }

  function DecodeUuid(address: seq<byte>, s: seq<byte>): (r: Option<Packet>) {
    match TakeField(s, |s|)
    case None => None
    case Some((uuid, rest)) => DecodePort(address, uuid, rest)
  }

  function DecodePort(address: seq<byte>, uuid: seq<byte>, s: seq<byte>): (r: Option<Packet>) {
    if |s| < 2 || FromBytes(s[..2]) >= 0x1_0000 then None
    else DecodePayload(address, uuid, FromBytes(s[..2]), s[2..])
  }

  function DecodePayload(address: seq<byte>, uuid: seq<byte>, port: Port, s: seq<byte>): (r: Option<Packet>) {
    match TakeField(s, DATA_MAX_LEN)
    case None => None
    case Some((data, rest)) => if rest == [] then Some(Packet(address, uuid, port, data)) else None
  }

  /** Splits one frame off the front of the buffer. */
  function TakeFrame(s: seq<byte>): (r: Option<(Packet, seq<byte>)>)
    ensures r.Some? ==> |r.value.1| < |s|
  {
    if |s| < WORD then None
    else
      var total := FromBytes(s[..WORD]);
      if total <= WORD || |s| < total then None
      else
        match DecodeBody(s[WORD..total])
        case None => None
        case Some(p) => Some((p, s[total..]))
  }

  function DecodeAll(s: seq<byte>): (r: Option<seq<Packet>>)
    decreases |s|
  {
    if s == [] then Some([])
    else
      match TakeFrame(s)
      case None => None
      case Some((p, rest)) =>
        match DecodeAll(rest)
        case None => None
        case Some(ps) => Some([p] + ps)
  }

  // ------------------------------------------------- reader inverts grammar

  lemma FieldExact(s: seq<byte>, limit: nat, f: seq<byte>, rest: seq<byte>)
    requires |s| < SIZE_LIMIT
    ensures TakeField(s, limit) == Some((f, rest)) <==> s == Field(f) + rest && |f| <= limit
  {
    WordRange();
    if s == Field(f) + rest {
      assert s[..WORD] == ToBytes(|f|, WORD);
      FromToBytes(|f|, WORD);
      assert s[WORD..WORD + |f|] == f;
      assert s[WORD + |f|..] == rest;
    }
    if TakeField(s, limit) == Some((f, rest)) {
      ToFromBytes(s[..WORD]);
      assert s == s[..WORD] + f + rest;
    }
  }

  lemma BodyExact(s: seq<byte>, p: Packet)
    requires |s| < SIZE_LIMIT
    ensures DecodeBody(s) == Some(p) <==> s == Body(p) && |p.data| <= 65535
  {
    hide FromBytes, ToBytes;
    WordRange();
    if s == Body(p) && |p.data| <= DATA_MAX_LEN {
      var s3 := Field(p.data);
      var s2 := ToBytes(p.port, 2) + s3;
      var s1 := Field(p.uuid) + s2;
      FieldExact(s, |s|, p.address, s1);
      FieldExact(s1, |s1|, p.uuid, s2);
      FromToBytes(p.port, 2);
      assert s2[..2] == ToBytes(p.port, 2) && s2[2..] == s3 == s3 + [];
      FieldExact(s3, DATA_MAX_LEN, p.data, []);
    }
    if DecodeBody(s) == Some(p) {
      var s1 := TakeField(s, |s|).value.1;
      FieldExact(s, |s|, p.address, s1);
      var s2 := TakeField(s1, |s1|).value.1;
      FieldExact(s1, |s1|, p.uuid, s2);
      ToFromBytes(s2[..2]);
      FieldExact(s2[2..], DATA_MAX_LEN, p.data, []);
      assert s2 == s2[..2] + s2[2..];
      assert s2[2..] == Field(p.data);
    }
  }

  lemma Split<T>(a: seq<T>, b: seq<T>)
    ensures (a + b)[..|a|] == a && (a + b)[|a|..] == b
  {
  }

  /** The head of a buffer is a frame exactly when it is an encoding of that frame. */
  lemma FrameExact(s: seq<byte>, p: Packet, rest: seq<byte>)
    requires |s| < SIZE_LIMIT
    ensures TakeFrame(s) == Some((p, rest)) <==> s == Frame(p) + rest && Sendable(p)
  {
    if s == Frame(p) + rest && Sendable(p) {
      FrameTaken(s, p, rest);
    }
    if TakeFrame(s) == Some((p, rest)) {
      TakenFrame(s, p, rest);
    }
  }

  lemma FrameTaken(s: seq<byte>, p: Packet, rest: seq<byte>)
    requires |s| < SIZE_LIMIT && s == Frame(p) + rest && Sendable(p)
    ensures TakeFrame(s) == Some((p, rest))
  {
    hide Body, DecodeBody, ToBytes, FromBytes;
    WordRange();
    var total, head, body := FrameLength(p), ToBytes(FrameLength(p), WORD), Body(p);
    FromToBytes(total, WORD);
    Split(head + body, rest);
    Split(head, body);
    assert s[..WORD] == s[..total][..WORD] == head;
    assert s[WORD..total] == s[..total][WORD..] == body;
    BodyExact(body, p);
  }

  lemma TakenFrame(s: seq<byte>, p: Packet, rest: seq<byte>)
    requires |s| < SIZE_LIMIT && TakeFrame(s) == Some((p, rest))
    ensures s == Frame(p) + rest && Sendable(p)
  {
    hide Body, DecodeBody, ToBytes, FromBytes;
    var n := FromBytes(s[..WORD]);
    ToFromBytes(s[..WORD]);
    BodyExact(s[WORD..n], p);
    assert n == FrameLength(p);
    assert s[..n] == s[..WORD] + s[WORD..n];
    assert s == s[..n] + s[n..];
  }

  /** The stream grammar, both directions: a buffer decodes to `ps` exactly when
      it is the concatenation of the encodings of `ps`. */
  lemma {:induction false} StreamGrammar(s: seq<byte>, ps: seq<Packet>)
    requires |s| < SIZE_LIMIT
    ensures DecodeAll(s) == Some(ps) <==> s == Frames(ps) && AllSendable(ps)
    decreases |s|
  {
    hide Frame, TakeFrame, Sendable;
    if ps != [] && s == Frames(ps) && AllSendable(ps) {
      FrameExact(s, ps[0], Frames(ps[1..]));
      StreamGrammar(Frames(ps[1..]), ps[1..]);
      assert ps == [ps[0]] + ps[1..];
    }
    if s != [] && DecodeAll(s) == Some(ps) {
      var rest := TakeFrame(s).value.1;
      assert TakeFrame(s).value.0 == ps[0];
      FrameExact(s, ps[0], rest);
      StreamGrammar(rest, ps[1..]);
    }
  }

  /** Frames are self-delimiting: one byte stream has at most one reading. */
  lemma UniqueDecoding(ps: seq<Packet>, qs: seq<Packet>)
    requires AllSendable(ps) && AllSendable(qs)
    requires Frames(ps) == Frames(qs) && |Frames(ps)| < SIZE_LIMIT
    ensures ps == qs
  {
    StreamGrammar(Frames(ps), ps);
    StreamGrammar(Frames(qs), qs);
  }

  lemma Assoc<T>(a: seq<T>, b: seq<T>, c: seq<T>)
    ensures (a + b) + c == a + (b + c)
  {
  }

  lemma {:induction false} FramesConcat(ps: seq<Packet>, qs: seq<Packet>)
    ensures Frames(ps + qs) == Frames(ps) + Frames(qs)
  {
    hide Frame;
    if ps == [] {
      assert ps + qs == qs;
    } else {
      FramesConcat(ps[1..], qs);
      assert (ps + qs)[0] == ps[0] && (ps + qs)[1..] == ps[1..] + qs;
      Assoc(Frame(ps[0]), Frames(ps[1..]), Frames(qs));
    }
  }

  /** A prefix of a valid stream is accepted only when the cut falls between two
      frames; any cut inside a frame rejects the whole buffer. */
  lemma {:induction false} CutInsideFrameRejects(ps: seq<Packet>, k: nat)
    requires AllSendable(ps) && k <= |Frames(ps)| < SIZE_LIMIT
    ensures DecodeAll(Frames(ps)[..k]).Some?
            <==> exists i :: 0 <= i <= |ps| && |Frames(ps[..i])| == k
    ensures forall i :: 0 <= i <= |ps| && |Frames(ps[..i])| == k ==>
              DecodeAll(Frames(ps)[..k]) == Some(ps[..i])
  {
    hide Frame, Frames, DecodeAll, Sendable;
    var s := Frames(ps)[..k];
    forall i | 0 <= i <= |ps| && |Frames(ps[..i])| == k
      ensures DecodeAll(s) == Some(ps[..i])
    {
      assert ps == ps[..i] + ps[i..];
      FramesConcat(ps[..i], ps[i..]);
      assert s == Frames(ps[..i]);
      StreamGrammar(s, ps[..i]);
    }
    if DecodeAll(s).Some? {
      var qs := DecodeAll(s).value;
      StreamGrammar(s, qs);
      PrefixOfFrames(qs, ps, Frames(ps)[k..]);
      assert ps[..|qs|] == qs;
      assert |Frames(ps[..|qs|])| == k;
    }
  }

  /** If the encodings of `qs` start a valid stream, `qs` starts its record list. */
  lemma {:induction false} PrefixOfFrames(qs: seq<Packet>, ps: seq<Packet>, rest: seq<byte>)
    requires AllSendable(qs) && AllSendable(ps) && |Frames(ps)| < SIZE_LIMIT
    requires Frames(ps) == Frames(qs) + rest
    ensures qs <= ps
  {
    hide Frame, TakeFrame, Sendable;
    if qs == [] {
    } else {
      var tail := Frames(qs[1..]) + rest;
      assert Frames(ps) == Frame(qs[0]) + tail;
      FrameExact(Frames(ps), qs[0], tail);
      FrameExact(Frames(ps), ps[0], Frames(ps[1..]));
      PrefixOfFrames(qs[1..], ps[1..], rest);
      assert qs == [qs[0]] + qs[1..] && ps == [ps[0]] + ps[1..];
    }
  }

  lemma {:induction false} FramesLength(ps: seq<Packet>)
    ensures |Frames(ps)| >= MIN_FRAME * |ps|
  {
    if ps == [] {
    } else {
      FramesLength(ps[1..]);
    }
  }

  // ------------------------------------------------------------- the code

  /** `memcpy_s` into `out[offset..]`: refused for an empty destination and for a
      source longer than the destination, and then nothing is written. */
  method CopyChecked(out: array<byte>, offset: nat, destMax: nat, src: seq<byte>) returns (ok: bool)
    requires offset + |src| <= out.Length
    modifies out
    ensures ok <==> 0 < destMax && |src| <= destMax
    ensures ok ==> out[..offset + |src|] == old(out[..offset]) + src
    ensures !ok ==> out[..] == old(out[..])
  {
    ok := 0 < destMax && |src| <= destMax;
    if ok {
      forall i | 0 <= i < |src| {
        out[offset + i] := src[i];
      }
    }
  }

  /** Length word and content of one string; the new offset on success. */
  method WriteLengthAndData(out: array<byte>, offset: nat, data: seq<byte>) returns (ok: bool, next: nat)
    requires offset + WORD + |data| <= out.Length
    modifies out
    ensures ok <==> data != []
    ensures ok ==> next == offset + WORD + |data| && out[..next] == old(out[..offset]) + Field(data)
  {
    next := offset;
    ok := CopyChecked(out, offset, WORD, ToBytes(|data|, WORD));
    next := next + WORD;
    ok := CopyChecked(out, next, |data|, data);
    if ok {
      next := next + |data|;
    }
  }

  /** The frame in the order the writer fills it. */
  lemma FrameLeftToRight(p: Packet)
    ensures Frame(p) ==
            ToBytes(FrameLength(p), WORD) + Field(p.address) + Field(p.uuid) + ToBytes(p.port, 2)
            + ToBytes(|p.data|, WORD) + p.data
  {
    hide ToBytes;
    var tail := ToBytes(p.port, 2) + Field(p.data);
    Assoc(ToBytes(FrameLength(p), WORD), Field(p.address), Field(p.uuid) + tail);
    Assoc(ToBytes(FrameLength(p), WORD) + Field(p.address), Field(p.uuid), tail);
  }

  /** Fails exactly for an empty address or uuid; otherwise the buffer is the frame. */
  method SerializeData(p: Packet) returns (buffer: array?<byte>)
    requires FrameLength(p) < SIZE_LIMIT
    ensures buffer != null <==> p.address != [] && p.uuid != []
    ensures buffer != null ==> fresh(buffer) && buffer[..] == Frame(p)
  {
    hide ToBytes, Frame, Body, Field;
    var totalLen := WORD + WORD + |p.address| + WORD + |p.uuid| + 2 + WORD + |p.data|;
    var out := new byte[totalLen](_ => 0);
    var ok := CopyChecked(out, 0, WORD, ToBytes(totalLen, WORD));
    var offset := WORD;
    ghost var filled := ToBytes(totalLen, WORD);
    assert out[..offset] == filled;
    ok, offset := WriteLengthAndData(out, offset, p.address);
    if !ok { return null; }
    filled := filled + Field(p.address);
    assert out[..offset] == filled;
    ok, offset := WriteLengthAndData(out, offset, p.uuid);
    if !ok { return null; }
    filled := filled + Field(p.uuid);
    assert out[..offset] == filled;
    ok := CopyChecked(out, offset, 2, ToBytes(p.port, 2));
    offset := offset + 2;
    filled := filled + ToBytes(p.port, 2);
    assert out[..offset] == filled;
    ok := CopyChecked(out, offset, WORD, ToBytes(|p.data|, WORD));
    offset := offset + WORD;
    filled := filled + ToBytes(|p.data|, WORD);
    assert out[..offset] == filled;
    if p.data != [] {
      ok := CopyChecked(out, offset, |p.data|, p.data);
      offset := offset + |p.data|;
    }
    assert out[..offset] == filled + p.data;
    if offset != totalLen { return null; }
    FrameLeftToRight(p);
    assert out[..] == out[..offset];
    buffer := out;
  }

  /** One record from a buffer that must hold exactly that record. The source's
      `ptr`/`end` pair is the span of bytes not read yet. */
  method DeserializeData(data: seq<byte>) returns (ok: bool, result: Packet)
    requires |data| < SIZE_LIMIT
    ensures ok <==> DecodeBody(data).Some?
    ensures ok ==> DecodeBody(data) == Some(result)
    ensures ok ==> data == Body(result) && |result.data| <= DATA_MAX_LEN
  {
    hide Body, FromBytes, ToBytes;
    WordRange();
    var span := data;
    ok, result := false, Packet([], [], 0, []);

    if |span| < WORD { return; }
    var addressLen := FromBytes(span[..WORD]);
    if |span| - WORD < addressLen { return; }
    var address := span[WORD..WORD + addressLen];
    span := span[WORD + addressLen..];
    assert DecodeBody(data) == DecodeUuid(address, span);

    if |span| < WORD { return; }
    var uuidLen := FromBytes(span[..WORD]);
    if |span| - WORD < uuidLen { return; }
    var uuid := span[WORD..WORD + uuidLen];
    span := span[WORD + uuidLen..];
    assert DecodeBody(data) == DecodePort(address, uuid, span);

    if |span| < 2 { return; }
    ToFromBytes(span[..2]);
    var port := FromBytes(span[..2]);
    span := span[2..];
    assert DecodeBody(data) == DecodePayload(address, uuid, port, span);

    if |span| < WORD { return; }
    var dataLen := FromBytes(span[..WORD]);
    if dataLen > DATA_MAX_LEN { return; }
    if |span| - WORD < dataLen { return; }
    result := Packet(address, uuid, port, span[WORD..WORD + dataLen]);
    span := span[WORD + dataLen..];
    ok := span == [];
    BodyExact(data, result);
  }

  /** All records of a buffer, or the empty list when any byte of it is not part of
      a whole frame. Every read stays inside the buffer and every round consumes
      at least one frame. */
  method DeserializeDataList(data: seq<byte>) returns (dataList: seq<Packet>)
    requires |data| < SIZE_LIMIT
    ensures DecodeAll(data).None? ==> dataList == []
    ensures DecodeAll(data).Some? ==> data == Frames(dataList) && AllSendable(dataList)
    ensures MIN_FRAME * |dataList| <= |data|
  {
    hide Frame, DecodeBody, Body, FromBytes, ToBytes;
    var span := data;
    dataList := [];
    while span != []
      invariant |span| <= |data|
      invariant data == Frames(dataList) + span && AllSendable(dataList)
      invariant DecodeAll(data).Some? <==> DecodeAll(span).Some?
      decreases |span|
    {
      if |span| < WORD {
        return [];
      }
      var packageLen := FromBytes(span[..WORD]);
      if packageLen <= WORD {
        return [];
      }
      if |span| < packageLen {
        return [];
      }
      var ok, result := DeserializeData(span[WORD..packageLen]);
      if !ok {
        return [];
      }
      var rest := span[packageLen..];
      FrameExact(span, result, rest);
      FramesConcat(dataList, [result]);
      assert Frames([result]) == Frame(result);
      Assoc(Frames(dataList), Frame(result), rest);
      dataList, span := dataList + [result], rest;
    }
    FramesLength(dataList);
  }
}
