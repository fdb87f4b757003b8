/** The 25-byte header that precedes a media payload. */
module StreamHeader {
  import opened PacketInfo

  const WORD := 8
  const HEADER_SIZE := 25

  datatype Kind = Audio | Video | Text | Empty | Done

  function TypeToChar(k: Kind): Byte {
    match k
    case Audio => 'a' as Byte
    case Video => 'v' as Byte
    case Text => 't' as Byte
    case Empty => 'e' as Byte
    case Done => 'd' as Byte
  }

  function CharToType(b: Byte): Kind {
    if b == 'a' as Byte then Audio
    else if b == 'v' as Byte then Video
    else if b == 't' as Byte then Text
    else if b == 'd' as Byte then Done
    else Empty
  }

  /** A byte names a type back exactly when it is one of the five letters. */
  lemma {:induction false} TypeCodec(k: Kind, b: Byte)
    ensures CharToType(TypeToChar(k)) == k
    ensures TypeToChar(CharToType(b)) == b <==> exists t :: TypeToChar(t) == b
  {
    if b == 'e' as Byte {
      assert TypeToChar(Empty) == b;
    } else if TypeToChar(CharToType(b)) != b {
      forall t ensures TypeToChar(t) != b {
      }
    }
  }

  /** The first `n` bytes of a number in memory, least significant first. */
  function Bytes(v: nat, n: nat): (b: seq<Byte>)
    ensures |b| == n
  {
    if n == 0 then [] else [v % 256] + Bytes(v / 256, n - 1)
  }

  function Word(b: seq<Byte>): nat {
    if b == [] then 0 else b[0] + 256 * Word(b[1..])
  }

  function MakeHeader(info: Info): (h: seq<Byte>)
    ensures |h| == HEADER_SIZE
  {
    [info.kind] + Bytes(info.nbPackets, WORD) + Bytes(info.packetSize, WORD) + Bytes(info.remSize, WORD)
  }

  function ReadHeader(h: seq<Byte>): Info
    requires |h| == HEADER_SIZE
  {
    Info(h[0], Word(h[1..9]), Word(h[9..17]), Word(h[17..25]))
  }

  function Pow256(n: nat): nat { if n == 0 then 1 else 256 * Pow256(n - 1) }

  lemma {:induction false} WordOfBytes(v: nat, n: nat)
    ensures Word(Bytes(v, n)) == v <==> v < Pow256(n)
    decreases n
  {
    if n > 0 {
      WordOfBytes(v / 256, n - 1);
      assert Bytes(v, n)[1..] == Bytes(v / 256, n - 1);
    }
  }

  /** Three words behind a byte are found at their places. */
  lemma Parts(k: Byte, a: seq<Byte>, b: seq<Byte>, c: seq<Byte>)
    requires |a| == |b| == |c| == WORD
    ensures var h := [k] + a + b + c;
            h[0] == k && h[1..9] == a && h[9..17] == b && h[17..25] == c
  {
    var h := [k] + a + b + c;
    forall i | 0 <= i < WORD ensures h[1 + i] == a[i] && h[9 + i] == b[i] && h[17 + i] == c[i] {
    }
  }

  lemma EightBytes()
    ensures Pow256(WORD) == SIZE_LIMIT
  {
    assert Pow256(4) == 0x1_0000_0000;
    assert Pow256(8) == 0x1_0000_0000 * Pow256(4);
  }

  /** The header is read back exactly when its three sizes are below 2^64. */
  lemma {:induction false} HeaderCodec(info: Info)
    ensures |MakeHeader(info)| == HEADER_SIZE
    ensures ReadHeader(MakeHeader(info)) == info
            <==> info.nbPackets < SIZE_LIMIT && info.packetSize < SIZE_LIMIT && info.remSize < SIZE_LIMIT
  {
    hide Bytes, Word, Pow256;
    Parts(info.kind, Bytes(info.nbPackets, WORD), Bytes(info.packetSize, WORD), Bytes(info.remSize, WORD));
    EightBytes();
    WordOfBytes(info.nbPackets, WORD);
    WordOfBytes(info.packetSize, WORD);
    WordOfBytes(info.remSize, WORD);
  }

  lemma Appended(header: seq<Byte>, v: nat, n: nat)
    ensures header + Bytes(v, n + 1) == header + [v % 256] + Bytes(v / 256, n)
    ensures header + [v % 256] + Bytes(v / 256, 0) == header + [v % 256]
  {
  }

  /** `push_to_header`: the eight bytes of a value, in memory order. */
  method PushToHeader(header: seq<Byte>, value: nat) returns (result: seq<Byte>)
    ensures result == header + Bytes(value, WORD)
  {
    hide Bytes;
    result := header;
    var v := value;
    for i := 0 to WORD
      invariant result + Bytes(v, WORD - i) == header + Bytes(value, WORD)
    {
      Appended(result, v, WORD - i - 1);
      result := result + [v % 256];
      v := v / 256;
    }
  }

  method BuildHeader(info: Info) returns (header: seq<Byte>)
    ensures header == MakeHeader(info)
  {
    header := [info.kind];
    header := PushToHeader(header, info.nbPackets);
    header := PushToHeader(header, info.packetSize);
    header := PushToHeader(header, info.remSize);
  }

  /** `read_header`: the type byte, then three words. */
  method ParseHeader(header: seq<Byte>) returns (info: Info)
    requires |header| == HEADER_SIZE
    ensures info == ReadHeader(header)
  {
    var sizes: seq<nat> := [];
    var pos := 1;
    for i := 0 to 3
      invariant pos == 1 + WORD * i && |sizes| == i
      invariant forall j :: 0 <= j < i ==> sizes[j] == Word(header[1 + WORD * j..1 + WORD * (j + 1)])
    {
      sizes := sizes + [Word(header[pos..pos + WORD])];
      pos := pos + WORD;
    }
    info := Info(header[0], sizes[0], sizes[1], sizes[2]);
  }
}

/** Media messages over a channel of datagrams. */
module StreamIO {
  import opened Options
  import opened Basics
  import opened PacketInfo
  import opened StreamHeader

  const MAX_ALLOCATION := 1_000_000

  type Datagram = seq<Byte>

  datatype Message = Message(kind: Kind, payload: seq<Byte>)

  // ----- Sending

  /** The bytes that `count` packets take. */
  function Span(count: nat, size: nat): nat { count * size }

  lemma SpanStep(count: nat, size: nat)
    ensures Span(0, size) == 0
    ensures count > 0 ==> Span(count, size) == size + Span(count - 1, size)
  {
    if count > 0 {
      assert count * size == size + (count - 1) * size;
    }
  }

  /** `count` consecutive slices of `size` bytes, from `pos` on. */
  function Chunks(data: seq<Byte>, pos: nat, size: nat, count: nat): seq<Datagram>
    requires pos + Span(count, size) <= |data|
    decreases count
  {
    SpanStep(count, size);
    if count == 0 then [] else [data[pos..pos + size]] + Chunks(data, pos + size, size, count - 1)
  }

  lemma ChunksNext(data: seq<Byte>, pos: nat, size: nat, count: nat)
    requires pos + Span(count, size) <= |data| && count > 0
    ensures pos + size + Span(count - 1, size) <= |data|
    ensures Chunks(data, pos, size, count) == [data[pos..pos + size]] + Chunks(data, pos + size, size, count - 1)
  {
    SpanStep(count, size);
  }

  lemma {:induction false} ChunksCount(data: seq<Byte>, pos: nat, size: nat, count: nat)
    requires pos + Span(count, size) <= |data|
    ensures |Chunks(data, pos, size, count)| == count
    decreases count
  {
    if count > 0 {
      ChunksNext(data, pos, size, count);
      ChunksCount(data, pos + size, size, count - 1);
    }
  }

  lemma ChunksNone(data: seq<Byte>, pos: nat, size: nat)
    requires pos + Span(0, size) <= |data|
    ensures Chunks(data, pos, size, 0) == []
  {
  }

  lemma LastIs(data: seq<Byte>, info: Info)
    requires Span(info.nbPackets, info.packetSize) + info.remSize == |data|
    ensures var sent := Span(info.nbPackets, info.packetSize);
            LastPart(data, info) == if info.remSize == 0 then [] else [data[sent..sent + info.remSize]]
  {
  }

  /** The remainder, unless it is empty. */
  function LastPart(data: seq<Byte>, info: Info): seq<Datagram>
    requires Span(info.nbPackets, info.packetSize) + info.remSize == |data|
  {
    var sent := Span(info.nbPackets, info.packetSize);
    if info.remSize == 0 then [] else [data[sent..sent + info.remSize]]
  }

  /** The datagrams of a payload: the packets and the remainder. */
  function DataDatagrams(data: seq<Byte>, info: Info): seq<Datagram>
    requires Span(info.nbPackets, info.packetSize) + info.remSize == |data|
  {
    Chunks(data, 0, info.packetSize, info.nbPackets) + LastPart(data, info)
  }

  function InfoOf(m: Message): Info {
    MakeInfo(TypeToChar(m.kind), |m.payload|)
  }

  /** What `respond` puts on the channel; text is refused. */
  function Emitted(m: Message): seq<Datagram>
    requires Fits(|m.payload|)
  {
    PartitionExactIff(TypeToChar(m.kind), |m.payload|);
    if m.kind.Text? then []
    else [MakeHeader(InfoOf(m))] + DataDatagrams(m.payload, InfoOf(m))
  }

  // ----- Receiving

  /** How a call ends: it returns `m_valid`, it never returns because the header scan keeps
      reading an empty socket, or the size arithmetic of its header leaves `size_t`. */
  datatype Ending = Returned(valid: bool) | Spins | Wraps

  datatype Outcome = Outcome(ending: Ending, data: Option<Message>, rest: seq<Datagram>)

  datatype HeaderOutcome = Failed | Spinning | Found(info: Info, rest: seq<Datagram>)

  /** One `recvfrom` takes a whole datagram and keeps at most `cap` bytes of it; the scan stops
      at the first datagram that fills the header. */
  function Scan(channel: seq<Datagram>): (r: HeaderOutcome)
    ensures !r.Failed?
  {
    if channel == [] then Spinning
    else if Min(|channel[0]|, HEADER_SIZE) == HEADER_SIZE
    then Found(ReadHeader(channel[0][..HEADER_SIZE]), channel[1..])
    else Scan(channel[1..])
  }

  function ReceivedHeader(channel: seq<Datagram>): HeaderOutcome {
    if channel == [] then Failed else Scan(channel)
  }

  /** One `recvfrom` of at most `cap` bytes into the buffer at `pos`. */
  function Into(buffer: seq<Byte>, pos: nat, cap: nat, d: Datagram): (b: seq<Byte>)
    requires pos + cap <= |buffer|
    ensures |b| == |buffer|
  {
    var m := Min(cap, |d|);
    buffer[..pos] + d[..m] + buffer[pos + m..]
  }

  datatype Filling = Filling(buffer: seq<Byte>, valid: bool, rest: seq<Datagram>)

  /** The receive loop; a failed read leaves its part of the buffer zero and the request invalid. */
  function Filled(f: Filling, pos: nat, size: nat, count: nat): (r: Filling)
    requires pos + Span(count, size) <= |f.buffer|
    ensures |r.buffer| == |f.buffer|
    decreases count
  {
    SpanStep(count, size);
    if count == 0 then f
    else Filled(ReadOne(f, pos, size), pos + size, size, count - 1)
  }

  function ReadOne(f: Filling, pos: nat, size: nat): (r: Filling)
    requires pos + size <= |f.buffer|
    ensures |r.buffer| == |f.buffer|
  {
    if f.rest == [] then f.(valid := false)
    else Filling(Into(f.buffer, pos, size, f.rest[0]), f.valid, f.rest[1..])
  }

  function Zeros(n: nat): (b: seq<Byte>)
    ensures |b| == n
  {
    seq(n, _ => 0)
  }

  /** `receive_data`; an announced size of a million bytes or more yields no data and reads none. */
  function ReceivedData(info: Info, channel: seq<Datagram>): Filling {
    if Total(info) >= MAX_ALLOCATION then Filling([], true, channel)
    else
      var packets := Filled(Filling(Zeros(Total(info)), true, channel), 0, info.packetSize, info.nbPackets);
      if info.remSize == 0 then packets
      else ReadOne(packets, Span(info.nbPackets, info.packetSize), info.remSize)
  }

  function Received(channel: seq<Datagram>): Outcome {
    match ReceivedHeader(channel)
    case Failed => Outcome(Returned(false), Some(Message(Empty, [])), channel)
    case Spinning => Outcome(Spins, None, [])
    case Found(info, rest) =>
      var kind := CharToType(info.kind);
      if kind.Empty? || kind.Done? then Outcome(Returned(true), Some(Message(kind, [])), rest)
      else if Total(info) >= SIZE_LIMIT then Outcome(Wraps, None, rest)
      else
        var f := ReceivedData(info, rest);
        Outcome(Returned(f.valid), if f.valid then Some(Message(kind, f.buffer)) else None, f.rest)
  }

  // ----- The loops

  /** Which of the datagrams get onto the channel when send number `n` fails if `fails(n)`. */
  function Passed(ds: seq<Datagram>, fails: nat -> bool, from: nat): seq<Datagram> {
    if ds == [] then [] else (if fails(from) then [] else [ds[0]]) + Passed(ds[1..], fails, from + 1)
  }

  predicate AllPass(ds: seq<Datagram>, fails: nat -> bool, from: nat) {
    ds == [] || (!fails(from) && AllPass(ds[1..], fails, from + 1))
  }

  lemma {:induction false} NoneFails(ds: seq<Datagram>, fails: nat -> bool, from: nat)
    ensures AllPass(ds, fails, from) ==> Passed(ds, fails, from) == ds
    ensures (forall n :: n >= from ==> !fails(n)) ==> AllPass(ds, fails, from)
  {
    if ds != [] {
      NoneFails(ds[1..], fails, from + 1);
    }
  }

  lemma {:induction false} PassedConcat(a: seq<Datagram>, b: seq<Datagram>, fails: nat -> bool, from: nat)
    ensures Passed(a + b, fails, from) == Passed(a, fails, from) + Passed(b, fails, from + |a|)
    ensures AllPass(a + b, fails, from) <==> AllPass(a, fails, from) && AllPass(b, fails, from + |a|)
  {
    if a == [] {
      assert a + b == b;
    } else {
      PassedConcat(a[1..], b, fails, from + 1);
      assert (a + b)[1..] == a[1..] + b;
    }
  }

  /** One send of several. */
  lemma PassedNext(sent: seq<Datagram>, d: Datagram, ds: seq<Datagram>, fails: nat -> bool, from: nat)
    ensures sent + Passed([d] + ds, fails, from)
            == (if fails(from) then sent else sent + [d]) + Passed(ds, fails, from + 1)
    ensures AllPass([d] + ds, fails, from) <==> !fails(from) && AllPass(ds, fails, from + 1)
    ensures Passed([], fails, from) == [] && AllPass([], fails, from)
  {
    assert ([d] + ds)[1..] == ds;
  }

  class Socket {
    const fails: nat -> bool
    var inbox: seq<Datagram>
    var outbox: seq<Datagram>
    var sends: nat

    constructor (inbox: seq<Datagram>, fails: nat -> bool)
      ensures this.inbox == inbox && this.fails == fails && outbox == [] && sends == 0
    {
      this.inbox, this.fails, outbox, sends := inbox, fails, [], 0;
    }

    method SendTo(d: Datagram) returns (sent: bool)
      modifies this`outbox, this`sends
      ensures sent == !fails(old(sends)) && sends == old(sends) + 1
      ensures outbox == if sent then old(outbox) + [d] else old(outbox)
    {
      sent := !fails(sends);
      sends := sends + 1;
      if sent {
        outbox := outbox + [d];
      }
    }

    /** Zero, one or `cap` bytes of the next datagram, or -1 when none arrives. */
    method RecvFrom(cap: nat) returns (result: int, bytes: seq<Byte>)
      modifies this`inbox
      ensures old(inbox) == [] ==> result == -1 && bytes == [] && inbox == []
      ensures old(inbox) != [] ==>
                && result == |bytes| == Min(cap, |old(inbox)[0]|)
                && bytes == old(inbox)[0][..result] && inbox == old(inbox)[1..]
    {
      if inbox == [] {
        return -1, [];
      }
      result := Min(cap, |inbox[0]|);
      bytes := inbox[0][..result];
      inbox := inbox[1..];
    }

    /** The pointer walk of `send_data`, which goes on after a failed send ... */
    method SendPackets(data: seq<Byte>, nb: nat, size: nat) returns (valid: bool, pointer: nat)
      requires Span(nb, size) <= |data|
      modifies this`outbox, this`sends
      ensures outbox == old(outbox) + Passed(Chunks(data, 0, size, nb), fails, old(sends))
      ensures valid <==> AllPass(Chunks(data, 0, size, nb), fails, old(sends))
      ensures sends == old(sends) + nb && pointer == Span(nb, size)
    {
      hide Span, Passed, AllPass, Chunks;
      valid, pointer := true, 0;
      ghost var goal := outbox + Passed(Chunks(data, 0, size, nb), fails, sends);
      ghost var all := AllPass(Chunks(data, 0, size, nb), fails, sends);
      for packet := 0 to nb
        invariant pointer + Span(nb - packet, size) == Span(nb, size) && sends == old(sends) + packet
        invariant outbox + Passed(Chunks(data, pointer, size, nb - packet), fails, sends) == goal
        invariant valid && AllPass(Chunks(data, pointer, size, nb - packet), fails, sends) <==> all
      {
        SpanStep(nb - packet, size);
        ChunksNext(data, pointer, size, nb - packet);
        ghost var rest := Chunks(data, pointer + size, size, nb - packet - 1);
        PassedNext(outbox, data[pointer..pointer + size], rest, fails, sends);
        var sent := SendTo(data[pointer..pointer + size]);
        valid := valid && sent;
        pointer := pointer + size;
      }
      SpanStep(0, size);
      ChunksNone(data, pointer, size);
      PassedNext(outbox, [], [], fails, sends);
    }

    /** ... and the remainder behind it. */
    method SendData(data: seq<Byte>, info: Info) returns (valid: bool)
      requires Span(info.nbPackets, info.packetSize) + info.remSize == |data|
      modifies this`outbox, this`sends
      ensures outbox == old(outbox) + Passed(DataDatagrams(data, info), fails, old(sends))
      ensures valid <==> AllPass(DataDatagrams(data, info), fails, old(sends))
    {
      hide Span, Passed, AllPass, Chunks, LastPart;
      ghost var packets, last := Chunks(data, 0, info.packetSize, info.nbPackets), LastPart(data, info);
      PassedConcat(packets, last, fails, sends);
      ChunksCount(data, 0, info.packetSize, info.nbPackets);
      LastIs(data, info);
      var pointer: nat;
      valid, pointer := SendPackets(data, info.nbPackets, info.packetSize);
      PassedNext(outbox, [], [], fails, sends);
      if info.remSize == 0 {
        return;
      }
      assert last == [data[pointer..pointer + info.remSize]] + [];
      PassedNext(outbox, last[0], [], fails, sends);
      PassedNext(outbox, [], [], fails, sends + 1);
      assert outbox + Passed(last, fails, sends)
          == old(outbox) + (Passed(packets, fails, old(sends)) + Passed(last, fails, sends));
      var sent := SendTo(data[pointer..pointer + info.remSize]);
      valid := valid && sent;
    }

    /** `respond`: the caller keeps the payload to a size the cut describes.  No data follows a
        header that could not be sent. */
    method Respond(m: Message) returns (valid: bool)
      requires Fits(|m.payload|)
      modifies this`outbox, this`sends
      ensures outbox == old(outbox) + if Emitted(m) != [] && fails(old(sends)) then []
                                      else Passed(Emitted(m), fails, old(sends))
      ensures valid <==> !m.kind.Text? && AllPass(Emitted(m), fails, old(sends))
      ensures (forall n :: n >= old(sends) ==> !fails(n)) ==>
                outbox == old(outbox) + Emitted(m) && (valid <==> !m.kind.Text?)
    {
      hide DataDatagrams, MakeHeader, MakeInfo, TypeToChar, Passed, AllPass;
      NoneFails(Emitted(m), fails, sends);
      PassedNext(outbox, [], [], fails, sends);
      assert outbox + [] == outbox;
      if m.kind.Text? {
        return false;
      }
      PartitionExactIff(TypeToChar(m.kind), |m.payload|);
      var info := MakeInfo(TypeToChar(m.kind), |m.payload|);
      var header := BuildHeader(info);
      PassedNext(outbox, header, DataDatagrams(m.payload, info), fails, sends);
      valid := SendTo(header);
      if valid {
        valid := SendData(m.payload, info);
      }
    }

    method ReceiveHeader() returns (r: HeaderOutcome)
      modifies this`inbox
      ensures r == ReceivedHeader(old(inbox))
      ensures r.Found? ==> inbox == r.rest
      ensures !r.Found? ==> inbox == []
    {
      var result, header := RecvFrom(HEADER_SIZE);
      if result < 0 {
        return Failed;
      }
      while result != HEADER_SIZE
        invariant result == |header| <= HEADER_SIZE
        invariant Scan(old(inbox)) == if result == HEADER_SIZE then Found(ReadHeader(header), inbox) else Scan(inbox)
        decreases |inbox|, HEADER_SIZE - result
      {
        if inbox == [] {
          return Spinning; // the loop goes on reading -1
        }
        result, header := RecvFrom(HEADER_SIZE);
      }
      var info := ParseHeader(header);
      r := Found(info, inbox);
    }

    method ReceiveData(info: Info) returns (valid: bool, data: seq<Byte>)
      requires Total(info) < SIZE_LIMIT
      modifies this`inbox
      ensures Filling(data, valid, inbox) == ReceivedData(info, old(inbox))
    {
      var allocSize := info.nbPackets * info.packetSize + info.remSize;
      if allocSize >= MAX_ALLOCATION {
        return true, [];
      }
      data, valid := ReceivePackets(Zeros(allocSize), info.nbPackets, info.packetSize);
      if info.remSize == 0 {
        return;
      }
      data, valid := ReceiveInto(data, valid, Span(info.nbPackets, info.packetSize), info.remSize);
    }

    method ReceivePackets(buffer: seq<Byte>, nb: nat, size: nat) returns (data: seq<Byte>, valid: bool)
      requires Span(nb, size) <= |buffer|
      modifies this`inbox
      ensures Filling(data, valid, inbox) == Filled(Filling(buffer, true, old(inbox)), 0, size, nb)
    {
      data, valid := buffer, true;
      var pointer: nat := 0;
      hide Span, ReadOne;
      for packet := 0 to nb
        invariant |data| == |buffer| && pointer + Span(nb - packet, size) == Span(nb, size)
        invariant Filled(Filling(data, valid, inbox), pointer, size, nb - packet)
                  == Filled(Filling(buffer, true, old(inbox)), 0, size, nb)
      {
        SpanStep(nb - packet, size);
        data, valid := ReceiveInto(data, valid, pointer, size);
        pointer := pointer + size;
      }
    }

    method ReceiveInto(buffer: seq<Byte>, valid: bool, pos: nat, cap: nat) returns (data: seq<Byte>, valid': bool)
      requires pos + cap <= |buffer|
      modifies this`inbox
      ensures Filling(data, valid', inbox) == ReadOne(Filling(buffer, valid, old(inbox)), pos, cap)
    {
      var result, bytes := RecvFrom(cap);
      if result < 0 {
        return buffer, false;
      }
      data, valid' := buffer[..pos] + bytes + buffer[pos + result..], valid;
    }

    method Receive() returns (r: Outcome)
      modifies this`inbox
      ensures r == Received(old(inbox))
      ensures r.ending.Returned? ==> inbox == r.rest
    {
      var header := ReceiveHeader();
      match header {
        case Failed => r := Outcome(Returned(false), Some(Message(Empty, [])), inbox);
        case Spinning => r := Outcome(Spins, None, inbox);
        case Found(info, _) =>
          var kind := CharToType(info.kind);
          if kind.Empty? || kind.Done? {
            return Outcome(Returned(true), Some(Message(kind, [])), inbox);
          }
          if Total(info) >= SIZE_LIMIT {
            return Outcome(Wraps, None, inbox);
          }
          var valid, data := ReceiveData(info);
          r := Outcome(Returned(valid), if valid then Some(Message(kind, data)) else None, inbox);
      }
    }
  }
}
