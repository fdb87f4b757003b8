/** What a receiver gets from what a sender emits, over a lossless first-in first-out channel
    that may still hold short datagrams from before. */
module MediaStream {
  import opened Options
  import opened PacketInfo
  import opened StreamHeader
  import opened StreamIO

  function Flatten(ds: seq<Datagram>): seq<Byte> {
    if ds == [] then [] else ds[0] + Flatten(ds[1..])
  }

  lemma {:induction false} FlattenSnoc(ds: seq<Datagram>, d: Datagram)
    ensures Flatten(ds + [d]) == Flatten(ds) + d
  {
    if ds == [] {
      assert [d][1..] == [] && ds + [d] == [d];
    } else {
      FlattenSnoc(ds[1..], d);
      assert (ds + [d])[1..] == ds[1..] + [d];
    }
  }

  lemma FlattenCons(d: Datagram, ds: seq<Datagram>)
    ensures Flatten([d] + ds) == d + Flatten(ds)
  {
    assert ([d] + ds)[1..] == ds;
  }

  lemma FlattenNil()
    ensures Flatten([]) == []
  {
  }

  lemma {:induction false} ChunksCover(data: seq<Byte>, pos: nat, size: nat, count: nat)
    requires pos + Span(count, size) <= |data|
    ensures Flatten(Chunks(data, pos, size, count)) == data[pos..pos + Span(count, size)]
    ensures forall d :: d in Chunks(data, pos, size, count) ==> |d| == size
    decreases count
  {
    hide Span, Chunks, Flatten;
    SpanStep(count, size);
    if count == 0 {
      ChunksNone(data, pos, size);
      FlattenNil();
    } else {
      ChunksNext(data, pos, size, count);
      ChunksCover(data, pos + size, size, count - 1);
      var first, rest := data[pos..pos + size], Chunks(data, pos + size, size, count - 1);
      FlattenCons(first, rest);
      assert data[pos..pos + Span(count, size)] == first + data[pos + size..pos + Span(count, size)];
    }
  }

  /** The datagrams after the header cover the payload once, in order, none above 9000 bytes. */
  lemma {:induction false} DatagramsCoverPayload(m: Message)
    requires Fits(|m.payload|) && !m.kind.Text?
    ensures Flatten(Emitted(m)[1..]) == m.payload
    ensures forall d :: d in Emitted(m) ==> |d| <= MAX_PACKET_SIZE
  {
    hide Chunks, Flatten, MakeInfo, Fits, MakeHeader;
    var info, n := InfoOf(m), |m.payload|;
    PartitionExactIff(TypeToChar(m.kind), n);
    DatagramBound(TypeToChar(m.kind), n);
    var sent := Span(info.nbPackets, info.packetSize);
    var packets := Chunks(m.payload, 0, info.packetSize, info.nbPackets);
    ChunksCover(m.payload, 0, info.packetSize, info.nbPackets);
    assert Emitted(m)[1..] == DataDatagrams(m.payload, info);
    if info.remSize > 0 {
      FlattenSnoc(packets, m.payload[sent..]);
      assert m.payload[sent..sent + info.remSize] == m.payload[sent..];
      assert m.payload[0..sent] + m.payload[sent..] == m.payload;
    } else {
      assert packets + [] == packets && m.payload[0..sent] == m.payload;
    }
    HeaderLength(info);
    assert forall d :: d in Emitted(m) ==> d == MakeHeader(info) || d in Emitted(m)[1..];
  }

  lemma HeaderLength(info: Info)
    ensures |MakeHeader(info)| <= MAX_PACKET_SIZE
  {
  }

  // ----- One message

  predicate Short(d: Datagram) { |d| < HEADER_SIZE }

  predicate AllShort(ds: seq<Datagram>) { forall i :: 0 <= i < |ds| ==> Short(ds[i]) }

  /** The header scan skips everything shorter than a header. */
  lemma {:induction false} ScanSkips(junk: seq<Datagram>, rest: seq<Datagram>)
    requires AllShort(junk)
    ensures Scan(junk + rest) == Scan(rest)
  {
    hide ReadHeader;
    if junk == [] {
      assert junk + rest == rest;
    } else {
      assert (junk + rest)[0] == junk[0] && Short(junk[0]);
      assert (junk + rest)[1..] == junk[1..] + rest;
      ScanSkips(junk[1..], rest);
    }
  }

  /** Receiving the packets of a payload in order rebuilds it from the front. */
  lemma {:induction false} FilledRebuilds(
    data: seq<Byte>, f: Filling, pos: nat, size: nat, count: nat, rest: seq<Datagram>)
    requires pos + Span(count, size) <= |data| == |f.buffer|
    requires f.buffer[..pos] == data[..pos]
    requires f.rest == Chunks(data, pos, size, count) + rest
    ensures var r := Filled(f, pos, size, count);
            && r.valid == f.valid && r.rest == rest
            && r.buffer[..pos + Span(count, size)] == data[..pos + Span(count, size)]
    decreases count
  {
    hide Span;
    SpanStep(count, size);
    if count == 0 {
      assert f.rest == rest;
    } else {
      var d := data[pos..pos + size];
      var later := Chunks(data, pos + size, size, count - 1);
      assert f.rest == [d] + (later + rest);
      var g := ReadOne(f, pos, size);
      assert g.rest == later + rest;
      assert data[..pos + size] == data[..pos] + d;
      assert g.buffer[..pos + size] == f.buffer[..pos] + d;
      FilledRebuilds(data, g, pos + size, size, count - 1, rest);
    }
  }

  lemma DataArrives(data: seq<Byte>, info: Info, rest: seq<Datagram>)
    requires Span(info.nbPackets, info.packetSize) + info.remSize == |data| < MAX_ALLOCATION
    ensures ReceivedData(info, DataDatagrams(data, info) + rest) == Filling(data, true, rest)
  {
    hide Filled, Chunks, Zeros;
    var sent := Span(info.nbPackets, info.packetSize);
    var chunks := Chunks(data, 0, info.packetSize, info.nbPackets);
    var tail := (if info.remSize == 0 then [] else [data[sent..sent + info.remSize]]) + rest;
    var start := Filling(Zeros(|data|), true, DataDatagrams(data, info) + rest);
    assert start.rest == chunks + tail;
    assert start.buffer[..0] == data[..0];
    FilledRebuilds(data, start, 0, info.packetSize, info.nbPackets, tail);
    var packets := Filled(start, 0, info.packetSize, info.nbPackets);
    if info.remSize == 0 {
      assert packets.buffer[..sent] == packets.buffer && data[..sent] == data;
    } else {
      LastRead(data, packets, sent, info.remSize, rest);
    }
  }

  lemma LastRead(data: seq<Byte>, f: Filling, pos: nat, size: nat, rest: seq<Datagram>)
    requires pos + size == |data| == |f.buffer| && f.buffer[..pos] == data[..pos]
    requires f.rest == [data[pos..pos + size]] + rest
    ensures ReadOne(f, pos, size) == Filling(data, f.valid, rest)
  {
    assert data == data[..pos] + data[pos..pos + size] + f.buffer[pos + size..];
  }

  /** The messages the receiver hands over as they were sent. */
  predicate Deliverable(m: Message) {
    && |m.payload| < MAX_ALLOCATION
    && (m.kind.Done? || m.kind.Empty? ==> m.payload == [])
  }

  /** What a message leaves on the channel: a payload-free Done or Empty one its empty datagram. */
  function Leftover(m: Message): seq<Datagram> {
    if m.kind.Done? || m.kind.Empty? then [[]] else []
  }

  lemma HeaderIsFound(m: Message, rest: seq<Datagram>)
    requires |m.payload| < SIZE_LIMIT
    ensures Scan([MakeHeader(InfoOf(m))] + rest) == Found(InfoOf(m), rest)
    ensures CharToType(InfoOf(m).kind) == m.kind
  {
    var info := InfoOf(m);
    hide MakeInfo, TypeToChar;
    SizesFit(TypeToChar(m.kind), |m.payload|);
    HeaderCodec(info);
    TypeCodec(m.kind, 0);
    hide MakeHeader, ReadHeader, CharToType;
    var h := MakeHeader(info);
    assert h[..HEADER_SIZE] == h;
    assert ([h] + rest)[0] == h && ([h] + rest)[1..] == rest;
    assert info.kind == TypeToChar(m.kind) by {
      KindOfInfo(TypeToChar(m.kind), |m.payload|);
    }
  }

  lemma KindOfInfo(kind: Byte, n: nat)
    ensures MakeInfo(kind, n).kind == kind
  {
  }

  lemma SizesFit(kind: Byte, n: nat)
    requires n < SIZE_LIMIT
    ensures MakeInfo(kind, n).nbPackets < SIZE_LIMIT && MakeInfo(kind, n).packetSize < SIZE_LIMIT
    ensures MakeInfo(kind, n).remSize < SIZE_LIMIT
  {
    FloorsAreExact(kind, n);
    if n >= SINGLE_PACKAGE_THRESHOLD {
      assert n % Divisor(n) <= n;
    }
  }

  /** One message, behind any number of short datagrams, is received as sent, with nothing of it
      left on the channel but an empty datagram, exactly when it is deliverable. */
  lemma {:induction false} MessageRoundTripIff(junk: seq<Datagram>, m: Message, rest: seq<Datagram>)
    requires AllShort(junk) && Fits(|m.payload|) && !m.kind.Text? && |m.payload| < SIZE_LIMIT
    ensures Received(junk + Emitted(m) + rest) == Outcome(Returned(true), Some(m), Leftover(m) + rest)
            <==> Deliverable(m)
    ensures !Deliverable(m) ==>
              Received(junk + Emitted(m) + rest)
              == Outcome(Returned(true), Some(Message(m.kind, [])), Emitted(m)[1..] + rest)
  {
    hide Received, Emitted, Fits;
    EmittedHeaderFound(junk, m, rest);
    var data := Emitted(m)[1..];
    if m.kind.Done? || m.kind.Empty? {
      EndReceived(m, junk + Emitted(m) + rest, data + rest);
      if m.payload == [] {
        EmptyPayloadSent(m);
      }
    } else {
      DataReceived(m, junk + Emitted(m) + rest, rest);
    }
  }

  /** The scan passes the junk and finds the header, with the payload behind it. */
  lemma {:induction false} EmittedHeaderFound(junk: seq<Datagram>, m: Message, rest: seq<Datagram>)
    requires AllShort(junk) && Fits(|m.payload|) && !m.kind.Text? && |m.payload| < SIZE_LIMIT
    ensures Emitted(m) != []
    ensures ReceivedHeader(junk + Emitted(m) + rest) == Found(InfoOf(m), Emitted(m)[1..] + rest)
    ensures CharToType(InfoOf(m).kind) == m.kind
  {
    hide Scan, AllShort, MakeInfo, MakeHeader, DataDatagrams, Fits, TypeToChar, CharToType;
    var info := InfoOf(m);
    PartitionExactIff(TypeToChar(m.kind), |m.payload|);
    var data := DataDatagrams(m.payload, info);
    assert junk + Emitted(m) + rest == junk + ([MakeHeader(info)] + (data + rest));
    assert Emitted(m)[1..] == data;
    ScanSkips(junk, [MakeHeader(info)] + (data + rest));
    HeaderIsFound(m, data + rest);
  }

  /** A Done or Empty header ends the message. */
  lemma EndReceived(m: Message, channel: seq<Datagram>, rest: seq<Datagram>)
    requires ReceivedHeader(channel) == Found(InfoOf(m), rest) && CharToType(InfoOf(m).kind) == m.kind
    requires m.kind.Done? || m.kind.Empty?
    ensures Received(channel) == Outcome(Returned(true), Some(Message(m.kind, [])), rest)
  {
    hide ReceivedHeader, InfoOf, CharToType, ReceivedData;
  }

  /** Behind any other header the payload is received, or dropped when it is too large. */
  lemma {:induction false} DataReceived(m: Message, channel: seq<Datagram>, rest: seq<Datagram>)
    requires Fits(|m.payload|) && m.kind != Done && m.kind != Empty && m.kind != Text && |m.payload| < SIZE_LIMIT
    requires ReceivedHeader(channel) == Found(InfoOf(m), Emitted(m)[1..] + rest)
    requires CharToType(InfoOf(m).kind) == m.kind
    ensures Received(channel)
            == if |m.payload| < MAX_ALLOCATION then Outcome(Returned(true), Some(m), rest)
               else Outcome(Returned(true), Some(Message(m.kind, [])), Emitted(m)[1..] + rest)
  {
    hide ReceivedHeader, MakeInfo, MakeHeader, CharToType, TypeToChar, DataDatagrams, Fits;
    PartitionExactIff(TypeToChar(m.kind), |m.payload|);
    assert Emitted(m)[1..] == DataDatagrams(m.payload, InfoOf(m));
    if |m.payload| < MAX_ALLOCATION {
      DataArrives(m.payload, InfoOf(m), rest);
    }
  }

  lemma EmptyPayloadSent(m: Message)
    requires m.payload == [] && !m.kind.Text? && Fits(0)
    ensures Emitted(m) != [] && Emitted(m)[1..] == [[]]
  {
    EmptyPayloadDatagrams(m);
    hide MakeHeader, DataDatagrams, InfoOf;
    PartitionExactIff(TypeToChar(m.kind), 0);
  }

  lemma EmptyPayloadDatagrams(m: Message)
    requires m.payload == []
    ensures InfoOf(m) == Info(TypeToChar(m.kind), 1, 0, 0)
    ensures DataDatagrams(m.payload, InfoOf(m)) == [[]]
  {
    hide TypeToChar;
    SpanStep(1, 0);
    assert m.payload[0..0] == [];
    assert Chunks(m.payload, 0, 0, 1) == [[]] + Chunks(m.payload, 0, 0, 0);
  }

  // ----- Lost datagrams

  /** The packets that arrive are consumed, and one that does not leaves the request invalid. */
  lemma {:induction false} FilledCounts(f: Filling, pos: nat, size: nat, count: nat)
    requires pos + Span(count, size) <= |f.buffer|
    ensures var r := Filled(f, pos, size, count);
            && (r.valid <==> f.valid && count <= |f.rest|)
            && r.rest == if count <= |f.rest| then f.rest[count..] else []
    decreases count
  {
    hide Span, Into;
    SpanStep(count, size);
    if count > 0 {
      FilledCounts(ReadOne(f, pos, size), pos + size, size, count - 1);
    }
  }

  /** How many datagrams a header announces. */
  function Announced(info: Info): nat { info.nbPackets + if info.remSize == 0 then 0 else 1 }

  /** Behind a header for data the request is valid exactly when as many datagrams follow as it
      announces; otherwise it has no data and nothing is left on the channel. */
  lemma {:induction false} ValidIffAllArrive(channel: seq<Datagram>, info: Info, rest: seq<Datagram>)
    requires ReceivedHeader(channel) == Found(info, rest) && Total(info) < MAX_ALLOCATION
    requires CharToType(info.kind).Audio? || CharToType(info.kind).Video?
    ensures var r := Received(channel);
            && (|rest| >= Announced(info) ==>
                  && r.ending == Returned(true) && r.rest == rest[Announced(info)..]
                  && r.data.Some? && r.data.value.kind == CharToType(info.kind)
                  && |r.data.value.payload| == Total(info))
            && (|rest| < Announced(info) ==> r == Outcome(Returned(false), None, []))
  {
    hide ReceivedHeader, CharToType, Into;
    var start := Filling(Zeros(Total(info)), true, rest);
    FilledCounts(start, 0, info.packetSize, info.nbPackets);
    if info.remSize > 0 && info.nbPackets < |rest| {
      assert rest[info.nbPackets..][1..] == rest[Announced(info)..];
    }
  }

  /** When the last datagrams of a message are lost, the receiver returns an invalid request without
      data. */
  lemma {:induction false} LostTail(junk: seq<Datagram>, m: Message, k: nat)
    requires AllShort(junk) && Deliverable(m) && (m.kind.Audio? || m.kind.Video?) && Fits(|m.payload|)
    requires 1 <= k < |Emitted(m)|
    ensures Received(junk + Emitted(m)[..k]) == Outcome(Returned(false), None, [])
  {
    hide Received, Emitted, Fits, AllShort;
    var data := Emitted(m)[1..];
    EmittedTruncated(junk, m, k);
    ValidIffAllArrive(junk + Emitted(m)[..k], InfoOf(m), data[..k - 1]);
  }

  lemma {:induction false} EmittedTruncated(junk: seq<Datagram>, m: Message, k: nat)
    requires AllShort(junk) && Deliverable(m) && (m.kind.Audio? || m.kind.Video?) && Fits(|m.payload|)
    requires 1 <= k < |Emitted(m)|
    ensures ReceivedHeader(junk + Emitted(m)[..k]) == Found(InfoOf(m), Emitted(m)[1..][..k - 1])
    ensures CharToType(InfoOf(m).kind) == m.kind
    ensures Total(InfoOf(m)) == |m.payload| && |Emitted(m)| == 1 + Announced(InfoOf(m))
  {
    hide Scan, AllShort, MakeInfo, MakeHeader, Fits, TypeToChar, CharToType;
    var info := InfoOf(m);
    PartitionExactIff(TypeToChar(m.kind), |m.payload|);
    ChunksCount(m.payload, 0, info.packetSize, info.nbPackets);
    LastIs(m.payload, info);
    var data := Emitted(m)[1..];
    assert Emitted(m)[..k] == [MakeHeader(info)] + data[..k - 1];
    Regrouped(junk, [MakeHeader(info)], data[..k - 1]);
    ScanSkips(junk, [MakeHeader(info)] + data[..k - 1]);
    HeaderIsFound(m, data[..k - 1]);
  }

  lemma Regrouped(a: seq<Datagram>, b: seq<Datagram>, c: seq<Datagram>)
    ensures a + (b + c) == a + b + c
  {
  }

  /** A read keeps 25 bytes of a longer datagram, so the scan takes those for the header. */
  lemma {:induction false} LongIsTakenForHeader(junk: seq<Datagram>, d: Datagram, rest: seq<Datagram>)
    requires AllShort(junk) && |d| >= 25
    ensures ReceivedHeader(junk + [d] + rest) == Found(ReadHeader(d[..25]), rest)
  {
    assert junk + [d] + rest == junk + ([d] + rest);
    assert ([d] + rest)[1..] == rest;
    ScanSkips(junk, [d] + rest);
  }

  /** Text is never sent as media. */
  lemma TextIsNotSent(payload: seq<Byte>)
    requires Fits(|payload|)
    ensures Emitted(Message(Text, payload)) == []
  {
    hide Fits, DataDatagrams, MakeHeader;
  }

  /** When no data arrives at all the buffer stays zero and the request becomes invalid. */
  lemma {:induction false} NoDataArrives(info: Info)
    requires Total(info) < 1_000_000 && Announced(info) > 0
    ensures ReceivedData(info, []) == Filling(seq(Total(info), _ => 0), false, [])
  {
    var start := Filling(Zeros(Total(info)), true, []);
    FilledCounts(start, 0, info.packetSize, info.nbPackets);
    NothingFilled(start, 0, info.packetSize, info.nbPackets);
    assert Zeros(Total(info)) == seq(Total(info), _ => 0);
  }

  lemma {:induction false} NothingFilled(f: Filling, pos: nat, size: nat, count: nat)
    requires pos + Span(count, size) <= |f.buffer| && f.rest == []
    ensures Filled(f, pos, size, count).buffer == f.buffer
    decreases count
  {
    hide Span;
    SpanStep(count, size);
    if count > 0 {
      NothingFilled(ReadOne(f, pos, size), pos + size, size, count - 1);
    }
  }

  /** The limits in numbers: a header that announces a million bytes or more gives an empty package and
      reads no data, and one whose sizes add up to 2^64 or more has no defined result. */
  lemma {:induction false} Limits(channel: seq<Datagram>, info: Info, rest: seq<Datagram>)
    requires ReceivedHeader(channel) == Found(info, rest)
    requires CharToType(info.kind).Audio? || CharToType(info.kind).Video? || CharToType(info.kind).Text?
    ensures var r := Received(channel);
            && (r.ending == Wraps <==> Total(info) >= 18_446_744_073_709_551_616)
            && (1_000_000 <= Total(info) < 18_446_744_073_709_551_616 ==>
                  r == Outcome(Returned(true), Some(Message(CharToType(info.kind), [])), rest))
            && (Total(info) < 1_000_000 ==>
                  r.ending.Returned? && (r.data.Some? ==> |r.data.value.payload| == Total(info)))
  {
    hide ReceivedHeader, CharToType, Filled, ReadOne;
  }

  /** An empty socket gives an invalid request that holds an empty package; once a short datagram has
      been read, the scan goes on reading for ever. */
  lemma {:induction false} NoHeaderArrives(junk: seq<Datagram>)
    requires AllShort(junk)
    ensures Received(junk) == if junk == [] then Outcome(Returned(false), Some(Message(Empty, [])), [])
                              else Outcome(Spins, None, [])
  {
    assert junk + [] == junk;
    ScanSkips(junk, []);
  }

  // ----- Whole streams

  /** A message and the short datagrams that arrive before it. */
  datatype Arrival = Arrival(junk: seq<Datagram>, message: Message)

  predicate Sendable(a: Arrival) {
    AllShort(a.junk) && Deliverable(a.message) && !a.message.kind.Text?
  }

  function Channel(arrivals: seq<Arrival>): seq<Datagram>
    requires forall i :: 0 <= i < |arrivals| ==> Sendable(arrivals[i])
  {
    if arrivals == [] then []
    else
      assert Sendable(arrivals[0]);
      PayloadFits(arrivals[0].message);
      arrivals[0].junk + Emitted(arrivals[0].message) + Channel(arrivals[1..])
  }

  function Messages(arrivals: seq<Arrival>): (r: seq<Message>)
    ensures |r| == |arrivals|
  {
    seq(|arrivals|, i requires 0 <= i < |arrivals| => arrivals[i].message)
  }

  /** `n` calls of `receive`, each of which must return a message. */
  function ReceivedAll(channel: seq<Datagram>, n: nat): Option<(seq<Message>, seq<Datagram>)>
    decreases n
  {
    if n == 0 then Some(([], channel))
    else
      match Received(channel)
      case Outcome(Returned(true), Some(m), rest) =>
        (match ReceivedAll(rest, n - 1)
         case Some((others, last)) => Some(([m] + others, last))
         case None => None)
      case _ => None
  }

  /** Successive receives return exactly the messages sent, in order, whatever short datagrams
      come before and between them; behind the last one only its empty datagram can be left. */
  lemma {:induction false} StreamRoundTrip(junk: seq<Datagram>, arrivals: seq<Arrival>, tail: seq<Datagram>)
    requires AllShort(junk)
    requires forall i :: 0 <= i < |arrivals| ==> Sendable(arrivals[i])
    ensures var left := if arrivals == [] then junk else Leftover(arrivals[|arrivals| - 1].message);
            ReceivedAll(junk + Channel(arrivals) + tail, |arrivals|) == Some((Messages(arrivals), left + tail))
    decreases |arrivals|
  {
    hide Received, AllShort, Deliverable, Leftover, Channel;
    if arrivals == [] {
      NoArrivals(junk, tail);
      assert Messages(arrivals) == [];
    } else {
      var a, rest := arrivals[0], arrivals[1..];
      var m := a.message;
      assert Sendable(a);
      PayloadFits(m);
      ShortConcat(junk, a.junk);
      ChannelCons(junk, arrivals, tail);
      MessageRoundTripIff(junk + a.junk, m, Channel(rest) + tail);
      hide Emitted;
      LeftoverShort(m);
      assert Leftover(m) + (Channel(rest) + tail) == Leftover(m) + Channel(rest) + tail;
      StreamRoundTrip(Leftover(m), rest, tail);
      assert Messages(arrivals) == [m] + Messages(rest);
      assert rest != [] ==> rest[|rest| - 1] == arrivals[|arrivals| - 1];
    }
  }

  lemma NoArrivals(junk: seq<Datagram>, tail: seq<Datagram>)
    ensures junk + Channel([]) + tail == junk + tail
  {
  }

  lemma ChannelCons(junk: seq<Datagram>, arrivals: seq<Arrival>, tail: seq<Datagram>)
    requires arrivals != [] && forall i :: 0 <= i < |arrivals| ==> Sendable(arrivals[i])
    requires Fits(|arrivals[0].message.payload|)
    ensures junk + Channel(arrivals) + tail
            == (junk + arrivals[0].junk) + Emitted(arrivals[0].message) + (Channel(arrivals[1..]) + tail)
  {
    hide Fits, Emitted, Sendable;
    assert Channel(arrivals) == arrivals[0].junk + Emitted(arrivals[0].message) + Channel(arrivals[1..]);
  }

  lemma PayloadFits(m: Message)
    requires Deliverable(m)
    ensures Fits(|m.payload|) && |m.payload| < SIZE_LIMIT
  {
    FitsBelowBound(|m.payload|);
  }

  lemma ShortConcat(a: seq<Datagram>, b: seq<Datagram>)
    requires AllShort(a) && AllShort(b)
    ensures AllShort(a + b)
  {
  }

  lemma LeftoverShort(m: Message)
    ensures AllShort(Leftover(m)) && |Leftover(m)| <= 1
  {
  }
}
