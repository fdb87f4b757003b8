/** The handshake of two peers over datagrams that may be late or lost, and the media stream that
    follows it on the same sockets. */
module Handshake {
  import opened Options
  import opened Basics
  import opened PacketInfo
  import opened StreamHeader
  import opened StreamIO
  import opened MediaStream
  import P2PClient
  import Reply

  // ----- Datagrams as text

  const BUFFER_SIZE := 512

  function UpToNul(d: Datagram): string {
    if d == [] || d[0] == 0 then "" else [d[0] as char] + UpToNul(d[1..])
  }

  /** What the text strategy makes of a datagram. */
  function Decoded(d: Datagram): string {
    UpToNul(d[..Min(BUFFER_SIZE, |d|)])
  }

  /** The text of a datagram is its first 512 bytes up to the first NUL. */
  lemma {:induction false} DecodedMeans(d: Datagram)
    ensures var n := |Decoded(d)|;
            && n <= 512 && n <= |d|
            && (forall i :: 0 <= i < n ==> d[i] != 0 && Decoded(d)[i] == d[i] as char)
            && (n < 512 && n < |d| ==> d[n] == 0)
  {
    UpToNulMeans(d[..Min(BUFFER_SIZE, |d|)]);
  }

  lemma {:induction false} UpToNulMeans(d: Datagram)
    ensures var n := |UpToNul(d)|;
            && n <= |d|
            && (forall i :: 0 <= i < n ==> d[i] != 0 && UpToNul(d)[i] == d[i] as char)
            && (n < |d| ==> d[n] == 0)
  {
    if d != [] && d[0] != 0 {
      UpToNulMeans(d[1..]);
    }
  }

  const OK := P2PClient.OK
  const OkDatagram: Datagram :=
    ['2' as Byte, '0' as Byte, '0' as Byte, ' ' as Byte, 'O' as Byte, 'K' as Byte]

  function OkDatagrams(n: nat): (r: seq<Datagram>)
    ensures |r| == n
  {
    seq(n, _ => OkDatagram)
  }

  function Texts(n: nat): (r: seq<string>)
    ensures |r| == n
  {
    seq(n, _ => OK)
  }

  lemma OkIsShort()
    ensures Decoded(OkDatagram) == OK && Short(OkDatagram)
    ensures Decoded([]) == ""
  {
    var e: Datagram := [];
    assert e[..0] == [];
    var d := OkDatagram;
    assert d[..6] == d;
    assert UpToNul(d[6..]) == "";
    assert UpToNul(d[5..]) == "K" by { assert d[5..][1..] == d[6..]; }
    assert UpToNul(d[4..]) == "OK" by { assert d[4..][1..] == d[5..]; }
    assert UpToNul(d[3..]) == " OK" by { assert d[3..][1..] == d[4..]; }
    assert UpToNul(d[2..]) == "0 OK" by { assert d[2..][1..] == d[3..]; }
    assert UpToNul(d[1..]) == "00 OK" by { assert d[1..][1..] == d[2..]; }
  }

  // ----- The machine

  datatype Side = Caller | Callee

  function Other(s: Side): Side { if s.Caller? then Callee else Caller }

  /** What a peer does next: punch, confirm (the caller), wait, answer (the callee), or nothing. */
  datatype Pc = Punch | Confirm | Wait | Answer | Finished

  /** `texts` are the messages sent and `got` the results of the reads so far, `streamed` the
      datagrams sent after the handshake. */
  datatype Peer = Peer(
    pc: Pc, status: P2PClient.Status, texts: seq<string>, got: seq<Option<string>>,
    inbox: seq<Datagram>, streamed: seq<Datagram>)

  datatype Pair = Pair(caller: Peer, callee: Peer)

  datatype Move =
    | Send(side: Side)
    | Read(side: Side)
    | TimeOut(side: Side)
    | Stream(side: Side, datagram: Datagram)
    | Lose(side: Side, index: nat)

  function Get(p: Pair, s: Side): Peer { if s.Caller? then p.caller else p.callee }

  function Put(p: Pair, s: Side, x: Peer): Pair {
    if s.Caller? then p.(caller := x) else p.(callee := x)
  }

  function AfterPunch(s: Side): Pc { if s.Caller? then Confirm else Wait }

  /** Both peers were accepted; only outside a local network do they punch. */
  function Begin(web: bool): Pair {
    var start := (s: Side) => Peer(if web then Punch else AfterPunch(s), P2PClient.Accepted, [], [], [], []);
    Pair(start(Caller), start(Callee))
  }

  function Sending(s: Side, x: Peer): Option<Pc> {
    match x.pc
    case Punch => Some(AfterPunch(s))
    case Confirm => Some(Wait)
    case Answer => Some(Finished)
    case _ => None
  }

  predicate Reading(x: Peer) { x.pc.Wait? && x.inbox != [] }

  function AfterRead(s: Side, x: Peer): Peer
    requires x.inbox != []
  {
    var text := Decoded(x.inbox[0]);
    var y := x.(inbox := x.inbox[1..], got := x.got + [Some(text)]);
    if text != OK then y.(status := P2PClient.Error, pc := Finished)
    else y.(status := P2PClient.Connected, pc := if s.Caller? then Finished else Answer)
  }

  predicate Streaming(x: Peer) { x.pc.Finished? && x.status.Connected? }

  /** What a move makes of the peer it belongs to; one that is not possible changes nothing. */
  function Own(x: Peer, m: Move): Peer {
    match m
    case Send(s) =>
      (match Sending(s, x)
       case None => x
       case Some(next) => x.(pc := next, texts := x.texts + [OK]))
    case Read(s) => if Reading(x) then AfterRead(s, x) else x
    case TimeOut(_) =>
      if x.pc.Wait?
      then x.(status := P2PClient.Error, pc := Finished, got := x.got + [None])
      else x
    case Stream(_, d) => if Streaming(x) then x.(streamed := x.streamed + [d]) else x
    case Lose(_, k) => if k < |x.inbox| then x.(inbox := x.inbox[..k] + x.inbox[k + 1..]) else x
  }

  /** ... and what it sends to the other one. */
  function Emits(x: Peer, m: Move): seq<Datagram> {
    match m
    case Send(s) => if Sending(s, x).Some? then [OkDatagram] else []
    case Stream(_, d) => if Streaming(x) then [d] else []
    case _ => []
  }

  function Step(p: Pair, m: Move): Pair {
    var x, y := Get(p, m.side), Get(p, Other(m.side));
    Put(Put(p, m.side, Own(x, m)), Other(m.side), y.(inbox := y.inbox + Emits(x, m)))
  }

  function Run(web: bool, moves: seq<Move>): Pair {
    if moves == [] then Begin(web)
    else Step(Run(web, moves[..|moves| - 1]), moves[|moves| - 1])
  }

  // ----- Every run: each peer behaves as its own handshake does

  function KindOf(s: Side): P2PClient.Type { if s.Caller? then P2PClient.Initiator else P2PClient.Acceptor }

  /** The client state with which the peer entered its handshake. */
  function Entry(web: bool, s: Side, address: string): P2PClient.State {
    P2PClient.State(address, P2PClient.Accepted, KindOf(s), Reply.R201,
                    if web then P2PClient.Web else P2PClient.Local)
  }

  predicate PeerInv(web: bool, s: Side, x: Peer) {
    var punches := if web then 1 else 0;
    && (x.pc.Confirm? ==> s.Caller?)
    && (x.pc.Answer? ==> s.Callee?)
    && (x.pc.Punch? ==> web)
    && (x.streamed != [] ==> Streaming(x))
    && (if x.pc.Finished? || x.pc.Answer?
        then |x.got| == 1 && x.status == (if x.got[0] == Some(OK) then P2PClient.Connected else P2PClient.Error)
        else x.got == [] && x.status.Accepted?)
    && (x.pc.Answer? ==> x.status.Connected?)
    && x.texts == Texts(
         if x.pc.Punch? then 0
         else if x.pc.Finished? && (s.Caller? || x.status.Connected?) then punches + 1
         else if x.pc.Wait? && s.Caller? then punches + 1
         else punches)
  }

  /** What a peer can still find or has found in its inbox, given the other peer. */
  predicate InboxInv(x: Peer, y: Peer) {
    && (forall d :: d in x.inbox ==> d == OkDatagram || d in y.streamed)
    && (x.inbox != [] || (x.got != [] && x.got[0].Some?) ==> y.texts != [])
    && (x.got != [] && x.got[0].Some? && x.got[0].value != OK ==>
          exists d :: d in y.streamed && Decoded(d) == x.got[0].value)
  }

  predicate Inv(web: bool, p: Pair) {
    && PeerInv(web, Caller, p.caller) && PeerInv(web, Callee, p.callee)
    && InboxInv(p.caller, p.callee) && InboxInv(p.callee, p.caller)
  }

  lemma SendKeeps(web: bool, s: Side, x: Peer)
    requires PeerInv(web, s, x) && Sending(s, x).Some?
    ensures PeerInv(web, s, x.(pc := Sending(s, x).value, texts := x.texts + [OK]))
  {
    assert x.texts + [OK] == Texts(|x.texts| + 1);
  }

  /** A move keeps what holds of the peer that makes it ... */
  lemma OwnKeeps(web: bool, m: Move, x: Peer)
    requires PeerInv(web, m.side, x)
    ensures PeerInv(web, m.side, Own(x, m))
  {
    hide Decoded, Texts;
    if m.Send? && Sending(m.side, x).Some? {
      SendKeeps(web, m.side, x);
    }
  }

  lemma OwnInbox(m: Move, x: Peer, y: Peer)
    requires InboxInv(x, y)
    ensures InboxInv(Own(x, m), y)
  {
    hide Decoded;
    OkIsShort();
  }

  /** ... and of the other one, which at most finds one more datagram. */
  lemma OtherInbox(web: bool, m: Move, x: Peer, y: Peer)
    requires PeerInv(web, m.side, x) && InboxInv(y, x)
    ensures InboxInv(y.(inbox := y.inbox + Emits(x, m)), Own(x, m))
  {
    hide Decoded, Texts, AfterRead, InboxInv;
    var x' := Own(x, m);
    if m.Read? && Reading(x) {
      Unread(m.side, x);
    }
    Found(y, x, x', Emits(x, m));
  }

  lemma Found(y: Peer, x: Peer, x': Peer, more: seq<Datagram>)
    requires InboxInv(y, x)
    requires forall d :: d in x.streamed ==> d in x'.streamed
    requires x.texts != [] || more != [] ==> x'.texts != []
    requires forall d :: d in more ==> d == OkDatagram || d in x'.streamed
    ensures InboxInv(y.(inbox := y.inbox + more), x')
  {
  }

  lemma Unread(s: Side, x: Peer)
    requires x.inbox != []
    ensures AfterRead(s, x).texts == x.texts && AfterRead(s, x).streamed == x.streamed
  {
  }

  lemma SameInv(web: bool, s: Side, x: Peer, y: Peer, inbox: seq<Datagram>)
    ensures PeerInv(web, s, x) ==> PeerInv(web, s, x.(inbox := inbox))
    ensures InboxInv(y, x) ==> InboxInv(y, x.(inbox := inbox))
  {
  }

  lemma StepKeeps(web: bool, p: Pair, m: Move)
    requires Inv(web, p)
    ensures Inv(web, Step(p, m))
  {
    hide PeerInv, InboxInv, Own, Emits;
    var x, y := Get(p, m.side), Get(p, Other(m.side));
    OwnKeeps(web, m, x);
    OwnInbox(m, x, y);
    OtherInbox(web, m, x, y);
    SameInv(web, Other(m.side), y, Own(x, m), y.inbox + Emits(x, m));
  }

  lemma BeginInv(web: bool)
    ensures Inv(web, Begin(web))
  {
  }

  lemma {:induction false} RunKeeps(web: bool, moves: seq<Move>)
    ensures Inv(web, Run(web, moves))
  {
    hide Step, PeerInv, InboxInv;
    if moves == [] {
      BeginInv(web);
    } else {
      RunKeeps(web, moves[..|moves| - 1]);
      StepKeeps(web, Run(web, moves[..|moves| - 1]), moves[|moves| - 1]);
    }
  }

  /** A peer that has finished did what its own handshake does with the one read it made. */
  lemma {:induction false} ActsAsAlone(web: bool, moves: seq<Move>, s: Side, address: string)
    requires Get(Run(web, moves), s).pc.Finished?
    ensures var x := Get(Run(web, moves), s);
            && x.status == (if P2PClient.Confirmed(x.got) then P2PClient.Connected else P2PClient.Error)
            && x.texts == P2PClient.HandshakeSends(Entry(web, s, address), x.got)
  {
    hide Run;
    RunKeeps(web, moves);
    assert Texts(0) == [] && Texts(1) == [OK] && Texts(2) == [OK, OK];
  }

  /** Whatever is lost, only confirmations and the other peer's stream are ever in flight. */
  lemma {:induction false} OnlyConfirmations(web: bool, moves: seq<Move>, s: Side, d: Datagram)
    requires d in Get(Run(web, moves), s).inbox
    ensures d == OkDatagram || d in Get(Run(web, moves), Other(s)).streamed
  {
    hide Run, Decoded;
    RunKeeps(web, moves);
  }

  /** A peer reads something else than the confirmation only if the other one is connected already
      and has streamed just that. */
  lemma {:induction false} MismatchIsStream(web: bool, moves: seq<Move>, s: Side)
    ensures var x, y := Get(Run(web, moves), s), Get(Run(web, moves), Other(s));
            x.status.Error? && x.got != [None] ==>
              y.status.Connected? && exists d :: d in y.streamed && x.got == [Some(Decoded(d))]
  {
    hide Run, Decoded;
    RunKeeps(web, moves);
  }

  lemma RunSnoc(web: bool, moves: seq<Move>, m: Move)
    ensures Run(web, moves + [m]) == Step(Run(web, moves), m)
  {
    assert (moves + [m])[..|moves|] == moves;
  }

  /** The peer read something else than the confirmation. */
  predicate Mismatch(x: Peer) { x.status.Error? && x.got != [None] }

  /** The datagrams are the first ones of what `respond` emits for some messages. */
  ghost predicate FromRespond(datagrams: seq<Datagram>) {
    exists arrivals: seq<Arrival> ::
      && (forall i :: 0 <= i < |arrivals| ==> Sendable(arrivals[i]) && arrivals[i].junk == [])
      && datagrams <= Channel(arrivals)
  }

  ghost predicate Genuine(p: Pair) { FromRespond(p.caller.streamed) && FromRespond(p.callee.streamed) }

  const FirstMessage := Message(Audio, [])

  /** The first datagram of every stream is a header, and no header is the confirmation. */
  lemma HeaderIsNoConfirmation(m: Message)
    ensures Decoded(MakeHeader(InfoOf(m))) != OK
  {
    KindOfInfo(TypeToChar(m.kind), |m.payload|);
    hide MakeInfo;
    var h := MakeHeader(InfoOf(m));
    assert h[0] == TypeToChar(m.kind);
    var d := h[..Min(BUFFER_SIZE, |h|)];
    assert d[0] == h[0] && UpToNul(d) == [d[0] as char] + UpToNul(d[1..]);
    assert Decoded(h)[0] == TypeToChar(m.kind) as char;
  }

  lemma FirstHeaderIsGenuine()
    ensures FromRespond([]) && FromRespond([MakeHeader(InfoOf(FirstMessage))])
  {
    hide MakeHeader, InfoOf, DataDatagrams, Fits;
    var none: seq<Arrival> := [];
    assert [] <= Channel(none);
    var one := [Arrival([], FirstMessage)];
    assert Sendable(one[0]);
    PayloadFits(FirstMessage);
    assert one[1..] == [];
    assert Channel(one) == [] + Emitted(FirstMessage) + Channel([]);
    assert [MakeHeader(InfoOf(FirstMessage))] <= Channel(one);
  }

  /** Everything a peer could still read can be lost. */
  lemma {:induction false} LoseAll(web: bool, moves: seq<Move>, s: Side) returns (more: seq<Move>)
    ensures var x := Get(Run(web, moves), s);
            Run(web, more) == Put(Run(web, moves), s, x.(inbox := []))
    decreases |Get(Run(web, moves), s).inbox|
  {
    hide Run;
    var p := Run(web, moves);
    var x := Get(p, s);
    if x.inbox == [] {
      more := moves;
    } else {
      RunSnoc(web, moves, Lose(s, 0));
      assert x.inbox[..0] + x.inbox[1..] == x.inbox[1..];
      var y := Get(p, Other(s));
      assert y.inbox + [] == y.inbox;
      assert Run(web, moves + [Lose(s, 0)]) == Put(p, s, x.(inbox := x.inbox[1..]));
      more := LoseAll(web, moves + [Lose(s, 0)], s);
    }
  }

  /** A peer that still waits while the other one is connected and has lost all it was sent can
      read the other's first header. */
  lemma StreamOvertakes(web: bool, moves: seq<Move>, s: Side) returns (more: seq<Move>)
    requires var x, y := Get(Run(web, moves), s), Get(Run(web, moves), Other(s));
             x.pc.Wait? && Streaming(y) && x.streamed == y.streamed == [] && x.got == []
    ensures Mismatch(Get(Run(web, more), s)) && Genuine(Run(web, more))
  {
    hide Run, Decoded, MakeHeader, InfoOf, FromRespond;
    HeaderIsNoConfirmation(FirstMessage);
    FirstHeaderIsGenuine();
    var h := MakeHeader(InfoOf(FirstMessage));
    more := LoseAll(web, moves, s);
    RunSnoc(web, more, Stream(Other(s), h));
    more := more + [Stream(Other(s), h)];
    var x := Get(Run(web, more), s);
    assert x.inbox == [h] && Get(Run(web, more), Other(s)).streamed == [h] && x.pc.Wait?;
    RunSnoc(web, more, Read(s));
    more := more + [Read(s)];
    var x' := Get(Run(web, more), s);
    assert x' == AfterRead(s, x) && x'.got == [Some(Decoded(h))];
    assert x'.streamed == [] && Get(Run(web, more), Other(s)).streamed == [h];
  }

  /** In a local network the caller confirms and the callee answers. */
  lemma CalleeAnswers() returns (moves: seq<Move>)
    ensures Run(false, moves).caller == Peer(Wait, P2PClient.Accepted, [OK], [], [OkDatagram], [])
    ensures Streaming(Run(false, moves).callee) && Run(false, moves).callee.streamed == []
  {
    hide Decoded, Run;
    OkIsShort();
    var caller := Peer(Wait, P2PClient.Accepted, [OK], [], [], []);
    RunStart(false);
    RunSnoc(false, [], Send(Caller));
    moves := [] + [Send(Caller)];
    assert Run(false, moves) == Pair(caller, Peer(Wait, P2PClient.Accepted, [], [], [OkDatagram], []));
    RunSnoc(false, moves, Read(Callee));
    moves := moves + [Read(Callee)];
    assert Run(false, moves) == Pair(caller, Peer(Answer, P2PClient.Connected, [], [Some(OK)], [], []));
    RunSnoc(false, moves, Send(Callee));
    moves := moves + [Send(Callee)];
  }

  /** Elsewhere both can punch and the caller confirm before anything is read ... */
  lemma BothPunch() returns (moves: seq<Move>)
    ensures Run(true, moves) == Pair(
              Peer(Wait, P2PClient.Accepted, [OK, OK], [], [OkDatagram], []),
              Peer(Wait, P2PClient.Accepted, [OK], [], [OkDatagram, OkDatagram], []))
  {
    hide Decoded, Run;
    var ok := OkDatagram;
    RunStart(true);
    RunSnoc(true, [], Send(Caller));
    moves := [] + [Send(Caller)];
    RunSnoc(true, moves, Send(Caller));
    moves := moves + [Send(Caller)];
    assert Run(true, moves) == Pair(Peer(Wait, P2PClient.Accepted, [OK, OK], [], [], []),
                                    Peer(Punch, P2PClient.Accepted, [], [], [ok, ok], []));
    RunSnoc(true, moves, Send(Callee));
    moves := moves + [Send(Callee)];
  }

  /** ... and then either of the two can be connected by the other's punch alone. */
  lemma OneIsConnected(s: Side) returns (moves: seq<Move>)
    ensures var x, y := Get(Run(true, moves), s), Get(Run(true, moves), Other(s));
            x.pc.Wait? && Streaming(y) && x.streamed == y.streamed == [] && x.got == []
  {
    hide Decoded, Run;
    OkIsShort();
    moves := BothPunch();
    var y := Get(Run(true, moves), Other(s));
    RunSnoc(true, moves, Read(Other(s)));
    moves := moves + [Read(Other(s))];
    assert Get(Run(true, moves), Other(s)).status.Connected?;
    if s.Caller? {
      assert Run(true, moves).callee.pc.Answer?;
      RunSnoc(true, moves, Send(Callee));
      moves := moves + [Send(Callee)];
    }
  }

  /** Under loss a peer can read something else than the confirmation, and then it was a stream
      header, exactly when it is the caller or the network is not local. */
  lemma {:induction false} MismatchIff(web: bool, s: Side)
    ensures (exists moves :: Mismatch(Get(Run(web, moves), s))) <==> web || s.Caller?
    ensures (exists moves :: Mismatch(Get(Run(web, moves), s)) && Genuine(Run(web, moves))) <==> web || s.Caller?
  {
    hide Run, Genuine, Mismatch;
    if web {
      var moves := OneIsConnected(s);
      var more := StreamOvertakes(web, moves, s);
      assert Mismatch(Get(Run(web, more), s)) && Genuine(Run(web, more));
    } else if s.Caller? {
      var moves := CalleeAnswers();
      var more := StreamOvertakes(web, moves, s);
      assert Mismatch(Get(Run(web, more), s)) && Genuine(Run(web, more));
    } else {
      forall moves ensures !Mismatch(Get(Run(web, moves), s)) {
        LocalCalleeNeverMismatches(moves);
      }
    }
  }

  /** The caller streams only once it is connected, and then the callee has read its confirmation. */
  lemma {:induction false} LocalCalleeNeverMismatches(moves: seq<Move>)
    ensures !Mismatch(Run(false, moves).callee)
  {
    hide Run;
    MismatchIsStream(false, moves, Callee);
    CallerImpliesCalleeIffLocal(false);
  }

  lemma RunStart(web: bool)
    ensures Run(web, []) == Begin(web)
  {
  }

  /** Outside a local network the caller can take the callee's punch for a confirmation while all
      it sent itself is late. */
  lemma CallerAlone() returns (moves: seq<Move>)
    ensures Run(true, moves).caller.status.Connected? && Run(true, moves).callee.status.Error?
  {
    hide Run;
    moves := OneIsConnected(Callee);
    RunSnoc(true, moves, TimeOut(Callee));
    moves := moves + [TimeOut(Callee)];
  }

  /** Under any loss, a connected caller means a connected callee exactly in a local network. */
  lemma CallerImpliesCalleeIffLocal(web: bool)
    ensures (forall moves :: Run(web, moves).caller.status.Connected? ==> Run(web, moves).callee.status.Connected?)
            <==> !web
  {
    hide Run, Decoded;
    if web {
      var moves := CallerAlone();
      assert Run(web, moves).caller.status.Connected? && !Run(web, moves).callee.status.Connected?;
    } else {
      forall moves | Run(web, moves).caller.status.Connected?
        ensures Run(web, moves).callee.status.Connected?
      {
        RunKeeps(web, moves);
        assert PeerInv(web, Callee, Run(web, moves).callee);
      }
    }
  }

  // ----- Runs without loss or timeouts

  predicate Lossless(moves: seq<Move>) {
    forall i :: 0 <= i < |moves| ==> !moves[i].Lose? && !moves[i].TimeOut?
  }

  /** The inbox holds the other peer's confirmations, less the one read, then its stream. */
  predicate Unspoiled(x: Peer, y: Peer) {
    && !x.status.Error? && |x.got| <= |y.texts|
    && x.inbox == OkDatagrams(|y.texts| - |x.got|) + y.streamed
  }

  /** The datagram a waiting peer reads is a confirmation: the other one streams only behind it. */
  lemma ReadConfirms(web: bool, s: Side, x: Peer, y: Peer)
    requires PeerInv(web, s, x) && PeerInv(web, Other(s), y)
    requires Unspoiled(x, y) && Reading(x)
    ensures Unspoiled(AfterRead(s, x), y)
  {
    hide Decoded, Texts;
    OkIsShort();
    var k := |y.texts| - |x.got|;
    assert x.inbox == OkDatagrams(k) + y.streamed;
    assert k > 0;
    assert OkDatagrams(k)[1..] == OkDatagrams(k - 1);
  }

  /** One more datagram from `y`. */
  lemma DeliveryKeeps(x: Peer, y: Peer, y': Peer, d: Datagram)
    requires Unspoiled(x, y)
    requires (d == OkDatagram && |y'.texts| == |y.texts| + 1 && y'.streamed == y.streamed == [])
          || (y'.texts == y.texts && y'.streamed == y.streamed + [d])
    ensures Unspoiled(x.(inbox := x.inbox + [d]), y')
  {
    var k := |y.texts| - |x.got|;
    assert OkDatagrams(k) + [OkDatagram] == OkDatagrams(k + 1);
    assert OkDatagrams(k) + y.streamed + [d] == OkDatagrams(k) + (y.streamed + [d]);
  }

  lemma OwnUnspoiled(web: bool, m: Move, x: Peer, y: Peer)
    requires PeerInv(web, m.side, x) && PeerInv(web, Other(m.side), y) && Unspoiled(x, y)
    requires !m.Lose? && !m.TimeOut?
    ensures Unspoiled(Own(x, m), y)
  {
    hide Decoded, Texts, OkDatagrams, AfterRead;
    if m.Read? && Reading(x) {
      ReadConfirms(web, m.side, x, y);
    }
  }

  lemma OtherUnspoiled(web: bool, m: Move, x: Peer, y: Peer)
    requires PeerInv(web, m.side, x) && Unspoiled(y, x)
    requires !m.Lose? && !m.TimeOut?
    ensures Unspoiled(y.(inbox := y.inbox + Emits(x, m)), Own(x, m))
  {
    hide Decoded, Texts, OkDatagrams, AfterRead;
    if m.Send? && Sending(m.side, x).Some? {
      DeliveryKeeps(y, x, Own(x, m), OkDatagram);
    } else if m.Stream? && Streaming(x) {
      DeliveryKeeps(y, x, Own(x, m), m.datagram);
    } else {
      if m.Read? && Reading(x) {
        Unread(m.side, x);
      }
      assert y.inbox + [] == y.inbox;
    }
  }

  lemma LosslessKeeps(web: bool, p: Pair, m: Move)
    requires Inv(web, p) && Unspoiled(p.caller, p.callee) && Unspoiled(p.callee, p.caller)
    requires !m.Lose? && !m.TimeOut?
    ensures Unspoiled(Step(p, m).caller, Step(p, m).callee) && Unspoiled(Step(p, m).callee, Step(p, m).caller)
  {
    hide PeerInv, InboxInv, Own, Emits, OkDatagrams;
    var x, y := Get(p, m.side), Get(p, Other(m.side));
    OwnUnspoiled(web, m, x, y);
    OtherUnspoiled(web, m, x, y);
  }

  lemma {:induction false} LosslessRun(web: bool, moves: seq<Move>)
    requires Lossless(moves)
    ensures var p := Run(web, moves);
            Inv(web, p) && Unspoiled(p.caller, p.callee) && Unspoiled(p.callee, p.caller)
  {
    hide PeerInv, InboxInv, Unspoiled, Step;
    RunKeeps(web, moves);
    if moves == [] {
      BeginUnspoiled(web);
    } else {
      var k := |moves| - 1;
      LosslessRun(web, moves[..k]);
      LosslessKeeps(web, Run(web, moves[..k]), moves[k]);
    }
  }

  lemma BeginUnspoiled(web: bool)
    ensures Unspoiled(Begin(web).caller, Begin(web).callee) && Unspoiled(Begin(web).callee, Begin(web).caller)
  {
  }

  /** Sends and reads made so far, and how many a handshake takes. */
  function Work(p: Pair): nat { |p.caller.texts| + |p.caller.got| + |p.callee.texts| + |p.callee.got| }

  function Budget(web: bool): nat { if web then 6 else 4 }

  predicate Enabled(p: Pair, m: Move) {
    (m.Send? && Sending(m.side, Get(p, m.side)).Some?) || (m.Read? && Reading(Get(p, m.side)))
  }

  lemma {:induction false} WorkGrows(p: Pair, m: Move)
    requires Enabled(p, m)
    ensures Work(Step(p, m)) == Work(p) + 1
  {
    hide Decoded;
  }

  /** Without loss or timeouts a handshake never fails and cannot get stuck: some send or read is
      possible until both peers are connected, which takes a fixed number of them; then each inbox
      holds one spare confirmation outside a local network, followed by what was streamed. */
  lemma {:induction false} LosslessConnects(web: bool, moves: seq<Move>)
    requires Lossless(moves)
    ensures var p := Run(web, moves);
            && !p.caller.status.Error? && !p.callee.status.Error?
            && Work(p) <= Budget(web)
            && ((forall m :: !Enabled(p, m)) <==> Work(p) == Budget(web))
            && (Work(p) == Budget(web) <==> Streaming(p.caller) && Streaming(p.callee))
            && (Work(p) == Budget(web) ==>
                  var spare := OkDatagrams(if web then 1 else 0);
                  p.caller.inbox == spare + p.callee.streamed && p.callee.inbox == spare + p.caller.streamed)
  {
    hide Run, Inv, Work, Budget, Enabled, Unspoiled;
    LosslessRun(web, moves);
    var p := Run(web, moves);
    WorkDone(web, p);
    Goes(web, p);
    if Work(p) == Budget(web) {
      Spare(web, p);
    }
    NoError(p.caller, p.callee);
    NoError(p.callee, p.caller);
  }

  lemma NoError(x: Peer, y: Peer)
    requires Unspoiled(x, y)
    ensures !x.status.Error?
  {
  }

  lemma WorkDone(web: bool, p: Pair)
    requires Inv(web, p) && Unspoiled(p.caller, p.callee) && Unspoiled(p.callee, p.caller)
    ensures Work(p) <= Budget(web)
    ensures Work(p) == Budget(web) <==> Streaming(p.caller) && Streaming(p.callee)
  {
    hide Texts, InboxInv, OkDatagrams;
  }

  lemma Spare(web: bool, p: Pair)
    requires Inv(web, p) && Unspoiled(p.caller, p.callee) && Unspoiled(p.callee, p.caller)
    requires Work(p) == Budget(web)
    ensures var spare := OkDatagrams(if web then 1 else 0);
            p.caller.inbox == spare + p.callee.streamed && p.callee.inbox == spare + p.caller.streamed
  {
    hide Texts, InboxInv, OkDatagrams;
  }

  /** Somebody can go on until both have finished. */
  lemma Goes(web: bool, p: Pair)
    requires Inv(web, p) && Unspoiled(p.caller, p.callee) && Unspoiled(p.callee, p.caller)
    ensures (forall m :: !Enabled(p, m)) <==> Work(p) == Budget(web)
  {
    WorkDone(web, p);
    hide Texts, InboxInv, Work, Budget;
    assert Enabled(p, Send(Caller)) || Enabled(p, Send(Callee)) || Enabled(p, Read(Caller))
        || Enabled(p, Read(Callee)) || (Streaming(p.caller) && Streaming(p.callee));
  }

  /** Nothing the handshake leaves behind reaches the media: at any time of a lossless run, what is
      in a peer's inbox is received as exactly the messages the other one has streamed. */
  lemma {:induction false} MediaFollowsHandshake(
    web: bool, moves: seq<Move>, s: Side, arrivals: seq<Arrival>, streamed: seq<Datagram>)
    requires Lossless(moves)
    requires Get(Run(web, moves), Other(s)).streamed == streamed
    requires forall i :: 0 <= i < |arrivals| ==> Sendable(arrivals[i])
    requires Channel(arrivals) <= streamed && arrivals != []
    ensures ReceivedAll(Get(Run(web, moves), s).inbox, |arrivals|)
            == Some((Messages(arrivals),
                     Leftover(arrivals[|arrivals| - 1].message) + streamed[|Channel(arrivals)|..]))
  {
    hide *;
    var spare := SpareConfirmations(web, moves, s);
    var tail := streamed[|Channel(arrivals)|..];
    assert streamed == Channel(arrivals) + tail;
    Regrouped(spare, Channel(arrivals), tail);
    StreamRoundTrip(spare, arrivals, tail);
  }

  lemma {:induction false} SpareConfirmations(web: bool, moves: seq<Move>, s: Side) returns (spare: seq<Datagram>)
    requires Lossless(moves)
    ensures AllShort(spare)
    ensures Get(Run(web, moves), s).inbox == spare + Get(Run(web, moves), Other(s)).streamed
  {
    LosslessRun(web, moves);
    OkIsShort();
    hide Run, Decoded, Inv;
    spare := OkDatagrams(|Get(Run(web, moves), Other(s)).texts| - |Get(Run(web, moves), s).got|);
  }
}
