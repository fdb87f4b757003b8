/** The client's connection object: its status machine and the text it exchanges with the server. */
module P2PClient {
  import opened Options
  import opened StringUtils
  import Decimal
  import Reply

  datatype Status = Idle | Awaiting | Accepted | Connected | Error
  datatype Type = Initiator | Acceptor | NoType
  datatype Network = Local | Web | Unselected

  datatype State = State(
    peerAddress: string, status: Status, kind: Type, lastReply: Reply.Code, network: Network)

  function Initial(): State { State("", Idle, NoType, Reply.NoCode, Unselected) }

  datatype Op =
    | ConnectPeer(peer: Decimal.Int32)
    | AcceptPeer(peer: Decimal.Int32)
    | RejectPeer(peer: Decimal.Int32)
    | PingPeer
    | HangupPeer

  /** Does the operation send anything, or does its guard stop it? */
  predicate Sends(s: State, op: Op) {
    match op
    case PingPeer => s.kind.Initiator? && !s.status.Accepted?
    case HangupPeer => s.kind.Initiator?
    case _ => true
  }

  function CommandWord(op: Op): string {
    match op
    case ConnectPeer(_) => "CONNECT"
    case AcceptPeer(_) => "ACCEPT"
    case RejectPeer(_) => "REJECT"
    case PingPeer => "PING"
    case HangupPeer => "HANGUP"
  }

  /** The argument of the command, if it takes one. */
  function Argument(op: Op, localIp: string): string {
    match op
    case ConnectPeer(p) => Decimal.ToString(p) + " " + localIp
    case AcceptPeer(p) => Decimal.ToString(p) + " " + localIp
    case RejectPeer(p) => Decimal.ToString(p)
    case _ => ""
  }

  function SentText(op: Op, token: string, localIp: string): string {
    CommandWord(op) + " " + if op.PingPeer? || op.HangupPeer? then token else token + " " + Argument(op, localIp)
  }

  /** The texts on the wire. */
  lemma WireTexts(p: Decimal.Int32, token: string, localIp: string)
    ensures SentText(ConnectPeer(p), token, localIp)
            == "CONNECT " + token + " " + (Decimal.ToString(p) + " " + localIp)
    ensures SentText(AcceptPeer(p), token, localIp)
            == "ACCEPT " + token + " " + (Decimal.ToString(p) + " " + localIp)
    ensures SentText(RejectPeer(p), token, localIp) == "REJECT " + token + " " + Decimal.ToString(p)
    ensures SentText(PingPeer, token, localIp) == "PING " + token
    ensures SentText(HangupPeer, token, localIp) == "HANGUP " + token
  {
    hide Decimal.ToString;
    var id := Decimal.ToString(p);
    Behind("CONNECT", token, id + " " + localIp);
    Behind("ACCEPT", token, id + " " + localIp);
    Behind("REJECT", token, id);
  }

  lemma Behind(word: string, token: string, argument: string)
    ensures word + " " + (token + " " + argument) == word + " " + token + " " + argument
  {
  }

  /** The state after the server's text arrived.  When nothing arrives the request still holds
      the text that was sent. */
  function AfterText(s: State, op: Op, text: string): State {
    var (code, msg) := SplitFirst(text, " ");
    AfterReply(s, op, Reply.FromString(code), msg)
  }

  function AfterReply(s: State, op: Op, code: Reply.Code, msg: string): State {
    var t := s.(lastReply := code);
    match op
    case ConnectPeer(_) =>
      t.(kind := Initiator, status := if code == Reply.R200 || code == Reply.R306 then Awaiting else Error)
    case AcceptPeer(_) =>
      if code == Reply.R201 then WithAddress(t, msg).(kind := Acceptor)
      else t.(kind := Acceptor, status := Error)
    case RejectPeer(_) =>
      t.(kind := Acceptor, status := if code == Reply.R200 then Idle else Error)
    case PingPeer =>
      if code == Reply.R201 then WithAddress(t, msg)
      else t.(status := if code == Reply.R203 then Awaiting else Error)
    case HangupPeer => t.(status := if code == Reply.R200 then Idle else Error)
  }

  /** A 201 reply names the peer's address and the network between the two. */
  function WithAddress(s: State, msg: string): State {
    var (address, addressType) := SplitFirst(msg, " ");
    s.(status := Accepted, peerAddress := address, network := if addressType == "LOCAL" then Local else Web)
  }

  function AfterReset(s: State): State {
    s.(lastReply := Reply.NoCode, peerAddress := "", status := Idle, kind := NoType)
  }

  /** After a reset nothing is left of the call: no PING or HANGUP is sent, and the handshake's guard
      fails. */
  lemma ResetForgets(s: State)
    ensures AfterReset(s) == State("", Idle, NoType, Reply.NoCode, s.network)
    ensures !Sends(AfterReset(s), PingPeer) && !Sends(AfterReset(s), HangupPeer)
    ensures !ReadyToHandshake(AfterReset(s))
  {
  }

  /** Only an initiator pings, and only until it is accepted; only an initiator hangs up; the other
      commands always go out.  A new client has nothing to ping, to hang up or to shake hands for. */
  lemma WhoSends(s: State, p: Decimal.Int32)
    ensures Sends(s, ConnectPeer(p)) && Sends(s, AcceptPeer(p)) && Sends(s, RejectPeer(p))
    ensures Sends(s, PingPeer) <==> s.kind == Initiator && s.status in {Idle, Awaiting, Connected, Error}
    ensures Sends(s, HangupPeer) <==> s.kind == Initiator
    ensures Initial() == State("", Idle, NoType, Reply.NoCode, Unselected)
    ensures !Sends(Initial(), PingPeer) && !Sends(Initial(), HangupPeer) && !ReadyToHandshake(Initial())
  {
  }

  /** `invalid_to_handshake`, negated. */
  predicate ReadyToHandshake(s: State) {
    s.status.Accepted? && s.peerAddress != "" && !s.network.Unselected?
  }

  /** A command that comes back as its own reply has no code. */
  lemma {:induction false} SentTextHasNoCode(op: Op, token: string, localIp: string)
    ensures Reply.FromString(SplitFirst(SentText(op, token, localIp), " ").0) == Reply.NoCode
  {
    hide SplitFirst, Decimal.ToString;
    var word := CommandWord(op);
    var rest := if op.PingPeer? || op.HangupPeer? then token else token + " " + Argument(op, localIp);
    assert ' ' !in word;
    SplitCons(word, ' ', rest);
    assert SentText(op, token, localIp) == word + " " + rest;
  }

  /** Where a datagram for `address` goes: the port is what `std::stoi` reads, 0 when it fails. */
  function Destination(address: string): (string, int) {
    var (ip, port) := SplitFirst(address, ":");
    (ip, match Decimal.Stoi(port) case Some(n) => n case None => 0)
  }

  /** The handshake appends the port of its own socket to the peer's address, which already has
      one; the datagrams still go to the peer's port. */
  lemma ExtraPortIgnored(ip: string, port: nat, own: string)
    requires ':' !in ip && port <= Decimal.INT_MAX
    ensures var address := ip + ":" + Decimal.ToString(port);
            Destination(address) == Destination(address + ":" + own) == (ip, port)
  {
    hide SplitFirst, Decimal.Stoi, Decimal.ToString, Split;
    var p := Decimal.ToString(port);
    SplitCons(ip, ':', p);
    Decimal.StoiToString(port);
    SplitCons(ip, ':', p + (":" + own));
    Decimal.StoiIgnoresRest(port, ":" + own);
    Regrouped(ip + ":", p, ":", own);
  }

  /** A port that is no number becomes port 0. */
  lemma NoPort(ip: string, port: string)
    requires ':' !in ip && forall i :: 0 <= i < |port| ==> !Decimal.IsDigit(port[i])
    ensures Destination(ip + ":" + port) == (ip, 0)
  {
    hide SplitFirst, Decimal.Stoi;
    SplitCons(ip, ':', port);
    Decimal.NoDigits(port);
  }

  lemma Regrouped(a: string, b: string, c: string, d: string)
    ensures a + b + c + d == a + (b + (c + d))
  {
  }

  /** The address that a 201 reply names. */
  function AddressIn(text: string): string {
    SplitFirst(SplitFirst(text, " ").1, " ").0
  }

  predicate NamesAddress(text: string) {
    Reply.FromString(SplitFirst(text, " ").0) == Reply.R201 ==> AddressIn(text) != ""
  }

  /** The code of a reply, if one arrived. */
  function CodeOf(text: Option<string>): Reply.Code {
    if text.Some? then Reply.FromString(SplitFirst(text.value, " ").0) else Reply.NoCode
  }

  /** Only the code of the reply decides the status; a lost reply counts as one without a code. */
  lemma {:induction false} ReplyDecides(s: State, op: Op, token: string, localIp: string, reply: Option<string>)
    ensures var t := AfterText(s, op, if reply.Some? then reply.value else SentText(op, token, localIp));
            var code := CodeOf(reply);
            && t.lastReply == code
            && (t.status.Accepted? <==> code == Reply.R201 && (op.AcceptPeer? || op.PingPeer?))
            && (t.status.Awaiting? <==> (op.ConnectPeer? && (code == Reply.R200 || code == Reply.R306))
                                        || (op.PingPeer? && code == Reply.R203))
            && (t.status.Idle? <==> code == Reply.R200 && (op.RejectPeer? || op.HangupPeer?))
            && !t.status.Connected?
            && (t.status.Accepted? ==> t.network != Unselected)
            && t.kind == (if op.ConnectPeer? then Initiator
                          else if op.AcceptPeer? || op.RejectPeer? then Acceptor else s.kind)
  {
    hide SplitFirst, Reply.FromString, SentText;
    SentTextHasNoCode(op, token, localIp);
  }

  // ----- The object

  const OK := "200 OK"
  const MAX_PUNCH_TRIALS := 20
  const PING_TIMEOUT := 10

  /** A request on its way through the connection. */
  class Exchange {
    var valid: bool
    var data: string

    constructor ()
      ensures valid && data == ""
    {
      valid, data := true, "";
    }
  }

  /** The UDP connection with the text strategy.  `arrivals` is what successive reads of the socket
      give, `None` for a timeout; when it runs out, every read times out.  Send number `n` fails if
      `fails(n)`. */
  class Connection {
    const fails: nat -> bool
    var arrivals: seq<Option<string>>
    var sent: seq<string>
    var sends: nat
    var readCount: nat

    constructor (arrivals: seq<Option<string>>, fails: nat -> bool)
      ensures this.arrivals == arrivals && this.fails == fails
      ensures sent == [] && sends == 0 && readCount == 0
    {
      this.arrivals, this.fails, sent, sends, readCount := arrivals, fails, [], 0, 0;
    }

    /** An invalid request stays silent, and a failed send makes the request invalid. */
    method Respond(x: Exchange) returns (valid: bool)
      modifies this`sent, this`sends, x`valid
      ensures valid == x.valid == (old(x.valid) && !fails(old(sends)))
      ensures sends == old(sends) + if old(x.valid) then 1 else 0
      ensures sent == if valid then old(sent) + [x.data] else old(sent)
    {
      if x.valid {
        x.valid := !fails(sends);
        sends := sends + 1;
        if x.valid {
          sent := sent + [x.data];
        }
      }
      valid := x.valid;
    }

    method Receive(x: Exchange) returns (got: bool)
      modifies this`arrivals, this`readCount, x
      ensures !old(x.valid) ==> !got && unchanged(this) && unchanged(x)
      ensures old(x.valid) ==>
                && x.valid == got == (old(arrivals) != [] && old(arrivals)[0].Some?)
                && x.data == (if got then old(arrivals)[0].value else old(x.data))
                && arrivals == (if old(arrivals) == [] then [] else old(arrivals)[1..])
                && readCount == old(readCount) + 1
    {
      if x.valid {
        readCount := readCount + 1;
        var next := if arrivals == [] then None else arrivals[0];
        arrivals := if arrivals == [] then [] else arrivals[1..];
        x.valid := next.Some?;
        if next.Some? {
          x.data := next.value;
        }
      }
      got := x.valid;
    }
  }

  /** Does the first read of a handshake bring a message, and is it the expected one? */
  predicate Arrived(arrivals: seq<Option<string>>) {
    arrivals != [] && arrivals[0].Some?
  }

  predicate Confirmed(arrivals: seq<Option<string>>) {
    arrivals != [] && arrivals[0] == Some(OK)
  }

  /** What a handshake puts on the wire: one punch outside a local network, then the initiator's
      confirmation, or the acceptor's once it has been confirmed. */
  function HandshakeSends(s: State, arrivals: seq<Option<string>>): seq<string> {
    (if s.network.Web? then [OK] else [])
    + if s.kind.Initiator? || (s.kind.Acceptor? && Confirmed(arrivals)) then [OK] else []
  }

  function Repeat(text: string, n: nat): seq<string> { seq(n, _ => text) }

  /** How many messages a handshake sends before its read. */
  function SendsBefore(s: State): nat {
    (if s.network.Web? then 1 else 0) + if s.kind.Initiator? then 1 else 0
  }

  /** How many of the next `n` sends succeed before one fails. */
  function Succeeding(fails: nat -> bool, from: nat, n: nat): (k: nat)
    ensures k <= n
    decreases n
  {
    if n == 0 || fails(from) then 0 else 1 + Succeeding(fails, from + 1, n - 1)
  }

  predicate SendsWork(s: State, fails: nat -> bool, from: nat) {
    Succeeding(fails, from, SendsBefore(s)) == SendsBefore(s)
  }

  /** What gets onto the wire when sends may fail: nothing after the first failure. */
  function HandshakeSent(s: State, arrivals: seq<Option<string>>, fails: nat -> bool, from: nat): seq<string> {
    var n := SendsBefore(s);
    Repeat(OK, Succeeding(fails, from, n))
    + if s.kind.Acceptor? && SendsWork(s, fails, from) && Confirmed(arrivals) && !fails(from + n) then [OK] else []
  }

  lemma {:induction false} AllSucceed(fails: nat -> bool, from: nat, n: nat)
    requires forall k :: k >= from ==> !fails(k)
    ensures Succeeding(fails, from, n) == n
    decreases n
  {
    if n > 0 {
      AllSucceed(fails, from + 1, n - 1);
    }
  }

  /** When no send fails, that is what a handshake sends. */
  lemma {:induction false} SentWhenSendsWork(s: State, arrivals: seq<Option<string>>, fails: nat -> bool, from: nat)
    requires forall k :: k >= from ==> !fails(k)
    requires s.kind.Initiator? || s.kind.Acceptor?
    ensures SendsWork(s, fails, from) && HandshakeSent(s, arrivals, fails, from) == HandshakeSends(s, arrivals)
  {
    AllSucceed(fails, from, SendsBefore(s));
    assert Repeat(OK, 0) == [] && Repeat(OK, 1) == [OK] && Repeat(OK, 2) == [OK, OK];
  }

  /** When the first send before the read fails, nothing gets onto the wire and the handshake fails; when
      the second one does, only the punch is sent. */
  lemma {:induction false} FailedSends(s: State, arrivals: seq<Option<string>>, fails: nat -> bool, from: nat)
    requires s.kind == Initiator || s.network == Web
    ensures fails(from) ==> !SendsWork(s, fails, from) && HandshakeSent(s, arrivals, fails, from) == []
    ensures s.kind == Initiator && s.network == Web && !fails(from) && fails(from + 1) ==>
              !SendsWork(s, fails, from) && HandshakeSent(s, arrivals, fails, from) == ["200 OK"]
  {
    FewSucceed(fails, from);
  }

  lemma FewSucceed(fails: nat -> bool, from: nat)
    ensures Succeeding(fails, from, 0) == 0
    ensures Succeeding(fails, from, 1) == if fails(from) then 0 else 1
    ensures Succeeding(fails, from, 2) == if fails(from) then 0 else if fails(from + 1) then 1 else 2
    ensures Repeat(OK, 0) == [] && Repeat(OK, 1) == [OK] && Repeat(OK, 2) == [OK, OK]
  {
    assert Succeeding(fails, from + 1, 1) == if fails(from + 1) then 0 else 1;
  }

  class P2P {
    const token: string
    const localIp: string
    var peerAddress: string
    var status: Status
    var kind: Type
    var lastReply: Reply.Code
    var network: Network
    var streaming: bool
    var asked: seq<string>

    function Now(): State
      reads this
    {
      State(peerAddress, status, kind, lastReply, network)
    }

    constructor (token: string, localIp: string)
      ensures Now() == Initial() && !streaming && asked == [] && this.token == token && this.localIp == localIp
    {
      this.token, this.localIp := token, localIp;
      peerAddress, status, kind, lastReply, network := "", Idle, NoType, Reply.NoCode, Unselected;
      streaming, asked := false, [];
    }

    /** What the client finds in its request when `reply` arrives, or nothing does. */
    function Seen(op: Op, reply: Option<string>): string {
      if reply.Some? then reply.value else SentText(op, token, localIp)
    }

    method SendServer(op: Op, reply: Option<string>) returns (msg: string)
      modifies this`lastReply, this`asked
      ensures asked == old(asked) + [SentText(op, token, localIp)]
      ensures lastReply == Reply.FromString(SplitFirst(Seen(op, reply), " ").0)
      ensures msg == SplitFirst(Seen(op, reply), " ").1
    {
      asked := asked + [SentText(op, token, localIp)];
      var (code, rest) := SplitFirst(Seen(op, reply), " ");
      lastReply := Reply.FromString(code);
      msg := rest;
    }

    method ConnectPeer(peer: Decimal.Int32, reply: Option<string>)
      modifies this
      ensures Now() == AfterText(old(Now()), Op.ConnectPeer(peer), Seen(Op.ConnectPeer(peer), reply))
      ensures kind == Initiator
      ensures status == if CodeOf(reply) == Reply.R200 || CodeOf(reply) == Reply.R306 then Awaiting else Error
      ensures asked == old(asked) + [SentText(Op.ConnectPeer(peer), token, localIp)]
      ensures streaming == old(streaming)
    {
      hide SplitFirst, Reply.FromString, SentText;
      SentTextHasNoCode(Op.ConnectPeer(peer), token, localIp);
      var _ := SendServer(Op.ConnectPeer(peer), reply);
      kind := Initiator;
      if lastReply == Reply.R200 {
        status := Awaiting;
      } else if lastReply == Reply.R306 {
        status := Awaiting;
      } else {
        status := Error;
      }
    }

    method AcceptPeer(peer: Decimal.Int32, reply: Option<string>)
      modifies this
      ensures Now() == AfterText(old(Now()), Op.AcceptPeer(peer), Seen(Op.AcceptPeer(peer), reply))
      ensures asked == old(asked) + [SentText(Op.AcceptPeer(peer), token, localIp)]
      ensures kind == Acceptor && status == if CodeOf(reply) == Reply.R201 then Accepted else Error
      ensures streaming == old(streaming)
    {
      hide SplitFirst, Reply.FromString, SentText;
      SentTextHasNoCode(Op.AcceptPeer(peer), token, localIp);
      kind := Acceptor;
      var msg := SendServer(Op.AcceptPeer(peer), reply);
      if lastReply == Reply.R201 {
        status := Accepted;
        var (address, addressType) := SplitFirst(msg, " ");
        peerAddress := address;
        network := if addressType == "LOCAL" then Local else Web;
      } else {
        status := Error;
      }
    }

    method RejectPeer(peer: Decimal.Int32, reply: Option<string>)
      modifies this
      ensures Now() == AfterText(old(Now()), Op.RejectPeer(peer), Seen(Op.RejectPeer(peer), reply))
      ensures asked == old(asked) + [SentText(Op.RejectPeer(peer), token, localIp)]
      ensures kind == Acceptor && status == if CodeOf(reply) == Reply.R200 then Idle else Error
      ensures streaming == old(streaming)
    {
      hide SplitFirst, Reply.FromString, SentText;
      SentTextHasNoCode(Op.RejectPeer(peer), token, localIp);
      kind := Acceptor;
      var _ := SendServer(Op.RejectPeer(peer), reply);
      status := if lastReply == Reply.R200 then Idle else Error;
    }

    method PingPeer(reply: Option<string>)
      modifies this
      ensures Now() == if Sends(old(Now()), Op.PingPeer)
                       then AfterText(old(Now()), Op.PingPeer, Seen(Op.PingPeer, reply)) else old(Now())
      ensures kind == old(kind)
      ensures old(kind) == Initiator && old(status) != Accepted ==>
                && status == (match CodeOf(reply) case R201 => Accepted case R203 => Awaiting case _ => Error)
                && (status == Accepted ==>
                      network != Unselected && reply.Some? && peerAddress == AddressIn(reply.value))
      ensures asked == old(asked) + if old(kind) == Initiator && old(status) != Accepted
                                    then [SentText(Op.PingPeer, token, localIp)] else []
      ensures streaming == old(streaming)
    {
      hide SplitFirst, Reply.FromString, SentText;
      SentTextHasNoCode(Op.PingPeer, token, localIp);
      if kind != Initiator {
        return;
      }
      if status == Accepted {
        return;
      }
      var msg := SendServer(Op.PingPeer, reply);
      if lastReply == Reply.R201 {
        status := Accepted;
        var (address, addressType) := SplitFirst(msg, " ");
        peerAddress := address;
        network := if addressType == "LOCAL" then Local else Web;
        return;
      } else if lastReply == Reply.R203 {
        status := Awaiting;
      } else {
        status := Error;
      }
    }

    method HangupPeer(reply: Option<string>)
      modifies this
      ensures Now() == if Sends(old(Now()), Op.HangupPeer)
                       then AfterText(old(Now()), Op.HangupPeer, Seen(Op.HangupPeer, reply)) else old(Now())
      ensures old(kind) == Initiator ==> status == if CodeOf(reply) == Reply.R200 then Idle else Error
      ensures asked == old(asked) + if old(kind) == Initiator then [SentText(Op.HangupPeer, token, localIp)] else []
      ensures streaming == old(streaming)
    {
      hide SplitFirst, Reply.FromString, SentText;
      SentTextHasNoCode(Op.HangupPeer, token, localIp);
      if kind != Initiator {
        return;
      }
      var _ := SendServer(Op.HangupPeer, reply);
      status := if lastReply == Reply.R200 then Idle else Error;
    }

    method ResetConnection()
      modifies this
      ensures Now() == AfterReset(old(Now())) && streaming == old(streaming) && asked == old(asked)
    {
      lastReply := Reply.NoCode;
      peerAddress := "";
      status := Idle;
      kind := NoType;
    }

    method HolePunch(conn: Connection, x: Exchange)
      modifies conn`sent, conn`sends, x
      ensures x.valid == (old(x.valid) && !conn.fails(old(conn.sends)))
      ensures conn.sends == old(conn.sends) + if old(x.valid) then 1 else 0
      ensures conn.sent == if x.valid then old(conn.sent) + [OK] else old(conn.sent)
      ensures x.data == OK
    {
      x.data := OK;
      var _ := conn.Respond(x);
    }

    /** After a failed read the request is invalid, so no trial sends or reads anything. */
    method Retry(conn: Connection, x: Exchange, gotRes: bool) returns (trials: nat)
      requires x.valid == gotRes
      modifies this`status, conn, x
      ensures gotRes ==> trials == 0 && unchanged(this) && unchanged(x)
      ensures !gotRes ==> trials == 20 && status == Error && !x.valid && x.data == OK
      ensures unchanged(conn)
    {
      trials := 0;
      if gotRes {
        return;
      }
      var shouldRetry := true;
      while shouldRetry && trials < MAX_PUNCH_TRIALS
        invariant shouldRetry && trials <= MAX_PUNCH_TRIALS && !x.valid && (trials > 0 ==> x.data == OK)
        invariant unchanged(conn) && unchanged(this)
      {
        HolePunch(conn, x);
        var success := conn.Receive(x);
        if success {
          return;
        }
        shouldRetry := !success;
        trials := trials + 1;
      }
      status := Error;
    }

    method HandshakeAcceptor(conn: Connection, x: Exchange) returns (attempts: nat)
      requires kind == Acceptor && status == Accepted && x.valid
      modifies this`status, conn, x
      ensures attempts
              == if SendsWork(old(Now()), conn.fails, old(conn.sends)) && Arrived(old(conn.arrivals)) then 1 else 21
      ensures var works := SendsWork(old(Now()), conn.fails, old(conn.sends));
              && conn.readCount == old(conn.readCount) + (if works then 1 else 0)
              && status == if works && Confirmed(old(conn.arrivals)) then Connected else Error
      ensures conn.sent
              == old(conn.sent) + HandshakeSent(old(Now()), old(conn.arrivals), conn.fails, old(conn.sends))
    {
      FewSucceed(conn.fails, conn.sends);
      hide Succeeding, Repeat;
      if network == Web {
        HolePunch(conn, x);
      }
      var gotRes := conn.Receive(x);
      var trials := Retry(conn, x, gotRes);
      attempts := 1 + trials;
      if status == Error {
        return;
      }
      if x.data == OK {
        status := Connected;
        x.data := OK;
        var _ := conn.Respond(x);
      } else {
        status := Error;
      }
    }

    method HandshakeInitiator(conn: Connection, x: Exchange) returns (attempts: nat)
      requires kind == Initiator && status == Accepted && x.valid
      modifies this`status, conn, x
      ensures attempts
              == if SendsWork(old(Now()), conn.fails, old(conn.sends)) && Arrived(old(conn.arrivals)) then 1 else 21
      ensures var works := SendsWork(old(Now()), conn.fails, old(conn.sends));
              && conn.readCount == old(conn.readCount) + (if works then 1 else 0)
              && status == if works && Confirmed(old(conn.arrivals)) then Connected else Error
      ensures conn.sent
              == old(conn.sent) + HandshakeSent(old(Now()), old(conn.arrivals), conn.fails, old(conn.sends))
    {
      FewSucceed(conn.fails, conn.sends);
      hide Succeeding, Repeat;
      if network == Web {
        HolePunch(conn, x);
      }
      x.data := OK;
      var _ := conn.Respond(x);
      var gotRes := conn.Receive(x);
      var trials := Retry(conn, x, gotRes);
      attempts := 1 + trials;
      if status == Error {
        return;
      }
      status := if x.data == OK then Connected else Error;
    }

    /** A connection that is ready ends connected exactly when no send before its read fails and the
        first and only datagram it reads is the confirmation, and ends in error otherwise; one that
        is not ready does nothing. */
    method HandshakePeer(conn: Connection) returns (attempts: nat)
      modifies this`status, this`streaming, conn
      ensures !ReadyToHandshake(old(Now())) || kind == NoType ==>
                attempts == 0 && unchanged(this) && unchanged(conn)
      ensures ReadyToHandshake(old(Now())) && kind != NoType ==>
                var works := SendsWork(old(Now()), conn.fails, old(conn.sends));
                && status == (if works && Confirmed(old(conn.arrivals)) then Connected else Error)
                && conn.sent
                   == old(conn.sent) + HandshakeSent(old(Now()), old(conn.arrivals), conn.fails, old(conn.sends))
                && conn.readCount == old(conn.readCount) + (if works then 1 else 0)
                && attempts == (if works && Arrived(old(conn.arrivals)) then 1 else 21)
                && (status == Connected ==> streaming)
    {
      if !(status == Accepted && peerAddress != "" && network != Unselected) {
        return 0;
      }
      var x := new Exchange();
      attempts := 0;
      if kind == Acceptor {
        attempts := HandshakeAcceptor(conn, x);
      }
      if kind == Initiator {
        attempts := HandshakeInitiator(conn, x);
      }
      if status == Connected {
        streaming := true;
      }
    }
  }

  // ----- The drivers

  /** A 201 that names no address leaves the client Accepted and unable to shake hands. */
  lemma {:induction false} ReadyIffAddressNamed(s: State, text: string)
    requires CodeOf(Some(text)) == Reply.R201
    ensures var t := AfterText(s, PingPeer, text);
            && t.status.Accepted? && t.peerAddress == AddressIn(text)
            && (ReadyToHandshake(t) <==> AddressIn(text) != "")
  {
    hide SplitFirst, Reply.FromString;
  }

  /** There is such a text. */
  lemma NamelessAnswer()
    ensures CodeOf(Some(Reply.Append(Reply.R201, " WEB"))) == Reply.R201
    ensures AddressIn(Reply.Append(Reply.R201, " WEB")) == ""
  {
    hide SplitFirst, Reply.Append;
    Reply.PayloadOfAppend(" WEB");
    SplitCons("", ' ', "WEB");
    assert "" + [' '] + "WEB" == " WEB";
  }

  /** Does the caller give up after its `n`-th PING?  Not when that PING failed, and otherwise when
      the hangup flag is raised or it was the twelfth, even if the callee has accepted. */
  predicate GivesUp(replies: nat -> Option<string>, flag: nat -> bool, n: nat) {
    && n > 0 && (CodeOf(replies(n)) == Reply.R201 || CodeOf(replies(n)) == Reply.R203)
    && (flag(2 * n - 2) || n == 12)
  }

  /** What the driver has sent to the server. */
  function Asked(p2p: P2P, peer: Decimal.Int32, pings: nat, hangsUp: bool): seq<string> {
    [SentText(ConnectPeer(peer), p2p.token, p2p.localIp)] + Repeat(SentText(PingPeer, p2p.token, p2p.localIp), pings)
    + if hangsUp then [SentText(HangupPeer, p2p.token, p2p.localIp)] else []
  }

  lemma AskedNext(p2p: P2P, peer: Decimal.Int32, pings: nat)
    ensures Asked(p2p, peer, 0, false) == [SentText(ConnectPeer(peer), p2p.token, p2p.localIp)]
    ensures Asked(p2p, peer, pings + 1, false)
            == Asked(p2p, peer, pings, false) + [SentText(PingPeer, p2p.token, p2p.localIp)]
    ensures Asked(p2p, peer, pings, true)
            == Asked(p2p, peer, pings, false) + [SentText(HangupPeer, p2p.token, p2p.localIp)]
  {
    hide SentText;
    var ping := SentText(PingPeer, p2p.token, p2p.localIp);
    assert Repeat(ping, pings + 1) == Repeat(ping, pings) + [ping];
  }

  /** `udp_connect`.  `replies(n)` is what arrives after the n-th message to the server and
      `flag(n)` the hangup flag as it is read the n-th time.  At most twelve pings are sent, and all
      twelve when the callee never answers; a caller that gives up, and no other, hangs up.  Success
      means connected, hung up by the user, or given a 201 without an address. */
  method UdpConnect(p2p: P2P, peer: Decimal.Int32, replies: nat -> Option<string>, flag: nat -> bool, conn: Connection)
    returns (ok: bool, pings: nat)
    modifies p2p, conn
    ensures pings <= 12 && conn.readCount <= old(conn.readCount) + 1
    ensures p2p.asked == old(p2p.asked) + Asked(p2p, peer, pings, GivesUp(replies, flag, pings))
    ensures ok <==> || p2p.status == Connected || p2p.status == Accepted
                    || (GivesUp(replies, flag, pings) && flag(2 * pings - 2) && flag(2 * pings - 1))
    ensures p2p.status == Connected ==> Confirmed(old(conn.arrivals))
    ensures p2p.status == Connected || p2p.status == Accepted ==>
              0 < pings <= 11 && CodeOf(replies(pings)) == Reply.R201
    ensures p2p.status == Accepted ==> replies(pings).Some? && AddressIn(replies(pings).value) == ""
    ensures p2p.status != Awaiting
    ensures p2p.status == Idle <==> GivesUp(replies, flag, pings) && CodeOf(replies(pings + 1)) == Reply.R200
    ensures CodeOf(replies(0)) == Reply.R200 && (forall n :: !flag(n))
            && (forall n :: n > 0 ==> CodeOf(replies(n)) == Reply.R203)
            ==> !ok && pings == 12
  {
    hide SplitFirst, Reply.FromString, AfterText, SentText, CodeOf, AddressIn;
    hide HandshakeSent, SendsWork, Confirmed, Arrived;
    hide P2P.Seen, Sends, Asked, GivesUp;
    pings := 0;
    AskedNext(p2p, peer, 0);
    NoPingYet(replies, flag);
    p2p.ConnectPeer(peer, replies(0));
    if p2p.status != Awaiting {
      return false, pings;
    }
    var returned: bool;
    ghost var before := old(p2p.asked);
    returned, ok, pings := AwaitPeer(p2p, peer, replies, flag, before);
    if returned {
      return;
    }
    var _ := p2p.HandshakePeer(conn);
    ok := p2p.status != Error;
  }

  lemma NoPingYet(replies: nat -> Option<string>, flag: nat -> bool)
    ensures !GivesUp(replies, flag, 0)
  {
  }

  /** The loop of `udp_connect`, and whether the driver returned from inside it. */
  method AwaitPeer(
    p2p: P2P, peer: Decimal.Int32, replies: nat -> Option<string>, flag: nat -> bool, ghost before: seq<string>)
    returns (returned: bool, ok: bool, pings: nat)
    requires p2p.status == Awaiting && p2p.kind == Initiator
    requires p2p.asked == before + Asked(p2p, peer, 0, false)
    modifies p2p
    ensures pings <= PING_TIMEOUT + 2
    ensures p2p.asked == before + Asked(p2p, peer, pings, GivesUp(replies, flag, pings))
    ensures returned ==>
              && (p2p.status == Idle || p2p.status == Error)
              && (ok <==> GivesUp(replies, flag, pings) && flag(2 * pings - 2) && flag(2 * pings - 1))
              && (p2p.status == Idle <==> GivesUp(replies, flag, pings) && CodeOf(replies(pings + 1)) == Reply.R200)
    ensures !returned ==>
              && p2p.status == Accepted && p2p.kind == Initiator && p2p.network != Unselected
              && !GivesUp(replies, flag, pings)
              && 0 < pings <= PING_TIMEOUT + 1 && CodeOf(replies(pings)) == Reply.R201
              && replies(pings).Some? && p2p.peerAddress == AddressIn(replies(pings).value)
    ensures (forall n :: !flag(n)) && (forall n :: n > 0 ==> CodeOf(replies(n)) == Reply.R203)
            ==> returned && !ok && pings == PING_TIMEOUT + 2
  {
    hide SplitFirst, Reply.FromString, AfterText, SentText, CodeOf, AddressIn, P2P.Seen, Sends, Asked;
    pings, ok := 0, false;
    var count := 0;
    while p2p.status != Accepted
      invariant pings == count <= PING_TIMEOUT + 1
      invariant p2p.status == Awaiting || (p2p.status == Accepted && p2p.network != Unselected
                && pings > 0 && CodeOf(replies(pings)) == Reply.R201
                && replies(pings).Some? && p2p.peerAddress == AddressIn(replies(pings).value))
      invariant p2p.asked == before + Asked(p2p, peer, pings, false)
      invariant !GivesUp(replies, flag, pings)
      invariant p2p.kind == Initiator
      decreases PING_TIMEOUT + 2 - count
    {
      AskedNext(p2p, peer, pings);
      p2p.PingPeer(replies(pings + 1));
      pings := pings + 1;
      if p2p.status == Error {
        return true, false, pings;
      }
      AskedNext(p2p, peer, pings);
      var raised := flag(2 * count);
      if raised {
        p2p.HangupPeer(replies(pings + 1));
        ok := flag(2 * count + 1);
        return true, ok, pings;
      }
      if count > PING_TIMEOUT {
        p2p.HangupPeer(replies(pings + 1));
        return true, false, pings;
      }
      count := count + 1;
    }
    returned := false;
  }

  method UdpAccept(p2p: P2P, peer: Decimal.Int32, reply: Option<string>, conn: Connection) returns (ok: bool)
    modifies p2p, conn
    ensures ok ==> p2p.status == Connected || (p2p.status == Accepted && p2p.peerAddress == "")
    ensures ok <==> p2p.status != Error
    ensures p2p.asked == old(p2p.asked) + [SentText(AcceptPeer(peer), p2p.token, p2p.localIp)]
    ensures p2p.status == Connected ==> Confirmed(old(conn.arrivals)) && CodeOf(reply) == Reply.R201
  {
    hide SplitFirst, Reply.FromString, AfterText, SentText, CodeOf, HandshakeSent, SendsWork, Confirmed, Arrived;
    ReplyDecides(p2p.Now(), AcceptPeer(peer), p2p.token, p2p.localIp, reply);
    p2p.AcceptPeer(peer, reply);
    if p2p.status != Accepted {
      return false;
    }
    var _ := p2p.HandshakePeer(conn);
    ok := p2p.status != Error;
  }
}
