/** Whole runs of the call signalling: one server, any number of client connections, replies and
    requests that may be lost, and a timeout worker that may remove any request at any time. */
module Signalling {
  import opened Options
  import opened StringUtils
  import opened AwaitingUsers
  import opened CallControllers
  import opened P2PClient
  import opened Router
  import Decimal
  import Reply

  /** The user and the token of a connection, the public address the server sees and its local IP. */
  datatype Identity = Identity(user: Option<int>, token: string, address: string, localIp: string)

  /** What becomes of an exchange with the server.  A client takes whatever datagram comes first for
      the answer: `Other` is a late answer to an earlier request or a datagram of a peer, read
      instead of the answer whether or not the request has reached the server. */
  datatype Fate = Delivered | RequestLost | ReplyLost | Other(text: string, arrives: bool)

  /** `Client` runs one operation of a connection, `Reset` and `Handshake` are local to it,
      `Foreign` is a request from anywhere else, `Expire` is the timeout worker. */
  datatype Move =
    | Client(c: nat, op: Op, fate: Fate)
    | Reset(c: nat)
    | Handshake(c: nat, succeeds: bool)
    | Foreign(request: Request)
    | Expire(user: int)

  datatype System = System(table: Table, clients: seq<State>)

  function Start(who: seq<Identity>): System {
    System(map[], seq(|who|, _ => P2PClient.Initial()))
  }

  /** The user the server finds for a token. */
  function UserOf(who: seq<Identity>, token: string): Option<int> {
    if who == [] then None else if who[0].token == token then who[0].user else UserOf(who[1..], token)
  }

  /** Tokens that belong to one connection each name its user, and any other names nobody. */
  lemma {:induction false} TokensNameUsers(who: seq<Identity>, c: nat, token: string)
    requires c < |who| && forall i, j :: 0 <= i < j < |who| ==> who[i].token != who[j].token
    ensures UserOf(who, who[c].token) == who[c].user
    ensures (forall i :: 0 <= i < |who| ==> who[i].token != token) ==> UserOf(who, token) == None
  {
    UnknownToken(who, token);
    if c > 0 {
      TokensNameUsers(who[1..], c - 1, token);
      assert who[1..][c - 1] == who[c];
    }
  }

  lemma {:induction false} UnknownToken(who: seq<Identity>, token: string)
    ensures (forall i :: 0 <= i < |who| ==> who[i].token != token) ==> UserOf(who, token) == None
  {
    if who != [] {
      UnknownToken(who[1..], token);
    }
  }

  function Users(who: seq<Identity>): string -> Option<int> { token => UserOf(who, token) }

  /** What the server's router makes of a move that brings it a text. */
  function Reaches(who: seq<Identity>, s: System, m: Move): Option<Routed>
    requires |s.clients| == |who|
  {
    match m
    case Client(c, op, fate) =>
      if c < |who| && Sends(s.clients[c], op) && fate != RequestLost && (fate.Other? ==> fate.arrives)
      then Some(Route(Users(who), who[c].address, SentText(op, who[c].token, who[c].localIp)))
      else None
    case Foreign(r) => Some(ToCalls(r))
    case _ => None
  }

  /** The request a move brings to the controllers, if it brings one. */
  function Arrives(who: seq<Identity>, s: System, m: Move): Option<Request>
    requires |s.clients| == |who|
  {
    match Reaches(who, s, m)
    case Some(ToCalls(r)) => Some(r)
    case _ => None
  }

  /** The server's answer to a move. */
  function AnswerTo(who: seq<Identity>, s: System, m: Move): Option<Answer>
    requires |s.clients| == |who|
  {
    match Reaches(who, s, m)
    case Some(ToCalls(r)) => Some(Serve(s.table, r).1)
    case Some(Refused(a)) => Some(a)
    case _ => None
  }

  function TableAfter(who: seq<Identity>, s: System, m: Move): Table
    requires |s.clients| == |who|
  {
    if m.Expire? then s.table - {m.user}
    else
      match Arrives(who, s, m)
      case None => s.table
      case Some(r) => Serve(s.table, r).0
  }

  /** The text a client finds in its request after the exchange. */
  function TextSeen(who: seq<Identity>, s: System, m: Move): string
    requires |s.clients| == |who| && m.Client? && m.c < |who|
  {
    if m.fate.Delivered? && AnswerTo(who, s, m).Some? then Text(AnswerTo(who, s, m).value)
    else if m.fate.Other? then m.fate.text
    else SentText(m.op, who[m.c].token, who[m.c].localIp)
  }

  /** The connection a move belongs to changes, no other one does. */
  function ClientsAfter(who: seq<Identity>, s: System, m: Move): (clients: seq<State>)
    requires |s.clients| == |who|
    ensures |clients| == |who|
  {
    match m
    case Client(c, op, _) =>
      if c < |who| && Sends(s.clients[c], op)
      then s.clients[c := AfterText(s.clients[c], op, TextSeen(who, s, m))]
      else s.clients
    case Reset(c) => if c < |who| then s.clients[c := AfterReset(s.clients[c])] else s.clients
    case Handshake(c, ok) =>
      if c < |who| && ReadyToHandshake(s.clients[c])
      then s.clients[c := s.clients[c].(status := if ok then Connected else Error)]
      else s.clients
    case _ => s.clients
  }

  function Step(who: seq<Identity>, s: System, m: Move): (r: System)
    requires |s.clients| == |who|
    ensures |r.clients| == |who|
  {
    System(TableAfter(who, s, m), ClientsAfter(who, s, m))
  }

  function Run(who: seq<Identity>, moves: seq<Move>): (s: System)
    ensures |s.clients| == |who|
  {
    if moves == [] then Start(who)
    else Step(who, Run(who, moves[..|moves| - 1]), moves[|moves| - 1])
  }

  // ----- What the server reads

  /** The command of an operation as the controllers get it. */
  function CommandOf(op: Op, localIp: string): Command {
    match op
    case ConnectPeer(p) => Connect(Decimal.ToString(p) + " " + localIp)
    case AcceptPeer(p) => Accept(Decimal.ToString(p) + " " + localIp)
    case RejectPeer(p) => Reject(Decimal.ToString(p))
    case PingPeer => Ping
    case HangupPeer => Hangup
  }

  /** The server reads back what a client sends: the token's user, the operation's own command and
      its arguments; an unknown token is answered 202. */
  lemma {:induction false} RequestRead(
    users: string -> Option<int>, address: string, op: Op, token: string, localIp: string)
    requires ' ' !in token
    ensures Route(users, address, SentText(op, token, localIp))
            == if users(token) == None then Refused(Answer(Reply.R202, ""))
               else ToCalls(Request(users(token), address, CommandOf(op, localIp)))
  {
    hide Route, SentText, Decimal.ToString;
    var p: Decimal.Int32 := if op.PingPeer? || op.HangupPeer? then 0 else op.peer;
    WireTexts(p, token, localIp);
    var id := Decimal.ToString(p);
    CallsRouted(users, address, token, if op.RejectPeer? then id else id + " " + localIp);
    PrintedNotEmpty(p);
  }

  lemma PrintedNotEmpty(p: int)
    ensures Decimal.ToString(p) != ""
  {
  }

  /** The contact in the arguments is the peer's id and the local address the client's. */
  lemma {:induction false} ArgumentsRead(p: Decimal.Int32, localIp: string)
    ensures Contact(Accept(Decimal.ToString(p) + " " + localIp)) == Some(p)
    ensures Contact(Reject(Decimal.ToString(p))) == Some(p)
    ensures LocalOf(Accept(Decimal.ToString(p) + " " + localIp)) == localIp
    ensures LocalOf(Connect(Decimal.ToString(p) + " " + localIp)) == localIp
  {
    hide SplitFirst, Split, Decimal.Stoi, Decimal.ToString;
    Decimal.ToStringChars(p, ' ');
    SplitCons(Decimal.ToString(p), ' ', localIp);
    SplitNone(Decimal.ToString(p), ' ');
    Decimal.StoiToString(p);
  }

  // ----- What a move means for the call request of user `u`

  predicate Answered(who: seq<Identity>, s: System, m: Move, code: Reply.Code)
    requires |s.clients| == |who|
  {
    AnswerTo(who, s, m).Some? && AnswerTo(who, s, m).value.code == code
  }

  function Contact(c: Command): Option<int> {
    match c
    case Accept(arg) => Target(arg)
    case Reject(arg) => Target(arg)
    case _ => None
  }

  function Target(arg: string): Option<int> {
    match Decimal.Stoi(SplitFirst(arg, " ").0)
    case Some(n) => Some(n)
    case None => None
  }

  function LocalOf(c: Command): string {
    match c
    case Accept(arg) => SplitFirst(arg, " ").1
    case Connect(arg) => SplitFirst(arg, " ").1
    case _ => ""
  }

  /** A successful CONNECT by `u`. */
  predicate Opens(who: seq<Identity>, s: System, m: Move, u: int)
    requires |s.clients| == |who|
  {
    var r := Arrives(who, s, m);
    r.Some? && r.value.user == Some(u) && r.value.command.Connect? && Answered(who, s, m, Reply.R200)
  }

  /** A successful ACCEPT of `u`'s request. */
  predicate Takes(who: seq<Identity>, s: System, m: Move, u: int)
    requires |s.clients| == |who|
  {
    var r := Arrives(who, s, m);
    r.Some? && r.value.command.Accept? && Contact(r.value.command) == Some(u) && Answered(who, s, m, Reply.R201)
  }

  predicate Pings(who: seq<Identity>, s: System, m: Move, u: int)
    requires |s.clients| == |who|
  {
    var r := Arrives(who, s, m);
    r.Some? && r.value.user == Some(u) && r.value.command.Ping? && Answered(who, s, m, Reply.R201)
  }

  predicate HangsUp(who: seq<Identity>, s: System, m: Move, u: int)
    requires |s.clients| == |who|
  {
    var r := Arrives(who, s, m);
    r.Some? && r.value.user == Some(u) && r.value.command.Hangup? && Answered(who, s, m, Reply.R200)
  }

  predicate Rejects(who: seq<Identity>, s: System, m: Move, u: int)
    requires |s.clients| == |who|
  {
    var r := Arrives(who, s, m);
    r.Some? && r.value.command.Reject? && Contact(r.value.command) == Some(u) && Answered(who, s, m, Reply.R200)
  }

  predicate Expires(s: System, m: Move, u: int) {
    m.Expire? && m.user == u && u in s.table
  }

  predicate Closes(who: seq<Identity>, s: System, m: Move, u: int)
    requires |s.clients| == |who|
  {
    Pings(who, s, m, u) || HangsUp(who, s, m, u) || Rejects(who, s, m, u) || Expires(s, m, u)
  }

  // ----- The open request of a user, read off the run alone

  datatype Taken = Taken(at: nat, request: Request)

  datatype OpenCall = OpenCall(at: nat, request: Request, taken: Option<Taken>)

  /** The last successful CONNECT of `u` that nothing has closed, with the last ACCEPT since. */
  function Open(who: seq<Identity>, moves: seq<Move>, u: int): Option<OpenCall> {
    if moves == [] then None
    else
      var k := |moves| - 1;
      var s, m, before := Run(who, moves[..k]), moves[k], Open(who, moves[..k], u);
      if Opens(who, s, m, u) then Some(OpenCall(k, Arrives(who, s, m).value, None))
      else if Closes(who, s, m, u) then None
      else if Takes(who, s, m, u) && before.Some?
      then Some(before.value.(taken := Some(Taken(k, Arrives(who, s, m).value))))
      else before
  }

  /** The record of an open request. */
  function Record(u: int, o: OpenCall): AwaitingUser {
    var made := Make(u, o.request.address, LocalOf(o.request.command));
    match o.taken
    case None => made
    case Some(t) => WithPeer(made, t.request.address, LocalOf(t.request.command))
  }

  ghost predicate TableMatches(who: seq<Identity>, moves: seq<Move>, u: int) {
    var t, o := Run(who, moves).table, Open(who, moves, u);
    && (u in t <==> o.Some?)
    && (o.Some? ==> t[u] == Record(u, o.value))
  }

  /** One request changes the entry of `u` only by opening, taking or closing it. */
  lemma {:induction false} ServeEffect(t: Table, r: Request, u: int)
    ensures var (t', a) := Serve(t, r);
            if r.user == Some(u) && r.command.Connect? && a.code == Reply.R200 then
              u !in t && u in t' && t'[u] == Make(u, r.address, LocalOf(r.command))
            else if || (r.user == Some(u) && r.command.Ping? && a.code == Reply.R201)
                    || (r.user == Some(u) && r.command.Hangup? && a.code == Reply.R200)
                    || (r.command.Reject? && Contact(r.command) == Some(u) && a.code == Reply.R200) then
              u in t && u !in t'
            else if r.command.Accept? && Contact(r.command) == Some(u) && a.code == Reply.R201 then
              u in t && u in t' && t'[u] == WithPeer(t[u], r.address, LocalOf(r.command))
            else
              (u in t <==> u in t') && (u in t ==> t'[u] == t[u])
  {
    hide SplitFirst, Decimal.Stoi;
  }

  lemma {:induction false} TableIsOpen(who: seq<Identity>, moves: seq<Move>, u: int)
    ensures TableMatches(who, moves, u)
  {
    hide Serve, WithPeer, Make, Contact, LocalOf, ClientsAfter;
    if moves != [] {
      var k := |moves| - 1;
      var s, m := Run(who, moves[..k]), moves[k];
      TableIsOpen(who, moves[..k], u);
      if Arrives(who, s, m).Some? {
        ServeEffect(s.table, Arrives(who, s, m).value, u);
      }
      WithPeerTwice(u, Open(who, moves[..k], u), Arrives(who, s, m));
    }
  }

  /** A later acceptor replaces an earlier one. */
  lemma WithPeerTwice(u: int, o: Option<OpenCall>, r: Option<Request>)
    ensures o.Some? && r.Some? ==>
              WithPeer(Record(u, o.value), r.value.address, LocalOf(r.value.command))
              == Record(u, o.value.(taken := Some(Taken(0, r.value))))
  {
  }

  // ----- Positions in a run

  /** The state before move `k`. */
  function Before(who: seq<Identity>, moves: seq<Move>, k: nat): (s: System)
    requires k <= |moves|
    ensures |s.clients| == |who|
  {
    Run(who, moves[..k])
  }

  predicate OpensAt(who: seq<Identity>, moves: seq<Move>, k: nat, u: int)
    requires k < |moves|
  {
    Opens(who, Before(who, moves, k), moves[k], u)
  }

  predicate TakesAt(who: seq<Identity>, moves: seq<Move>, k: nat, u: int)
    requires k < |moves|
  {
    Takes(who, Before(who, moves, k), moves[k], u)
  }

  predicate ClosesAt(who: seq<Identity>, moves: seq<Move>, k: nat, u: int)
    requires k < |moves|
  {
    Closes(who, Before(who, moves, k), moves[k], u)
  }

  predicate PingsAt(who: seq<Identity>, moves: seq<Move>, k: nat, u: int)
    requires k < |moves|
  {
    Pings(who, Before(who, moves, k), moves[k], u)
  }

  /** Between its opening and now, nothing reopened or closed the request. */
  ghost predicate StillOpen(who: seq<Identity>, moves: seq<Move>, from: nat, u: int) {
    forall k :: from < k < |moves| ==> !OpensAt(who, moves, k, u) && !ClosesAt(who, moves, k, u)
  }

  ghost predicate NotTaken(who: seq<Identity>, moves: seq<Move>, from: nat, u: int) {
    forall k :: from < k < |moves| ==> !TakesAt(who, moves, k, u)
  }

  /** What `Open` says, in terms of the moves themselves. */
  ghost predicate OpenMeans(who: seq<Identity>, moves: seq<Move>, u: int, o: OpenCall) {
    && o.at < |moves|
    && OpensAt(who, moves, o.at, u)
    && Arrives(who, Before(who, moves, o.at), moves[o.at]) == Some(o.request)
    && StillOpen(who, moves, o.at, u)
    && match o.taken
       case None => NotTaken(who, moves, o.at, u)
       case Some(t) =>
         && o.at < t.at < |moves|
         && TakesAt(who, moves, t.at, u)
         && Arrives(who, Before(who, moves, t.at), moves[t.at]) == Some(t.request)
         && NotTaken(who, moves, t.at, u)
  }

  /** Moves inside a shorter run mean what they mean in the longer one. */
  lemma SamePrefix(who: seq<Identity>, moves: seq<Move>, k: nat, u: int)
    requires k <= |moves|
    ensures forall i :: 0 <= i < k ==> Before(who, moves[..k], i) == Before(who, moves, i) && moves[..k][i] == moves[i]
    ensures forall i :: 0 <= i < k ==> OpensAt(who, moves[..k], i, u) == OpensAt(who, moves, i, u)
    ensures forall i :: 0 <= i < k ==> TakesAt(who, moves[..k], i, u) == TakesAt(who, moves, i, u)
    ensures forall i :: 0 <= i < k ==> ClosesAt(who, moves[..k], i, u) == ClosesAt(who, moves, i, u)
  {
    hide Opens, Takes, Closes, Run;
    forall i | 0 <= i < k ensures Before(who, moves[..k], i) == Before(who, moves, i) && moves[..k][i] == moves[i] {
      assert moves[..k][..i] == moves[..i];
    }
  }

  lemma {:induction false} OpenIsMeant(who: seq<Identity>, moves: seq<Move>, u: int)
    ensures Open(who, moves, u).Some? ==> OpenMeans(who, moves, u, Open(who, moves, u).value)
  {
    hide Answered, Contact, Closes, Arrives, Run;
    if moves != [] {
      var k := |moves| - 1;
      SamePrefix(who, moves, k, u);
      OpenIsMeant(who, moves[..k], u);
    }
  }

  // ----- Pairing

  function TypeOf(a: string, b: string): string {
    if Ip(a) == Ip(b) then "LOCAL" else "WEB"
  }

  /** The address under which `r` is handed to a peer at `other`: its local IP with its public
      port inside one network, its public address otherwise. */
  function Shared(r: Request, other: string): string {
    if Ip(r.address) == Ip(other) then WithPort(LocalOf(r.command), r.address) else r.address
  }

  /** What the server tells about `r` to a peer at `other`. */
  function Told(r: Request, other: string): string {
    Shared(r, other) + " " + TypeOf(r.address, other)
  }

  lemma PingAnswer(t: Table, r: Request, u: int, o: OpenCall)
    requires r.command.Ping? && r.user == Some(u) && u in t && t[u] == Record(u, o)
    ensures Serve(t, r).1 == match o.taken
                             case None => Fixed(Reply.R203)
                             case Some(k) =>
                               if Shared(k.request, o.request.address) == "" then Fixed(Reply.R203)
                               else Answer(Reply.R201, Told(k.request, o.request.address))
  {
    hide LocalOf;
    assert Ip("") == "";
  }

  lemma AcceptAnswer(t: Table, r: Request, u: int, o: OpenCall)
    requires r.command.Accept? && Contact(r.command) == Some(u)
    requires u in t && t[u] == Record(u, o) && Serve(t, r).1.code == Reply.R201
    ensures Serve(t, r).1.payload == Told(o.request, r.address)
  {
    hide SplitFirst, Decimal.Stoi;
  }

  /** Whenever a PING by `u` answers 201, `u`'s latest successful CONNECT is still open, it was
      accepted since, and both sides were told about each other: the reply carries the most recent
      acceptor's address, that acceptor was told the caller's, and both got the same type. */
  lemma {:induction false} PingPairs(who: seq<Identity>, moves: seq<Move>, k: nat, u: int) returns (i: nat, j: nat)
    requires k < |moves| && PingsAt(who, moves, k, u)
    ensures i < j < k
    ensures OpensAt(who, moves, i, u) && TakesAt(who, moves, j, u)
    ensures forall n :: i < n < k ==> !OpensAt(who, moves, n, u) && !ClosesAt(who, moves, n, u)
    ensures forall n :: j < n < k ==> !TakesAt(who, moves, n, u)
    ensures var caller := Arrives(who, Before(who, moves, i), moves[i]).value;
            var acceptor := Arrives(who, Before(who, moves, j), moves[j]).value;
            && AnswerTo(who, Before(who, moves, k), moves[k]).value.payload == Told(acceptor, caller.address)
            && AnswerTo(who, Before(who, moves, j), moves[j]).value.payload == Told(caller, acceptor.address)
            && TypeOf(acceptor.address, caller.address) == TypeOf(caller.address, acceptor.address)
  {
    hide Run, Serve, Record, Told, Contact;
    var run, s := moves[..k], Before(who, moves, k);
    SamePrefix(who, moves, k, u);
    TableIsOpen(who, run, u);
    PingNeedsEntry(s.table, Arrives(who, s, moves[k]).value, u);
    var o := Open(who, run, u).value;
    OpenIsMeant(who, run, u);
    PingAnswer(s.table, Arrives(who, s, moves[k]).value, u, o);
    i, j := o.at, o.taken.value.at;
    var sj := Before(who, moves, j);
    TableIsOpen(who, moves[..j], u);
    AcceptNeedsEntry(sj.table, Arrives(who, sj, moves[j]).value, u);
    SamePrefix(who, moves, j, u);
    var oj := Open(who, moves[..j], u).value;
    AcceptAnswer(sj.table, Arrives(who, sj, moves[j]).value, u, oj);
    OpenIsMeant(who, moves[..j], u);
    SameOpening(who, moves, i, j, k, oj.at, u);
  }

  lemma PingNeedsEntry(t: Table, r: Request, u: int)
    requires r.user == Some(u) && r.command.Ping? && Serve(t, r).1.code == Reply.R201
    ensures u in t
  {
  }

  lemma AcceptNeedsEntry(t: Table, r: Request, u: int)
    requires r.command.Accept? && Contact(r.command) == Some(u) && Serve(t, r).1.code == Reply.R201
    ensures u in t
  {
    hide SplitFirst, Decimal.Stoi;
  }

  /** The request an acceptor took is the one the later ping closes. */
  lemma SameOpening(who: seq<Identity>, moves: seq<Move>, i: nat, j: nat, k: nat, i': nat, u: int)
    requires i < j < k <= |moves| && i' < j
    requires OpensAt(who, moves, i, u) && StillOpen(who, moves[..k], i, u)
    requires OpensAt(who, moves, i', u) && StillOpen(who, moves[..j], i', u)
    ensures i == i'
  {
    hide OpensAt;
    SamePrefix(who, moves, k, u);
    SamePrefix(who, moves, j, u);
  }

  /** What a PING by `u` is answered, after every run: 307 without an open request, 203 until
      somebody accepts, then 201 with the last acceptor's address (203 if that address is empty). */
  lemma {:induction false} PingOutcome(who: seq<Identity>, moves: seq<Move>, r: Request, u: int)
    requires r.command.Ping? && r.user == Some(u)
    ensures Serve(Run(who, moves).table, r).1
            == match Open(who, moves, u)
               case None => Fixed(Reply.R307)
               case Some(o) =>
                 if o.taken == None || Shared(o.taken.value.request, o.request.address) == ""
                 then Fixed(Reply.R203)
                 else Answer(Reply.R201, Told(o.taken.value.request, o.request.address))
  {
    hide Run, Record, Told, Open, Shared;
    TableIsOpen(who, moves, u);
    if Open(who, moves, u).Some? {
      PingAnswer(Run(who, moves).table, r, u, Open(who, moves, u).value);
    }
  }

  // ----- Conservation of requests

  /** How often each thing happened to the requests of one user. */
  datatype Tally = Tally(connects: nat, pings: nat, hangups: nat, rejects: nat, expiries: nat)

  function Count(b: bool): nat { if b then 1 else 0 }

  function TallyOf(who: seq<Identity>, moves: seq<Move>, u: int): Tally {
    if moves == [] then Tally(0, 0, 0, 0, 0)
    else
      var k := |moves| - 1;
      var s, m, t := Run(who, moves[..k]), moves[k], TallyOf(who, moves[..k], u);
      Tally(t.connects + Count(Opens(who, s, m, u)), t.pings + Count(Pings(who, s, m, u)),
            t.hangups + Count(HangsUp(who, s, m, u)), t.rejects + Count(Rejects(who, s, m, u)),
            t.expiries + Count(Expires(s, m, u)))
  }

  /** Every successful CONNECT ends in exactly one way or is the one still open, and the user
      counts as calling exactly while one is open. */
  lemma {:induction false} Conservation(who: seq<Identity>, moves: seq<Move>, u: int)
    ensures var t := TallyOf(who, moves, u);
            t.connects == t.pings + t.hangups + t.rejects + t.expiries + Count(u in Run(who, moves).table)
    ensures u in Run(who, moves).table <==> Open(who, moves, u).Some?
  {
    TableIsOpen(who, moves, u);
    hide Serve, ClientsAfter, Open, Opens, Pings, HangsUp, Rejects, Expires;
    if moves != [] {
      var k := |moves| - 1;
      var s, m := Run(who, moves[..k]), moves[k];
      Conservation(who, moves[..k], u);
      MoveBalances(who, s, m, u);
    }
  }

  /** A move opens at most one request or ends at most one. */
  lemma MoveBalances(who: seq<Identity>, s: System, m: Move, u: int)
    requires |s.clients| == |who|
    ensures Count(u in s.table) + Count(Opens(who, s, m, u))
            == Count(u in TableAfter(who, s, m)) + Count(Pings(who, s, m, u)) + Count(HangsUp(who, s, m, u))
               + Count(Rejects(who, s, m, u)) + Count(Expires(s, m, u))
  {
    hide Serve, Contact;
    if Arrives(who, s, m).Some? {
      ServeEffect(s.table, Arrives(who, s, m).value, u);
    }
  }

  /** Two PINGs that both answer 201 have a new CONNECT between them. */
  lemma {:induction false} OnePingPerConnect(who: seq<Identity>, moves: seq<Move>, k: nat, k': nat, u: int)
    returns (i: nat)
    requires k < k' < |moves| && PingsAt(who, moves, k, u) && PingsAt(who, moves, k', u)
    ensures k < i < k' && OpensAt(who, moves, i, u)
  {
    var j: nat;
    i, j := PingPairs(who, moves, k', u);
    assert ClosesAt(who, moves, k, u);
  }

  // ----- The clients

  predicate Plain(s: string) { ' ' !in s }

  /** Addresses are non-empty and hold no space. */
  predicate PlainRequest(r: Request) {
    r.address != "" && Plain(r.address) && Plain(LocalOf(r.command))
  }

  predicate PlainIdentity(i: Identity) {
    i.address != "" && Plain(i.address) && Plain(i.localIp) && Plain(i.token)
  }

  predicate PlainWorld(who: seq<Identity>, moves: seq<Move>) {
    && (forall c :: 0 <= c < |who| ==> PlainIdentity(who[c]))
    && (forall k :: 0 <= k < |moves| && moves[k].Foreign? ==> PlainRequest(moves[k].request))
    && (forall k :: 0 <= k < |moves| && moves[k].Client? && moves[k].fate.Other? ==> NamesAddress(moves[k].fate.text))
  }

  lemma {:induction false} ArrivesPlain(who: seq<Identity>, s: System, m: Move)
    requires |s.clients| == |who| && PlainWorld(who, [m])
    ensures Arrives(who, s, m).Some? ==> PlainRequest(Arrives(who, s, m).value)
  {
    hide Sends, SplitFirst, Decimal.ToString, Route, SentText, Users, LocalOf;
    assert [m][0] == m;
    if m.Client? && m.c < |who| {
      assert PlainIdentity(who[m.c]);
      RequestRead(Users(who), who[m.c].address, m.op, who[m.c].token, who[m.c].localIp);
      LocalsRead(m.op, who[m.c].localIp);
    }
  }

  lemma LocalsRead(op: Op, localIp: string)
    ensures LocalOf(CommandOf(op, localIp)) == if op.ConnectPeer? || op.AcceptPeer? then localIp else ""
  {
    hide SplitFirst, Decimal.ToString;
    if op.ConnectPeer? || op.AcceptPeer? {
      ArgumentsRead(op.peer, localIp);
    }
  }

  predicate PlainEntry(u: AwaitingUser) {
    && u.address != "" && Plain(u.address) && u.localAddress != "" && Plain(u.localAddress)
    && Plain(u.peerAddress) && Plain(u.peerLocalAddress)
  }

  predicate PlainTable(t: Table) { forall u :: u in t ==> PlainEntry(t[u]) }

  lemma PortPlain(a: string)
    requires Plain(a)
    ensures Plain(Port(a))
  {
  }

  lemma ServePlain(t: Table, r: Request)
    requires PlainTable(t) && PlainRequest(r)
    ensures PlainTable(Serve(t, r).0)
    ensures Serve(t, r).1.code == Reply.R201 ==>
              exists a, y :: a != "" && Plain(a) && Serve(t, r).1.payload == a + " " + y
  {
    hide SplitFirst, Decimal.Stoi, Plain;
    PlainParts(r);
    if r.command.Accept? && Serve(t, r).1.code == Reply.R201 {
      var v := ValidateWithLocal(r.user, r.command.arg);
      var u := WithPeer(t[v.contact], r.address, v.local);
      assert PlainEntry(t[v.contact]);
      assert Serve(t, r).1.payload == Address(u) + " " + AddressType(u);
    } else if r.command.Ping? && Serve(t, r).1.code == Reply.R201 {
      var id: int := r.user.value;
      assert id in t && PlainEntry(t[id]);
      var u := t[id];
      assert Serve(t, r).1.payload == PeerAddress(u) + " " + AddressType(u);
    }
  }

  lemma PlainParts(r: Request)
    requires PlainRequest(r)
    ensures Plain(WithPort(LocalOf(r.command), r.address)) && WithPort(LocalOf(r.command), r.address) != ""
    ensures Plain("")
  {
    PortPlain(r.address);
  }

  lemma {:induction false} TableStaysPlain(who: seq<Identity>, moves: seq<Move>)
    requires PlainWorld(who, moves)
    ensures PlainTable(Run(who, moves).table)
  {
    hide Serve, Arrives, ClientsAfter, PlainEntry, PlainRequest;
    if moves != [] {
      var k := |moves| - 1;
      var s, m := Run(who, moves[..k]), moves[k];
      TableStaysPlain(who, moves[..k]);
      assert [m][0] == moves[k];
      ArrivesPlain(who, s, m);
      if Arrives(who, s, m).Some? {
        ServePlain(s.table, Arrives(who, s, m).value);
      }
    }
  }

  /** The client reads the code and, behind a 201, the whole payload. */
  lemma TextRead(a: Answer)
    ensures Reply.FromString(SplitFirst(Text(a), " ").0) == a.code
    ensures a.code == Reply.R201 ==> SplitFirst(Text(a), " ").1 == a.payload
  {
    hide SplitFirst, Reply.FromString, Reply.Message, Reply.Append;
    if a.code == Reply.R201 {
      Reply.PayloadOfAppend(a.payload);
      Reply.DigitsRoundTrip(Reply.R201);
    } else {
      Reply.CodeOfMessage(a.code);
    }
  }

  /** Status Accepted or Connected means an address, a network and a role. */
  predicate ClientInv(c: State) {
    c.status.Accepted? || c.status.Connected? ==>
      c.peerAddress != "" && !c.network.Unselected? && !c.kind.NoType?
  }

  /** A 201 payload is read as its address and its type. */
  lemma PayloadRead(s: State, a: string, y: string)
    requires Plain(a)
    ensures WithAddress(s, a + " " + y)
            == s.(status := Accepted, peerAddress := a, network := if y == "LOCAL" then Local else Web)
  {
    SplitCons(a, ' ', y);
  }

  /** One reply keeps the client's invariant. */
  lemma ReplyKeeps(c: State, op: Op, text: string)
    requires ClientInv(c) && Sends(c, op) && NamesAddress(text)
    ensures ClientInv(AfterText(c, op, text))
  {
    hide SplitFirst, Reply.FromString;
  }

  /** Every answer of the server, read at once or late, names an address if it is a 201. */
  lemma {:induction false} AnswersNameAddress(t: Table, r: Request)
    requires PlainTable(t) && PlainRequest(r)
    ensures NamesAddress(Text(Serve(t, r).1))
  {
    hide SplitFirst, Reply.FromString, Serve, Text, PlainTable, PlainRequest, Plain;
    ServePlain(t, r);
    var a := Serve(t, r).1;
    TextRead(a);
    if a.code == Reply.R201 {
      var address, kind :| address != "" && Plain(address) && a.payload == address + " " + kind;
      PayloadRead(P2PClient.Initial(), address, kind);
    }
  }

  /** So does the confirmation of a peer, and the client's own text. */
  lemma OthersNameNoAddress(op: Op, token: string, localIp: string)
    ensures NamesAddress(P2PClient.OK) && NamesAddress(SentText(op, token, localIp))
  {
    hide SplitFirst, Reply.FromString;
    assert Reply.Message(Reply.R200) == P2PClient.OK;
    Reply.CodeOfMessage(Reply.R200);
    SentTextHasNoCode(op, token, localIp);
  }

  lemma RefusalNamesNoAddress()
    ensures NamesAddress(Text(Answer(Reply.R202, "")))
  {
    hide SplitFirst, Reply.FromString, Text;
    TextRead(Answer(Reply.R202, ""));
  }

  lemma ClientStepKeeps(who: seq<Identity>, s: System, m: Move)
    requires |s.clients| == |who| && PlainTable(s.table) && PlainWorld(who, [m])
    requires m.Client? && m.c < |who| && Sends(s.clients[m.c], m.op) && ClientInv(s.clients[m.c])
    ensures ClientInv(AfterText(s.clients[m.c], m.op, TextSeen(who, s, m)))
  {
    hide Serve, AfterText, ClientInv, SentText, Text, Route, Users, PlainTable, PlainRequest, NamesAddress;
    assert [m][0] == m;
    if m.fate.Delivered? && Arrives(who, s, m).Some? {
      ArrivesPlain(who, s, m);
      AnswersNameAddress(s.table, Arrives(who, s, m).value);
    } else if m.fate.Delivered? {
      assert PlainIdentity(who[m.c]);
      RequestRead(Users(who), who[m.c].address, m.op, who[m.c].token, who[m.c].localIp);
      RefusalNamesNoAddress();
    } else {
      OthersNameNoAddress(m.op, who[m.c].token, who[m.c].localIp);
    }
    ReplyKeeps(s.clients[m.c], m.op, TextSeen(who, s, m));
  }

  /** In every reachable state every connection satisfies the invariant: an accepted connection
      always passes the guard of the handshake. */
  lemma {:induction false} ClientsHold(who: seq<Identity>, moves: seq<Move>, c: nat)
    requires PlainWorld(who, moves) && c < |who|
    ensures ClientInv(Run(who, moves).clients[c])
    ensures Run(who, moves).clients[c].status.Accepted? ==> ReadyToHandshake(Run(who, moves).clients[c])
  {
    hide TableAfter, AfterText, Sends, PlainRequest;
    if moves != [] {
      var k := |moves| - 1;
      var s, m := Run(who, moves[..k]), moves[k];
      ClientsHold(who, moves[..k], c);
      TableStaysPlain(who, moves[..k]);
      assert [m][0] == moves[k];
      if m.Client? && m.c == c && Sends(s.clients[c], m.op) {
        ClientStepKeeps(who, s, m);
      }
    }
  }

  // ----- Both sides of a call

  predicate Touches(m: Move, c: nat) {
    (m.Client? || m.Reset? || m.Handshake?) && m.c == c
  }

  lemma {:induction false} Untouched(who: seq<Identity>, moves: seq<Move>, j: nat, c: nat)
    requires c < |who| && j <= |moves|
    requires forall n :: j <= n < |moves| ==> !Touches(moves[n], c)
    ensures Run(who, moves).clients[c] == Run(who, moves[..j]).clients[c]
    decreases |moves|
  {
    hide TableAfter, ClientsAfter, Touches;
    if j == |moves| {
      assert moves[..j] == moves;
    } else {
      var k := |moves| - 1;
      Untouched(who, moves[..k], j, c);
      assert moves[..k][..j] == moves[..j];
      UntouchedStep(who, Run(who, moves[..k]), moves[k], c);
    }
  }

  lemma UntouchedStep(who: seq<Identity>, s: System, m: Move, c: nat)
    requires |s.clients| == |who| && c < |who| && !Touches(m, c)
    ensures ClientsAfter(who, s, m)[c] == s.clients[c]
  {
    hide AfterText, Sends, TextSeen;
  }

  /** After move `j` nothing touches the connection but its own handshake. */
  predicate OnlyShakes(moves: seq<Move>, j: nat, c: nat) {
    forall n :: j < n < |moves| && Touches(moves[n], c) ==> moves[n].Handshake?
  }

  /** A handshake changes nothing but the status. */
  lemma {:induction false} Shaken(who: seq<Identity>, moves: seq<Move>, j: nat, c: nat)
    requires c < |who| && j < |moves| && OnlyShakes(moves, j, c)
    ensures var x, x' := Run(who, moves[..j + 1]).clients[c], Run(who, moves).clients[c];
            && x' == x.(status := x'.status)
            && (x'.status == x.status || x'.status.Connected? || x'.status.Error?)
    decreases |moves|
  {
    hide TableAfter, ClientsAfter, Touches;
    if j + 1 == |moves| {
      assert moves[..j + 1] == moves;
    } else {
      var k := |moves| - 1;
      assert forall n :: 0 <= n < k ==> moves[..k][n] == moves[n];
      Shaken(who, moves[..k], j, c);
      assert moves[..k][..j + 1] == moves[..j + 1];
      if !Touches(moves[k], c) {
        UntouchedStep(who, Run(who, moves[..k]), moves[k], c);
      } else {
        ShakenStep(who, Run(who, moves[..k]), moves[k], c);
      }
    }
  }

  lemma ShakenStep(who: seq<Identity>, s: System, m: Move, c: nat)
    requires |s.clients| == |who| && c < |who| && m.Handshake?
    ensures var x, x' := s.clients[c], ClientsAfter(who, s, m)[c];
            && x' == x.(status := x'.status)
            && (x'.status == x.status || x'.status.Connected? || x'.status.Error?)
            && (m.c == c && ReadyToHandshake(x) ==> x'.status == if m.succeeds then Connected else Error)
            && (m.c == c && !ReadyToHandshake(x) ==> x' == x)
  {
  }

  /** A reset forgets the call, whatever its state; a datagram read instead of the answer is taken for
      it, and a lost reply leaves the client with its own text. */
  lemma {:induction false} LocalMoves(who: seq<Identity>, s: System, c: nat, op: Op, text: string, arrives: bool)
    requires |s.clients| == |who| && c < |who|
    ensures ClientsAfter(who, s, Reset(c))[c] == State("", Idle, NoType, Reply.NoCode, s.clients[c].network)
    ensures TextSeen(who, s, Client(c, op, Other(text, arrives))) == text
    ensures TextSeen(who, s, Client(c, op, ReplyLost)) == TextSeen(who, s, Client(c, op, RequestLost))
            == SentText(op, who[c].token, who[c].localIp)
  {
    hide SentText, Route;
  }

  /** A client that gets a 201 answer ends accepted, with the address and network it was told. */
  lemma ToldClient(who: seq<Identity>, s: System, m: Move, r: Request, other: string)
    requires |s.clients| == |who| && m.Client? && m.c < |who| && m.fate.Delivered?
    requires m.op.PingPeer? || m.op.AcceptPeer?
    requires Answered(who, s, m, Reply.R201) && AnswerTo(who, s, m).value.payload == Told(r, other)
    requires PlainRequest(r)
    ensures var c := Step(who, s, m).clients[m.c];
            && c.status.Accepted?
            && c.peerAddress == Shared(r, other)
            && c.network == if Ip(r.address) == Ip(other) then Local else Web
  {
    hide SplitFirst, Reply.FromString, Serve, Text, TableAfter, WithAddress, LocalOf, Ip;
    var a := AnswerTo(who, s, m).value;
    TextRead(a);
    PlainParts(r);
    PayloadRead(s.clients[m.c].(lastReply := Reply.R201), Shared(r, other), TypeOf(r.address, other));
  }

  lemma RequestPlain(who: seq<Identity>, moves: seq<Move>, k: nat)
    requires PlainWorld(who, moves) && k < |moves|
    ensures var r := Arrives(who, Before(who, moves, k), moves[k]);
            r.Some? ==> PlainRequest(r.value)
  {
    hide PlainRequest, Arrives, Run;
    assert [moves[k]][0] == moves[k];
    ArrivesPlain(who, Before(who, moves, k), moves[k]);
  }

  /** ... and keeps them while it does nothing but shake hands. */
  lemma ToldClientKeeps(who: seq<Identity>, moves: seq<Move>, j: nat, r: Request, other: string)
    requires j < |moves| && moves[j].Client? && moves[j].c < |who| && moves[j].fate.Delivered?
    requires moves[j].op.PingPeer? || moves[j].op.AcceptPeer?
    requires Answered(who, Before(who, moves, j), moves[j], Reply.R201)
    requires AnswerTo(who, Before(who, moves, j), moves[j]).value.payload == Told(r, other)
    requires PlainRequest(r)
    requires OnlyShakes(moves, j, moves[j].c)
    ensures var c := Run(who, moves).clients[moves[j].c];
            && (c.status.Accepted? || c.status.Connected? || c.status.Error?)
            && ((forall n :: j < n < |moves| ==> !Touches(moves[n], moves[j].c)) ==> c.status.Accepted?)
            && c.peerAddress == Shared(r, other)
            && c.network == if Ip(r.address) == Ip(other) then Local else Web
  {
    hide Told, Shared, PlainRequest, Answered, AnswerTo, Step;
    ToldClient(who, Before(who, moves, j), moves[j], r, other);
    Shaken(who, moves, j, moves[j].c);
    if forall n :: j < n < |moves| ==> !Touches(moves[n], moves[j].c) {
      Untouched(who, moves, j + 1, moves[j].c);
    }
    assert moves[..j + 1][..j] == moves[..j] && moves[..j + 1][j] == moves[j];
  }

  /** After the last move, a PING, the caller holds what the request of move `i` is told about that
      of move `j`, and the acceptor the reverse. */
  ghost predicate Agreed(who: seq<Identity>, moves: seq<Move>, i: nat, j: nat)
    requires i < |moves| && j < |moves| && moves[|moves| - 1].Client? && moves[|moves| - 1].c < |who|
    requires Arrives(who, Before(who, moves, i), moves[i]).Some?
    requires Arrives(who, Before(who, moves, j), moves[j]).Some?
  {
    var caller := Arrives(who, Before(who, moves, i), moves[i]).value;
    var acceptor := Arrives(who, Before(who, moves, j), moves[j]).value;
    var network := if Ip(caller.address) == Ip(acceptor.address) then Local else Web;
    var clients := Run(who, moves).clients;
    var c, d := clients[moves[|moves| - 1].c], moves[j];
    && c.status.Accepted?
    && c.peerAddress == Shared(acceptor, caller.address)
    && c.network == network
    && (d.Client? && d.fate.Delivered? && OnlyShakes(moves, j, d.c) ==>
          && d.c < |who|
          && (clients[d.c].status.Accepted? || clients[d.c].status.Connected? || clients[d.c].status.Error?)
          && ((forall n :: j < n < |moves| ==> !Touches(moves[n], d.c)) ==> clients[d.c].status.Accepted?)
          && clients[d.c].peerAddress == Shared(caller, acceptor.address)
          && clients[d.c].network == network)
  }

  /** When a PING by connection `c` is answered 201 and the answer arrives, and the acceptor `d`
      it names got its own answer and has since done nothing but shake hands, both are on the same
      network, and each holds the address under which the other is shared with it; the caller is
      Accepted, and so is the acceptor unless its handshake is over. */
  lemma {:induction false} BothSidesAgree(who: seq<Identity>, moves: seq<Move>, u: int) returns (i: nat, j: nat)
    requires PlainWorld(who, moves) && moves != []
    requires var m := moves[|moves| - 1]; m.Client? && m.op.PingPeer? && m.fate.Delivered?
    requires PingsAt(who, moves, |moves| - 1, u)
    ensures i < j < |moves| - 1 && OpensAt(who, moves, i, u) && TakesAt(who, moves, j, u)
    ensures forall n :: i < n < |moves| - 1 ==> !OpensAt(who, moves, n, u)
    ensures forall n :: j < n < |moves| - 1 ==> !TakesAt(who, moves, n, u)
    ensures moves[|moves| - 1].c < |who|
    ensures Agreed(who, moves, i, j)
  {
    var k := |moves| - 1;
    i, j := PingPairs(who, moves, k, u);
    SentByClient(who, Before(who, moves, k), moves[k]);
    SentByClient(who, Before(who, moves, j), moves[j]);
    if moves[j].Client? {
      CommandKinds(moves[j].op, who[moves[j].c].localIp);
    }
    RequestPlain(who, moves, i);
    RequestPlain(who, moves, j);
    hide Told, Shared, PlainRequest, Arrives, Ip, Run, Before, AnswerTo, Contact, CommandOf;
    var caller := Arrives(who, Before(who, moves, i), moves[i]).value;
    var acceptor := Arrives(who, Before(who, moves, j), moves[j]).value;
    ToldClientKeeps(who, moves, k, acceptor, caller.address);
    var d := moves[j];
    if d.Client? && d.fate.Delivered? && OnlyShakes(moves, j, d.c) {
      ToldClientKeeps(who, moves, j, caller, acceptor.address);
    }
  }

  /** What reaches the controllers from a client is the request of its own operation. */
  lemma {:induction false} SentByClient(who: seq<Identity>, s: System, m: Move)
    requires |s.clients| == |who| && PlainWorld(who, [])
    ensures m.Client? && Arrives(who, s, m).Some? ==>
              && m.c < |who|
              && Arrives(who, s, m).value
                 == Request(UserOf(who, who[m.c].token), who[m.c].address, CommandOf(m.op, who[m.c].localIp))
  {
    hide Route, SentText, CommandOf, Plain;
    if m.Client? && m.c < |who| {
      assert PlainIdentity(who[m.c]) && Plain(who[m.c].token);
      NoSpace(who[m.c].token);
      RequestRead(Users(who), who[m.c].address, m.op, who[m.c].token, who[m.c].localIp);
    }
  }

  lemma NoSpace(s: string)
    ensures Plain(s) <==> ' ' !in s
  {
  }

  // ----- The pairing in terms of IPs and ports

  /** What is shared with a peer, in terms of the two IPs. */
  lemma {:induction false} SharedByIp(r: Request, ip: string, port: string, other: string, otherPort: string)
    requires ':' !in ip && ':' !in other && r.address == ip + ":" + port
    ensures Shared(r, other + ":" + otherPort)
            == if ip == other then LocalOf(r.command) + ":" + port else ip + ":" + port
    ensures TypeOf(r.address, other + ":" + otherPort) == if ip == other then "LOCAL" else "WEB"
    ensures Ip(r.address) == Ip(other + ":" + otherPort) <==> ip == other
  {
    hide SplitFirst, LocalOf;
    SplitCons(ip, ':', port);
    SplitCons(other, ':', otherPort);
  }

  /** The last move is a PING by `u` whose 201 arrives; `i` is `u`'s latest CONNECT and `j` the latest
      ACCEPT since, both by clients. */
  predicate Paired(who: seq<Identity>, moves: seq<Move>, u: int, i: nat, j: nat) {
    && i < j < |moves| - 1
    && (var m := moves[|moves| - 1]; m.Client? && m.op.PingPeer? && m.fate.Delivered?)
    && PingsAt(who, moves, |moves| - 1, u)
    && moves[i].Client? && OpensAt(who, moves, i, u)
    && (forall n :: i < n < |moves| - 1 ==> !OpensAt(who, moves, n, u))
    && moves[j].Client? && TakesAt(who, moves, j, u)
    && (forall n :: j < n < |moves| - 1 ==> !TakesAt(who, moves, n, u))
  }

  /** Two clients behind one public IP end on the Local network, each with the other's local IP and
      public port; any other two end on the Web, each with the other's public address. */
  lemma {:induction false} PairedByIp(
    who: seq<Identity>, moves: seq<Move>, u: int, i: nat, j: nat,
    ipA: string, portA: string, ipB: string, portB: string)
    requires PlainWorld(who, moves) && Paired(who, moves, u, i, j)
    requires moves[i].c < |who| && who[moves[i].c].address == ipA + ":" + portA && ':' !in ipA
    requires moves[j].c < |who| && who[moves[j].c].address == ipB + ":" + portB && ':' !in ipB
    ensures moves[|moves| - 1].c < |who|
    ensures var a, b := who[moves[i].c], who[moves[j].c];
            var clients := Run(who, moves).clients;
            var c, d := clients[moves[|moves| - 1].c], clients[moves[j].c];
            && c.status.Accepted?
            && c.peerAddress == (if ipA == ipB then b.localIp + ":" + portB else ipB + ":" + portB)
            && c.network == (if ipA == ipB then Local else Web)
            && (moves[j].fate.Delivered? && OnlyShakes(moves, j, moves[j].c) ==>
                  && d.peerAddress == (if ipA == ipB then a.localIp + ":" + portA else ipA + ":" + portA)
                  && d.network == (if ipA == ipB then Local else Web))
  {
    AgreedAt(who, moves, u, i, j);
    OpenerIsConnect(who, moves, i, u);
    OpenerIsConnect(who, moves, j, u);
    var caller := Arrives(who, Before(who, moves, i), moves[i]).value;
    var acceptor := Arrives(who, Before(who, moves, j), moves[j]).value;
    hide Shared, Ip, Run, Before, Arrives, LocalOf, OpensAt, TakesAt, PingsAt, Touches, PlainWorld, OnlyShakes;
    SharedByIp(caller, ipA, portA, ipB, portB);
    SharedByIp(acceptor, ipB, portB, ipA, portA);
  }

  lemma {:induction false} AgreedAt(who: seq<Identity>, moves: seq<Move>, u: int, i: nat, j: nat)
    requires PlainWorld(who, moves) && Paired(who, moves, u, i, j)
    ensures moves[|moves| - 1].c < |who|
    ensures Arrives(who, Before(who, moves, i), moves[i]).Some? && Arrives(who, Before(who, moves, j), moves[j]).Some?
    ensures Agreed(who, moves, i, j)
  {
    hide Agreed, Before, PlainWorld, Arrives, OpensAt, TakesAt, PingsAt;
    var i', j' := BothSidesAgree(who, moves, u);
    assert i' == i && j' == j;
    SomethingArrives(who, moves, i, u);
    SomethingArrives(who, moves, j, u);
  }

  lemma SomethingArrives(who: seq<Identity>, moves: seq<Move>, k: nat, u: int)
    requires k < |moves| && (OpensAt(who, moves, k, u) || TakesAt(who, moves, k, u))
    ensures Arrives(who, Before(who, moves, k), moves[k]).Some?
  {
    hide Run, Arrives;
  }

  lemma {:induction false} OpenerIsConnect(who: seq<Identity>, moves: seq<Move>, k: nat, u: int)
    requires PlainWorld(who, moves) && k < |moves| && moves[k].Client?
    requires OpensAt(who, moves, k, u) || TakesAt(who, moves, k, u)
    ensures var r := Arrives(who, Before(who, moves, k), moves[k]).value;
            moves[k].c < |who| && r.address == who[moves[k].c].address && LocalOf(r.command) == who[moves[k].c].localIp
  {
    hide Run, Arrives, PlainIdentity, LocalOf, CommandOf, Before, Answered;
    SentByClient(who, Before(who, moves, k), moves[k]);
    LocalsRead(moves[k].op, who[moves[k].c].localIp);
    CommandKinds(moves[k].op, who[moves[k].c].localIp);
  }

  lemma CommandKinds(op: Op, localIp: string)
    ensures CommandOf(op, localIp).Connect? <==> op.ConnectPeer?
    ensures CommandOf(op, localIp).Accept? <==> op.AcceptPeer?
  {
  }
}
