/** The open call requests kept by the server, and how addresses are chosen from them. */
module AwaitingUsers {
  import opened StringUtils

  datatype AwaitingUser = AwaitingUser(
    id: int, address: string, localAddress: string, peerAddress: string, peerLocalAddress: string)

  function Ip(address: string): string { SplitFirst(address, ":").0 }

  function Port(address: string): string { SplitFirst(address, ":").1 }

  /** A local IP takes the port of the public address. */
  function WithPort(local: string, address: string): string { local + ":" + Port(address) }

  /** The constructor with a local address. */
  function Make(id: int, address: string, local: string): AwaitingUser {
    AwaitingUser(id, address, WithPort(local, address), "", "")
  }

  /** The two setters, called in this order. */
  function WithPeer(u: AwaitingUser, peer: string, peerLocal: string): AwaitingUser {
    u.(peerAddress := peer, peerLocalAddress := WithPort(peerLocal, peer))
  }

  predicate SameAddress(u: AwaitingUser) { Ip(u.address) == Ip(u.peerAddress) }

  function Address(u: AwaitingUser): string {
    if SameAddress(u) then u.localAddress else u.address
  }

  function PeerAddress(u: AwaitingUser): string {
    if SameAddress(u) then u.peerLocalAddress else u.peerAddress
  }

  function AddressType(u: AwaitingUser): string {
    if SameAddress(u) then "LOCAL" else "WEB"
  }

  class AwaitingTable {
    var users: map<int, AwaitingUser>

    constructor ()
      ensures users == map[]
    {
      users := map[];
    }

    /** An open request is not replaced. */
    method Insert(u: AwaitingUser) returns (inserted: bool)
      modifies this
      ensures inserted <==> u.id !in old(users)
      ensures users == if inserted then old(users)[u.id := u] else old(users)
    {
      inserted := u.id !in users;
      if inserted {
        users := users[u.id := u];
      }
    }

    method Destroy(id: int) returns (destroyed: bool)
      modifies this
      ensures destroyed <==> id in old(users)
      ensures users == old(users) - {id}
    {
      destroyed := id in users;
      if destroyed {
        users := users - {id};
      }
    }

    method Exists(id: int) returns (found: bool)
      ensures found <==> id in users
    {
      found := id in users;
    }

    /** The update `accept` makes through the reference it gets. */
    method SetPeer(id: int, peer: string, peerLocal: string)
      requires id in users
      modifies this
      ensures users == old(users)[id := WithPeer(old(users)[id], peer, peerLocal)]
    {
      var u := users[id];
      u := u.(peerAddress := peer);
      u := u.(peerLocalAddress := peerLocal + ":" + SplitFirst(u.peerAddress, ":").1);
      users := users[id := u];
    }
  }
}

/** The five call commands. */
module CallControllers {
  import opened Options
  import opened StringUtils
  import opened AwaitingUsers
  import Decimal
  import Reply

  datatype Command = Connect(arg: string) | Accept(arg: string) | Reject(arg: string) | Ping | Hangup

  /** A command with the user its token belongs to (`None` for an unknown token) and the public
      address it came from. */
  datatype Request = Request(user: Option<int>, address: string, command: Command)

  datatype Answer = Answer(code: Reply.Code, payload: string)

  /** The text sent back. */
  function Text(a: Answer): string {
    if a.code == Reply.R201 then Reply.Append(Reply.R201, a.payload) else Reply.Message(a.code)
  }

  type Table = map<int, AwaitingUser>

  function Fixed(code: Reply.Code): Answer { Answer(code, "") }

  /** `validate_user_and_argument`: the error, or the contact and the local address. */
  datatype Checked = Bad(answer: Answer) | Good(user: int, contact: int, local: string)

  function Validate(user: Option<int>, arg: string): Checked {
    if user == None then Bad(Fixed(Reply.R301))
    else
      var (id, local) := SplitFirst(arg, " ");
      match Decimal.Stoi(id)
      case None => Bad(Fixed(Reply.R500))
      case Some(contact) => Good(user.value, contact, local)
  }

  /** ... followed by `validate_local_address`. */
  function ValidateWithLocal(user: Option<int>, arg: string): Checked {
    var v := Validate(user, arg);
    if v.Good? && v.local == "" then Bad(Fixed(Reply.R501)) else v
  }

  /** One request, atomically: the new table and the answer. */
  function Serve(t: Table, r: Request): (Table, Answer) {
    match r.command
    case Connect(arg) =>
      (match ValidateWithLocal(r.user, arg)
       case Bad(a) => (t, a)
       case Good(user, _, local) =>
         if user in t then (t, Fixed(Reply.R306))
         else (t[user := Make(user, r.address, local)], Fixed(Reply.R200)))
    case Accept(arg) =>
      (match ValidateWithLocal(r.user, arg)
       case Bad(a) => (t, a)
       case Good(_, contact, local) =>
         if contact !in t then (t, Fixed(Reply.R307))
         else
           var u := WithPeer(t[contact], r.address, local);
           (t[contact := u], Answer(Reply.R201, Address(u) + " " + AddressType(u))))
    case Reject(arg) =>
      (match Validate(r.user, arg)
       case Bad(a) => (t, a)
       case Good(_, contact, _) =>
         if contact in t then (t - {contact}, Fixed(Reply.R200)) else (t, Fixed(Reply.R307)))
    case Hangup =>
      if r.user == None then (t, Fixed(Reply.R301))
      else if r.user.value in t then (t - {r.user.value}, Fixed(Reply.R200))
      else (t, Fixed(Reply.R307))
    case Ping =>
      if r.user == None then (t, Fixed(Reply.R301))
      else if r.user.value !in t then (t, Fixed(Reply.R307))
      else
        var u := t[r.user.value];
        if PeerAddress(u) == "" then (t, Fixed(Reply.R203))
        else (t - {r.user.value}, Answer(Reply.R201, PeerAddress(u) + " " + AddressType(u)))
  }

  // ----- What the commands do, with ids, IPs and ports spelled out

  lemma ArgumentRead(user: int, p: Decimal.Int32, local: string)
    ensures Validate(Some(user), Decimal.ToString(p) + " " + local) == Good(user, p, local)
    ensures Validate(Some(user), Decimal.ToString(p)) == Good(user, p, "")
  {
    hide SplitFirst, Split, Decimal.Stoi, Decimal.ToString;
    Decimal.ToStringChars(p, ' ');
    SplitCons(Decimal.ToString(p), ' ', local);
    SplitNone(Decimal.ToString(p), ' ');
    Decimal.StoiToString(p);
  }

  /** A CONNECT opens a request unless the user has one. */
  lemma {:induction false} ConnectServed(
    t: Table, user: int, ip: string, port: string, p: Decimal.Int32, local: string)
    requires ':' !in ip && local != ""
    ensures Serve(t, Request(Some(user), ip + ":" + port, Connect(Decimal.ToString(p) + " " + local)))
            == if user in t then (t, Answer(Reply.R306, ""))
               else (t[user := AwaitingUser(user, ip + ":" + port, local + ":" + port, "", "")], Answer(Reply.R200, ""))
  {
    hide SplitFirst, Decimal.Stoi, Decimal.ToString;
    ArgumentRead(user, p, local);
    SplitCons(ip, ':', port);
  }

  /** An ACCEPT records the acceptor in the contact's request and tells where the contact is. */
  lemma {:induction false} AcceptServed(
    t: Table, user: int, ip: string, port: string, p: Decimal.Int32, local: string, peerIp: string, peerPort: string)
    requires ':' !in ip && ':' !in peerIp && local != ""
    requires p in t ==> t[p].address == peerIp + ":" + peerPort
    ensures Serve(t, Request(Some(user), ip + ":" + port, Accept(Decimal.ToString(p) + " " + local)))
            == if p !in t then (t, Answer(Reply.R307, ""))
               else (t[p := t[p].(peerAddress := ip + ":" + port, peerLocalAddress := local + ":" + port)],
                     Answer(Reply.R201, if ip == peerIp then t[p].localAddress + " LOCAL" else t[p].address + " WEB"))
  {
    hide SplitFirst, Decimal.Stoi, Decimal.ToString;
    ArgumentRead(user, p, local);
    SplitCons(ip, ':', port);
    SplitCons(peerIp, ':', peerPort);
    if p in t {
      Typed(t[p].localAddress);
      Typed(t[p].address);
    }
  }

  lemma Typed(address: string)
    ensures address + " " + "LOCAL" == address + " LOCAL" && address + " " + "WEB" == address + " WEB"
  {
    assert " " + "LOCAL" == " LOCAL" && " " + "WEB" == " WEB";
    assert address + " " + "LOCAL" == address + (" " + "LOCAL");
    assert address + " " + "WEB" == address + (" " + "WEB");
  }

  /** A PING of a request that nobody has accepted is told to wait ... */
  lemma {:induction false} PingAwaits(t: Table, user: int, address: string, ip: string, port: string)
    requires user in t && t[user].address == ip + ":" + port && ':' !in ip && ip != ""
    requires t[user].peerAddress == ""
    ensures Serve(t, Request(Some(user), address, Ping)) == (t, Answer(Reply.R203, ""))
  {
    hide SplitFirst;
    SplitCons(ip, ':', port);
    SplitNone("", ':');
  }

  /** ... and of an accepted one where the acceptor is, which closes the request. */
  lemma {:induction false} PingServed(
    t: Table, user: int, address: string, ip: string, port: string, peerIp: string, peerPort: string)
    requires user in t && t[user].address == ip + ":" + port && ':' !in ip && ':' !in peerIp
    requires t[user].peerAddress == peerIp + ":" + peerPort && t[user].peerLocalAddress != ""
    ensures Serve(t, Request(Some(user), address, Ping))
            == (t - {user},
                Answer(Reply.R201, if ip == peerIp then t[user].peerLocalAddress + " LOCAL"
                                   else t[user].peerAddress + " WEB"))
  {
    hide SplitFirst;
    SplitCons(ip, ':', port);
    SplitCons(peerIp, ':', peerPort);
    Typed(t[user].peerLocalAddress);
    Typed(t[user].peerAddress);
  }

  /** REJECT removes the contact's request and HANGUP the user's own; without one both answer 307, as
      does PING. */
  lemma {:induction false} RemovalServed(t: Table, user: int, address: string, p: Decimal.Int32)
    ensures Serve(t, Request(Some(user), address, Reject(Decimal.ToString(p))))
            == if p in t then (t - {p}, Answer(Reply.R200, "")) else (t, Answer(Reply.R307, ""))
    ensures Serve(t, Request(Some(user), address, Hangup))
            == if user in t then (t - {user}, Answer(Reply.R200, "")) else (t, Answer(Reply.R307, ""))
    ensures user !in t ==> Serve(t, Request(Some(user), address, Ping)) == (t, Answer(Reply.R307, ""))
  {
    hide SplitFirst, Decimal.Stoi, Decimal.ToString;
    ArgumentRead(user, p, "");
  }

  /** What a command that cannot be served is answered; the table stays as it is. */
  lemma {:induction false} BadRequests(t: Table, user: int, address: string, arg: string, p: Decimal.Int32)
    ensures Serve(t, Request(None, address, Connect(arg))) == (t, Answer(Reply.R301, ""))
    ensures Serve(t, Request(None, address, Accept(arg))) == (t, Answer(Reply.R301, ""))
    ensures Serve(t, Request(None, address, Reject(arg))) == (t, Answer(Reply.R301, ""))
    ensures Serve(t, Request(None, address, Ping)) == (t, Answer(Reply.R301, ""))
    ensures Serve(t, Request(None, address, Hangup)) == (t, Answer(Reply.R301, ""))
    ensures Decimal.Stoi(SplitFirst(arg, " ").0) == None ==>
              && Serve(t, Request(Some(user), address, Connect(arg))) == (t, Answer(Reply.R500, ""))
              && Serve(t, Request(Some(user), address, Accept(arg))) == (t, Answer(Reply.R500, ""))
              && Serve(t, Request(Some(user), address, Reject(arg))) == (t, Answer(Reply.R500, ""))
    ensures Serve(t, Request(Some(user), address, Connect(Decimal.ToString(p)))) == (t, Answer(Reply.R501, ""))
    ensures Serve(t, Request(Some(user), address, Accept(Decimal.ToString(p)))) == (t, Answer(Reply.R501, ""))
  {
    hide SplitFirst, Decimal.Stoi, Decimal.ToString;
    ArgumentRead(user, p, "");
  }

  class Controllers {
    const awaiting: AwaitingTable

    constructor ()
      ensures awaiting.users == map[] && fresh(awaiting)
    {
      awaiting := new AwaitingTable();
    }

    method Connect(user: Option<int>, address: string, arg: string) returns (reply: string)
      modifies awaiting
      ensures var (t, a) := Serve(old(awaiting.users), Request(user, address, Command.Connect(arg)));
              awaiting.users == t && reply == Text(a)
    {
      var v := ValidateWithLocal(user, arg);
      if v.Bad? {
        return Text(v.answer);
      }
      var inserted := awaiting.Insert(Make(v.user, address, v.local));
      reply := Reply.Message(if inserted then Reply.R200 else Reply.R306);
    }

    method Accept(user: Option<int>, address: string, arg: string) returns (reply: string)
      modifies awaiting
      ensures var (t, a) := Serve(old(awaiting.users), Request(user, address, Command.Accept(arg)));
              awaiting.users == t && reply == Text(a)
    {
      var v := ValidateWithLocal(user, arg);
      if v.Bad? {
        return Text(v.answer);
      }
      var found := awaiting.Exists(v.contact);
      if !found {
        return Reply.Message(Reply.R307);
      }
      awaiting.SetPeer(v.contact, address, v.local);
      var u := awaiting.users[v.contact];
      reply := Reply.Append(Reply.R201, Address(u) + " " + AddressType(u));
    }

    method Reject(user: Option<int>, address: string, arg: string) returns (reply: string)
      modifies awaiting
      ensures var (t, a) := Serve(old(awaiting.users), Request(user, address, Command.Reject(arg)));
              awaiting.users == t && reply == Text(a)
    {
      var v := Validate(user, arg);
      if v.Bad? {
        return Text(v.answer);
      }
      var destroyed := awaiting.Destroy(v.contact);
      reply := Reply.Message(if destroyed then Reply.R200 else Reply.R307);
    }

    method Hangup(user: Option<int>, address: string) returns (reply: string)
      modifies awaiting
      ensures var (t, a) := Serve(old(awaiting.users), Request(user, address, Command.Hangup));
              awaiting.users == t && reply == Text(a)
    {
      if user == None {
        return Reply.Message(Reply.R301);
      }
      var destroyed := awaiting.Destroy(user.value);
      reply := Reply.Message(if destroyed then Reply.R200 else Reply.R307);
    }

    method Ping(user: Option<int>, address: string) returns (reply: string)
      modifies awaiting
      ensures var (t, a) := Serve(old(awaiting.users), Request(user, address, Command.Ping));
              awaiting.users == t && reply == Text(a)
    {
      if user == None {
        return Reply.Message(Reply.R301);
      }
      var found := awaiting.Exists(user.value);
      if !found {
        return Reply.Message(Reply.R307);
      }
      var u := awaiting.users[user.value];
      if PeerAddress(u) == "" {
        return Reply.Message(Reply.R203);
      }
      reply := Reply.Append(Reply.R201, PeerAddress(u) + " " + AddressType(u));
      var _ := awaiting.Destroy(user.value);
    }

    method CallAwaits(user: int) returns (awaits: bool)
      ensures awaits <==> user in awaiting.users
    {
      awaits := awaiting.Exists(user);
    }
  }
}
