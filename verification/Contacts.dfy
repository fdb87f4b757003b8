/** The contact list: the server's printer and the client's parser. */
module ContactPrinter {
  import opened Basics
  import opened Decimal
  import opened StringUtils
  import Reply

  datatype User = User(id: Int32, username: string, password: string, online: bool, address: string)

  /** `User::to_string`: an empty password is never printed, an empty address only with one. */
  function Print(u: User): string {
    if u.password == "" && u.address == "" then
      "id:" + ToString(u.id) + ",username:" + u.username + ",online:" + Flag(u.online)
    else if u.password == "" then
      "id:" + ToString(u.id) + ",username:" + u.username + ",online:" + Flag(u.online)
      + ",address:" + u.address
    else
      "id:" + ToString(u.id) + ",username:" + u.username + ",password:" + u.password
      + ",online:" + Flag(u.online) + ",address:" + u.address
  }

  /** The three shapes of a printed user. */
  lemma {:induction false} PrintedShapes(id: Int32, name: string, password: string, online: bool, address: string)
    ensures var start := "id:" + ToString(id) + ",username:" + name;
            var flag := if online then ",online:true" else ",online:false";
            && Print(User(id, name, "", online, "")) == start + flag
            && (address != "" ==>
                  Print(User(id, name, "", online, address)) == start + flag + ",address:" + address)
            && (password != "" ==>
                  Print(User(id, name, password, online, address))
                  == start + ",password:" + password + flag + ",address:" + address)
  {
    hide ToString;
    var start := "id:" + ToString(id) + ",username:" + name;
    Flagged(start, online);
    Flagged(start + ",password:" + password, online);
  }

  lemma Flagged(s: string, b: bool)
    ensures s + ",online:" + Flag(b) == s + if b then ",online:true" else ",online:false"
  {
    assert ",online:" + Flag(b) == if b then ",online:true" else ",online:false";
    assert s + ",online:" + Flag(b) == s + (",online:" + Flag(b));
  }

  /** A contact with the mark of a call request waiting for it. */
  function Entry(u: User, awaits: bool): string {
    Print(u) + ",awaiting:" + Flag(awaits)
  }

  function Entries(contacts: seq<User>, calling: set<int>): seq<string> {
    seq(|contacts|, i requires 0 <= i < |contacts| => Entry(contacts[i], contacts[i].id in calling))
  }

  /** The LIST reply; `calling` holds the users with an open call request. */
  function ListReply(contacts: seq<User>, calling: set<int>): string {
    if contacts == [] then Reply.Message(Reply.R301)
    else Reply.Append(Reply.R201, Join(Entries(contacts, calling), " "))
  }

  method ListContacts(contacts: seq<User>, calling: set<int>) returns (reply: string)
    ensures reply == ListReply(contacts, calling)
  {
    hide Print, Entry;
    if 0 < |contacts| {
      var msg := "";
      ghost var entries := Entries(contacts, calling);
      for i := 0 to |contacts|
        invariant msg + Terminated(entries[i..], " ") == Terminated(entries, " ")
      {
        var awaiting := if contacts[i].id in calling then ",awaiting:true" else ",awaiting:false";
        AwaitingText(contacts[i], contacts[i].id in calling);
        assert entries[i..][1..] == entries[i + 1..];
        msg := msg + (Print(contacts[i]) + awaiting + " ");
      }
      msg := msg[..|msg| - 1];
      reply := Reply.Append(Reply.R201, msg);
    } else {
      reply := Reply.Message(Reply.R301);
    }
  }

  lemma AwaitingText(u: User, awaits: bool)
    ensures Print(u) + (if awaits then ",awaiting:true" else ",awaiting:false") == Entry(u, awaits)
  {
    hide Print;
  }
}

module Contacts {
  import opened Options
  import opened Basics
  import opened Decimal
  import opened StringUtils
  import opened ContactPrinter
  import Reply

  /** A contact as the client shows it. */
  datatype Details = Details(id: Int32, username: string, online: bool, awaiting: bool)

  /** What an entry without fields yields; id 0 marks it as no contact. */
  function Blank(): Details { Details(0, "", false, false) }

  function SetField(d: Details, field: string): Details {
    var (key, value) := SplitFirst(field, ":");
    if key == "id" then
      match Stoi(value)
      case Some(n) => d.(id := n)
      case None => d // the exception is caught
    else if key == "username" then d.(username := value)
    else if key == "online" then d.(online := value == "true")
    else if key == "awaiting" then d.(awaiting := value == "true")
    else d
  }

  function SetFields(fields: seq<string>): Details {
    if fields == [] then Blank()
    else SetField(SetFields(fields[..|fields| - 1]), fields[|fields| - 1])
  }

  /** `pair_contact_details`, up to the insertion. */
  function Paired(entry: string): Details {
    SetFields(Split(entry, ","))
  }

  /** An entry without fields is no contact and holds the default values. */
  lemma NoFields()
    ensures Paired("") == Details(0, "", false, false)
  {
    assert Split("", ",") == [""];
    assert [""][..0] == [];
  }

  function Inserted(m: map<Int32, Details>, d: Details): map<Int32, Details> {
    if d.id != 0 then m[d.id := d] else m
  }

  function Collect(entries: seq<string>): map<Int32, Details> {
    if entries == [] then map[]
    else Inserted(Collect(entries[..|entries| - 1]), Paired(entries[|entries| - 1]))
  }

  /** The contacts `update_contacts` shows after a LIST reply. */
  function Updated(reply: string): map<Int32, Details> {
    Collect(Split(reply, " "))
  }

  class ContactBook {
    var online: map<Int32, Details>

    constructor ()
      ensures online == map[]
    {
      online := map[];
    }

    method PairContactDetails(entry: string)
      modifies this
      ensures online == Inserted(old(online), Paired(entry))
    {
      hide SetField;
      var fields := SplitLoop(entry, ",");
      var details := Blank();
      for i := 0 to |fields|
        invariant details == SetFields(fields[..i])
        invariant online == old(online)
      {
        assert fields[..i + 1][..i] == fields[..i];
        details := SetField(details, fields[i]);
      }
      assert fields[..|fields|] == fields;
      if details.id != 0 {
        online := online[details.id := details];
      }
    }

    /** The old contacts are dropped, whatever they were. */
    method UpdateContacts(reply: string)
      modifies this
      ensures online == Updated(reply)
    {
      hide Paired;
      var users := SplitLoop(reply, " ");
      online := map[];
      for i := 0 to |users|
        invariant online == Collect(users[..i])
      {
        assert users[..i + 1][..i] == users[..i];
        PairContactDetails(users[i]);
      }
      assert users[..|users|] == users;
    }
  }

  // ----- Reading one entry

  /** Appending `,key:value` to an entry sets exactly that field. */
  lemma FieldAppended(entry: string, key: string, value: string)
    requires ':' !in key && ',' !in key && ',' !in value
    ensures Paired(entry + ("," + key + ":") + value)
            == SetField(Paired(entry), key + ":" + value)
    ensures SplitFirst(key + ":" + value, ":") == (key, value)
  {
    hide Split, SplitFirst, SetField;
    var field := key + ":" + value;
    assert entry + ("," + key + ":") + value == entry + "," + field;
    SplitSnoc(entry, ',', field);
    var f := Split(entry, ",") + [field];
    assert f[..|f| - 1] == Split(entry, ",");
    SplitCons(key, ':', value);
  }

  lemma FirstField(id: Int32)
    ensures Paired("id:" + ToString(id)) == Blank().(id := id)
  {
    hide Split, Stoi, ToString, SplitFirst;
    var field := "id:" + ToString(id);
    ToStringChars(id, ',');
    SplitNone(field, ',');
    assert [field][..0] == [];
    assert SetFields([field]) == SetField(Blank(), field);
    assert "id:" + ToString(id) == "id" + ":" + ToString(id);
    SplitCons("id", ':', ToString(id));
    StoiToString(id);
  }

  /** Text fields that no reader can take for structure. */
  predicate Plain(s: string) { ',' !in s && ' ' !in s }

  lemma UsernameField(entry: string, value: string)
    requires ',' !in value
    ensures Paired(entry + ",username:" + value) == Paired(entry).(username := value)
  {
    hide Paired, SplitFirst;
    assert "," + "username" + ":" == ",username:";
    FieldAppended(entry, "username", value);
  }

  lemma OnlineField(entry: string, b: bool)
    ensures Paired(entry + ",online:" + Flag(b)) == Paired(entry).(online := b)
  {
    hide Paired, SplitFirst;
    assert "," + "online" + ":" == ",online:";
    FieldAppended(entry, "online", Flag(b));
  }

  lemma AwaitingField(entry: string, b: bool)
    ensures Paired(entry + ",awaiting:" + Flag(b)) == Paired(entry).(awaiting := b)
  {
    hide Paired, SplitFirst;
    assert "," + "awaiting" + ":" == ",awaiting:";
    FieldAppended(entry, "awaiting", Flag(b));
  }

  lemma OtherField(entry: string, key: string, value: string)
    requires key == "password" || key == "address"
    requires ',' !in value
    ensures Paired(entry + ("," + key + ":") + value) == Paired(entry)
  {
    hide Paired, SplitFirst;
    FieldAppended(entry, key, value);
  }

  /** Every form of a printed contact reads back as its id, name and marks. */
  lemma {:induction false} EntryRoundTrip(u: User, awaits: bool)
    requires ',' !in u.username && ',' !in u.password && ',' !in u.address
    ensures Paired(Entry(u, awaits)) == Details(u.id, u.username, u.online, awaits)
  {
    hide Paired, Flag, ToString;
    assert ("," + "password" + ":") == ",password:" && ("," + "address" + ":") == ",address:";
    var e1 := "id:" + ToString(u.id);
    var e2 := e1 + ",username:" + u.username;
    FirstField(u.id);
    UsernameField(e1, u.username);
    if u.password == "" {
      OnlineField(e2, u.online);
      OtherField(e2 + ",online:" + Flag(u.online), "address", u.address);
    } else {
      var e3 := e2 + ",password:" + u.password;
      OtherField(e2, "password", u.password);
      OnlineField(e3, u.online);
      OtherField(e3 + ",online:" + Flag(u.online), "address", u.address);
    }
    AwaitingField(Print(u), awaits);
  }

  // ----- Reading the list

  function Known(u: User, calling: set<int>): Details {
    Details(u.id, u.username, u.online, u.id in calling)
  }

  /** The list as a map: a later entry replaces an earlier one, id 0 is no contact. */
  function Shown(contacts: seq<User>, calling: set<int>): map<Int32, Details> {
    if contacts == [] then map[]
    else Inserted(Shown(contacts[..|contacts| - 1], calling), Known(contacts[|contacts| - 1], calling))
  }

  predicate PlainUser(u: User) { Plain(u.username) && Plain(u.password) && Plain(u.address) }

  lemma EntryChars(u: User, awaits: bool)
    requires PlainUser(u)
    ensures ' ' !in Entry(u, awaits)
  {
    hide ToString, Flag;
    ToStringChars(u.id, ' ');
    FlagChars(u.online);
    FlagChars(awaits);
    assert ' ' !in Print(u);
  }

  lemma {:induction false} CollectEntries(contacts: seq<User>, calling: set<int>, head: seq<string>)
    requires forall i :: 0 <= i < |contacts| ==> PlainUser(contacts[i])
    requires Collect(head) == map[]
    ensures Collect(head + Entries(contacts, calling)) == Shown(contacts, calling)
    decreases |contacts|
  {
    hide Paired, Entry;
    var all := head + Entries(contacts, calling);
    if contacts == [] {
      assert all == head;
    } else {
      var init, u := contacts[..|contacts| - 1], contacts[|contacts| - 1];
      CollectEntries(init, calling, head);
      assert all[..|all| - 1] == head + Entries(init, calling);
      assert all[|all| - 1] == Entry(u, u.id in calling);
      EntryRoundTrip(u, u.id in calling);
    }
  }

  /** An entry without a colon is no contact: not the "201" token, nor a word of an error reply. */
  lemma {:induction false} NoColonNoField(fields: seq<string>)
    requires forall i :: 0 <= i < |fields| ==> ':' !in fields[i]
    ensures SetFields(fields).id == 0
  {
    if fields != [] {
      NoColonNoField(fields[..|fields| - 1]);
      SplitNone(fields[|fields| - 1], ':');
      assert Stoi("") == None;
    }
  }

  lemma NoColonNoContact(entry: string)
    requires ':' !in entry
    ensures Paired(entry).id == 0
  {
    hide Split, SetFields;
    SplitPieces(entry, ',', ':');
    NoColonNoField(Split(entry, ","));
  }

  lemma {:induction false} NoColonCollects(entries: seq<string>)
    requires forall i :: 0 <= i < |entries| ==> ':' !in entries[i]
    ensures Collect(entries) == map[]
  {
    hide Paired;
    if entries != [] {
      NoColonCollects(entries[..|entries| - 1]);
      NoColonNoContact(entries[|entries| - 1]);
    }
  }

  /** Every other reply LIST can get (bad token, no contacts, bad command) clears the contacts. */
  lemma {:induction false} ErrorReplyClears(c: Reply.Code)
    requires c == Reply.R202 || c == Reply.R301 || c == Reply.R501
    ensures Updated(Reply.Message(c)) == map[]
  {
    hide Split, Collect;
    Reply.NoColon(c);
    SplitPieces(Reply.Message(c), ' ', ':');
    NoColonCollects(Split(Reply.Message(c), " "));
  }

  /** The client's map after LIST is the server's list, for every list and both its forms. */
  lemma {:induction false} ContactListRoundTrip(contacts: seq<User>, calling: set<int>)
    requires forall i :: 0 <= i < |contacts| ==> PlainUser(contacts[i])
    ensures Updated(ListReply(contacts, calling)) == Shown(contacts, calling)
  {
    hide Split, Collect, Join, Entry, Reply.Append, Reply.Message;
    if contacts == [] {
      ErrorReplyClears(Reply.R301);
    } else {
      var entries := Entries(contacts, calling);
      forall i | 0 <= i < |entries| ensures ' ' !in entries[i] {
        EntryChars(contacts[i], contacts[i].id in calling);
      }
      TokensOfList(entries);
      NoColonCollects(["201"]);
      CollectEntries(contacts, calling, ["201"]);
    }
  }

  lemma TokensOfList(entries: seq<string>)
    requires entries != [] && forall i :: 0 <= i < |entries| ==> ' ' !in entries[i]
    ensures Split(Reply.Append(Reply.R201, Join(entries, " ")), " ") == ["201"] + entries
  {
    hide Split, Join;
    SplitJoin(entries, ' ');
    SplitCons("201", ' ', Join(entries, " "));
  }

  // ----- Exactly when the list survives

  lemma {:induction false} ShownDistinct(contacts: seq<User>, calling: set<int>)
    requires forall i :: 0 <= i < |contacts| ==> contacts[i].id != 0
    requires forall i, j :: 0 <= i < j < |contacts| ==> contacts[i].id != contacts[j].id
    ensures forall i :: 0 <= i < |contacts| ==>
              contacts[i].id in Shown(contacts, calling)
              && Shown(contacts, calling)[contacts[i].id] == Known(contacts[i], calling)
    ensures forall id :: id in Shown(contacts, calling) ==> exists i :: 0 <= i < |contacts| && contacts[i].id == id
  {
    if contacts != [] {
      ShownDistinct(contacts[..|contacts| - 1], calling);
    }
  }

  lemma SetFieldPlain(d: Details, field: string)
    requires Plain(d.username) && Plain(field)
    ensures Plain(SetField(d, field).username)
  {
    hide Stoi;
    SplitFirstChars(field, ':');
  }

  lemma SplitFirstChars(s: string, c: char)
    ensures forall x :: x in SplitFirst(s, [c]).1 ==> x in s
  {
  }

  lemma {:induction false} SetFieldsPlain(fields: seq<string>)
    requires forall i :: 0 <= i < |fields| ==> Plain(fields[i])
    ensures Plain(SetFields(fields).username)
  {
    hide SetField;
    if fields != [] {
      SetFieldsPlain(fields[..|fields| - 1]);
      SetFieldPlain(SetFields(fields[..|fields| - 1]), fields[|fields| - 1]);
    }
  }

  lemma {:induction false} CollectPlain(entries: seq<string>)
    requires forall i :: 0 <= i < |entries| ==> ' ' !in entries[i]
    ensures forall id :: id in Collect(entries) ==> Plain(Collect(entries)[id].username)
  {
    hide Split, SetFields, Plain;
    if entries != [] {
      CollectPlain(entries[..|entries| - 1]);
      var last := entries[|entries| - 1];
      PiecesPlain(last);
      SetFieldsPlain(Split(last, ","));
    }
  }

  lemma PiecesPlain(entry: string)
    requires ' ' !in entry
    ensures forall i :: 0 <= i < |Split(entry, ",")| ==> Plain(Split(entry, ",")[i])
  {
    SplitPieces(entry, ',', ',');
    SplitPieces(entry, ',', ' ');
  }

  /** With distinct non-zero ids, the client ends with exactly the server's contacts precisely
      when no username holds a comma or a space. */
  lemma {:induction false} ContactListRoundTripIff(contacts: seq<User>, calling: set<int>)
    requires forall i :: 0 <= i < |contacts| ==> contacts[i].id != 0
    requires forall i, j :: 0 <= i < j < |contacts| ==> contacts[i].id != contacts[j].id
    requires forall i :: 0 <= i < |contacts| ==> Plain(contacts[i].password) && Plain(contacts[i].address)
    ensures Updated(ListReply(contacts, calling)) == Shown(contacts, calling)
            <==> forall i :: 0 <= i < |contacts| ==> Plain(contacts[i].username)
  {
    hide Split, Collect, ListReply, Shown, Plain;
    if forall i :: 0 <= i < |contacts| ==> Plain(contacts[i].username) {
      ContactListRoundTrip(contacts, calling);
    } else {
      var reply := ListReply(contacts, calling);
      SplitPieces(reply, ' ', ' ');
      CollectPlain(Split(reply, " "));
      ShownDistinct(contacts, calling);
      var i :| 0 <= i < |contacts| && !Plain(contacts[i].username);
      assert Shown(contacts, calling)[contacts[i].id].username == contacts[i].username;
    }
  }
}
