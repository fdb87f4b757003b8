/** One chat message, its text form, and the update of an object from that text. */
module UserChats {
  import opened Options
  import opened Basics
  import opened Decimal
  import opened StringUtils

  const FIELD_DELIM := ","
  const HEADER_DELIM := ":"

  datatype UserChat = UserChat(
    id: Int32, createdAt: string, sender: Int32, recipient: Int32, delivered: bool, text: string)

  /** The default object a parser fills in. */
  function Blank(): UserChat { UserChat(0, "", 0, 0, false, "") }

  /** Everything `to_string` writes before the text. */
  function Info(c: UserChat): string {
    ToString(c.id) + FIELD_DELIM + c.createdAt + FIELD_DELIM + ToString(c.sender) + FIELD_DELIM
    + ToString(c.recipient) + FIELD_DELIM + Flag(c.delivered)
  }

  function Print(c: UserChat): string {
    Info(c) + c.text
  }

  /** `from_string`: the fields are assigned one by one, and an exception leaves the rest as
      they were. */
  function Parsed(old_: UserChat, s: string): UserChat {
    var (header, content) := SplitFirst(s, HEADER_DELIM);
    match Stoi(header)
    case None => old_
    case Some(n) =>
      match SplitAtPos(content, ToSize(n))
      case None => old_
      case Some((info, text)) => Filled(old_, Split(info, FIELD_DELIM), text)
  }

  function Filled(c: UserChat, f: seq<string>, text: string): UserChat
    requires f != []
  {
    match Stoi(f[0])
    case None => c
    case Some(id) =>
      if |f| < 2 then c.(id := id)
      else if |f| < 3 then c.(id := id, createdAt := f[1])
      else
        match Stoi(f[2])
        case None => c.(id := id, createdAt := f[1])
        case Some(sender) =>
          if |f| < 4 then c.(id := id, createdAt := f[1], sender := sender)
          else
            match Stoi(f[3])
            case None => c.(id := id, createdAt := f[1], sender := sender)
            case Some(recipient) =>
              if |f| < 5 then c.(id := id, createdAt := f[1], sender := sender, recipient := recipient)
              else UserChat(id, f[1], sender, recipient, f[4] == "true", text)
  }

  /** Each field is assigned exactly when all before it were and it is there and readable; delivered
      and text go together. */
  lemma {:induction false} AssignedInOrder(c: UserChat, f: seq<string>, text: string)
    requires f != []
    ensures var id := Stoi(f[0]).Some?;
            var date := id && |f| >= 2;
            var sender := date && |f| >= 3 && Stoi(f[2]).Some?;
            var recipient := sender && |f| >= 4 && Stoi(f[3]).Some?;
            var rest := recipient && |f| >= 5;
            Filled(c, f, text) == UserChat(
              if id then Stoi(f[0]).value else c.id,
              if date then f[1] else c.createdAt,
              if sender then Stoi(f[2]).value else c.sender,
              if recipient then Stoi(f[3]).value else c.recipient,
              if rest then f[4] == "true" else c.delivered,
              if rest then text else c.text)
  {
    hide Stoi;
  }

  /** A text without a readable length in front of its first colon changes nothing: a new object keeps
      its default values. */
  lemma {:induction false} UnreadableChat(c: UserChat, s: string)
    requires Stoi(SplitFirst(s, ":").0) == None
    ensures Parsed(c, s) == c && Parsed(Blank(), s) == UserChat(0, "", 0, 0, false, "")
  {
    hide Stoi, SplitFirst;
  }

  /** The chat object whose fields `from_string` assigns. */
  class Chat {
    var id: Int32
    var createdAt: string
    var sender: Int32
    var recipient: Int32
    var delivered: bool
    var text: string

    function Now(): UserChat
      reads this
    {
      UserChat(id, createdAt, sender, recipient, delivered, text)
    }

    constructor ()
      ensures Now() == Blank()
    {
      id, createdAt, sender, recipient, delivered, text := 0, "", 0, 0, false, "";
    }

    method FromString(s: string)
      modifies this
      ensures Now() == Parsed(old(Now()), s)
    {
      hide Stoi, SplitFirst, SplitAtPos, Split;
      var (header, content) := SplitFirst(s, HEADER_DELIM);
      var length := Stoi(header);
      if length == None { return; }
      var parts := SplitAtPos(content, ToSize(length.value));
      if parts == None { return; }
      var fields := SplitLoop(parts.value.0, FIELD_DELIM);
      var n := Stoi(fields[0]);
      if n == None { return; }
      id := n.value;
      if |fields| < 2 { return; }
      createdAt := fields[1];
      if |fields| < 3 { return; }
      n := Stoi(fields[2]);
      if n == None { return; }
      sender := n.value;
      if |fields| < 4 { return; }
      n := Stoi(fields[3]);
      if n == None { return; }
      recipient := n.value;
      if |fields| < 5 { return; }
      delivered := fields[4] == "true";
      text := parts.value.1;
    }
  }

  lemma InfoFields(c: UserChat)
    requires ',' !in c.createdAt
    ensures Split(Info(c), FIELD_DELIM)
            == [ToString(c.id), c.createdAt, ToString(c.sender), ToString(c.recipient), Flag(c.delivered)]
  {
    hide Split, ToString, Flag;
    var a, b, d, e := ToString(c.id), c.createdAt, ToString(c.sender), ToString(c.recipient);
    var f := Flag(c.delivered);
    ToStringChars(c.id, ',');
    ToStringChars(c.sender, ',');
    ToStringChars(c.recipient, ',');
    FlagChars(c.delivered);
    FiveFields(a, b, d, e, f);
  }

  lemma {:induction false} FiveFields(a: string, b: string, c: string, d: string, e: string)
    requires ',' !in a && ',' !in b && ',' !in c && ',' !in d && ',' !in e
    ensures Split(a + "," + b + "," + c + "," + d + "," + e, ",") == [a, b, c, d, e]
  {
    hide Split;
    SplitNone(a, ',');
    SplitSnoc(a, ',', b);
    SplitSnoc(a + "," + b, ',', c);
    SplitSnoc(a + "," + b + "," + c, ',', d);
    SplitSnoc(a + "," + b + "," + c + "," + d, ',', e);
  }

  /** One chat with the length header the server puts before it. */
  function Encoded(c: UserChat): string {
    ToString(|Print(c)| - |c.text|) + HEADER_DELIM + Print(c)
  }

  lemma HeaderSplits(info: string, text: string)
    requires |info| <= INT_MAX
    ensures SplitFirst(ToString(|info|) + HEADER_DELIM + (info + text), HEADER_DELIM)
            == (ToString(|info|), info + text)
    ensures Stoi(ToString(|info|)) == Some(|info|)
    ensures SplitAtPos(info + text, ToSize(|info|)) == Some((info, text))
  {
    hide Stoi, ToString, Find, Split;
    var n, all := |info|, info + text;
    ToStringChars(n, ':');
    SplitCons(ToString(n), ':', all);
    StoiToString(n);
    assert all[0..n] == info && all[n..] == text;
    assert n == 0 ==> all[0..|all|] == text;
  }

  /** `from_string` reads back what the server wrote, whatever the text holds. */
  lemma ChatRoundTrip(c: UserChat, old_: UserChat)
    requires ',' !in c.createdAt && |Info(c)| <= INT_MAX
    ensures Parsed(old_, Encoded(c)) == c
  {
    hide Stoi, Split, SplitFirst, SplitAtPos, ToString, Info;
    HeaderSplits(Info(c), c.text);
    InfoFields(c);
    StoiToString(c.id);
    StoiToString(c.sender);
    StoiToString(c.recipient);
  }

  /** With more fields than it expects, `from_string` still takes its date from the second. */
  lemma SecondFieldIsDate(c: UserChat, f: seq<string>, text: string)
    requires |f| >= 2 && Stoi(f[0]).Some?
    ensures Filled(c, f, text).createdAt == f[1]
  {
    hide Stoi;
  }

  lemma DateCut(a: string, date: string, tail: string)
    requires ',' !in a && ',' in date
    ensures var f := Split(a + "," + (date + tail), ",");
            |f| >= 2 && f[0] == a && |f[1]| < |date|
  {
    hide Split;
    FindNone(date, ',');
    FindSplits(date, ',');
    var end := Find(date, ",");
    hide Find;
    var first, rest := date[..end], date[end + 1..] + tail;
    assert date + tail == first + "," + rest;
    SplitCons(a, ',', date + tail);
    SplitCons(first, ',', rest);
  }

  /** A date with a comma is cut at it. */
  lemma CommaIsLost(c: UserChat, old_: UserChat)
    requires ',' in c.createdAt && |Info(c)| <= INT_MAX
    ensures Parsed(old_, Encoded(c)) != c
  {
    hide Stoi, Split, SplitFirst, SplitAtPos, ToString, Flag, Filled;
    HeaderSplits(Info(c), c.text);
    StoiToString(c.id);
    ToStringChars(c.id, ',');
    var tail := "," + ToString(c.sender) + "," + ToString(c.recipient) + "," + Flag(c.delivered);
    assert Info(c) == ToString(c.id) + "," + (c.createdAt + tail);
    DateCut(ToString(c.id), c.createdAt, tail);
    hide Info;
    SecondFieldIsDate(old_, Split(Info(c), FIELD_DELIM), c.text);
  }

  /** One chat survives the trip exactly when its date has no comma. */
  lemma {:induction false} ChatRoundTripIff(c: UserChat)
    requires |Info(c)| <= INT_MAX
    ensures Parsed(Blank(), Encoded(c)) == c <==> ',' !in c.createdAt
  {
    if ',' in c.createdAt {
      CommaIsLost(c, Blank());
    } else {
      ChatRoundTrip(c, Blank());
    }
  }
}

/** The server side: the printer of a list of chats. */
module ChatController {
  import opened Decimal
  import opened UserChats

  /** All chats, each with its own header. */
  function Content(chats: seq<UserChat>): string {
    if chats == [] then "" else Content(chats[..|chats| - 1]) + Encoded(chats[|chats| - 1])
  }

  /** The end offsets of the chats in the content. */
  function Header(chats: seq<UserChat>): string {
    if chats == [] then "0"
    else Header(chats[..|chats| - 1]) + FIELD_DELIM + ToString(|Content(chats)|)
  }

  /** What the server sends after "201 ". */
  function ListText(chats: seq<UserChat>): string {
    Header(chats) + HEADER_DELIM + Content(chats)
  }

  method BuildResponse(chats: seq<UserChat>) returns (response: string)
    ensures response == ListText(chats)
  {
    hide ToString, Info;
    response := "0";
    var content := "";
    for i := 0 to |chats|
      invariant content == Content(chats[..i])
      invariant response == Header(chats[..i])
    {
      assert chats[..i + 1][..i] == chats[..i];
      var chatStr := Print(chats[i]);
      var chatHeader := ToString(|chatStr| - |chats[i].text|) + HEADER_DELIM;
      assert content + chatHeader + chatStr == content + (chatHeader + chatStr);
      content := content + chatHeader;
      content := content + chatStr;
      response := response + FIELD_DELIM;
      response := response + ToString(|content|);
    }
    assert chats[..|chats|] == chats;
    response := response + HEADER_DELIM;
    response := response + content;
  }
}

/** The client side: the parser of that list, and the round trip between the two. */
module ChatClient {
  import opened Options
  import opened Decimal
  import opened StringUtils
  import opened UserChats
  import opened ChatController
  import Reply

  function ParseAll(pieces: seq<string>): seq<UserChat> {
    seq(|pieces|, i requires 0 <= i < |pieces| => Parsed(Blank(), pieces[i]))
  }

  /** `parse_chat`; `None` is an exception that escapes it. */
  function ParseChat(reply: string): Option<seq<UserChat>> {
    var (_, response) := SplitFirst(reply, " ");
    var (header, content) := SplitFirst(response, HEADER_DELIM);
    match SplitAt(content, SplitToInts(header, FIELD_DELIM))
    case None => None
    case Some(pieces) => Some(ParseAll(pieces))
  }

  method ParseChatLoop(reply: string) returns (chats: Option<seq<UserChat>>)
    ensures chats == ParseChat(reply)
  {
    hide Parsed, SplitToInts, SplitAt;
    var (_, response) := SplitFirst(reply, " ");
    var (header, content) := SplitFirst(response, HEADER_DELIM);
    hide SplitFirst;
    var positions := SplitToIntsLoop(header, FIELD_DELIM);
    var pieces := SplitAtLoop(content, positions);
    if pieces == None {
      return None;
    }
    var result := [];
    for i := 0 to |pieces.value|
      invariant result == ParseAll(pieces.value[..i])
    {
      var chat := new Chat();
      chat.FromString(pieces.value[i]);
      result := result + [chat.Now()];
    }
    assert pieces.value[..|pieces.value|] == pieces.value;
    chats := Some(result);
  }

  // ----- The round trip of the whole list

  /** Where each chat starts, and where the last one ends. */
  function Offsets(chats: seq<UserChat>): (pos: seq<int>)
    ensures |pos| == |chats| + 1
  {
    if chats == [] then [0] else Offsets(chats[..|chats| - 1]) + [|Content(chats)|]
  }

  lemma {:induction false} ContentGrows(chats: seq<UserChat>, i: nat)
    requires i <= |chats|
    ensures |Content(chats[..i])| <= |Content(chats)|
    ensures Content(chats)[..|Content(chats[..i])|] == Content(chats[..i])
    decreases |chats|
  {
    hide Encoded;
    if i == |chats| {
      assert chats[..i] == chats;
    } else {
      var init := chats[..|chats| - 1];
      ContentGrows(init, i);
      assert init[..i] == chats[..i];
    }
  }

  lemma {:induction false} OffsetAt(chats: seq<UserChat>, i: nat)
    requires i <= |chats|
    ensures Offsets(chats)[i] == |Content(chats[..i])|
    decreases |chats|
  {
    hide Encoded;
    if i == |chats| {
      assert chats[..i] == chats;
    } else {
      OffsetAt(chats[..|chats| - 1], i);
      assert chats[..|chats| - 1][..i] == chats[..i];
    }
  }

  /** The slice between two offsets is one encoded chat. */
  lemma SliceIsChat(chats: seq<UserChat>, i: nat)
    requires i < |chats|
    ensures var lo, hi := |Content(chats[..i])|, |Content(chats[..i + 1])|;
            0 <= lo <= hi <= |Content(chats)| && Content(chats)[lo..hi] == Encoded(chats[i])
  {
    hide Encoded;
    ContentGrows(chats, i + 1);
    assert chats[..i + 1][..i] == chats[..i];
    var c := Content(chats[..i + 1]);
    assert c == Content(chats[..i]) + Encoded(chats[i]);
    assert Content(chats)[|Content(chats[..i])|..|c|] == c[|Content(chats[..i])|..];
  }

  lemma {:induction false} HeaderReads(chats: seq<UserChat>)
    requires |Content(chats)| <= INT_MAX
    ensures Ints(Split(Header(chats), FIELD_DELIM)) == Some(Offsets(chats))
    ensures ':' !in Header(chats)
    decreases |chats|
  {
    hide Stoi, ToString, Split, Encoded, Ints;
    if chats == [] {
      assert Ints(Split("0", ",")) == Some([0]) by { ZeroReads(); }
    } else {
      var init, n := chats[..|chats| - 1], |Content(chats)|;
      ContentGrows(chats, |chats| - 1);
      HeaderReads(init);
      ToStringChars(n, ',');
      ToStringChars(n, ':');
      SplitSnoc(Header(init), ',', ToString(n));
      StoiToString(n);
      IntsSnoc(Split(Header(init), ","), ToString(n));
    }
  }

  lemma ZeroReads()
    ensures Ints(Split("0", ",")) == Some([0])
  {
    SplitNone("0", ',');
    StoiToString(0);
    assert ToString(0) == "0";
    IntsOne("0");
  }

  lemma InfoInside(chats: seq<UserChat>, i: nat)
    requires i < |chats|
    ensures |Info(chats[i])| <= |Content(chats)|
  {
    hide Info, ToString, Content;
    SliceIsChat(chats, i);
  }

  lemma ParseSteps(reply: string, code: string, response: string, header: string, content: string,
                   pos: seq<int>, pieces: seq<string>)
    requires SplitFirst(reply, " ") == (code, response)
    requires SplitFirst(response, HEADER_DELIM) == (header, content)
    requires SplitToInts(header, FIELD_DELIM) == pos && SplitAt(content, pos) == Some(pieces)
    ensures ParseChat(reply) == Some(ParseAll(pieces))
  {
    hide SplitFirst, SplitToInts, SplitAt, Parsed;
  }

  /** The client cuts the reply into exactly the encoded chats. */
  lemma {:induction false} ReplyCutsIntoChats(chats: seq<UserChat>) returns (pieces: seq<string>)
    requires |Content(chats)| <= INT_MAX
    ensures |pieces| == |chats| && forall i :: 0 <= i < |chats| ==> pieces[i] == Encoded(chats[i])
    ensures ParseChat(Reply.Append(Reply.R201, ListText(chats))) == Some(ParseAll(pieces))
  {
    hide Ints, Split, SplitFirst, SplitAt, Parsed, Encoded, Content, Header;
    var content, pos := Content(chats), Offsets(chats);
    Reply.PayloadOfAppend(ListText(chats));
    HeaderReads(chats);
    SplitCons(Header(chats), ':', content);
    forall i | 0 <= i < |pos| ensures 0 <= pos[i] <= |content| && pos[i] == |Content(chats[..i])| {
      OffsetAt(chats, i);
      ContentGrows(chats, i);
    }
    forall i, j | 0 <= i < j < |pos| ensures pos[i] <= pos[j] {
      ContentGrows(chats[..j], i);
      assert chats[..j][..i] == chats[..i];
    }
    SplitAtSlices(content, pos);
    pieces := SplitAt(content, pos).value;
    forall i | 0 <= i < |chats| ensures pieces[i] == Encoded(chats[i]) {
      SliceIsChat(chats, i);
    }
    ParseSteps(Reply.Append(Reply.R201, ListText(chats)), "201", ListText(chats), Header(chats), content, pos, pieces);
  }

  /** The client reads back exactly the list the server printed, for arbitrary texts and as long
      as the offsets fit an `int`, precisely when no date holds a comma. */
  lemma {:induction false} ChatListRoundTrip(chats: seq<UserChat>)
    requires |Content(chats)| <= INT_MAX
    ensures ParseChat(Reply.Append(Reply.R201, ListText(chats))) == Some(chats)
            <==> forall i :: 0 <= i < |chats| ==> ',' !in chats[i].createdAt
  {
    hide ParseChat, ListText, Parsed, Encoded, Content, Info;
    var pieces := ReplyCutsIntoChats(chats);
    forall i | 0 <= i < |chats| ensures Parsed(Blank(), pieces[i]) == chats[i] <==> ',' !in chats[i].createdAt {
      InfoInside(chats, i);
      ChatRoundTripIff(chats[i]);
    }
    if forall i :: 0 <= i < |chats| ==> ',' !in chats[i].createdAt {
      assert ParseAll(pieces) == chats;
    } else {
      var i :| 0 <= i < |chats| && ',' in chats[i].createdAt;
      assert ParseAll(pieces)[i] != chats[i];
    }
  }
}
