/** How the server reads a request: the command word, the token, the arguments, and the checks made
    before a controller sees it. */
module Router {
  import opened Options
  import opened StringUtils
  import opened CallControllers
  import Reply

  /** The call commands, and every other word. */
  datatype Name = CONNECT | ACCEPT | REJECT | PING | HANGUP | NoCommand

  /** `ServerCommand::get`. */
  function Get(word: string): Name {
    if word == "PING" then PING
    else if word == "REJECT" then REJECT
    else if word == "CONNECT" then CONNECT
    else if word == "ACCEPT" then ACCEPT
    else if word == "HANGUP" then HANGUP
    else NoCommand
  }

  predicate HasArgument(n: Name) { n.CONNECT? || n.ACCEPT? || n.REJECT? }

  /** `parse`: the command, its token and its arguments; every call command requires a token. */
  function Parse(text: string): (Name, string, string) {
    var (word, body) := SplitFirst(text, " ");
    var (token, arguments) := SplitFirst(body, " ");
    (Get(word), token, arguments)
  }

  /** A request for the call controllers, an answer of the router itself, or a request that is not
      for a call. */
  datatype Routed = ToCalls(request: Request) | Refused(answer: Answer) | NoCall

  /** `route`; `users` finds the user of a token. */
  function Route(users: string -> Option<int>, address: string, text: string): Routed {
    var (name, token, arguments) := Parse(text);
    if name.NoCommand? then NoCall
    else if users(token) == None then Refused(Fixed(Reply.R202))
    else if HasArgument(name) && arguments == "" then Refused(Fixed(Reply.R501))
    else
      match name
      case CONNECT => ToCalls(Request(users(token), address, Connect(arguments)))
      case ACCEPT => ToCalls(Request(users(token), address, Accept(arguments)))
      case REJECT => ToCalls(Request(users(token), address, Reject(arguments)))
      case PING => ToCalls(Request(users(token), address, Ping))
      case HANGUP => ToCalls(Request(users(token), address, Hangup))
  }

  lemma Nested(a: string, b: string, c: string, d: string, e: string)
    ensures a + b + c + d + e == a + b + (c + d + e)
  {
  }

  /** A word and a token are read as such ... */
  lemma TokenRead(word: string, token: string)
    requires ' ' !in word && ' ' !in token
    ensures Parse(word + " " + token) == (Get(word), token, "")
  {
    hide SplitFirst, Split, Get;
    SplitCons(word, ' ', token);
    SplitNone(token, ' ');
  }

  /** ... and so is an argument behind them. */
  lemma ArgumentRead(word: string, token: string, argument: string)
    requires ' ' !in word && ' ' !in token
    ensures Parse(word + " " + token + " " + argument) == (Get(word), token, argument)
  {
    hide SplitFirst, Split, Get;
    Nested(word, " ", token, " ", argument);
    SplitCons(word, ' ', token + " " + argument);
    SplitCons(token, ' ', argument);
  }

  /** The words of the call commands, and no other, name one. */
  lemma CallWords()
    ensures Get("CONNECT") == CONNECT && Get("ACCEPT") == ACCEPT && Get("REJECT") == REJECT
    ensures Get("PING") == PING && Get("HANGUP") == HANGUP
    ensures forall w :: Get(w).NoCommand? <==> w !in ["CONNECT", "ACCEPT", "REJECT", "PING", "HANGUP"]
  {
  }

  lemma OneWord()
    ensures ' ' !in "CONNECT" && ' ' !in "ACCEPT" && ' ' !in "REJECT" && ' ' !in "PING" && ' ' !in "HANGUP"
  {
  }

  lemma Spaced()
    ensures "CONNECT " == "CONNECT" + " " && "ACCEPT " == "ACCEPT" + " " && "REJECT " == "REJECT" + " "
    ensures "PING " == "PING" + " " && "HANGUP " == "HANGUP" + " "
  {
  }

  /** What is made of a call command with its argument. */
  function Made(name: Name, user: Option<int>, address: string, argument: string): Routed {
    if user == None then Refused(Answer(Reply.R202, ""))
    else if argument == "" && (name.CONNECT? || name.ACCEPT? || name.REJECT?) then Refused(Answer(Reply.R501, ""))
    else
      match name
      case CONNECT => ToCalls(Request(user, address, Connect(argument)))
      case ACCEPT => ToCalls(Request(user, address, Accept(argument)))
      case REJECT => ToCalls(Request(user, address, Reject(argument)))
      case PING => ToCalls(Request(user, address, Ping))
      case HANGUP => ToCalls(Request(user, address, Hangup))
      case NoCommand => NoCall
  }

  lemma RouteMakes(users: string -> Option<int>, address: string, text: string)
    requires !Parse(text).0.NoCommand?
    ensures Route(users, address, text) == Made(Parse(text).0, users(Parse(text).1), address, Parse(text).2)
  {
    hide Parse;
  }

  /** The five call commands reach their controllers with the user of the token, the argument and the
      address the request came from.  The router itself answers 202 to an unknown token and 501 to
      a command without its argument. */
  lemma {:induction false} CallsRouted(
    users: string -> Option<int>, address: string, token: string, argument: string)
    requires ' ' !in token
    ensures Route(users, address, "CONNECT " + token + " " + argument)
            == Made(CONNECT, users(token), address, argument)
    ensures Route(users, address, "ACCEPT " + token + " " + argument)
            == Made(ACCEPT, users(token), address, argument)
    ensures Route(users, address, "REJECT " + token + " " + argument)
            == Made(REJECT, users(token), address, argument)
    ensures Route(users, address, "CONNECT " + token) == Made(CONNECT, users(token), address, "")
    ensures Route(users, address, "ACCEPT " + token) == Made(ACCEPT, users(token), address, "")
    ensures Route(users, address, "REJECT " + token) == Made(REJECT, users(token), address, "")
    ensures Route(users, address, "PING " + token) == Made(PING, users(token), address, "")
    ensures Route(users, address, "HANGUP " + token) == Made(HANGUP, users(token), address, "")
  {
    CallWords();
    OneWord();
    Spaced();
    hide Parse, Get, Route, Made;
    WordRouted(users, address, "CONNECT", token, argument);
    WordRouted(users, address, "ACCEPT", token, argument);
    WordRouted(users, address, "REJECT", token, argument);
    WordRouted(users, address, "PING", token, argument);
    WordRouted(users, address, "HANGUP", token, argument);
  }

  lemma WordRouted(users: string -> Option<int>, address: string, word: string, token: string, argument: string)
    requires ' ' !in word && ' ' !in token && !Get(word).NoCommand?
    ensures Route(users, address, word + " " + token + " " + argument)
            == Made(Get(word), users(token), address, argument)
    ensures Route(users, address, word + " " + token) == Made(Get(word), users(token), address, "")
  {
    hide Parse, Get, Route, Made;
    ArgumentRead(word, token, argument);
    TokenRead(word, token);
    RouteMakes(users, address, word + " " + token + " " + argument);
    RouteMakes(users, address, word + " " + token);
  }
}
