/** The server's reply codes and their text. */
module Reply {
  import opened StringUtils

  datatype Code =
    | R200 | R201 | R202 | R203
    | R300 | R301 | R302 | R303 | R304 | R305 | R306 | R307
    | R500 | R501 | R502
    | NoCode

  function Digits(c: Code): string {
    match c
    case R200 => "200" case R201 => "201" case R202 => "202" case R203 => "203"
    case R300 => "300" case R301 => "301" case R302 => "302" case R303 => "303"
    case R304 => "304" case R305 => "305" case R306 => "306" case R307 => "307"
    case R500 => "500" case R501 => "501" case R502 => "502"
    case NoCode => ""
  }

  function Words(c: Code): string {
    match c
    case R200 => "OK"
    case R201 => ""
    case R202 => "Invalid token. Please login"
    case R203 => "Awaiting"
    case R300 => "Not OK"
    case R301 => "User not found"
    case R302 => "User already exist"
    case R303 => "Recipient not found"
    case R304 => "Sender not found"
    case R305 => "Invalid chat id"
    case R306 => "Already awaiting. Please HANGUP before connecting"
    case R307 => "Connection requests not found for this user"
    case R500 => "Internal server error"
    case R501 => "Invalid command or wrong number of arguments"
    case R502 => "Empty argument"
    case NoCode => ""
  }

  /** `get_message`; an unknown code has no text. */
  function Message(c: Code): string {
    if c == NoCode || c == R201 then Digits(c) else Digits(c) + " " + Words(c)
  }

  function Append(c: Code, msg: string): string {
    Message(c) + " " + msg
  }

  function FromString(s: string): Code {
    if s == "200" then R200 else if s == "201" then R201 else if s == "202" then R202
    else if s == "203" then R203 else if s == "300" then R300 else if s == "301" then R301
    else if s == "302" then R302 else if s == "303" then R303 else if s == "304" then R304
    else if s == "305" then R305 else if s == "306" then R306 else if s == "307" then R307
    else if s == "500" then R500 else if s == "501" then R501 else if s == "502" then R502
    else NoCode
  }

  lemma {:induction false} DigitsRoundTrip(c: Code)
    ensures FromString(Digits(c)) == c
  {
    if c.R200? || c.R201? || c.R202? || c.R203? {
    } else if c.R300? || c.R301? || c.R302? || c.R303? {
    } else if c.R304? || c.R305? || c.R306? || c.R307? {
    } else {
    }
  }

  lemma NoColonBadToken()
    ensures ':' !in "Invalid token. Please login"
  {
  }

  lemma NoColonBadCommand()
    ensures ':' !in "Invalid command or wrong number of arguments"
  {
  }

  /** The replies LIST can get besides a list hold no colon. */
  lemma NoColon(c: Code)
    requires c == R202 || c == R301 || c == R501
    ensures ':' !in Message(c)
  {
    NoColonBadToken();
    NoColonBadCommand();
    assert ':' !in Words(c);
  }

  /** The client's `split_first` recovers the code of every fixed reply. */
  lemma {:induction false} CodeOfMessage(c: Code)
    ensures FromString(SplitFirst(Message(c), " ").0) == c
  {
    var d := Digits(c);
    assert ' ' !in d;
    if c != NoCode {
      if c == R201 {
        SplitNone(d, ' ');
      } else {
        SplitCons(d, ' ', Words(c));
      }
    }
    DigitsRoundTrip(c);
  }

  /** ... and the code and the whole payload, spaces included, of every 201 reply. */
  lemma PayloadOfAppend(msg: string)
    ensures SplitFirst(Append(R201, msg), " ") == ("201", msg)
  {
    SplitCons("201", ' ', msg);
  }

  /** The fixed texts. */
  lemma FixedTexts()
    ensures Message(R200) == "200" + " " + "OK" && Message(R201) == "201"
    ensures Message(R202) == "202" + " " + "Invalid token. Please login" && Message(R203) == "203" + " " + "Awaiting"
    ensures Message(R300) == "300" + " " + "Not OK" && Message(R301) == "301" + " " + "User not found"
    ensures Message(R302) == "302" + " " + "User already exist" && Message(R303) == "303" + " " + "Recipient not found"
  {
  }

  lemma MoreFixedTexts()
    ensures Message(R304) == "304" + " " + "Sender not found" && Message(R305) == "305" + " " + "Invalid chat id"
  {
  }

  lemma LongFixedTexts()
    ensures Message(R306) == "306" + " " + "Already awaiting. Please HANGUP before connecting"
    ensures Message(R307) == "307" + " " + "Connection requests not found for this user"
    ensures Message(R500) == "500" + " " + "Internal server error"
    ensures Message(R501) == "501" + " " + "Invalid command or wrong number of arguments"
    ensures Message(R502) == "502" + " " + "Empty argument" && Message(NoCode) == ""
  {
  }

  /** Every other text is no code. */
  lemma NoOtherCode(s: string)
    ensures |s| != 3 ==> FromString(s) == NoCode
    ensures FromString(s) != NoCode ==> s == Digits(FromString(s))
  {
  }
}
