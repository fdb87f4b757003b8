/** The framing of text messages on a TCP stream: a ten-digit length, then the message. */
module TextIO {
  import opened Options
  import opened Basics
  import opened Decimal
  import StringUtils

  const HEADER_LENGTH := 10
  const NUL := '\0'

  function ZeroDigits(n: nat): (s: string)
    ensures |s| == n && forall i :: 0 <= i < n ==> s[i] == '0'
  {
    seq(n, _ => '0')
  }

  /** `create_header`. */
  function CreateHeader(length: nat): (s: string)
    requires length <= INT_MAX
    ensures |s| == HEADER_LENGTH
  {
    IntHasTenDigits(length);
    ZeroDigits(HEADER_LENGTH - |ToString(length)|) + ToString(length)
  }

  /** `create_header` on any size: it is narrowed to an `int`, and an exception leaves when the text
      of that number has more than ten characters. */
  function HeaderOf(size: nat): Option<string> {
    var text := ToString(StringUtils.ToInt(size));
    if |text| > HEADER_LENGTH then None else Some(ZeroDigits(HEADER_LENGTH - |text|) + text)
  }

  /** Up to the largest `int` the header is the length. */
  lemma HeaderOfLength(length: nat)
    requires length <= INT_MAX
    ensures HeaderOf(length) == Some(CreateHeader(length))
  {
    IntHasTenDigits(length);
    hide ToString;
    assert StringUtils.ToInt(length) == length;
  }

  function Frame(msg: string): string
    requires |msg| <= INT_MAX
  {
    CreateHeader(|msg|) + msg
  }

  /** A `char*` read as a string stops at the first NUL. */
  function CString(s: string): string {
    if s == [] || s[0] == NUL then [] else [s[0]] + CString(s[1..])
  }

  /** `read_header` on the bytes available: a short read is -1, a header that is no number is 0. */
  function ReadHeader(stream: string): (int, string) {
    var n := Min(HEADER_LENGTH, |stream|);
    var rest := stream[n..];
    if n != HEADER_LENGTH then (-1, rest)
    else
      match Stoi(CString(stream[..n]))
      case None => (0, rest)
      case Some(length) => (length, rest)
  }

  /** How `receive` ends: with a text on the request, with an invalid request, or with no defined
      result, when the buffer size `msg_length + 1` does not fit an `int`. */
  datatype Reading = Got(text: string) | Invalid | Undefined

  /** `receive`, and what stays in the stream.  The last read waits for all its bytes or for the
      end of the stream. */
  function Received(stream: string): (Reading, string) {
    var (length, rest) := ReadHeader(stream);
    if length < 0 then (Invalid, rest)
    else if length == INT_MAX then (Undefined, rest)
    else (Got(CString(rest[..Min(length, |rest|)])), rest[Min(length, |rest|)..])
  }

  /** `n` calls of `receive` in a row. */
  function ReceivedAll(stream: string, n: nat): (seq<Reading>, string) {
    if n == 0 then ([], stream)
    else
      var (first, rest) := Received(stream);
      var (others, last) := ReceivedAll(rest, n - 1);
      ([first] + others, last)
  }

  predicate Sendable(msgs: seq<string>) { forall i :: 0 <= i < |msgs| ==> |msgs[i]| <= INT_MAX }

  function Frames(msgs: seq<string>): string
    requires Sendable(msgs)
  {
    if msgs == [] then [] else Frame(msgs[0]) + Frames(msgs[1..])
  }

  /** The two ends of a connection: what was written and not yet read. */
  class Socket {
    var stream: string

    constructor ()
      ensures stream == ""
    {
      stream := "";
    }

    method Recv(count: nat) returns (bytes: string)
      modifies this
      ensures bytes == old(stream)[..Min(count, |old(stream)|)]
      ensures stream == old(stream)[Min(count, |old(stream)|)..]
    {
      bytes := stream[..Min(count, |stream|)];
      stream := stream[Min(count, |stream|)..];
    }

    method Respond(msg: string) returns (sent: bool)
      modifies this
      ensures sent <==> HeaderOf(|msg|).Some?
      ensures stream == old(stream) + if sent then HeaderOf(|msg|).value + msg else []
      ensures |msg| <= INT_MAX ==> sent && stream == old(stream) + Frame(msg)
    {
      var header := HeaderOf(|msg|);
      if |msg| <= INT_MAX {
        HeaderOfLength(|msg|);
      }
      if header == None {
        return false;
      }
      stream := stream + (header.value + msg);
      sent := true;
    }

    method ReadHeaderBytes() returns (length: int)
      modifies this
      ensures (length, stream) == ReadHeader(old(stream))
    {
      var header := Recv(HEADER_LENGTH);
      if |header| == HEADER_LENGTH {
        var n := Stoi(CString(header));
        if n == None {
          return 0;
        }
        return n.value;
      }
      length := -1;
    }

    method Receive() returns (reading: Reading)
      modifies this
      ensures (reading, stream) == Received(old(stream))
    {
      var length := ReadHeaderBytes();
      if length < 0 {
        return Invalid;
      }
      if length == INT_MAX {
        return Undefined;
      }
      var received := Recv(length);
      reading := Got(CString(received));
    }
  }

  lemma {:induction false} CStringWhole(s: string)
    ensures CString(s) == s <==> NUL !in s
  {
    if s != [] {
      CStringWhole(s[1..]);
      assert s == [s[0]] + s[1..];
    }
  }

  lemma HeaderReads(length: nat, rest: string)
    requires length <= INT_MAX
    ensures ReadHeader(CreateHeader(length) + rest) == (length, rest)
  {
    hide Stoi, ToString;
    var header := CreateHeader(length);
    IntHasTenDigits(length);
    ToStringChars(length, NUL);
    assert NUL !in header;
    CStringWhole(header);
    assert (header + rest)[..HEADER_LENGTH] == header && (header + rest)[HEADER_LENGTH..] == rest;
    StoiPadded(ZeroDigits(HEADER_LENGTH - |ToString(length)|), length);
  }

  /** One message is read back whole exactly when it has no NUL and is shorter than the largest
      `int`; below that length nothing after it is touched, and at it the result is not defined. */
  lemma {:induction false} FrameRoundTrip(msg: string, rest: string)
    requires |msg| <= INT_MAX
    ensures Received(Frame(msg) + rest) == (Got(msg), rest) <==> NUL !in msg && |msg| < INT_MAX
    ensures |msg| < INT_MAX ==> Received(Frame(msg) + rest).1 == rest && Received(Frame(msg) + rest).0.Got?
    ensures |msg| == INT_MAX ==> Received(Frame(msg) + rest).0 == Undefined
  {
    hide CreateHeader, ReadHeader;
    HeaderReads(|msg|, msg + rest);
    assert Frame(msg) + rest == CreateHeader(|msg|) + (msg + rest);
    assert (msg + rest)[..|msg|] == msg && (msg + rest)[|msg|..] == rest;
    CStringWhole(msg);
  }

  function Gots(msgs: seq<string>): (r: seq<Reading>)
    ensures |r| == |msgs|
  {
    seq(|msgs|, i requires 0 <= i < |msgs| => Got(msgs[i]))
  }

  /** Any sequence of messages is read back as the same sequence, with no byte left over or
      missing, exactly when each of them is read back alone. */
  lemma {:induction false} FramesRoundTrip(msgs: seq<string>, rest: string)
    requires Sendable(msgs)
    ensures ReceivedAll(Frames(msgs) + rest, |msgs|) == (Gots(msgs), rest)
            <==> forall i :: 0 <= i < |msgs| ==> NUL !in msgs[i] && |msgs[i]| < INT_MAX
    decreases |msgs|
  {
    hide Frame, Received;
    if msgs == [] {
      assert Frames(msgs) + rest == rest;
    } else {
      var tail := Frames(msgs[1..]) + rest;
      assert Frames(msgs) + rest == Frame(msgs[0]) + tail;
      FrameRoundTrip(msgs[0], tail);
      FramesRoundTrip(msgs[1..], rest);
      assert Gots(msgs) == [Got(msgs[0])] + Gots(msgs[1..]);
      var (first, left) := Received(Frame(msgs[0]) + tail);
      var (others, last) := ReceivedAll(left, |msgs| - 1);
      assert ReceivedAll(Frames(msgs) + rest, |msgs|) == ([first] + others, last);
      assert [first] + others == Gots(msgs) <==> first == Got(msgs[0]) && others == Gots(msgs[1..]) by {
        assert ([first] + others)[1..] == others && Gots(msgs)[1..] == Gots(msgs[1..]);
      }
      assert forall i :: 0 < i < |msgs| ==> msgs[i] == msgs[1..][i - 1];
    }
  }

  /** The header is the length in decimal, padded with zeros. */
  lemma {:induction false} HeaderIsDecimal(length: nat)
    requires length <= INT_MAX
    ensures AllDigits(CreateHeader(length)) && Value(CreateHeader(length)) == length
  {
    IntHasTenDigits(length);
    var zeros := ZeroDigits(HEADER_LENGTH - |ToString(length)|);
    ValuePadded(zeros, Digits(length));
    ValueDigits(length);
  }

  // ----- Other streams

  /** A header of ten characters decides: text that is no number reads as length 0, a negative length
      is invalid, and of any other length as much is read as there is. */
  lemma {:induction false} HeaderDecides(header: string, bytes: string)
    requires |header| == 10 && NUL !in header
    ensures var r := Received(header + bytes);
            match Stoi(header)
            case None => r == (Got(""), bytes)
            case Some(n) =>
              && (n < 0 ==> r == (Invalid, bytes))
              && (n == 2_147_483_647 ==> r == (Undefined, bytes))
              && (0 <= n < 2_147_483_647 && n <= |bytes| ==> r == (Got(CString(bytes[..n])), bytes[n..]))
              && (0 <= n < 2_147_483_647 && |bytes| < n ==> r == (Got(CString(bytes)), ""))
  {
    hide Stoi;
    CStringWhole(header);
    assert (header + bytes)[..10] == header && (header + bytes)[10..] == bytes;
    assert bytes[..0] == "" && bytes[..|bytes|] == bytes && bytes[|bytes|..] == "";
  }

  /** What `CString` keeps: everything in front of the first NUL. */
  lemma {:induction false} CStringStops(a: string, b: string)
    requires NUL !in a
    ensures CString(a) == a && CString(a + [NUL] + b) == a
  {
    if a != [] {
      CStringStops(a[1..], b);
      assert (a + [NUL] + b)[1..] == a[1..] + [NUL] + b;
      assert a == [a[0]] + a[1..];
    }
  }

  /** A stream with less than a header, an ended one above all, makes the request invalid. */
  lemma ShortStreamIsInvalid(stream: string)
    requires |stream| < 10
    ensures ReadHeader(stream) == (-1, "") && Received(stream) == (Invalid, "")
  {
    assert stream[|stream|..] == "";
  }

  /** So behind the messages that were sent, one more read finds the end of the stream. */
  lemma {:induction false} EndIsNoticed(msgs: seq<string>, rest: string)
    requires Sendable(msgs) && |rest| < 10
    requires forall i :: 0 <= i < |msgs| ==> NUL !in msgs[i] && |msgs[i]| < INT_MAX
    ensures ReceivedAll(Frames(msgs) + rest, |msgs| + 1) == (Gots(msgs) + [Invalid], "")
  {
    hide Received, Frames;
    FramesRoundTrip(msgs, rest);
    ShortStreamIsInvalid(rest);
    OneMore(Frames(msgs) + rest, |msgs|);
  }

  lemma {:induction false} OneMore(stream: string, n: nat)
    ensures var (readings, rest) := ReceivedAll(stream, n);
            ReceivedAll(stream, n + 1) == (readings + [Received(rest).0], Received(rest).1)
    decreases n
  {
    hide Received;
    if n == 0 {
      assert ReceivedAll(Received(stream).1, 0) == ([], Received(stream).1);
      assert [Received(stream).0] + [] == [] + [Received(stream).0];
    } else {
      var (first, left) := Received(stream);
      OneMore(left, n - 1);
      var (others, rest) := ReceivedAll(left, n - 1);
      assert [first] + (others + [Received(rest).0]) == [first] + others + [Received(rest).0];
    }
  }
}
