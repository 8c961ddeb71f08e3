/** Length-prefixed messages on a byte stream: eight bytes of little-endian
    length, then the message. */
module Framing {
  type Byte = x: int | 0 <= x < 256

  const MAX_MESSAGE_BYTES: nat := 64 * 1024 * 1024
  const HEADER: nat := 8

  datatype Outcome<+T> = Ok(value: T) | Err(error: Error)
  datatype Error = TooLarge | UnexpectedEnd

  function ToLittleEndian(x: nat, width: nat): (bytes: seq<Byte>)
    ensures |bytes| == width
  {
    if width == 0 then [] else [x % 256] + ToLittleEndian(x / 256, width - 1)
  }

  function FromLittleEndian(bytes: seq<Byte>): nat {
    if bytes == [] then 0 else bytes[0] + 256 * FromLittleEndian(bytes[1..])
  }

  function Power256(n: nat): nat {
    if n == 0 then 1 else 256 * Power256(n - 1)
  }

  lemma {:induction false} NumberRoundTrip(x: nat, width: nat)
    requires x < Power256(width)
    ensures FromLittleEndian(ToLittleEndian(x, width)) == x
  {
    if width > 0 {
      assert x / 256 < Power256(width - 1);
      NumberRoundTrip(x / 256, width - 1);
      assert ToLittleEndian(x, width)[1..] == ToLittleEndian(x / 256, width - 1);
    }
  }

  lemma LimitFitsHeader()
    ensures MAX_MESSAGE_BYTES < Power256(HEADER)
  {
  }

  function Framed(message: seq<Byte>): seq<Byte> {
    ToLittleEndian(|message|, HEADER) + message
  }

  /** The first message of the stream and how many bytes it took. */
  function Receive(stream: seq<Byte>): Outcome<(seq<Byte>, nat)> {
    if |stream| < HEADER then Err(UnexpectedEnd)
    else
      var length := FromLittleEndian(stream[..HEADER]);
      if length > MAX_MESSAGE_BYTES then Err(TooLarge)
      else if |stream| < HEADER + length then Err(UnexpectedEnd)
      else Ok((stream[HEADER..HEADER + length], HEADER + length))
  }

  /** A stream that is written at one end and read at the other. */
  class Connection {
    var bytes: seq<Byte>

    constructor ()
      ensures bytes == []
    {
      bytes := [];
    }

    method Send(message: seq<Byte>) returns (outcome: Outcome<()>)
      modifies this
      ensures outcome == if |message| > MAX_MESSAGE_BYTES then Err(TooLarge) else Ok(())
      ensures bytes == if outcome.Ok? then old(bytes) + Framed(message) else old(bytes)
    {
      if |message| > MAX_MESSAGE_BYTES {
        return Err(TooLarge);
      }
      var buffer := ToLittleEndian(|message|, HEADER);
      buffer := buffer + message;
      bytes := bytes + buffer;
      outcome := Ok(());
    }

    /** On an error the bytes already read are gone, as on the real stream. */
    method ReceiveNext() returns (outcome: Outcome<seq<Byte>>)
      modifies this
      ensures match Receive(old(bytes))
        case Err(e) => outcome == Err(e)
        case Ok((message, used)) => outcome == Ok(message) && bytes == old(bytes)[used..]
    {
      if |bytes| < HEADER {
        bytes := [];
        return Err(UnexpectedEnd);
      }
      var length := FromLittleEndian(bytes[..HEADER]);
      bytes := bytes[HEADER..];
      if length > MAX_MESSAGE_BYTES {
        return Err(TooLarge);
      }
      if |bytes| < length {
        bytes := [];
        return Err(UnexpectedEnd);
      }
      var message := bytes[..length];
      bytes := bytes[length..];
      assert message == old(bytes)[HEADER..HEADER + length] && bytes == old(bytes)[HEADER + length..];
      outcome := Ok(message);
    }
  }

  // ---- Many messages ----

  ghost predicate Sendable(messages: seq<seq<Byte>>) {
    forall i :: 0 <= i < |messages| ==> |messages[i]| <= MAX_MESSAGE_BYTES
  }

  function Stream(messages: seq<seq<Byte>>): seq<Byte> {
    if messages == [] then [] else Framed(messages[0]) + Stream(messages[1..])
  }

  /** Reads messages until the stream is used up or an error comes. */
  function ReceiveAll(stream: seq<Byte>): (seq<seq<Byte>>, Outcome<()>)
    decreases |stream|
  {
    if stream == [] then ([], Ok(()))
    else match Receive(stream)
      case Err(e) => ([], Err(e))
      case Ok((message, used)) =>
        var (rest, end) := ReceiveAll(stream[used..]);
        ([message] + rest, end)
  }

  lemma HeaderOf(message: seq<Byte>, stream: seq<Byte>)
    requires |message| < Power256(HEADER) && |stream| >= HEADER && stream[..HEADER] == Framed(message)[..HEADER]
    ensures FromLittleEndian(stream[..HEADER]) == |message|
  {
    NumberRoundTrip(|message|, HEADER);
    assert Framed(message)[..HEADER] == ToLittleEndian(|message|, HEADER);
  }

  lemma ReceiveFirst(message: seq<Byte>, rest: seq<Byte>)
    requires |message| <= MAX_MESSAGE_BYTES
    ensures Receive(Framed(message) + rest) == Ok((message, |Framed(message)|))
    ensures (Framed(message) + rest)[|Framed(message)|..] == rest
  {
    var stream := Framed(message) + rest;
    LimitFitsHeader();
    HeaderOf(message, stream);
    assert stream[HEADER..HEADER + |message|] == message;
  }

  /** A frame whose header can hold its length is taken if and only if the
      message is at most 64 MiB, and refused as too large otherwise, whether or
      not its bytes have come. */
  lemma LimitExact(message: seq<Byte>, cut: nat, rest: seq<Byte>)
    requires |message| < Power256(HEADER) && HEADER <= cut <= |Framed(message)|
    ensures Receive(Framed(message)[..cut]) == Err(TooLarge) <==> |message| > 64 * 1024 * 1024
    ensures Receive(Framed(message) + rest).Ok? <==> |message| <= 64 * 1024 * 1024
  {
    assert Framed(message)[..cut][..HEADER] == Framed(message)[..HEADER];
    assert (Framed(message) + rest)[..HEADER] == Framed(message)[..HEADER];
    HeaderOf(message, Framed(message)[..cut]);
    HeaderOf(message, Framed(message) + rest);
  }

  /** Whatever list of messages was sent is what is received, and every byte is
      used. */
  lemma {:induction false} RoundTrip(messages: seq<seq<Byte>>)
    requires Sendable(messages)
    ensures ReceiveAll(Stream(messages)) == (messages, Ok(()))
  {
    if messages != [] {
      ReceiveFirst(messages[0], Stream(messages[1..]));
      RoundTrip(messages[1..]);
      assert [messages[0]] + messages[1..] == messages;
    }
  }

  /** A frame cut short anywhere is an error, never a message. */
  lemma CutFrame(message: seq<Byte>, cut: nat)
    requires |message| <= MAX_MESSAGE_BYTES && cut < |Framed(message)|
    ensures Receive(Framed(message)[..cut]) == Err(UnexpectedEnd)
  {
    if cut >= HEADER {
      assert Framed(message)[..cut][..HEADER] == Framed(message)[..HEADER];
      LimitFitsHeader();
      HeaderOf(message, Framed(message)[..cut]);
    }
  }

  /** A stream cut inside its last frame gives back the messages that came
      whole and then an error. */
  lemma {:induction false} CutStream(messages: seq<seq<Byte>>, last: seq<Byte>, cut: nat)
    requires Sendable(messages) && |last| <= MAX_MESSAGE_BYTES && 0 < cut < |Framed(last)|
    ensures ReceiveAll(Stream(messages) + Framed(last)[..cut]) == (messages, Err(UnexpectedEnd))
  {
    hide Receive, Framed;
    var tail := Framed(last)[..cut];
    if messages == [] {
      assert Stream(messages) + tail == tail;
      CutFrame(last, cut);
    } else {
      assert Stream(messages) + tail == Framed(messages[0]) + (Stream(messages[1..]) + tail);
      ReceiveFirst(messages[0], Stream(messages[1..]) + tail);
      CutStream(messages[1..], last, cut);
      assert [messages[0]] + messages[1..] == messages;
    }
  }
}
