/**
 Length-prefixed strings on a connection, with and without a signal byte.
 */
module Framing {
  import opened Bytes

  /** One end of a connection: the bytes still to be read and the bytes written so far. */
  class Conn {
    var input: seq<Byte>
    var output: seq<Byte>

    constructor (input: seq<Byte>)
      ensures this.input == input && output == []
    {
      this.input, output := input, [];
    }

    method Write(b: array<Byte>)
      modifies this`output
      ensures output == old(output) + b[..]
    {
      output := output + b[..];
    }

    /** io.ReadFull: fills b, or fails having used up what there was. */
    method ReadFull(b: array<Byte>) returns (ok: bool)
      modifies this`input, b
      ensures ok <==> |old(input)| >= b.Length
      ensures ok ==> b[..] == old(input)[..b.Length] && input == old(input)[b.Length..]
      ensures !ok ==> input == []
    {
      ok := |input| >= b.Length;
      if ok {
        forall i | 0 <= i < b.Length {
          b[i] := input[i];
        }
        assert b[..] == input[..b.Length];
        input := input[b.Length..];
      } else {
        input := [];
      }
    }
  }

  datatype Message = Message(text: seq<Byte>, signal: Byte)

  datatype Received = Received(message: Message, rest: seq<Byte>)

  function TransportFrame(m: Message): (f: seq<Byte>) {
    U16(|m.text|) + [m.signal] + m.text
  }

  function StringFrame(text: seq<Byte>): (f: seq<Byte>) {
    U16(|text|) + text
  }

  function ParseTransport(s: seq<Byte>): (r: Option<Received>) {
    if |s| < 3 || |s| < 3 + FromU16(s[0], s[1]) then None
    else
      var n := FromU16(s[0], s[1]);
      Some(Received(Message(s[3..3 + n], s[2]), s[3 + n..]))
  }

  function ParseString(s: seq<Byte>): (r: Option<Received>) {
    if |s| < 2 || |s| < 2 + FromU16(s[0], s[1]) then None
    else
      var n := FromU16(s[0], s[1]);
      Some(Received(Message(s[2..2 + n], 0), s[2 + n..]))
  }

  lemma TooShort(s: seq<Byte>)
    ensures |s| < 2 ==> ParseString(s) == None
    ensures |s| < 3 ==> ParseTransport(s) == None
  {
  }

  lemma ParseTransportHeader(s: seq<Byte>, hi: Byte, lo: Byte, signal: Byte, tail: seq<Byte>)
    requires s == [hi, lo, signal] + tail
    ensures var n := FromU16(hi, lo);
            ParseTransport(s) == if |tail| < n then None else Some(Received(Message(tail[..n], signal), tail[n..]))
  {
    var n := FromU16(hi, lo);
    if n <= |tail| {
      assert s[3..3 + n] == tail[..n] && s[3 + n..] == tail[n..];
    }
  }

  lemma ParseStringHeader(s: seq<Byte>, hi: Byte, lo: Byte, tail: seq<Byte>)
    requires s == [hi, lo] + tail
    ensures var n := FromU16(hi, lo);
            ParseString(s) == if |tail| < n then None else Some(Received(Message(tail[..n], 0), tail[n..]))
  {
    var n := FromU16(hi, lo);
    if n <= |tail| {
      assert s[2..2 + n] == tail[..n] && s[2 + n..] == tail[n..];
    }
  }

  method SendBinaryTransportString(conn: Conn, message: seq<Byte>, transport: Byte)
    modifies conn`output
    ensures conn.output == old(conn.output) + TransportFrame(Message(message, transport))
  {
    var buf := new Byte[3 + |message|](_ => 0);
    buf[0], buf[1] := U16(|message|)[0], U16(|message|)[1];
    buf[2] := transport;
    forall i | 0 <= i < |message| {
      buf[3 + i] := message[i];
    }
    assert buf[..] == TransportFrame(Message(message, transport));
    conn.Write(buf);
  }

  method ReceiveBinaryTransportString(conn: Conn) returns (r: Option<Message>)
    modifies conn`input
    ensures r == match ParseTransport(old(conn.input)) case None => None case Some(got) => Some(got.message)
    ensures r.Some? ==> conn.input == ParseTransport(old(conn.input)).value.rest
  {
    hide *;
    var lenBuf := new Byte[3](_ => 0);
    var ok := conn.ReadFull(lenBuf);
    if !ok {
      TooShort(old(conn.input));
      return None;
    }
    var hi, lo, transport := lenBuf[0], lenBuf[1], lenBuf[2];
    ghost var whole := conn.input;
    var messageBuf := new Byte[FromU16(hi, lo)](_ => 0);
    ok := conn.ReadFull(messageBuf);
    assert lenBuf[..] == [hi, lo, transport];
    ParseTransportHeader(old(conn.input), hi, lo, transport, whole);
    if !ok {
      return None;
    }
    return Some(Message(messageBuf[..], transport));
  }

  method SendBinaryString(conn: Conn, message: seq<Byte>)
    modifies conn`output
    ensures conn.output == old(conn.output) + StringFrame(message)
  {
    var buf := new Byte[2 + |message|](_ => 0);
    buf[0], buf[1] := U16(|message|)[0], U16(|message|)[1];
    forall i | 0 <= i < |message| {
      buf[2 + i] := message[i];
    }
    assert buf[..] == StringFrame(message);
    conn.Write(buf);
  }

  method ReceiveBinaryString(conn: Conn) returns (r: Option<seq<Byte>>)
    modifies conn`input
    ensures r == match ParseString(old(conn.input)) case None => None case Some(got) => Some(got.message.text)
    ensures r.Some? ==> conn.input == ParseString(old(conn.input)).value.rest
  {
    hide *;
    var lenBuf := new Byte[2](_ => 0);
    var ok := conn.ReadFull(lenBuf);
    if !ok {
      TooShort(old(conn.input));
      return None;
    }
    var hi, lo := lenBuf[0], lenBuf[1];
    ghost var whole := conn.input;
    var messageBuf := new Byte[FromU16(hi, lo)](_ => 0);
    ok := conn.ReadFull(messageBuf);
    assert lenBuf[..] == [hi, lo];
    ParseStringHeader(old(conn.input), hi, lo, whole);
    if !ok {
      return None;
    }
    return Some(messageBuf[..]);
  }

  /** A message survives the wire, with what follows it untouched, exactly when its length fits
      the sixteen-bit field. */
  lemma TransportRoundTripIff(m: Message, rest: seq<Byte>)
    ensures ParseTransport(TransportFrame(m) + rest) == Some(Received(m, rest)) <==> |m.text| < 65536
  {
    U16Value(|m.text|);
    var s := TransportFrame(m) + rest;
    assert s[0] == U16(|m.text|)[0] && s[1] == U16(|m.text|)[1] && s[2] == m.signal;
    if |m.text| < 65536 {
      assert s[3..3 + |m.text|] == m.text && s[3 + |m.text|..] == rest;
    } else {
      assert |s[3..3 + |m.text| % 65536]| < |m.text|;
    }
  }

  lemma StringRoundTripIff(text: seq<Byte>, rest: seq<Byte>)
    ensures ParseString(StringFrame(text) + rest) == Some(Received(Message(text, 0), rest)) <==> |text| < 65536
  {
    U16Value(|text|);
    var s := StringFrame(text) + rest;
    assert s[0] == U16(|text|)[0] && s[1] == U16(|text|)[1];
    if |text| < 65536 {
      assert s[2..2 + |text|] == text && s[2 + |text|..] == rest;
    } else {
      assert |s[2..2 + |text| % 65536]| < |text|;
    }
  }

  /** Any 65536 bytes are read back as an empty message with all of them after it. */
  lemma LongMessageIsLost(text: seq<Byte>, signal: Byte)
    requires |text| == 65536
    ensures ParseTransport(TransportFrame(Message(text, signal))) == Some(Received(Message([], signal), text))
  {
    var frame := TransportFrame(Message(text, signal));
    assert U16(65536) == [0, 0];
    assert frame[3..3] == [] && frame[3..] == text;
  }
}
