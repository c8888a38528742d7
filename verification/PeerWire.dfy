/** Reading and writing on a connection. */
module PeerWire {
  import opened Wrappers
  import opened Bytes
  import opened WireSpec

  /** Bytes received and not yet read, or written and not yet sent. */
  class Stream {
    var buf: seq<u8>

    constructor (bytes: seq<u8>)
      ensures buf == bytes
    {
      buf := bytes;
    }

    method ReadExact(n: nat) returns (r: Result<seq<u8>, PeerWireError>)
      modifies this
      ensures if n <= |old(buf)| then r == Ok(old(buf)[..n]) && buf == old(buf)[n..]
              else r == Err(Io) && buf == []
    {
      if n <= |buf| {
        r := Ok(buf[..n]);
        buf := buf[n..];
      } else {
        buf := [];
        r := Err(Io);
      }
    }

    method WriteAll(bytes: seq<u8>)
      modifies this
      ensures buf == old(buf) + bytes
    {
      buf := buf + bytes;
    }
  }

  method ReadMessage(stream: Stream) returns (r: Result<PeerMessage, PeerWireError>)
    modifies stream
    ensures var (got, used) := ReadFrom(old(stream.buf));
            r == got && stream.buf == old(stream.buf)[used..]
  {
    ghost var all := stream.buf;
    var prefix :- stream.ReadExact(4);
    var len := FromBe32(prefix);
    if len == 0 {
      return Ok(KeepAlive);
    }
    if len > MAX_MESSAGE_LEN {
      return Err(MessageTooLarge(len));
    }
    var id :- stream.ReadExact(1);
    var payload :- stream.ReadExact(len - 1);
    assert payload == all[5..4 + len];
    return ParseBody(id[0], payload);
  }

  method WriteMessage(stream: Stream, msg: PeerMessage) returns (r: Result<(), PeerWireError>)
    modifies stream
    ensures match Written(msg)
            case Ok(bytes) => r == Ok(()) && stream.buf == old(stream.buf) + bytes
            case Err(e) => r == Err(e) && stream.buf == old(stream.buf)
  {
    var id := Id(msg);
    if id.None? {
      stream.WriteAll(ToBe32(0));
    } else {
      var payload := Payload(msg);
      if 1 + |payload| > U32_MAX {
        return Err(MessageTooLarge(U32_MAX));
      }
      var out := ToBe32(1 + |payload|);
      out := out + [id.value];
      out := out + payload;
      assert out == Frame(id.value, payload);
      stream.WriteAll(out);
    }
    return Ok(());
  }

  // The reader task of a connection: the messages it hands on, and the error
  // it stops at.
  method PeerReader(stream: Stream) returns (delivered: seq<PeerMessage>, error: PeerWireError)
    modifies stream
    ensures (delivered, error) == Delivered(old(stream.buf))
  {
    delivered := [];
    var incoming := ReadMessage(stream);
    ghost var rest := old(stream.buf);
    assert [] + Delivered(rest).0 == Delivered(rest).0;
    while incoming.Ok? || incoming.error.UnknownMessage?
      invariant incoming == ReadFrom(rest).0 && stream.buf == rest[ReadFrom(rest).1..]
      invariant Delivered(old(stream.buf)) == (delivered + Delivered(rest).0, Delivered(rest).1)
      decreases |rest|
    {
      ghost var more := Delivered(stream.buf).0;
      if incoming.Ok? {
        assert delivered + ([incoming.value] + more) == delivered + [incoming.value] + more;
        delivered := delivered + [incoming.value];
      }
      rest := stream.buf;
      incoming := ReadMessage(stream);
    }
    error := incoming.error;
    assert delivered + [] == delivered;
  }
}
