/** Length-prefixed frames on a byte stream: four big-endian length bytes, then
    the encoded message. */
module Framing {
  import opened Base
  import opened Codec
  import opened Proto
  import MessageCodec

  // --- The frame as bytes ----------------------------------------------------------

  function BigEndian(n: u32): (b: Bytes)
    ensures |b| == 4
  {
    var high := n / 0x100;
    var higher := high / 0x100;
    [higher / 0x100, higher % 0x100, high % 0x100, n % 0x100]
  }

  function FromBigEndian(b: Bytes): u32
    requires |b| == 4
  {
    var b0: int, b1: int, b2: int, b3: int := b[0], b[1], b[2], b[3];
    ((b0 * 0x100 + b1) * 0x100 + b2) * 0x100 + b3
  }

  lemma BigEndianRoundTrip(n: u32)
    ensures FromBigEndian(BigEndian(n)) == n
  {
  }

  function Frame(payload: Bytes): Bytes
    requires |payload| <= MAX_FRAME
  {
    BigEndian(|payload|) + payload
  }

  datatype Received<+T> = Message(value: T) | EndOfStream | Undecodable | FrameTooLarge(length: nat)

  /** Bytes of the payload that the decoder does not need are ignored. */
  function Decode<T>(payload: Bytes, dec: Bytes -> Decoded<T>): Received<T> {
    match dec(payload)
    case Some((x, _)) => Message(x)
    case None => Undecodable
  }

  /** What one read makes of the bytes waiting on the stream, and what it leaves. */
  function ReadSpec<T>(s: Bytes, dec: Bytes -> Decoded<T>): (Received<T>, Bytes) {
    if |s| < 4 then (EndOfStream, [])
    else
      var n := FromBigEndian(s[..4]);
      var t := s[4..];
      if n > MAX_FRAME then (FrameTooLarge(n), t)
      else if |t| < n then (EndOfStream, [])
      else (Decode(t[..n], dec), t[n..])
  }

  function ReadAll<T>(s: Bytes, count: nat, dec: Bytes -> Decoded<T>): (seq<Received<T>>, Bytes)
    decreases count
  {
    if count == 0 then ([], s)
    else
      var (r, t) := ReadSpec(s, dec);
      var (rs, u) := ReadAll(t, count - 1, dec);
      ([r] + rs, u)
  }

  // --- The two ends of a connection --------------------------------------------------

  function Concat(chunks: seq<Bytes>): Bytes {
    if chunks == [] then [] else chunks[0] + Concat(chunks[1..])
  }

  /** The receiving end: bytes arrive in chunks whose sizes mean nothing. */
  class Reader {
    var chunks: seq<Bytes>

    constructor (incoming: seq<Bytes>)
      ensures chunks == incoming
    {
      chunks := incoming;
    }

    ghost function Contents(): Bytes
      reads this
    {
      Concat(chunks)
    }

    /** Fills a buffer of n bytes or reports the end of the stream. */
    method ReadExact(n: nat) returns (r: Option<Bytes>)
      modifies this
      ensures |old(Contents())| >= n ==> r == Some(old(Contents())[..n]) && Contents() == old(Contents())[n..]
      ensures |old(Contents())| < n ==> r == None && Contents() == []
    {
      var buf: Bytes := [];
      while |buf| < n
        invariant |buf| <= n
        invariant buf + Contents() == old(Contents())
        decreases |chunks|, n - |buf|
      {
        if chunks == [] {
          return None;
        }
        var missing := n - |buf|;
        var chunk := chunks[0];
        if |chunk| <= missing {
          buf, chunks := buf + chunk, chunks[1..];
        } else {
          assert chunk == chunk[..missing] + chunk[missing..];
          buf, chunks := buf + chunk[..missing], [chunk[missing..]] + chunks[1..];
        }
      }
      r := Some(buf);
    }

    /** One whole frame. The result depends on the bytes waiting, not on how
        they are split into chunks. */
    method ReadMessage<T>(dec: Bytes -> Decoded<T>) returns (r: Received<T>)
      modifies this
      ensures (r, Contents()) == ReadSpec(old(Contents()), dec)
    {
      var header := ReadExact(4);
      if header == None {
        return EndOfStream;
      }
      var n := FromBigEndian(header.value);
      if n > MAX_FRAME {
        return FrameTooLarge(n);
      }
      var body := ReadExact(n);
      if body == None {
        return EndOfStream;
      }
      r := Decode(body.value, dec);
    }

    /** Reads made one after the other, none of them abandoned half-way. */
    method ReadMessages<T>(count: nat, dec: Bytes -> Decoded<T>) returns (rs: seq<Received<T>>)
      modifies this
      ensures (rs, Contents()) == ReadAll(old(Contents()), count, dec)
    {
      hide ReadSpec;
      rs := [];
      ghost var all := ReadAll(Contents(), count, dec);
      assert [] + all.0 == all.0;
      for i := 0 to count
        invariant rs + ReadAll(Contents(), count - i, dec).0 == all.0
        invariant ReadAll(Contents(), count - i, dec).1 == all.1
      {
        ghost var later := ReadAll(Contents(), count - i, dec).0;
        var r := ReadMessage(dec);
        assert rs + later == rs + [r] + later[1..];
        rs := rs + [r];
      }
      assert rs == rs + ReadAll(Contents(), 0, dec).0;
    }
  }

  datatype Written = Sent | TooLarge(length: nat) | Broken

  class Writer {
    var out: Bytes

    constructor ()
      ensures out == []
    {
      out := [];
    }

    /** Writes all the bytes, or as many as the stream still takes before it breaks. */
    method WriteAll(bytes: Bytes, takes: Option<nat>) returns (left: Option<nat>, broken: bool)
      modifies this
      ensures broken <==> takes.Some? && takes.value < |bytes|
      ensures out == old(out) + if broken then bytes[..takes.value] else bytes
      ensures !broken ==> left == if takes.Some? then Some(takes.value - |bytes|) else None
    {
      if takes.Some? && takes.value < |bytes| {
        out := out + bytes[..takes.value];
        return takes, true;
      }
      out := out + bytes;
      left, broken := if takes.Some? then Some(takes.value - |bytes|) else None, false;
    }

    /** Appends exactly one frame; nothing when the message is too large; the
        beginning of the frame when the stream breaks within it. */
    method WriteMessage<T>(enc: (T, Bytes) -> Bytes, msg: T, takes: Option<nat>) returns (r: Written)
      modifies this
      ensures var bytes := enc(msg, []);
        if |bytes| > MAX_FRAME then r == TooLarge(|bytes|) && out == old(out)
        else if takes.Some? && takes.value < |Frame(bytes)| then
          r == Broken && out == old(out) + Frame(bytes)[..takes.value]
        else r == Sent && out == old(out) + Frame(bytes)
    {
      var bytes := enc(msg, []);
      if |bytes| > MAX_FRAME {
        return TooLarge(|bytes|);
      }
      var left, broken := WriteAll(BigEndian(|bytes|), takes);
      if broken {
        return Broken;
      }
      left, broken := WriteAll(bytes, left);
      r := if broken then Broken else Sent;
    }
  }

  // --- Round trip over a whole conversation --------------------------------------------

  function Frames<T>(msgs: seq<T>, enc: (T, Bytes) -> Bytes): Bytes
    requires forall m | m in msgs :: |enc(m, [])| <= MAX_FRAME
  {
    if msgs == [] then [] else Frame(enc(msgs[0], [])) + Frames(msgs[1..], enc)
  }

  function AsMessage<T>(m: T): Received<T> {
    Message(m)
  }

  lemma OneFrame<T(!new)>(msg: T, enc: (T, Bytes) -> Bytes, dec: Bytes -> Decoded<T>, rest: Bytes)
    requires Inverse(enc, dec) && |enc(msg, [])| <= MAX_FRAME
    ensures ReadSpec(Frame(enc(msg, [])) + rest, dec) == (Message(msg), rest)
  {
    var p := enc(msg, []);
    var s := Frame(p) + rest;
    BigEndianRoundTrip(|p|);
    assert s[..4] == BigEndian(|p|);
    assert s[4..] == p + rest;
    assert (p + rest)[..|p|] == p && (p + rest)[|p|..] == rest;
  }

  lemma {:induction false} ConversationRoundTrip<T(!new)>(msgs: seq<T>, enc: (T, Bytes) -> Bytes,
    dec: Bytes -> Decoded<T>, rest: Bytes)
    requires Inverse(enc, dec)
    requires forall m | m in msgs :: |enc(m, [])| <= MAX_FRAME
    ensures ReadAll(Frames(msgs, enc) + rest, |msgs|, dec) == (Map(msgs, AsMessage), rest)
  {
    if msgs == [] {
      assert Frames(msgs, enc) + rest == rest;
    } else {
      var tail := Frames(msgs[1..], enc) + rest;
      assert Frames(msgs, enc) + rest == Frame(enc(msgs[0], [])) + tail;
      OneFrame(msgs[0], enc, dec, tail);
      ConversationRoundTrip(msgs[1..], enc, dec, rest);
    }
  }

  lemma BrokenFrame<T>(payload: Bytes, dec: Bytes -> Decoded<T>, n: nat)
    requires |payload| <= MAX_FRAME && n < |Frame(payload)|
    ensures ReadSpec(Frame(payload)[..n], dec) == (EndOfStream, [])
  {
    BigEndianRoundTrip(|payload|);
    if n >= 4 {
      assert Frame(payload)[..n][..4] == BigEndian(|payload|);
    }
  }

  /** A stream that breaks within a frame still delivers every whole frame before it,
      and then ends; it never delivers anything else. */
  lemma {:induction false} BrokenConversation<T(!new)>(msgs: seq<T>, last: T, enc: (T, Bytes) -> Bytes,
                                                       dec: Bytes -> Decoded<T>, n: nat)
    requires Inverse(enc, dec) && |enc(last, [])| <= MAX_FRAME && n < |Frame(enc(last, []))|
    requires forall m | m in msgs :: |enc(m, [])| <= MAX_FRAME
    ensures ReadAll(Frames(msgs, enc) + Frame(enc(last, []))[..n], |msgs| + 1, dec)
            == (Map(msgs, AsMessage) + [EndOfStream], [])
  {
    var cut := Frame(enc(last, []))[..n];
    if msgs == [] {
      assert Frames(msgs, enc) + cut == cut;
      BrokenFrame(enc(last, []), dec, n);
      var nothing: seq<Received<T>> := [];
      assert ReadAll([], 0, dec) == (nothing, []);
      assert [EndOfStream] + nothing == nothing + [EndOfStream];
      assert Map(msgs, AsMessage) == nothing;
      assert ReadAll(cut, |msgs| + 1, dec) == (nothing + [EndOfStream], []);
    } else {
      var tail := Frames(msgs[1..], enc) + cut;
      assert Frames(msgs, enc) + cut == Frame(enc(msgs[0], [])) + tail;
      OneFrame(msgs[0], enc, dec, tail);
      BrokenConversation(msgs[1..], last, enc, dec, n);
      assert Map(msgs, AsMessage) + [EndOfStream] == [Message(msgs[0])] + (Map(msgs[1..], AsMessage) + [EndOfStream]);
    }
  }

  // --- From one end to the other ---------------------------------------------------------

  /** The bytes in chunks of the given sizes; what is left is the last chunk. */
  function Cut(bytes: Bytes, sizes: seq<nat>): (chunks: seq<Bytes>)
    ensures Concat(chunks) == bytes
    decreases |sizes|
  {
    if sizes == [] then
      assert Concat([bytes]) == bytes + Concat([]);
      [bytes]
    else
      var n := if sizes[0] <= |bytes| then sizes[0] else |bytes|;
      assert bytes == bytes[..n] + bytes[n..];
      [bytes[..n]] + Cut(bytes[n..], sizes[1..])
  }

  function Fits<T>(enc: (T, Bytes) -> Bytes): T -> bool {
    (m: T) => |enc(m, [])| <= MAX_FRAME
  }

  lemma {:induction false} FramesAppend<T>(msgs: seq<T>, m: T, enc: (T, Bytes) -> Bytes)
    requires forall x | x in msgs + [m] :: |enc(x, [])| <= MAX_FRAME
    ensures forall x | x in msgs :: x in msgs + [m]
    ensures m in msgs + [m]
    ensures Frames(msgs + [m], enc) == Frames(msgs, enc) + Frame(enc(m, []))
  {
    assert (msgs + [m])[|msgs|] == m;
    if msgs == [] {
      assert msgs + [m] == [m];
      assert Frames([], enc) == [];
    } else {
      assert (msgs + [m])[1..] == msgs[1..] + [m];
      FramesAppend(msgs[1..], m, enc);
      assert msgs[0] == (msgs + [m])[0];
    }
  }

  /** Writes the messages one after the other, cuts the bytes anywhere, and reads as
      many frames as were written: every message that fits a frame arrives, once,
      in order and unchanged. */
  method Transmit<T(!new)>(msgs: seq<T>, enc: (T, Bytes) -> Bytes, dec: Bytes -> Decoded<T>, sizes: seq<nat>)
    returns (received: seq<Received<T>>)
    requires Inverse(enc, dec)
    ensures received == Map(Filter(msgs, Fits(enc)), AsMessage)
  {
    hide Inverse, Frames;
    var writer := new Writer();
    var count := 0;
    ghost var sent: seq<T> := [];
    assert Frames([], enc) == [] by { NoFrames(enc); }
    for i := 0 to |msgs|
      invariant sent == Filter(msgs[..i], Fits(enc)) && count == |sent|
      invariant forall m | m in sent :: |enc(m, [])| <= MAX_FRAME
      invariant writer.out == Frames(sent, enc)
    {
      assert msgs[..i + 1] == msgs[..i] + [msgs[i]];
      FilterAppend(msgs[..i], [msgs[i]], Fits(enc));
      var r := writer.WriteMessage(enc, msgs[i], None);
      if r == Sent {
        FramesAppend(sent, msgs[i], enc);
        sent := sent + [msgs[i]];
        count := count + 1;
      }
    }
    assert msgs[..|msgs|] == msgs;
    var reader := new Reader(Cut(writer.out, sizes));
    ConversationRoundTrip(sent, enc, dec, []);
    assert writer.out + [] == writer.out;
    received := reader.ReadMessages(count, dec);
  }

  lemma NoFrames<T>(enc: (T, Bytes) -> Bytes)
    ensures Frames([], enc) == []
  {
  }

  /** What the client sends is what the daemon reads, message for message. */
  lemma {:induction false} ClientConversation(msgs: seq<ClientMessage>, rest: Bytes)
    requires forall m | m in msgs :: |MessageCodec.EncClient(m, [])| <= MAX_FRAME
    ensures ReadAll(Frames(msgs, MessageCodec.EncClient) + rest, |msgs|, MessageCodec.DecClient)
            == (Map(msgs, AsMessage), rest)
  {
    MessageCodec.ClientInverse();
    ConversationRoundTrip(msgs, MessageCodec.EncClient, MessageCodec.DecClient, rest);
  }

  /** What the daemon sends is what the client reads, message for message. */
  lemma {:induction false} ServerConversation(msgs: seq<ServerMessage>, rest: Bytes)
    requires forall m | m in msgs :: |MessageCodec.EncServer(m, [])| <= MAX_FRAME
    ensures ReadAll(Frames(msgs, MessageCodec.EncServer) + rest, |msgs|, MessageCodec.DecServer)
            == (Map(msgs, AsMessage), rest)
  {
    MessageCodec.ServerInverse();
    ConversationRoundTrip(msgs, MessageCodec.EncServer, MessageCodec.DecServer, rest);
  }
}
