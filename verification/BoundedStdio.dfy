/** Newline framing of the stdio transport: a receive loop over whatever pieces the reader delivers,
    with a bound on the size of a message. */
module BoundedStdio {
  import opened Common

  type Bytes = seq<nat>

  const NEWLINE: nat := 10

  /*** What the transport should do with a byte stream ***/

  /** The position just after the first newline, if there is one. */
  function FrameEnd(stream: Bytes): (n: Option<nat>)
    ensures n.Some? ==> 0 < n.value <= |stream|
  {
    if stream == [] then None
    else if stream[0] == NEWLINE then Some(1)
    else
      var rest := FrameEnd(stream[1..]);
      if rest.None? then None else Some(rest.value + 1)
  }

  /** There is a frame exactly when there is a newline, and it ends at the first one. */
  lemma {:induction false} FrameEndMeaning(stream: Bytes)
    ensures FrameEnd(stream).None? <==> 10 !in stream
    ensures FrameEnd(stream).Some? ==>
              var n := FrameEnd(stream).value; stream[n - 1] == 10 && 10 !in stream[..n - 1]
  {
    if stream != [] && stream[0] != NEWLINE {
      FrameEndMeaning(stream[1..]);
      var rest := FrameEnd(stream[1..]);
      if rest.Some? {
        assert stream[..rest.value] == [stream[0]] + stream[1..][..rest.value - 1];
      }
    }
  }

  /** The next message of a stream: its first frame, if that is within the limit and parses. */
  function NextMessage<M>(stream: Bytes, limit: nat, parse: Bytes -> Option<M>): Option<M> {
    var end := FrameEnd(stream);
    if end.Some? && end.value <= limit then parse(stream[..end.value]) else None
  }

  /** All messages of a stream up to the first frame that is too long or does not parse. */
  function Messages<M>(stream: Bytes, limit: nat, parse: Bytes -> Option<M>): seq<M> {
    var end := FrameEnd(stream);
    var message := NextMessage(stream, limit, parse);
    if end.None? || message.None? then [] else [message.value] + Messages(stream[end.value..], limit, parse)
  }

  lemma {:induction false} FrameEndSkip(a: Bytes, b: Bytes)
    requires NEWLINE !in a
    ensures FrameEnd(a + b) == if FrameEnd(b).None? then None else Some(|a| + FrameEnd(b).value)
  {
    if a == [] {
      assert a + b == b;
    } else {
      assert (a + b)[1..] == a[1..] + b;
      FrameEndSkip(a[1..], b);
    }
  }

  lemma {:induction false} FrameEndPrefix(a: Bytes, b: Bytes)
    requires FrameEnd(a).Some?
    ensures FrameEnd(a + b) == FrameEnd(a)
  {
    if a[0] != NEWLINE {
      assert (a + b)[1..] == a[1..] + b;
      FrameEndPrefix(a[1..], b);
    }
  }

  /** A frame: one newline, at its end. */
  predicate IsFrame(frame: Bytes) {
    FrameEnd(frame) == Some(|frame|)
  }

  /** Splitting at the first newline: a frame in front of a stream is its first frame. */
  lemma MessagesStep<M>(frame: Bytes, rest: Bytes, limit: nat, parse: Bytes -> Option<M>)
    requires IsFrame(frame)
    ensures Messages(frame + rest, limit, parse)
         == if |frame| > limit || parse(frame).None? then [] else [parse(frame).value] + Messages(rest, limit, parse)
  {
    FrameEndPrefix(frame, rest);
    assert (frame + rest)[..|frame|] == frame && (frame + rest)[|frame|..] == rest;
  }

  /** What comes after the last newline is no message. */
  lemma UnfinishedFrame<M>(stream: Bytes, limit: nat, parse: Bytes -> Option<M>)
    requires 10 !in stream
    ensures Messages(stream, limit, parse) == []
  {
    FrameEndMeaning(stream);
  }

  /** Frames within the limit that parse to the given messages. */
  predicate Encodes<M(==)>(frames: seq<Bytes>, messages: seq<M>, limit: nat, parse: Bytes -> Option<M>) {
    if frames == [] then messages == []
    else
      && messages != []
      && IsFrame(frames[0]) && |frames[0]| <= limit && parse(frames[0]) == Some(messages[0])
      && Encodes(frames[1..], messages[1..], limit, parse)
  }

  lemma FirstFrame(frames: seq<Bytes>, rest: Bytes)
    requires frames != []
    ensures Flatten(frames) + rest == frames[0] + (Flatten(frames[1..]) + rest)
  {
  }

  lemma FirstOf<T>(s: seq<T>, t: seq<T>)
    requires s != []
    ensures [s[0]] + (s[1..] + t) == s + t
  {
  }

  /** Frames that are within the limit and parse read back as their messages, whatever follows. */
  lemma {:induction false} FramesRoundTrip<M>(frames: seq<Bytes>, messages: seq<M>, rest: Bytes, limit: nat, parse: Bytes -> Option<M>)
    requires Encodes(frames, messages, limit, parse)
    ensures Messages(Flatten(frames) + rest, limit, parse) == messages + Messages(rest, limit, parse)
  {
    if frames == [] {
      assert Flatten(frames) + rest == rest;
    } else {
      var tail := Flatten(frames[1..]) + rest;
      FirstFrame(frames, rest);
      FramesRoundTrip(frames[1..], messages[1..], rest, limit, parse);
      MessagesStep(frames[0], tail, limit, parse);
      FirstOf(messages, Messages(rest, limit, parse));
    }
  }

  /*** The transport ***/

  /** How a call of `Receive` ends. A cancelled call is one whose future is dropped while it waits for
      the reader. */
  datatype Received<M> = Message(message: M) | Closed | Cancelled

  class Transport<M(!new)> {
    const limit: nat
    const parse: Bytes -> Option<M>
    /** Pieces the reader will still deliver before it ends or fails, which look the same to the transport, and
        the part of the current one not consumed yet. */
    var pieces: seq<Bytes>
    var buffer: Bytes
    var pending: Bytes

    ghost predicate Valid()
      reads this
    {
      && (forall i :: 0 <= i < |pieces| ==> pieces[i] != [])
      && |pending| <= limit && NEWLINE !in pending
    }

    /** Everything received or still to come that no message has been made of. */
    ghost function Stream(): Bytes
      reads this
    {
      pending + buffer + Flatten(pieces)
    }

    constructor (limit: nat, parse: Bytes -> Option<M>, pieces: seq<Bytes>)
      requires forall i :: 0 <= i < |pieces| ==> pieces[i] != []
      ensures Valid() && this.limit == limit && this.parse == parse && Stream() == Flatten(pieces)
    {
      this.limit, this.parse, this.pieces, this.buffer, this.pending := limit, parse, pieces, [], [];
    }

    /** The bytes the reader has available; none at the end of input. */
    method FillBuffer() returns (available: Bytes)
      requires Valid()
      modifies this`pieces, this`buffer
      ensures Valid() && available == buffer && Stream() == old(Stream())
      ensures |buffer| + |Flatten(pieces)| == old(|buffer| + |Flatten(pieces)|)
      ensures available == [] ==> pieces == []
    {
      if buffer == [] && pieces != [] {
        buffer, pieces := pieces[0], pieces[1..];
      }
      available := buffer;
    }

    /** The first newline of the available bytes, counted from one. */
    static method FindNewline(available: Bytes) returns (count: Option<nat>)
      ensures count == FrameEnd(available)
    {
      for i := 0 to |available|
        invariant NEWLINE !in available[..i]
      {
        if available[i] == NEWLINE {
          FrameEndSkip(available[..i], available[i..]);
          assert available[..i] + available[i..] == available;
          return Some(i + 1);
        }
      }
      assert available[..|available|] == available;
      FrameEndMeaning(available);
      return None;
    }

    /** Receives one message. The reader completes at most `polls` times before the call is dropped.
        The outcome and what is left depend on the byte stream alone, not on how it was cut into
        pieces, and a dropped call loses nothing. */
    method Receive(polls: nat) returns (r: Received<M>)
      requires Valid()
      modifies this`pieces, this`buffer, this`pending
      ensures Valid()
      ensures r.Cancelled? ==> Stream() == old(Stream())
      ensures r.Closed? ==> NextMessage(old(Stream()), limit, parse).None?
      ensures r.Message? ==>
                && NextMessage(old(Stream()), limit, parse) == Some(r.message)
                && Stream() == old(Stream())[FrameEnd(old(Stream())).value..]
      ensures polls > old(|buffer| + |Flatten(pieces)|) ==> !r.Cancelled?
    {
      ghost var whole := Stream();
      ghost var total := |buffer| + |Flatten(pieces)|;
      for left := polls downto 0
        invariant Valid() && Stream() == whole
        invariant polls - left + |buffer| + |Flatten(pieces)| <= total
      {
        var available := FillBuffer();
        if available == [] {
          assert whole == pending;
          FrameEndMeaning(whole);
          return Closed;
        }
        var newline := FindNewline(available);
        FrameEndMeaning(available);
        var count := if newline.Some? then newline.value else |available|;
        if |pending| + count > limit {
          TooLong(pending, available, Flatten(pieces), count, limit);
          return Closed;
        }
        if newline.Some? {
          r := Deliver(count);
          return;
        }
        pending := pending + available[..count];
        buffer := available[count..];
      }
      return Cancelled;
    }

    /** Completes a frame with the first `count` available bytes and parses it. */
    method Deliver(count: nat) returns (r: Received<M>)
      requires Valid() && FrameEnd(buffer) == Some(count) && |pending| + count <= limit
      modifies this`buffer, this`pending
      ensures Valid() && !r.Cancelled?
      ensures r.Closed? ==> NextMessage(old(Stream()), limit, parse).None?
      ensures r.Message? ==>
                && NextMessage(old(Stream()), limit, parse) == Some(r.message)
                && Stream() == old(Stream())[FrameEnd(old(Stream())).value..]
    {
      ghost var rest := Flatten(pieces);
      FrameFound(pending, buffer, rest);
      CutAfter(pending, buffer, rest, count);
      pending := pending + buffer[..count];
      buffer := buffer[count..];
      var message := parse(pending);
      pending := [];
      return if message.None? then Closed else Message(message.value);
    }

    /** Receives until the transport closes. */
    method ReceiveAll() returns (messages: seq<M>)
      requires Valid()
      modifies this`pieces, this`buffer, this`pending
      ensures Valid() && messages == Messages(old(Stream()), limit, parse)
    {
      messages := [];
      ghost var whole := Stream();
      var going := true;
      while going
        invariant Valid()
        invariant Messages(whole, limit, parse) == messages + if going then Messages(Stream(), limit, parse) else []
        decreases going, |Stream()|
      {
        var r := Receive(|buffer| + |Flatten(pieces)| + 1);
        match r
        case Message(m) => messages := messages + [m];
        case Closed => going := false;
      }
    }
  }

  /** A partial message that outgrows the limit belongs to a frame that does, or to none. */
  lemma TooLong(pending: Bytes, available: Bytes, rest: Bytes, count: nat, limit: nat)
    requires NEWLINE !in pending && |pending| + count > limit
    requires count == if FrameEnd(available).Some? then FrameEnd(available).value else |available|
    ensures var end := FrameEnd(pending + available + rest); end.Some? ==> end.value > limit
  {
    assert pending + available + rest == pending + (available + rest);
    FrameEndSkip(pending, available + rest);
    if FrameEnd(available).Some? {
      FrameEndPrefix(available, rest);
    } else {
      FrameEndMeaning(available);
      FrameEndSkip(available, rest);
    }
  }

  lemma CutAfter(a: Bytes, b: Bytes, c: Bytes, n: nat)
    requires n <= |b|
    ensures (a + b + c)[..|a| + n] == a + b[..n]
    ensures (a + b + c)[|a| + n..] == b[n..] + c
  {
  }

  /** The first newline of the buffer ends the first frame of the stream. */
  lemma FrameFound(pending: Bytes, buffer: Bytes, rest: Bytes)
    requires NEWLINE !in pending && FrameEnd(buffer).Some?
    ensures FrameEnd(pending + buffer + rest) == Some(|pending| + FrameEnd(buffer).value)
  {
    assert pending + buffer + rest == pending + (buffer + rest);
    FrameEndSkip(pending, buffer + rest);
    FrameEndPrefix(buffer, rest);
  }
}
