/** `MicCapture._read_stream`: the pipe's arbitrary chunks rebuffered into frames of one
    fixed length.
  */
module Reframing {
  import opened Basics

  /** What is put in the capture queue. */
  datatype Item = Frame(bytes: Bytes) | Eof

  /** The fixed-size split of the longest prefix of whole frames. */
  function Frames(b: Bytes, want: nat): seq<Item>
    requires want > 0
  {
    if |b| < want then [] else [Frame(b[..want])] + Frames(b[want..], want)
  }

  /** The partial frame that is left. */
  function Rest(b: Bytes, want: nat): Bytes
    requires want > 0
  {
    if |b| < want then b else Rest(b[want..], want)
  }

  /** The bytes read before the end of the stream (an empty read) or a failed read. */
  function Received(arrivals: seq<Option<Bytes>>): Bytes {
    if arrivals == [] || arrivals[0] == None || arrivals[0] == Some([]) then []
    else arrivals[0].value + Received(arrivals[1..])
  }

  function Bytewise(items: seq<Item>): Bytes {
    if items == [] then []
    else (if items[0].Frame? then items[0].bytes else []) + Bytewise(items[1..])
  }

  /** The frames are the fixed-size split of the bytes received, so they do not depend
      on how the pipe cut them. */
  lemma {:induction false} FrameAt(b: Bytes, want: nat, i: nat)
    requires want > 0
    ensures i < |Frames(b, want)| <==> (i + 1) * want <= |b|
    ensures i < |Frames(b, want)| ==>
      && i * want <= (i + 1) * want <= |b|
      && Frames(b, want)[i] == Frame(b[i * want..(i + 1) * want])
    decreases i
  {
    Scaled(1, i + 1, want);
    if i > 0 && |b| >= want {
      Scaled(i, i + 1, want);
      FrameAt(b[want..], want, i - 1);
      assert (i - 1) * want == i * want - want && (i + 1) * want == i * want + want;
      if (i + 1) * want <= |b| {
        assert b[want..][(i - 1) * want..i * want] == b[i * want..(i + 1) * want];
      }
    }
  }

  lemma Scaled(a: nat, b: nat, k: nat)
    requires a <= b
    ensures a * k <= b * k
  {
  }

  /** Nothing but the partial frame is lost. */
  lemma {:induction false} FramesCover(b: Bytes, want: nat)
    requires want > 0
    ensures Bytewise(Frames(b, want)) + Rest(b, want) == b
    ensures |Rest(b, want)| < want
    decreases |b|
  {
    if |b| >= want {
      FramesCover(b[want..], want);
      FirstFrame(b[..want], Frames(b[want..], want));
      hide Bytewise, Frames;
      Whole(b, want, Bytewise(Frames(b[want..], want)), Rest(b[want..], want));
    }
  }

  lemma FirstFrame(first: Bytes, rest: seq<Item>)
    ensures Bytewise([Frame(first)] + rest) == first + Bytewise(rest)
  {
    assert ([Frame(first)] + rest)[1..] == rest;
  }

  lemma Whole(b: Bytes, want: nat, x: Bytes, y: Bytes)
    requires want <= |b| && x + y == b[want..]
    ensures (b[..want] + x) + y == b
  {
  }

  /** Bytes that come later only extend the split. */
  lemma {:induction false} FramesAppend(a: Bytes, b: Bytes, want: nat)
    requires want > 0
    ensures Frames(a + b, want) == Frames(a, want) + Frames(Rest(a, want) + b, want)
    ensures Rest(a + b, want) == Rest(Rest(a, want) + b, want)
    decreases |a|
  {
    if |a| >= want {
      assert (a + b)[..want] == a[..want] && (a + b)[want..] == a[want..] + b;
      FramesAppend(a[want..], b, want);
    }
  }

  /** The reader thread: what it puts, in order.  `arrivals` is what `read1` returns: `None`
      is a pipe closed under it. */
  method ReadStream(arrivals: seq<Option<Bytes>>, want: nat) returns (puts: seq<Item>)
    requires want > 0
    ensures puts == Frames(Received(arrivals), want) + [Eof]
  {
    puts := [];
    var buffer: Bytes := [];
    var i := 0;
    assert arrivals[0..] == arrivals && buffer + Received(arrivals) == Received(arrivals);
    while i < |arrivals| && arrivals[i] != None && arrivals[i] != Some([])
      invariant i <= |arrivals| && |buffer| < want
      invariant puts + Frames(buffer + Received(arrivals[i..]), want) == Frames(Received(arrivals), want)
    {
      ghost var all := Frames(Received(arrivals), want);
      ghost var rest := Received(arrivals[i + 1..]);
      var chunk := arrivals[i].value;
      assert arrivals[i..][1..] == arrivals[i + 1..];
      assert buffer + Received(arrivals[i..]) == (buffer + chunk) + rest;
      buffer := buffer + chunk;
      i := i + 1;
      while |buffer| >= want
        invariant puts + Frames(buffer + rest, want) == all
      {
        assert (buffer + rest)[..want] == buffer[..want] && (buffer + rest)[want..] == buffer[want..] + rest;
        puts := puts + [Frame(buffer[..want])];
        buffer := buffer[want..];
      }
    }
    assert Received(arrivals[i..]) == [];
    assert buffer + [] == buffer;
    puts := puts + [Eof];
  }
}
