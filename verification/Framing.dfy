/** Newline-delimited control frames: the bounded reader and the writer. */
module Framing {
  import opened Common

  newtype Byte = x: int | 0 <= x < 256
  type Bytes = seq<Byte>

  const NEWLINE: Byte := 10
  const RETURN: Byte := 13

  datatype Frame = Payload(bytes: Bytes) | TooLong | Ended

  // ---- What one read means, in terms of the byte stream alone ----

  /** The position of the first newline, or the length of the stream. */
  function LineEnd(stream: Bytes): (n: nat)
    ensures n <= |stream| && NEWLINE !in stream[..n] && (n < |stream| ==> stream[n] == NEWLINE)
  {
    if stream == [] || stream[0] == NEWLINE then 0
    else
      var rest := LineEnd(stream[1..]);
      assert stream[..rest + 1] == [stream[0]] + stream[1..][..rest];
      1 + rest
  }

  function DropReturn(s: Bytes): Bytes {
    if s != [] && s[|s| - 1] == RETURN then s[..|s| - 1] else s
  }

  function NextFrame(stream: Bytes, max: nat): Frame {
    var n := LineEnd(stream);
    if n > max then TooLong
    else if stream == [] then Ended
    else Payload(DropReturn(stream[..n]))
  }

  function AfterFrame(stream: Bytes): Bytes {
    var n := LineEnd(stream);
    if n < |stream| then stream[n + 1..] else []
  }

  // ---- The reader ----

  function Concat(chunks: seq<Bytes>): Bytes {
    if chunks == [] then [] else chunks[0] + Concat(chunks[1..])
  }

  /** A `BufRead`: what is buffered, then the non-empty chunks still to come. */
  class BufReader {
    var buffer: Bytes
    var chunks: seq<Bytes>

    ghost predicate Valid()
      reads this
    {
      forall i :: 0 <= i < |chunks| ==> chunks[i] != []
    }

    ghost function Stream(): Bytes
      reads this
    {
      buffer + Concat(chunks)
    }

    constructor (input: seq<Bytes>)
      requires forall i :: 0 <= i < |input| ==> input[i] != []
      ensures Valid() && Stream() == Concat(input)
    {
      buffer, chunks := [], input;
    }

    /** Empty only at the end of the stream. */
    method FillBuf() returns (b: Bytes)
      requires Valid()
      modifies this
      ensures Valid() && Stream() == old(Stream()) && b == buffer
      ensures b == [] <==> Stream() == []
    {
      if buffer == [] && chunks != [] {
        assert [] + Concat(chunks) == chunks[0] + Concat(chunks[1..]);
        buffer, chunks := chunks[0], chunks[1..];
      }
      return buffer;
    }

    method Consume(n: nat)
      requires Valid() && n <= |buffer|
      modifies this
      ensures Valid() && Stream() == old(Stream())[n..] && buffer == old(buffer)[n..]
    {
      assert (buffer + Concat(chunks))[n..] == buffer[n..] + Concat(chunks);
      buffer := buffer[n..];
    }
  }

  lemma LineEndBeyond(stream: Bytes, n: nat)
    requires n <= |stream| && NEWLINE !in stream[..n]
    ensures LineEnd(stream) >= n
    ensures n == |stream| || stream[n] == NEWLINE ==> LineEnd(stream) == n
  {
    var m := LineEnd(stream);
    assert forall i :: 0 <= i < n ==> stream[..n][i] != NEWLINE;
    assert forall i :: 0 <= i < m ==> stream[..m][i] != NEWLINE;
  }

  /** `buffer.iter().position(|byte| *byte == b'\n')` */
  method FindNewline(buffer: Bytes) returns (n: nat)
    ensures n <= |buffer| && NEWLINE !in buffer[..n] && (n < |buffer| ==> buffer[n] == NEWLINE)
  {
    n := 0;
    while n < |buffer| && buffer[n] != NEWLINE
      invariant n <= |buffer| && NEWLINE !in buffer[..n]
    {
      assert buffer[..n + 1] == buffer[..n] + [buffer[n]];
      n := n + 1;
    }
  }

  /** The outcome depends on the byte stream only, however it is chunked; the
      limit counts the bytes before the newline; at most max + 1 bytes are ever
      held (`peak`); and a frame leaves exactly the bytes after it. */
  method ReadJsonLine(reader: BufReader, max: nat) returns (r: Frame, ghost peak: nat)
    requires reader.Valid()
    modifies reader
    ensures reader.Valid()
    ensures r == NextFrame(old(reader.Stream()), max)
    ensures !r.TooLong? ==> reader.Stream() == AfterFrame(old(reader.Stream()))
    ensures peak <= max + 1
  {
    ghost var all := reader.Stream();
    var output: Bytes := [];
    peak := 0;
    while true
      invariant reader.Valid() && peak <= max + 1
      invariant all == output + reader.Stream() && NEWLINE !in output && |output| <= max
      decreases |reader.Stream()|
    {
      var found;
      output, found := ReadChunk(reader, output, max, all);
      peak := if |output| > peak then |output| else peak;
      if found.Some? {
        return found.value, peak;
      }
    }
  }

  /** One turn of the loop: fill, look for the newline, check the limit, extend. */
  method ReadChunk(reader: BufReader, held: Bytes, max: nat, ghost all: Bytes)
    returns (output: Bytes, found: Option<Frame>)
    requires reader.Valid() && all == held + reader.Stream() && NEWLINE !in held && |held| <= max
    modifies reader
    ensures reader.Valid() && |output| <= max + 1
    ensures found.None? ==> all == output + reader.Stream() && NEWLINE !in output && |output| <= max
                            && |reader.Stream()| < old(|reader.Stream()|)
    ensures found.Some? ==> found.value == NextFrame(all, max)
    ensures found.Some? && !found.value.TooLong? ==> reader.Stream() == AfterFrame(all)
  {
    output := held;
    var buffer := reader.FillBuf();
    if buffer == [] {
      AtEnd(all, output, reader.Stream(), max);
      if output == [] {
        return output, Some(Ended);
      }
      var r := Finish(output);
      return output, Some(r);
    }
    var n := FindNewline(buffer);
    LineGoesOn(all, output, reader.Stream(), buffer, n);
    if |output| + n > max {
      return output, Some(TooLong);
    }
    if n == |buffer| {
      output := output + buffer[..n];
      reader.Consume(n);
      return output, None;
    }
    LineFound(all, output, reader.Stream(), buffer, n, max);
    output := output + buffer[..n + 1];
    reader.Consume(n + 1);
    var r := Finish(output);
    return output, Some(r);
  }

  lemma AtEnd(all: Bytes, output: Bytes, stream: Bytes, max: nat)
    requires all == output + stream && stream == [] && NEWLINE !in output && |output| <= max
    ensures NextFrame(all, max) == (if output == [] then Ended else Payload(DropReturn(output)))
              && AfterFrame(all) == []
    ensures output != [] ==> output[|output| - 1] != NEWLINE
  {
    LineEndBeyond(all, |output|);
    assert all[..|output|] == output;
    assert output != [] ==> output[|output| - 1] in output;
  }

  /** No newline up to `n`: the line is at least that long. */
  lemma LineGoesOn(all: Bytes, output: Bytes, stream: Bytes, buffer: Bytes, n: nat)
    requires all == output + stream && NEWLINE !in output && buffer <= stream
    requires n <= |buffer| && NEWLINE !in buffer[..n]
    ensures LineEnd(all) >= |output| + n && NEWLINE !in output + buffer[..n]
    ensures all == (output + buffer[..n]) + stream[n..]
  {
    assert all[..|output| + n] == output + buffer[..n];
    LineEndBeyond(all, |output| + n);
  }

  /** The newline at `n` completes the frame. */
  lemma LineFound(all: Bytes, output: Bytes, stream: Bytes, buffer: Bytes, n: nat, max: nat)
    requires all == output + stream && NEWLINE !in output && buffer <= stream && |output| + n <= max
    requires n < |buffer| && NEWLINE !in buffer[..n] && buffer[n] == NEWLINE
    ensures NextFrame(all, max) == Payload(DropReturn(output + buffer[..n])) && AfterFrame(all) == stream[n + 1..]
    ensures (output + buffer[..n + 1])[..|output| + n] == output + buffer[..n]
  {
    assert all[..|output| + n] == output + buffer[..n];
    assert all[|output| + n] == NEWLINE;
    LineEndBeyond(all, |output| + n);
    assert all[|output| + n + 1..] == stream[n + 1..];
  }

  /** Pop the framing newline, then one carriage return. */
  method Finish(line: Bytes) returns (r: Frame)
    ensures r == Payload(DropReturn(if line != [] && line[|line| - 1] == NEWLINE then line[..|line| - 1] else line))
  {
    var output := line;
    if output != [] && output[|output| - 1] == NEWLINE {
      output := output[..|output| - 1];
    }
    if output != [] && output[|output| - 1] == RETURN {
      output := output[..|output| - 1];
    }
    r := Payload(output);
  }

  // ---- The writer ----

  datatype Written = Sent(stream: Bytes) | Refused

  /** `write_json_line_with_limit`, given the rendered value. */
  function WriteLine(stream: Bytes, rendered: Bytes, max: nat): Written {
    if |rendered| > max then Refused else Sent(stream + rendered + [NEWLINE])
  }

  function Sends(frames: seq<Bytes>): Bytes {
    if frames == [] then [] else frames[0] + [NEWLINE] + Sends(frames[1..])
  }

  /** Reading frame after frame until the stream ends or a frame is refused. */
  function ReadAll(stream: Bytes, max: nat): seq<Frame>
    decreases |stream|
  {
    var f := NextFrame(stream, max);
    if f.Payload? then [f] + ReadAll(AfterFrame(stream), max) else [f]
  }

  /** Rendered JSON has no raw newline (section 7 of RFC 8259). */
  ghost predicate OneLine(rendered: Bytes) {
    NEWLINE !in rendered
  }

  /** A written frame is read back, with nothing before or after it disturbed, if
      and only if it does not end in a carriage return. */
  lemma FrameRoundTrip(rendered: Bytes, rest: Bytes, max: nat)
    requires OneLine(rendered) && WriteLine([], rendered, max).Sent?
    ensures var stream := WriteLine([], rendered, max).stream + rest;
            && AfterFrame(stream) == rest
            && (NextFrame(stream, max) == Payload(rendered)
                <==> rendered == [] || rendered[|rendered| - 1] != RETURN)
  {
    var stream := WriteLine([], rendered, max).stream + rest;
    assert stream[..|rendered|] == rendered;
    LineEndBeyond(stream, |rendered|);
    assert stream[|rendered| + 1..] == rest;
  }

  function Payloads(frames: seq<Bytes>): seq<Frame> {
    if frames == [] then [] else [Payload(frames[0])] + Payloads(frames[1..])
  }

  /** Any sequence of written frames is read back as those frames and then the end. */
  lemma {:induction false} FramesRoundTrip(frames: seq<Bytes>, max: nat)
    requires forall f :: f in frames ==> OneLine(f) && |f| <= max && (f != [] ==> f[|f| - 1] != RETURN)
    ensures ReadAll(Sends(frames), max) == Payloads(frames) + [Ended]
    decreases |frames|
  {
    if frames != [] {
      var rest := Sends(frames[1..]);
      FrameRoundTrip(frames[0], rest, max);
      FirstFrame(frames, max, rest);
      FramesRoundTrip(frames[1..], max);
    }
  }

  lemma FirstFrame(frames: seq<Bytes>, max: nat, rest: Bytes)
    requires frames != [] && rest == Sends(frames[1..]) && |frames[0]| <= max
    requires NextFrame(WriteLine([], frames[0], max).stream + rest, max) == Payload(frames[0])
    requires AfterFrame(WriteLine([], frames[0], max).stream + rest) == rest
    ensures ReadAll(Sends(frames), max) == [Payload(frames[0])] + ReadAll(rest, max)
    ensures Payloads(frames) + [Ended] == [Payload(frames[0])] + (Payloads(frames[1..]) + [Ended])
  {
    assert Sends(frames) == WriteLine([], frames[0], max).stream + rest;
  }

  // ---- Token comparison ----

  function Differences(acc: bv8, a: seq<bv8>, b: seq<bv8>): bv8
    requires |a| == |b|
    decreases |a|
  {
    if a == [] then acc else Differences(acc | (a[0] ^ b[0]), a[1..], b[1..])
  }

  function TokenMatches(expected: seq<bv8>, provided: seq<bv8>): bool {
    |expected| == |provided| && Differences(0, expected, provided) == 0
  }

  lemma {:induction false} DifferencesZero(acc: bv8, a: seq<bv8>, b: seq<bv8>)
    requires |a| == |b|
    ensures Differences(acc, a, b) == 0 <==> acc == 0 && a == b
    decreases |a|
  {
    if a != [] {
      DifferencesZero(acc | (a[0] ^ b[0]), a[1..], b[1..]);
      OrXorZero(acc, a[0], b[0]);
      assert a == [a[0]] + a[1..] && b == [b[0]] + b[1..];
    }
  }

  lemma OrXorZero(acc: bv8, x: bv8, y: bv8)
    ensures acc | (x ^ y) == 0 <==> acc == 0 && x == y
  {
  }

  /** The constant-time fold accepts exactly the expected token. */
  lemma TokenMatchIsEquality(expected: seq<bv8>, provided: seq<bv8>)
    ensures TokenMatches(expected, provided) <==> expected == provided
  {
    if |expected| == |provided| {
      DifferencesZero(0, expected, provided);
    }
  }
}
