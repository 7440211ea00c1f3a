/** The stream parser undoes the package producer: whatever way the payload is cut
    into chunks, the blocks handed out are the image linked for the chosen slot. */
module PackageTrip {
  import opened Bytes
  import opened Record
  import opened PackageSpec
  import opened Packaging

  // A package under transfer: the base image, the slot B image when it is
  // relocatable, and the slot it is being installed in.
  datatype Source = Source(base: seq<byte>, other: Option<seq<byte>>, header: Header, destination: nat)

  ghost predicate Fits(c: Source) {
    && 0 < |c.base| < TWO_32 && c.header.imageSize == |c.base|
    && (c.other.Some? ==> c.header.encoding == 0 && |c.other.value| == |c.base|)
    && Payload(c.base, c.other, Delta(c.header), 0).Some?
  }

  // The image the destination slot must receive.
  function Image(c: Source): seq<byte> {
    if c.destination == 1 && c.other.Some? then c.other.value else c.base
  }

  function Rest(c: Source, offset: nat): Option<seq<byte>>
    requires Fits(c) && offset <= |c.base|
  {
    Payload(c.base, c.other, Delta(c.header), offset)
  }

  function CodesAt(c: Source, offset: nat): Option<seq<nat>>
    requires Fits(c) && offset <= |c.base|
  {
    BlockCodes(c.base, c.other, Delta(c.header), offset)
  }

  // A block boundary of the image, with everything from it on well defined.
  ghost predicate Boundary(c: Source, offset: nat)
    requires Fits(c)
  {
    offset <= |c.base| && Rest(c, offset).Some?
  }

  lemma NextBoundary(c: Source, offset: nat)
    requires Fits(c) && Boundary(c, offset) && offset < |c.base|
    ensures var block := Slice(c.base, offset, BLOCK);
            && 0 < |block| == Min(BLOCK, |c.base| - offset) && Boundary(c, offset + |block|) && CodesAt(c, offset).Some?
            && Rest(c, offset).value == Wire(offset, block, CodesAt(c, offset).value) + Rest(c, offset + |block|).value
  {}

  // ---- Where a parser stands in the stream ----

  ghost predicate Standing(c: Source, r: Reader, rest: seq<byte>)
    requires Fits(c) && Boundary(c, r.offset)
  {
    if r.state == RDone then r.offset == |c.base| && rest == []
    else
      && r.offset < |c.base|
      && var block := Slice(c.base, r.offset, BLOCK);
         var codes := CodesAt(c, r.offset);
         var after := Rest(c, r.offset + |block|);
         && codes.Some? && after.Some?
         && match r.state
            case RHeader => |r.got| < 12 && r.got + rest == Rest(c, r.offset).value
            case RPatches =>
              && r.length == |block| && r.patchCount == |codes.value| && |r.got| < 2 * r.patchCount
              && r.got + rest == Words(codes.value) + (block + after.value)
            case RData =>
              && r.length == |block| && r.patchCount == |codes.value| && |r.got| < |block|
              && r.patches == Words(codes.value) && r.got + rest == block + after.value
            case RReady => r.length == |block| && r.data == Slice(Image(c), r.offset, BLOCK) && rest == after.value
            case _ => false
  }

  ghost predicate Streaming(c: Source, r: Reader, rest: seq<byte>) {
    && Fits(c) && r.header == Some(c.header) && r.destination == c.destination && !r.starting
    && Boundary(c, r.offset) && (r.releasing ==> r.state == RReady)
    && Standing(c, r, rest)
  }

  // Taking input moves bytes from the stream to the stage's buffer.
  lemma TakeSplit(got: seq<byte>, rest: seq<byte>, input: seq<byte>, n: nat, whole: seq<byte>)
    requires got + rest == whole && input <= rest && n <= |input|
    ensures got + input[..n] + rest[n..] == whole
  {
    assert rest == input[..n] + rest[n..];
    assert got + input[..n] + rest[n..] == got + (input[..n] + rest[n..]);
  }

  // A stage that has its fill holds the first part of what it was reading.
  lemma Filled(got: seq<byte>, rest: seq<byte>, part: seq<byte>, after: seq<byte>)
    requires got + rest == part + after && |got| == |part|
    ensures got == part && rest == after
  {
    assert got == (got + rest)[..|got|] && part == (part + after)[..|part|];
    assert rest == (got + rest)[|got|..] && after == (part + after)[|part|..];
  }

  lemma BlockHeader(got: seq<byte>, offset: nat, length: nat, count: nat)
    requires offset < TWO_32 && length < TWO_32 && count < TWO_32
    requires got == Encode32(offset) + Encode32(length) + Encode32(count)
    ensures |got| == 12 && Read32(got, 0) == offset && Read32(got, 4) == length && Read32(got, 8) == count
  {
    assert got[0..4] == Encode32(offset) && got[4..8] == Encode32(length) && got[8..12] == Encode32(count);
    Read32Bytes(got, 0, offset);
    Read32Bytes(got, 4, length);
    Read32Bytes(got, 8, count);
  }

  // Patching the block of a package gives the block of the destination's image.
  lemma PatchesBlock(c: Source, offset: nat)
    requires Fits(c) && offset < |c.base| && CodesAt(c, offset).Some?
    ensures var codes := CodesAt(c, offset).value;
            Patch(c.header, c.destination, Words(codes), |codes|, 0, 0, Slice(c.base, offset, BLOCK))
            == Some(Slice(Image(c), offset, BLOCK))
  {
    var block := Slice(c.base, offset, BLOCK);
    var codes := CodesAt(c, offset).value;
    if c.other.Some? {
      var other := Slice(c.other.value, offset, BLOCK);
      assert Words(codes)[2 * 0..] == Words(codes);
      if c.destination == 1 {
        PatchRelocates(c.header, block, other, Words(codes), |codes|, 0, 0, block, 0);
      } else {
        PatchKeeps(c.header, c.destination, block, other, Words(codes), |codes|, 0, 0, 0);
      }
    }
  }

  // ---- One tick ----

  lemma HeaderTick(c: Source, r: Reader, rest: seq<byte>, input: seq<byte>)
    requires Streaming(c, r, rest) && r.state == RHeader && input <= rest
    ensures var (next, n) := ReaderTick(r, input);
            n <= |input| && Streaming(c, next, rest[n..]) && next.offset == r.offset && !next.releasing
            && (input != [] ==> n > 0)
  {
    hide Read32, Encode32, Words, Payload, BlockCodes, Slice, Patch;
    var n := Taken(input, |r.got|, 12);
    var got := r.got + input[..n];
    TakeSplit(r.got, rest, input, n, Rest(c, r.offset).value);
    if |got| == 12 {
      NextBoundary(c, r.offset);
      var block := Slice(c.base, r.offset, BLOCK);
      var codes := CodesAt(c, r.offset).value;
      var after := Rest(c, r.offset + |block|).value;
      var head := Encode32(r.offset) + Encode32(|block|) + Encode32(|codes|);
      assert Wire(r.offset, block, codes) + after == head + (Words(codes) + (block + after));
      Filled(got, rest[n..], head, Words(codes) + (block + after));
      BlockHeader(got, r.offset, |block|, |codes|);
      NoWords(codes);
      assert [] + rest[n..] == rest[n..];
    }
  }

  lemma NoWords(codes: seq<nat>)
    ensures |codes| == 0 ==> Words(codes) == [] && forall t: seq<byte> :: Words(codes) + t == t
  {}

  lemma PatchesTick(c: Source, r: Reader, rest: seq<byte>, input: seq<byte>)
    requires Streaming(c, r, rest) && r.state == RPatches && input <= rest
    ensures var (next, n) := ReaderTick(r, input);
            n <= |input| && Streaming(c, next, rest[n..]) && next.offset == r.offset && !next.releasing
            && (input != [] ==> n > 0)
  {
    hide Words, Payload, BlockCodes, Slice, Patch;
    var n := Taken(input, |r.got|, 2 * r.patchCount);
    var got := r.got + input[..n];
    NextBoundary(c, r.offset);
    var block := Slice(c.base, r.offset, BLOCK);
    var codes := CodesAt(c, r.offset).value;
    var after := Rest(c, r.offset + |block|).value;
    TakeSplit(r.got, rest, input, n, Words(codes) + (block + after));
    if |got| == 2 * r.patchCount {
      Filled(got, rest[n..], Words(codes), block + after);
      assert [] + rest[n..] == rest[n..];
    }
  }

  lemma DataTick(c: Source, r: Reader, rest: seq<byte>, input: seq<byte>)
    requires Streaming(c, r, rest) && r.state == RData && input <= rest
    ensures var (next, n) := ReaderTick(r, input);
            n <= |input| && Streaming(c, next, rest[n..]) && next.offset == r.offset && !next.releasing
            && (input != [] ==> n > 0)
  {
    hide Words, Payload, BlockCodes, Slice, Patch, Image;
    var n := Taken(input, |r.got|, r.length);
    var got := r.got + input[..n];
    NextBoundary(c, r.offset);
    var block := Slice(c.base, r.offset, BLOCK);
    var after := Rest(c, r.offset + |block|).value;
    TakeSplit(r.got, rest, input, n, block + after);
    if |got| == r.length {
      Filled(got, rest[n..], block, after);
      PatchesBlock(c, r.offset);
    }
  }

  lemma ReadyTick(c: Source, r: Reader, rest: seq<byte>, input: seq<byte>)
    requires Streaming(c, r, rest) && r.state == RReady && input <= rest
    ensures var (next, n) := ReaderTick(r, input);
            n == 0 && Streaming(c, next, rest) && !next.releasing
            && next.offset == if r.releasing then r.offset + r.length else r.offset
  {
    hide Words, BlockCodes, Slice, Patch, Image;
    NextBoundary(c, r.offset);
    if r.releasing && r.offset + r.length < |c.base| {
      NextBoundary(c, r.offset + r.length);
      assert [] + rest == rest;
    }
  }

  // ---- Whole transfers ----

  // What the owner does: offer up to n bytes and tick, or take the finished block.
  datatype Move = Feed(n: nat) | Take

  datatype Transfer = Transfer(reader: Reader, rest: seq<byte>, taken: seq<byte>)

  function Play(t: Transfer, moves: seq<Move>): Transfer
    decreases |moves|
  {
    if moves == [] then t else Play(PlayOne(t, moves[0]), moves[1..])
  }

  function PlayOne(t: Transfer, move: Move): Transfer {
    match move
    case Feed(n) =>
      var (next, used) := ReaderTick(t.reader, t.rest[..Min(n, |t.rest|)]);
      t.(reader := next, rest := if used <= |t.rest| then t.rest[used..] else [])
    case Take =>
      if t.reader.state != RReady || t.reader.releasing then t
      else t.(reader := t.reader.(releasing := true), taken := t.taken + t.reader.data)
  }

  // The blocks taken so far are the image up to where the parser stands.
  ghost predicate Faithful(c: Source, t: Transfer) {
    && Streaming(c, t.reader, t.rest)
    && var reached := t.reader.offset + (if t.reader.releasing then t.reader.length else 0);
       reached <= |Image(c)| && t.taken == Image(c)[..reached]
  }

  lemma MoveFaithful(c: Source, t: Transfer, move: Move)
    requires Faithful(c, t)
    ensures Faithful(c, PlayOne(t, move))
  {
    hide Streaming, Standing;
    var r := t.reader;
    StreamingFacts(c, r, t.rest);
    match move {
      case Feed(n) =>
        var input := t.rest[..Min(n, |t.rest|)];
        match r.state {
          case RHeader => HeaderTick(c, r, t.rest, input);
          case RPatches => PatchesTick(c, r, t.rest, input);
          case RData => DataTick(c, r, t.rest, input);
          case RReady =>
            ReadyTick(c, r, t.rest, input);
            assert t.rest[0..] == t.rest;
          case RDone => assert t.rest[0..] == t.rest;
          case _ => assert false;
        }
      case Take =>
        if r.state == RReady && !r.releasing {
          TakeStreaming(c, r, t.rest);
          assert Image(c)[..r.offset + r.length] == Image(c)[..r.offset] + Slice(Image(c), r.offset, BLOCK);
        }
    }
  }

  lemma StreamingFacts(c: Source, r: Reader, rest: seq<byte>)
    requires Streaming(c, r, rest)
    ensures Fits(c) && r.state !in {RIdle, RFailed} && r.header.Some? && !r.starting
      && r.offset <= |c.base| == |Image(c)|
    ensures r.releasing ==> r.state == RReady
    ensures r.state == RReady ==> r.offset < |c.base| && r.length == Min(BLOCK, |c.base| - r.offset)
                                  && r.data == Slice(Image(c), r.offset, BLOCK)
    ensures r.state == RDone ==> r.offset == |c.base| && rest == []
    ensures rest == [] && r.state !in {RReady, RDone} ==> false
  {
    if r.state !in {RReady, RDone} {
      NextBoundary(c, r.offset);
      assert |r.got + rest| == |r.got| + |rest|;
    }
  }

  lemma TakeStreaming(c: Source, r: Reader, rest: seq<byte>)
    requires Streaming(c, r, rest) && r.state == RReady
    ensures Streaming(c, r.(releasing := true), rest)
  {}

  lemma {:induction false} PlayFaithful(c: Source, t: Transfer, moves: seq<Move>)
    requires Faithful(c, t)
    ensures Faithful(c, Play(t, moves))
    decreases |moves|
  {
    if moves != [] {
      MoveFaithful(c, t, moves[0]);
      PlayFaithful(c, PlayOne(t, moves[0]), moves[1..]);
    }
  }

  // The parser just after its start request has been ticked.
  function Begun(before: Reader, h: Header, destination: nat): Reader {
    ReaderTick(ReaderStart(before, h, destination), []).0
  }

  /** The round trip: for every accepted pair of images, every previous state of
      the parser, every way of cutting the payload and every timing of the takes,
      the blocks taken are a prefix of the image linked for the destination slot;
      the parser never fails; it is done exactly when the whole image has been
      taken and released, and stops for input only while the payload lasts. */
  lemma RoundTrip(c: Source, before: Reader, moves: seq<Move>)
    requires Fits(c)
    ensures var t := Play(Transfer(Begun(before, c.header, c.destination),
                                   Payload(c.base, c.other, Delta(c.header), 0).value, []), moves);
            && t.taken <= Image(c) && t.reader.state != RFailed
            && (t.reader.state == RDone <==> t.reader.offset == |Image(c)|)
            && (t.reader.state == RDone ==> t.taken == Image(c) && t.rest == [])
            && (t.rest == [] ==> t.reader.state in {RReady, RDone})
  {
    var start := Transfer(Begun(before, c.header, c.destination), Payload(c.base, c.other, Delta(c.header), 0).value,
                          []);
    assert Streaming(c, start.reader, start.rest) by {
      NextBoundary(c, 0);
      assert [] + start.rest == start.rest;
    }
    PlayFaithful(c, start, moves);
    var t := Play(start, moves);
    StreamingFacts(c, t.reader, t.rest);
  }

  // ---- Progress ----

  // Bytes still to come, plus two for every block still to hand out.
  function Left(c: Source, t: Transfer): int {
    |t.rest| + 2 * (|c.base| - t.reader.offset) - (if t.reader.releasing then 1 else 0)
  }

  /** No transfer is ever stuck: until the parser is done there is a move, offering
      any positive number of bytes or taking the block, that brings the end nearer. */
  lemma Progress(c: Source, t: Transfer, n: nat)
    requires Faithful(c, t) && t.reader.state != RDone && n > 0
    ensures var move := if t.reader.state == RReady && !t.reader.releasing then Take else Feed(n);
            Faithful(c, PlayOne(t, move)) && 0 <= Left(c, PlayOne(t, move)) < Left(c, t)
  {
    hide Streaming, Standing, Image;
    var r := t.reader;
    var move := if r.state == RReady && !r.releasing then Take else Feed(n);
    StreamingFacts(c, r, t.rest);
    MoveFaithful(c, t, move);
    var next := PlayOne(t, move);
    StreamingFacts(c, next.reader, next.rest);
    if move.Feed? {
      var input := t.rest[..Min(n, |t.rest|)];
      match r.state {
        case RHeader => HeaderTick(c, r, t.rest, input);
        case RPatches => PatchesTick(c, r, t.rest, input);
        case RData => DataTick(c, r, t.rest, input);
        case RReady => ReadyTick(c, r, t.rest, input);
        case _ => assert false;
      }
    }
  }
}
