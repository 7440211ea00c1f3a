/** One installation from its request to its end: the engine, the parser, the writer
    and the journal together. */
module EngineInstall {
  import opened Bytes
  import opened Record
  import opened Layouts
  import opened Flash
  import opened JournalSpec
  import opened JournalLoad
  import opened JournalSafety
  import opened JournalRuns
  import opened JournalCommit
  import opened ControlSafety
  import opened WriterSpec
  import opened WriterSafety
  import opened WriterRefine
  import opened EngineSafety
  import opened EngineTicks
  import SystemSafety
  import P = PackageSpec
  import T = PackageTrip
  import K = Packaging
  import E = EngineSpec

  // ---- Where an installation stands ----

  function Payload(c: T.Source): seq<byte>
    requires T.Fits(c)
  {
    K.Payload(c.base, c.other, K.Delta(c.header), 0).value
  }

  // The chunk in the buffer is the last part received of the payload.
  ghost predicate Fed(c: T.Source, g: E.Engine)
    requires T.Fits(c)
  {
    && g.rxAt <= |g.rx| <= g.received <= |Payload(c)| && g.rx == Payload(c)[g.received - |g.rx|..g.received]
    && (g.rx != [] ==> g.rxAt < |g.rx|)
  }

  // What the parser has not taken.
  function Stream(c: T.Source, g: E.Engine): seq<byte>
    requires T.Fits(c) && g.rxAt <= |g.rx| <= g.received <= |Payload(c)|
  {
    Payload(c)[g.received - |g.rx| + g.rxAt..]
  }

  // How much of the image the parser has handed out.
  function Reached(r: P.Reader): nat { r.offset + if r.releasing then r.length else 0 }

  ghost predicate Parsing(c: T.Source, g: E.Engine)
    requires T.Fits(c) && g.rxAt <= |g.rx| <= g.received <= |Payload(c)|
  {
    && T.Streaming(c, g.reader, Stream(c, g)) && Reached(g.reader) <= |T.Image(c)|
    && (g.reader.state != P.RDone ==> g.reader.offset % P.BLOCK == 0)
  }

  // The slot holds the image.
  ghost predicate Written(l: Layout, mem: seq<int>, slot: nat, image: seq<int>) {
    Fits(l, mem) && slot < 2 && |image| <= l.slotSize && Slot(l, mem, slot)[..|image|] == image
  }

  ghost predicate Agreed(c: T.Source, g: E.Engine) {
    && T.Fits(c) && g.running < 2 && g.header == Some(c.header) && c.destination == E.Destination(g)
    && E.Total(g) == |Payload(c)| && Fed(c, g)
  }

  ghost predicate Along(l: Layout, c: T.Source, g: E.Engine, d: Device, s: Snapshot, t: Snapshot)
    requires Agreed(c, g)
  {
    var slot, image := c.destination, T.Image(c);
    match g.state
    case Disabled | Idle | Failed => g.requested ==> g.received == 0
    case Done => if g.requested then g.received == 0 else Written(l, d.mem, slot, image) && Offers(g, c.header, s)
    case Invalidating => g.received == 0
    case Receiving => Parsing(c, g) && Between(l, g.writer, d, slot, image[..Reached(g.reader)])
    case Writing =>
      && Parsing(c, g) && g.reader.state == P.RReady && !g.reader.releasing
      && Refined(l, g.writer, d, slot, image[..g.reader.offset]) && g.writer.data == g.reader.data
    case Verifying => Written(l, d.mem, slot, image)
    case Committing => Written(l, d.mem, slot, image) && Offers(g, c.header, t)
    case Aborting => true
  }

  ghost predicate Underway(l: Layout, c: T.Source, g: E.Engine, d: Device, s: Snapshot, t: Snapshot) {
    EngineInv(l, g, d, s, t) && Agreed(c, g) && Along(l, c, g, d, s, t)
  }

  // ---- The parser ----

  lemma StreamStarts(c: T.Source, before: P.Reader)
    requires T.Fits(c)
    ensures T.Streaming(c, T.Begun(before, c.header, c.destination), Payload(c))
  {
    T.NextBoundary(c, 0);
    assert [] + Payload(c) == Payload(c);
  }

  lemma Ahead(c: T.Source, g: E.Engine)
    requires T.Fits(c) && Fed(c, g)
    ensures g.rx[g.rxAt..] == Stream(c, g)[..|g.rx| - g.rxAt] && |g.rx| - g.rxAt <= |Stream(c, g)|
    ensures g.rx == [] ==> Stream(c, g) == Payload(c)[g.received..]
  {}

  // The parser's bookkeeping of the chunk.
  lemma ParsedFed(c: T.Source, g: E.Engine, now: nat, n: nat)
    requires T.Fits(c) && Fed(c, g) && P.ReaderTick(g.reader, g.rx[g.rxAt..]).1 == n <= |g.rx| - g.rxAt
    ensures var g1 := E.Parse(g, now);
            && Fed(c, g1) && |Stream(c, g)| >= n && Stream(c, g1) == Stream(c, g)[n..] && g1.received == g.received
            && (g1.rx == [] ==> |Stream(c, g1)| == |Payload(c)| - g1.received)
  {
    hide P.ReaderTick, T.Fits, Payload;
    var g1 := E.Parse(g, now);
    var p := g.received - |g.rx| + g.rxAt;
    assert g1.received - |g1.rx| + g1.rxAt == p + n;
    assert Payload(c)[p..][n..] == Payload(c)[p + n..];
  }

  // Feeding the parser moves it along the payload.
  lemma ParseMoves(c: T.Source, g: E.Engine, now: nat)
    requires Agreed(c, g) && Parsing(c, g)
    ensures var g1 := E.Parse(g, now);
            && Agreed(c, g1) && Parsing(c, g1) && Reached(g1.reader) == Reached(g.reader) && !g1.reader.releasing
            && (g1.rx == [] ==> |Stream(c, g1)| == |Payload(c)| - g1.received)
            && |Stream(c, g1)| <= |Stream(c, g)|
            && (g.rx != [] && g.reader.state !in {P.RReady, P.RDone} ==> |Stream(c, g1)| < |Stream(c, g)|)
  {
    hide T.Streaming, P.ReaderTick, Payload, T.Fits, Stream, T.Image, Reached;
    Ahead(c, g);
    var input := g.rx[g.rxAt..];
    FeedMoves(c, g.reader, Stream(c, g), input);
    var (r1, n) := P.ReaderTick(g.reader, input);
    ParsedFed(c, g, now, n);
    ParsedFields(g, now);
    ParsedReader(g, now);
  }

  lemma ParsedReader(g: E.Engine, now: nat)
    requires g.rxAt <= |g.rx|
    ensures E.Parse(g, now).reader == P.ReaderTick(g.reader, g.rx[g.rxAt..]).0
  {
    hide P.ReaderTick;
  }

  lemma FeedMoves(c: T.Source, r: P.Reader, rest: seq<byte>, input: seq<byte>)
    requires T.Streaming(c, r, rest) && input <= rest && Reached(r) <= |T.Image(c)|
    requires r.state != P.RDone ==> r.offset % P.BLOCK == 0
    ensures var (r1, n) := P.ReaderTick(r, input);
            && n <= |input| && T.Streaming(c, r1, rest[n..]) && Reached(r1) == Reached(r) && !r1.releasing
            && (r1.state != P.RDone ==> r1.offset % P.BLOCK == 0)
            && (input != [] && r.state != P.RReady && r.state != P.RDone ==> n > 0)
  {
    hide T.Streaming, K.Payload, T.Image, P.ParseBlock, P.FinishData;
    T.StreamingFacts(c, r, rest);
    match r.state {
      case RHeader => T.HeaderTick(c, r, rest, input);
      case RPatches => T.PatchesTick(c, r, rest, input);
      case RData => T.DataTick(c, r, rest, input);
      case RReady =>
        T.ReadyTick(c, r, rest, input);
        ReleasedBlock(c, r, rest, input);
        assert rest[0..] == rest;
      case RDone =>
        DoneStays(r, input);
        assert rest[0..] == rest;
      case _ => assert false;
    }
    var (r1, n) := P.ReaderTick(r, input);
    T.StreamingFacts(c, r1, rest[n..]);
  }

  lemma DoneStays(r: P.Reader, input: seq<byte>)
    requires r.state == P.RDone && !r.starting
    ensures P.ReaderTick(r, input) == (r, 0)
  {}

  // A released block was full unless it was the last one.
  lemma ReleasedBlock(c: T.Source, r: P.Reader, rest: seq<byte>, input: seq<byte>)
    requires T.Streaming(c, r, rest) && r.state == P.RReady && r.offset % P.BLOCK == 0
    ensures var (r1, n) := P.ReaderTick(r, input);
            r1.state != P.RDone ==> r1.offset % P.BLOCK == 0
  {
    hide T.Streaming, T.Fits;
    T.StreamingFacts(c, r, rest);
    SourceSize(c, r, rest);
    ReleaseTick(r, c.header, input);
    if r.length == P.BLOCK { NextMultiple(r.offset); }
  }

  lemma ReleaseTick(r: P.Reader, h: P.Header, input: seq<byte>)
    requires r.state == P.RReady && r.header == Some(h) && !r.starting
    ensures var (r1, _) := P.ReaderTick(r, input);
            && r1.offset == (if r.releasing then r.offset + r.length else r.offset)
            && (r.releasing && r.offset + r.length == h.imageSize ==> r1.state == P.RDone)
  {}

  lemma NextMultiple(a: nat)
    requires a % P.BLOCK == 0
    ensures (a + P.BLOCK) % P.BLOCK == 0
  {}

  lemma SourceSize(c: T.Source, r: P.Reader, rest: seq<byte>)
    requires T.Streaming(c, r, rest)
    ensures r.header == Some(c.header) && c.header.imageSize == |c.base|
  {}

  // ---- One tick ----

  // A state in which nothing is promised.
  lemma QuietAlong(l: Layout, c: T.Source, g: E.Engine, d: Device, s: Snapshot, t: Snapshot)
    requires Agreed(c, g) && !g.requested && g.state in {E.Disabled, E.Idle, E.Failed, E.Aborting}
    ensures Along(l, c, g, d, s, t)
  {
    hide T.Fits, Payload, Fed;
  }

  // The fields that an installation is agreed on.
  lemma AgreedSame(c: T.Source, g: E.Engine, g1: E.Engine)
    requires Agreed(c, g) && g1.header == g.header && g1.running == g.running && g1.received == g.received
    requires (g1.rx == g.rx && g1.rxAt == g.rxAt) || (g1.rx == [] && g1.rxAt == 0)
    ensures Agreed(c, g1)
  {
    hide T.Fits, Payload;
  }

  lemma RestAlong(l: Layout, executing: nat, c: T.Source, g: E.Engine, d: Device, e: Event, s: Snapshot, t: Snapshot)
    returns (t1: Snapshot)
    requires Ready(l) && Underway(l, c, g, d, s, t) && g.state in {E.Disabled, E.Idle, E.Done, E.Failed}
    ensures var (g1, d1) := E.StepRest(l, executing, g, d, e);
            && Underway(l, c, g1, d1, s, t1)
            && (g1.state == E.Invalidating ==> t1.sequence == s.sequence + 1 && t1.counter == s.counter)
  {
    hide EngineInv, Fits, Valid, Ok?, Ready, Moves, Agreed, Along, E.StepRest;
    EngineFacts(l, g, d, s, t);
    t1 := RestSafe(l, executing, g, d, e, s, t);
    RestDevice(l, executing, g, d, e);
    var (g1, d1) := E.StepRest(l, executing, g, d, e);
    AgreedSame(c, g, g1);
    if g1.state == E.Invalidating {
      WithdrawAlong(l, c, g, g1, d, d1, s, t, t1);
    } else if g1.state == E.Done {
      DoneAlong(l, c, g, g1, d, s, t, t1);
    } else {
      QuietAlong(l, c, g1, d1, s, t1);
    }
  }

  lemma WithdrawAlong(l: Layout, c: T.Source, g: E.Engine, g1: E.Engine, d: Device, d1: Device, s: Snapshot,
                      t: Snapshot, t1: Snapshot)
    requires Agreed(c, g) && Along(l, c, g, d, s, t) && g.state in {E.Disabled, E.Idle, E.Done, E.Failed} && g.requested
    requires Agreed(c, g1) && g1.state == E.Invalidating && g1.received == g.received
    ensures Along(l, c, g1, d1, s, t1)
  {
    hide T.Fits, Payload, Fed, Written, Offers;
  }

  lemma DoneAlong(l: Layout, c: T.Source, g: E.Engine, g1: E.Engine, d: Device, s: Snapshot, t: Snapshot, t1: Snapshot)
    requires Agreed(c, g) && Along(l, c, g, d, s, t) && g.state == E.Done && !g.requested
    requires Agreed(c, g1) && g1.state == E.Done && !g1.requested && g1.running == g.running
    ensures Along(l, c, g1, d, s, t1)
  {
    hide T.Fits, Payload, Fed, Written;
  }

  // Resting without a request changes neither flash nor the header.
  lemma RestDevice(l: Layout, executing: nat, g: E.Engine, d: Device, e: Event)
    requires Fits(l, d.mem) && Ok?(l, g.journal) && g.state in {E.Disabled, E.Idle, E.Done, E.Failed}
    ensures var (g1, d1) := E.StepRest(l, executing, g, d, e);
            && (!g.requested ==> d1 == d && !g1.requested && g1.state in {g.state, E.Idle, E.Disabled})
            && (g.requested ==> g1.state in {E.Invalidating, E.Failed} && !g1.requested)
            && g1.header == g.header && g1.running == g.running && g1.received == g.received && g1.rx == g.rx
            && g1.rxAt == g.rxAt
  {
    hide Fits, Ok?, Begin;
  }

  lemma InvalidatingAlong(l: Layout, c: T.Source, g: E.Engine, d: Device, e: Event, s: Snapshot, t: Snapshot)
    returns (s1: Snapshot)
    requires Ready(l) && Underway(l, c, g, d, s, t) && g.state == E.Invalidating
    ensures var (g1, d1) := E.StepInvalidating(l, g, d, e);
            Underway(l, c, g1, d1, s1, t) && (g1.state == E.Receiving ==> s1 == t)
  {
    hide EngineInv, Fits, Valid, Ok?, Ready, T.Fits, T.Streaming, Between, Moves, Payload, E.StepInvalidating, T.Begun,
         T.Image;
    EngineFacts(l, g, d, s, t);
    s1 := InvalidatingSafe(l, g, d, e, s, t);
    ActiveQuiet(l, g, d, s, t);
    InvalidatingGoes(l, g, d, e);
    var (g1, d1) := E.StepInvalidating(l, g, d, e);
    if g1.state == E.Receiving {
      StreamStarts(c, g.reader);
      BegunPlace(g.reader, c.header, c.destination);
      assert Payload(c)[0..] == Payload(c);
      NothingYet(l, g1, d1, s1, t);
      assert T.Image(c)[..0] == [];
    }
  }

  lemma InvalidatingGoes(l: Layout, g: E.Engine, d: Device, e: Event)
    requires Fits(l, d.mem) && Ok?(l, g.journal) && g.state == E.Invalidating
    ensures var (g1, d1) := E.StepInvalidating(l, g, d, e);
            && g1.state in {E.Invalidating, E.Receiving, E.Aborting, E.Failed} && g1.requested == g.requested
            && g1.header == g.header && g1.running == g.running && g1.received == g.received && g1.rx == g.rx
            && g1.rxAt == g.rxAt
            && (g1.state == E.Receiving ==>
                g.header.Some? && g1.reader == T.Begun(g.reader, g.header.value, E.Destination(g)))
  {
    hide Fits, Ok?, Tick, P.ReaderTick, P.ReaderStart;
  }

  lemma BegunPlace(before: P.Reader, h: P.Header, destination: nat)
    ensures var r := T.Begun(before, h, destination);
            r.offset == 0 && !r.releasing && r.state == P.RHeader
  {}

  lemma NothingYet(l: Layout, g: E.Engine, d: Device, s: Snapshot, t: Snapshot)
    requires EngineInv(l, g, d, s, t) && g.state == E.Receiving
    ensures Between(l, g.writer, d, E.Destination(g), [])
  {
    hide Fits, Valid, Kept, HeaderOk, Ok?, WriterInv, Laid;
  }

  // A finished block: the parser may release it, the slot holds one block more.
  lemma BlockTaken(c: T.Source, r: P.Reader, rest: seq<byte>)
    requires T.Streaming(c, r, rest) && r.state == P.RReady && !r.releasing
    ensures r.offset + r.length <= |T.Image(c)| && T.Streaming(c, r.(releasing := true), rest)
    ensures T.Image(c)[..r.offset] + r.data == T.Image(c)[..r.offset + r.length] && |r.data| == r.length > 0
  {
    T.StreamingFacts(c, r, rest);
    T.TakeStreaming(c, r, rest);
    hide T.Streaming, T.Fits, T.Image;
  }

  lemma LaidWritten(l: Layout, mem: seq<int>, slot: nat, image: seq<int>, until: nat)
    requires Laid(l, mem, slot, image, until)
    ensures Written(l, mem, slot, image)
  {}

  lemma ReceivingAlong(l: Layout, c: T.Source, g: E.Engine, d: Device, e: Event, s: Snapshot, t: Snapshot)
    requires Ready(l) && Underway(l, c, g, d, s, t) && g.state == E.Receiving
    ensures var (g1, d1) := E.StepReceiving(l, g, d, e);
            Underway(l, c, g1, d1, s, t)
  {
    hide EngineInv, Fits, Valid, Ok?, Ready, Agreed, Along, E.Parse, WriterBegin, E.Fail, Settled;
    EngineFacts(l, g, d, s, t);
    ReceivingSettled(l, g, d, s, t);
    ReceivingSafe(l, g, d, e, s, t);
    StopsAlong(l, c, g, d, s, t, Ok);
    if !E.Stopping(g) {
      var g1 := E.Parse(g, e.now);
      ParsedAlong(l, c, g, d, e.now, s, t);
      ParsedFields(g, e.now);
      StopsAlong(l, c, g1, d, s, t, ParseError);
      StopsAlong(l, c, g1, d, s, t, Timeout);
      if g1.reader.state == P.RReady {
        BlockAlong(l, c, g1, d, e.outcome, s, t);
        var begun := WriterBegin(l, g1.writer, d, E.Destination(g), g1.reader.offset, g1.reader.data, e.outcome);
        StopsAlong(l, c, g1.(writer := begun.w), d, s, t, begun.status);
      } else if g1.reader.state == P.RDone {
        DoneParsing(l, c, g1, d, s, t);
      }
    }
  }

  lemma StopsAlong(l: Layout, c: T.Source, g: E.Engine, d: Device, s: Snapshot, t: Snapshot, reason: Status)
    requires Agreed(c, g)
    ensures Agreed(c, g.(state := E.Aborting)) && Along(l, c, g.(state := E.Aborting), d, s, t)
    ensures Agreed(c, E.Fail(g, reason)) && Along(l, c, E.Fail(g, reason), d, s, t)
  {
    hide T.Fits, Payload;
  }

  lemma ParsedAlong(l: Layout, c: T.Source, g: E.Engine, d: Device, now: nat, s: Snapshot, t: Snapshot)
    requires Agreed(c, g) && Along(l, c, g, d, s, t) && g.state == E.Receiving
    ensures var g1 := E.Parse(g, now);
            && Agreed(c, g1) && Along(l, c, g1, d, s, t) && g1.reader.state != P.RFailed && !g1.reader.releasing
  {
    hide Fits, Valid, T.Fits, T.Streaming, Between, Payload, Stream, E.Parse, T.Image;
    var g1 := E.Parse(g, now);
    ParsedFields(g, now);
    ParseMoves(c, g, now);
    T.StreamingFacts(c, g1.reader, Stream(c, g1));
  }

  lemma BlockAlong(l: Layout, c: T.Source, g: E.Engine, d: Device, o: Outcome, s: Snapshot, t: Snapshot)
    requires Agreed(c, g) && Along(l, c, g, d, s, t) && g.state == E.Receiving && g.reader.state == P.RReady
      && !g.reader.releasing
    ensures var begun := WriterBegin(l, g.writer, d, E.Destination(g), g.reader.offset, g.reader.data, o);
            && begun.d == d && Agreed(c, g.(writer := begun.w))
            && (begun.status == Ok ==>
                  var g1 := g.(writer := begun.w, state := E.Writing);
                  Agreed(c, g1) && Along(l, c, g1, d, s, t))
  {
    hide Fits, Valid, T.Fits, T.Streaming, Refined, Payload, WriterBegin, T.Image, Laid, WriterInv;
    BlockBegins(l, c, g, d, o);
    SettledBegin(l, g, d, o);
  }

  lemma SettledBegin(l: Layout, g: E.Engine, d: Device, o: Outcome)
    requires d.op.NoOp?
    ensures WriterBegin(l, g.writer, d, E.Destination(g), g.reader.offset, g.reader.data, o).d == d
  {
    hide Fitting, Poll;
    PollIdle(l, d, o);
  }

  lemma DoneParsing(l: Layout, c: T.Source, g: E.Engine, d: Device, s: Snapshot, t: Snapshot)
    requires Agreed(c, g) && Along(l, c, g, d, s, t) && g.state == E.Receiving && g.reader.state == P.RDone
      && !g.reader.releasing
    ensures Agreed(c, g.(state := E.Verifying)) && Along(l, c, g.(state := E.Verifying), d, s, t)
  {
    hide Fits, Valid, T.Fits, T.Streaming, Between, Payload, T.Image, Written;
    WholeImage(l, c, g, d);
  }

  lemma BlockBegins(l: Layout, c: T.Source, g: E.Engine, d: Device, o: Outcome)
    requires Agreed(c, g) && Parsing(c, g) && g.reader.state == P.RReady && !g.reader.releasing
    requires Between(l, g.writer, d, c.destination, T.Image(c)[..Reached(g.reader)])
    ensures var begun := WriterBegin(l, g.writer, d, c.destination, g.reader.offset, g.reader.data, o);
            begun.status == Ok ==>
              begun.d == d && Refined(l, begun.w, d, c.destination, T.Image(c)[..g.reader.offset])
                && begun.w.data == g.reader.data
  {
    hide Between, Refined, WriterBegin, T.Fits, T.Streaming, Payload, Stream, T.Image;
    BeginRefined(l, g.writer, d, c.destination, T.Image(c)[..g.reader.offset], Block(g.reader.data, o, []));
  }

  lemma WholeImage(l: Layout, c: T.Source, g: E.Engine, d: Device)
    requires Agreed(c, g) && Parsing(c, g) && g.reader.state == P.RDone && !g.reader.releasing
    requires Between(l, g.writer, d, c.destination, T.Image(c)[..Reached(g.reader)])
    ensures Written(l, d.mem, c.destination, T.Image(c))
  {
    hide Laid, T.Streaming, Payload, Stream;
    T.StreamingFacts(c, g.reader, Stream(c, g));
    var image := T.Image(c);
    assert image[..|image|] == image;
    LaidWritten(l, d.mem, c.destination, image, g.writer.erasedUntil);
  }

  lemma WritingAlong(l: Layout, c: T.Source, g: E.Engine, d: Device, e: Event, s: Snapshot, t: Snapshot)
    requires Ready(l) && Underway(l, c, g, d, s, t) && g.state == E.Writing
    ensures var (g1, d1) := E.StepWriting(l, g, d, e);
            Underway(l, c, g1, d1, s, t)
  {
    hide EngineInv, Fits, Valid, Ok?, Ready, Agreed, Along, WriterTick, E.Fail;
    EngineFacts(l, g, d, s, t);
    ActiveQuiet(l, g, d, s, t);
    WritingSafe(l, g, d, e, s, t);
    var (g1, d1) := E.StepWriting(l, g, d, e);
    WritingGoes(l, g, d, e);
    AgreedSame(c, g, g1);
    if g1.state == E.Aborting {
      QuietAlong(l, c, g1, d1, s, t);
    } else {
      BlockWritten(l, c, g, d, e, s, t);
      WrittenAlong(l, c, g, g1, d, d1, s, t);
    }
  }

  lemma WritingGoes(l: Layout, g: E.Engine, d: Device, e: Event)
    requires Fits(l, d.mem) && Ok?(l, g.journal) && Valid(l) && g.state == E.Writing && !g.requested
    ensures var (g1, d1) := E.StepWriting(l, g, d, e);
            var (w, d2) := WriterTick(l, g.writer, d, e);
            && g1.state in {E.Writing, E.Receiving, E.Aborting} && !g1.requested
            && g1.header == g.header && g1.running == g.running && g1.received == g.received && g1.rx == g.rx
            && g1.rxAt == g.rxAt
            && (g1.state != E.Aborting ==> g1.writer == w && d1 == d2)
            && (g1.state == E.Writing ==> w.status == Busy && g1.reader == g.reader)
            && (g1.state == E.Receiving ==> w.status == Ok && g1.reader == g.reader.(releasing := true))
  {
    hide Fits, Ok?, WriterTick;
  }

  lemma WrittenAlong(l: Layout, c: T.Source, g: E.Engine, g1: E.Engine, d: Device, d1: Device, s: Snapshot, t: Snapshot)
    requires Agreed(c, g) && Along(l, c, g, d, s, t) && g.state == E.Writing && Agreed(c, g1)
    requires g1.received == g.received && g1.rx == g.rx && g1.rxAt == g.rxAt
    requires g1.state == E.Writing || g1.state == E.Receiving
    requires var prior := T.Image(c)[..g.reader.offset];
             g1.state == E.Writing ==>
               g1.reader == g.reader && Refined(l, g1.writer, d1, c.destination, prior)
                 && g1.writer.data == g.reader.data
    requires g1.state == E.Receiving ==>
      && g1.reader == g.reader.(releasing := true) && Reached(g1.reader) <= |T.Image(c)|
      && Between(l, g1.writer, d1, c.destination, T.Image(c)[..Reached(g1.reader)])
      && T.Streaming(c, g1.reader, Stream(c, g))
    ensures Along(l, c, g1, d1, s, t)
  {
    hide T.Fits, T.Streaming, Refined, Between, Payload, T.Image;
  }

  lemma BlockWritten(l: Layout, c: T.Source, g: E.Engine, d: Device, e: Event, s: Snapshot, t: Snapshot)
    requires Valid(l) && Underway(l, c, g, d, s, t) && g.state == E.Writing
    ensures var (w, d1) := WriterTick(l, g.writer, d, e);
            && (w.status == Busy ==>
                Refined(l, w, d1, c.destination, T.Image(c)[..g.reader.offset]) && w.data == g.reader.data)
            && (w.status == Ok ==>
                  && Reached(g.reader.(releasing := true)) <= |T.Image(c)|
                  && Between(l, w, d1, c.destination, T.Image(c)[..Reached(g.reader.(releasing := true))])
                  && T.Streaming(c, g.reader.(releasing := true), Stream(c, g)))
  {
    hide EngineInv, Fits, Valid, Ok?, T.Fits, T.Streaming, Between, Refined, Payload, Stream, WriterTick, Written,
         T.Image;
    var prior := T.Image(c)[..g.reader.offset];
    WritingBusy(l, g, d, s, t);
    TickRefined(l, g.writer, d, e, c.destination, prior);
    BlockTaken(c, g.reader, Stream(c, g));
    var (w, d1) := WriterTick(l, g.writer, d, e);
    if w.status == Ok {
      FinishedBetween(l, w, d1, c.destination, prior);
      assert w.data[..|w.data|] == w.data;
    }
  }

  lemma WritingBusy(l: Layout, g: E.Engine, d: Device, s: Snapshot, t: Snapshot)
    requires EngineInv(l, g, d, s, t) && g.state == E.Writing
    ensures g.writer.status == Busy
  {
    hide Fits, Valid, Kept, HeaderOk, Ok?, WriterInv;
  }

  lemma VerifyingAlong(l: Layout, executing: nat, c: T.Source, g: E.Engine, d: Device, e: Event, s: Snapshot,
                       t: Snapshot)
    returns (t1: Snapshot)
    requires Ready(l) && Underway(l, c, g, d, s, t) && g.state == E.Verifying
    ensures var (g1, d1) := E.StepVerifying(l, executing, g, d, e);
            Underway(l, c, g1, d1, s, t1)
  {
    hide EngineInv, Fits, Valid, Ok?, Ready, Moves, Agreed, Along, E.StepVerifying, Offers;
    EngineFacts(l, g, d, s, t);
    t1 := VerifyingSafe(l, executing, g, d, e, s, t);
    ActiveQuiet(l, g, d, s, t);
    VerifyingGoes(l, executing, g, d, e);
    var (g1, d1) := E.StepVerifying(l, executing, g, d, e);
    AgreedSame(c, g, g1);
    if g1.state == E.Aborting {
      QuietAlong(l, c, g1, d1, s, t1);
    } else {
      ImageKept(l, c, g, g1, d, d1, s, t, s, t1);
    }
  }

  // The image stays written while the slot stays as it is.
  lemma ImageKept(l: Layout, c: T.Source, g: E.Engine, g1: E.Engine, d: Device, d1: Device, s: Snapshot, t: Snapshot,
                  s1: Snapshot, t1: Snapshot)
    requires Agreed(c, g) && Along(l, c, g, d, s, t) && g.state in {E.Verifying, E.Committing} && Agreed(c, g1)
    requires Fits(l, d.mem) && Fits(l, d1.mem) && Slot(l, d1.mem, E.Destination(g)) == Slot(l, d.mem, E.Destination(g))
    requires !g1.requested && g1.state in {E.Verifying, E.Committing, E.Done} && g1.running == g.running
    requires g1.state == E.Committing ==> if g.state == E.Verifying then Offers(g, g.header.value, t1) else t1 == t
    requires g1.state == E.Done ==> g.state == E.Committing && s1 == t
    ensures Along(l, c, g1, d1, s1, t1)
  {
    hide Fits, T.Fits, Payload, Fed, Slot;
  }

  lemma ActiveQuiet(l: Layout, g: E.Engine, d: Device, s: Snapshot, t: Snapshot)
    requires EngineInv(l, g, d, s, t)
    ensures g.state !in {E.Disabled, E.Idle, E.Done, E.Failed} ==> !g.requested
  {
    hide Fits, Valid, Ok?, Kept, WriterInv, HeaderOk, Phase;
  }

  lemma VerifyingGoes(l: Layout, executing: nat, g: E.Engine, d: Device, e: Event)
    requires Fits(l, d.mem) && Ok?(l, g.journal) && g.state == E.Verifying && !g.requested
    ensures var (g1, d1) := E.StepVerifying(l, executing, g, d, e);
            && g1.state in {E.Verifying, E.Committing, E.Aborting} && !g1.requested
            && g1.header == g.header && g1.running == g.running && g1.received == g.received && g1.rx == g.rx
            && g1.rxAt == g.rxAt
  {
    hide Fits, Ok?, Begin, Load, Read;
  }

  lemma CommittingAlong(l: Layout, c: T.Source, g: E.Engine, d: Device, e: Event, s: Snapshot, t: Snapshot)
    returns (s1: Snapshot)
    requires Ready(l) && Underway(l, c, g, d, s, t) && g.state == E.Committing
    ensures var (g1, d1) := E.StepCommitting(l, g, d, e);
            Underway(l, c, g1, d1, s1, t)
  {
    hide EngineInv, Fits, Valid, Ok?, Ready, Moves, Agreed, Along, E.StepCommitting, Slot;
    EngineFacts(l, g, d, s, t);
    s1 := CommittingSafe(l, g, d, e, s, t);
    CommittingSlots(l, g, d, e, s, t);
    CommittingGoes(l, g, d, e);
    var (g1, d1) := E.StepCommitting(l, g, d, e);
    AgreedSame(c, g, g1);
    if g1.state == E.Aborting {
      QuietAlong(l, c, g1, d1, s1, t);
    } else {
      ImageKept(l, c, g, g1, d, d1, s, t, s1, t);
    }
  }

  lemma CommittingGoes(l: Layout, g: E.Engine, d: Device, e: Event)
    requires Fits(l, d.mem) && Ok?(l, g.journal) && g.state == E.Committing && !g.requested
    ensures var (g1, d1) := E.StepCommitting(l, g, d, e);
            && g1.state in {E.Committing, E.Done, E.Aborting} && !g1.requested
            && g1.header == g.header && g1.running == g.running && g1.received == g.received && g1.rx == g.rx
            && g1.rxAt == g.rxAt
  {
    hide Fits, Ok?, Tick;
  }

  // Journal work leaves the slots alone.
  lemma CommittingSlots(l: Layout, g: E.Engine, d: Device, e: Event, s: Snapshot, t: Snapshot)
    requires Ready(l) && EngineInv(l, g, d, s, t) && g.state == E.Committing
    ensures var d1 := E.StepCommitting(l, g, d, e).1;
            && Fits(l, d1.mem) && Fits(l, d.mem)
            && Slot(l, d1.mem, E.Destination(g)) == Slot(l, d.mem, E.Destination(g)) && !g.requested
  {
    hide Fits, Valid, Ok?, Ready, Tick, Kept, HeaderOk, WriterInv, Working, OffSlots, SameSlots, Achieved;
    var s1 := TickSafe(l, g.journal, d, e, s, t);
    SlotSame(l, d.mem, Tick(l, g.journal, d, e).1.mem, E.Destination(g));
  }

  lemma AbortingAlong(l: Layout, executing: nat, c: T.Source, g: E.Engine, d: Device, e: Event, s: Snapshot,
                      t: Snapshot)
    returns (s1: Snapshot, t1: Snapshot)
    requires Ready(l) && Underway(l, c, g, d, s, t) && g.state == E.Aborting
    ensures var (g1, d1) := E.StepAborting(l, executing, g, d, e);
            Underway(l, c, g1, d1, s1, t1)
  {
    hide EngineInv, Fits, Valid, Ok?, Ready, Moves, Agreed, Along, E.StepAborting;
    EngineFacts(l, g, d, s, t);
    s1, t1 := AbortingSafe(l, executing, g, d, e, s, t);
    AbortingGoes(l, executing, g, d, e, s, t);
    var (g1, d1) := E.StepAborting(l, executing, g, d, e);
    AgreedSame(c, g, g1);
    QuietAlong(l, c, g1, d1, s1, t1);
  }

  lemma AbortingGoes(l: Layout, executing: nat, g: E.Engine, d: Device, e: Event, s: Snapshot, t: Snapshot)
    requires EngineInv(l, g, d, s, t) && g.state == E.Aborting
    ensures Fits(l, d.mem) && Ok?(l, g.journal)
    ensures var (g1, d1) := E.StepAborting(l, executing, g, d, e);
            && g1.state in {E.Aborting, E.Failed} && !g1.requested && g1.header == g.header && g1.running == g.running
            && g1.received == g.received && ((g1.rx == g.rx && g1.rxAt == g.rxAt) || (g1.rx == [] && g1.rxAt == 0))
  {
    hide Fits, Valid, Ok?, Kept, WriterInv, HeaderOk, Phase, Poll, Load, Begin, WriterTick, Tick;
  }

  /** Every tick of an installation, whatever flash and clock do, keeps the parser on
      the payload, the slot on the image and the record on both. */
  lemma InstallTick(l: Layout, executing: nat, c: T.Source, g: E.Engine, d: Device, e: Event, s: Snapshot, t: Snapshot)
    returns (s1: Snapshot, t1: Snapshot)
    requires Ready(l) && Underway(l, c, g, d, s, t)
    ensures Fits(l, d.mem) && Ok?(l, g.journal)
    ensures var (g1, d1) := E.Tick(l, executing, g, d, e);
            Underway(l, c, g1, d1, s1, t1)
  {
    hide Underway, Fits, Ok?, Ready, E.StepRest, E.StepInvalidating, E.StepReceiving, E.StepWriting, E.StepVerifying,
         E.StepCommitting, E.StepAborting;
    UnderwayFacts(l, c, g, d, s, t);
    s1, t1 := s, t;
    match g.state {
      case Disabled | Idle | Done | Failed => t1 := RestAlong(l, executing, c, g, d, e, s, t);
      case Invalidating => s1 := InvalidatingAlong(l, c, g, d, e, s, t);
      case Receiving => ReceivingAlong(l, c, g, d, e, s, t);
      case Writing => WritingAlong(l, c, g, d, e, s, t);
      case Verifying => t1 := VerifyingAlong(l, executing, c, g, d, e, s, t);
      case Committing => s1 := CommittingAlong(l, c, g, d, e, s, t);
      case Aborting => s1, t1 := AbortingAlong(l, executing, c, g, d, e, s, t);
    }
  }

  lemma UnderwayFacts(l: Layout, c: T.Source, g: E.Engine, d: Device, s: Snapshot, t: Snapshot)
    requires Underway(l, c, g, d, s, t)
    ensures Fits(l, d.mem) && Ok?(l, g.journal) && Valid(l) && T.Fits(c)
  {
    hide Along;
    EngineFacts(l, g, d, s, t);
  }

  // ---- Requests during an installation ----

  // A chunk of the payload, or one that the engine refuses.
  lemma ChunkAlong(l: Layout, c: T.Source, g: E.Engine, d: Device, offset: nat, data: seq<byte>, crc: int, s: Snapshot,
                   t: Snapshot)
    requires Underway(l, c, g, d, s, t)
    requires offset + |data| <= |Payload(c)| ==> data == Payload(c)[offset..offset + |data|]
    ensures Underway(l, c, E.Chunk(l, g, offset, data, crc).0, d, s, t)
  {
    hide EngineInv, T.Fits, Payload, T.Streaming, Between, Refined, Written, Offers, T.Image;
    ChunkInv(l, g, d, offset, data, crc, s, t);
    var g1 := E.Chunk(l, g, offset, data, crc).0;
    if g1 != g {
      assert Payload(c)[g.received..] == Stream(c, g) == Stream(c, g1);
    }
  }

  lemma ChunkInv(l: Layout, g: E.Engine, d: Device, offset: nat, data: seq<byte>, crc: int, s: Snapshot, t: Snapshot)
    requires EngineInv(l, g, d, s, t)
    ensures EngineInv(l, E.Chunk(l, g, offset, data, crc).0, d, s, t)
  {
    hide Fits, Valid, Kept, HeaderOk, Ok?, WriterInv, Inv, OffSlots, InSlot, Verified;
  }

  lemma AbortAlong(l: Layout, c: T.Source, g: E.Engine, d: Device, reason: Status, s: Snapshot, t: Snapshot)
    requires Underway(l, c, g, d, s, t)
    ensures Underway(l, c, E.Abort(g, reason), d, s, t)
  {
    hide T.Fits, Payload, T.Streaming, Between, Refined, Written, T.Image, Fits, Valid, Kept, HeaderOk, Ok?, WriterInv,
         Inv, OffSlots, InSlot, Verified;
  }

  lemma EnableAlong(l: Layout, c: T.Source, g: E.Engine, d: Device, value: bool, s: Snapshot, t: Snapshot)
    requires Underway(l, c, g, d, s, t)
    ensures Underway(l, c, E.Enable(g, value), d, s, t)
  {
    hide T.Fits, Payload, T.Streaming, Between, Refined, Written, T.Image, Fits, Valid, Kept, HeaderOk, Ok?, WriterInv,
         Inv, OffSlots, InSlot, Verified;
  }

  // ---- Whole installations ----

  // What an engine meets after the request: ticks, chunks and the other requests.
  datatype Input = Ticks(event: Event) | Sends(offset: nat, data: seq<byte>, crc: int) | Aborts(reason: Status)
                 | Enables(value: bool)

  // A client sends parts of the payload; everything else the engine refuses.
  ghost predicate Honest(c: T.Source, a: Input)
    requires T.Fits(c)
  {
    a.Sends? && a.offset + |a.data| <= |Payload(c)| ==> a.data == Payload(c)[a.offset..a.offset + |a.data|]
  }

  function Serve(l: Layout, executing: nat, g: E.Engine, d: Device, inputs: seq<Input>): (r: (E.Engine, Device))
    requires Fits(l, d.mem) && Ok?(l, g.journal)
    decreases |inputs|
  {
    if inputs == [] then (g, d)
    else match inputs[0]
      case Ticks(e) =>
        var (g1, d1) := E.Tick(l, executing, g, d, e);
        FitsSame(l, d.mem, d1.mem);
        Serve(l, executing, g1, d1, inputs[1..])
      case Sends(offset, data, crc) => Serve(l, executing, E.Chunk(l, g, offset, data, crc).0, d, inputs[1..])
      case Aborts(reason) => Serve(l, executing, E.Abort(g, reason), d, inputs[1..])
      case Enables(value) => Serve(l, executing, E.Enable(g, value), d, inputs[1..])
  }

  lemma {:induction false} ServeAlong(l: Layout, executing: nat, c: T.Source, g: E.Engine, d: Device,
                                      inputs: seq<Input>, s: Snapshot, t: Snapshot) returns (s1: Snapshot, t1: Snapshot)
    requires Ready(l) && Underway(l, c, g, d, s, t) && T.Fits(c)
    requires forall i :: 0 <= i < |inputs| ==> Honest(c, inputs[i])
    ensures Fits(l, d.mem) && Ok?(l, g.journal)
    ensures var (g1, d1) := Serve(l, executing, g, d, inputs);
            Underway(l, c, g1, d1, s1, t1)
    decreases |inputs|
  {
    hide Underway, Fits, Ok?, Ready, E.Tick, E.Chunk, E.Abort, E.Enable, T.Fits;
    UnderwayFacts(l, c, g, d, s, t);
    s1, t1 := s, t;
    if inputs != [] {
      var rest := inputs[1..];
      assert Honest(c, inputs[0]);
      match inputs[0] {
        case Ticks(e) =>
          s1, t1 := InstallTick(l, executing, c, g, d, e, s, t);
          var (g1, d1) := E.Tick(l, executing, g, d, e);
          s1, t1 := ServeAlong(l, executing, c, g1, d1, rest, s1, t1);
        case Sends(offset, data, crc) =>
          ChunkAlong(l, c, g, d, offset, data, crc, s, t);
          s1, t1 := ServeAlong(l, executing, c, E.Chunk(l, g, offset, data, crc).0, d, rest, s, t);
        case Aborts(reason) =>
          AbortAlong(l, c, g, d, reason, s, t);
          s1, t1 := ServeAlong(l, executing, c, E.Abort(g, reason), d, rest, s, t);
        case Enables(value) =>
          EnableAlong(l, c, g, d, value, s, t);
          s1, t1 := ServeAlong(l, executing, c, E.Enable(g, value), d, rest, s, t);
      }
    }
  }

  // The request was for this package.
  ghost predicate Matches(l: Layout, c: T.Source, header: seq<byte>, running: nat) {
    && T.Fits(c) && running < 2 && c.destination == 1 - running && c.header.packageSize == P.HEADER + |Payload(c)|
    && P.DecodeHeader(header, l, c.destination) == (Ok, Some(c.header))
  }

  lemma BegunAlong(l: Layout, c: T.Source, g: E.Engine, d: Device, header: seq<byte>, owner: Option<nat>, o: Outcome,
                   s: Snapshot, t: Snapshot) returns (s1: Snapshot, t1: Snapshot)
    requires Ready(l) && EngineInv(l, g, d, s, t) && Matches(l, c, header, g.running)
    ensures Fits(l, d.mem) && Ok?(l, g.journal)
    ensures var r := E.Begin(l, g, d, header, owner, o);
            r.status == Ok ==> Underway(l, c, r.g, r.d, s1, t1) && r.g.requested
  {
    hide EngineInv, Fits, Valid, Ok?, Ready, T.Fits, Load, P.DecodeHeader, Written;
    EngineFacts(l, g, d, s, t);
    s1, t1 := SystemSafety.InstallSafe(l, g, d, header, owner, o, s, t);
    var r := E.Begin(l, g, d, header, owner, o);
    if r.status == Ok {
      BegunFields(l, c, g, d, header, owner, o);
      PayloadSome(c);
    }
  }

  lemma PayloadSome(c: T.Source)
    requires T.Fits(c)
    ensures |Payload(c)| > 0
  {
    T.NextBoundary(c, 0);
  }

  lemma BegunFields(l: Layout, c: T.Source, g: E.Engine, d: Device, header: seq<byte>, owner: Option<nat>, o: Outcome)
    requires Fits(l, d.mem) && Ok?(l, g.journal) && Matches(l, c, header, g.running)
    requires E.Begin(l, g, d, header, owner, o).status == Ok
    ensures var g1 := E.Begin(l, g, d, header, owner, o).g;
            && g1.header == Some(c.header) && g1.running == g.running && g1.received == 0 && g1.rx == [] && g1.rxAt == 0
            && g1.requested && g1.state == g.state && g1.state in {E.Disabled, E.Idle, E.Done, E.Failed}
  {
    hide Fits, Ok?, T.Fits, Load, P.DecodeHeader, Payload;
  }

  /** An installation that ends well installed the package. For every package, every way
      its payload is cut into chunks and sent, every timing, every fault and every abort:
      when the engine says done, the slot holds exactly the image linked for it, and load
      returns a snapshot that offers it as pending, with its size and checksum. */
  lemma InstallExact(l: Layout, executing: nat, c: T.Source, g: E.Engine, d: Device, header: seq<byte>,
                     owner: Option<nat>, o: Outcome, inputs: seq<Input>, s: Snapshot, t: Snapshot)
    requires Ready(l) && EngineInv(l, g, d, s, t) && Matches(l, c, header, g.running)
    requires forall i :: 0 <= i < |inputs| ==> Honest(c, inputs[i])
    ensures Fits(l, d.mem) && Ok?(l, g.journal)
    ensures var begun := E.Begin(l, g, d, header, owner, o);
            begun.status == Ok ==>
              && Fits(l, begun.d.mem)
              && var (g1, d1) := Serve(l, executing, begun.g, begun.d, inputs);
                 g1.state == E.Done && !g1.requested ==>
                   && Written(l, d1.mem, c.destination, T.Image(c))
                   && exists s1 :: Recovers(l, d1.mem, s1) && Offers(g1, c.header, s1)
  {
    hide EngineInv, Fits, Valid, Ok?, Ready, T.Fits, E.Begin, Serve, Written, Recovers, Offers, Matches, Honest;
    EngineFacts(l, g, d, s, t);
    var s1, t1 := BegunAlong(l, c, g, d, header, owner, o, s, t);
    var begun := E.Begin(l, g, d, header, owner, o);
    FitsSame(l, d.mem, begun.d.mem);
    if begun.status == Ok {
      s1, t1 := ServeAlong(l, executing, c, begun.g, begun.d, inputs, s1, t1);
      var (g1, d1) := Serve(l, executing, begun.g, begun.d, inputs);
      if g1.state == E.Done && !g1.requested {
        UnderwayHolds(l, c, g1, d1, s1, t1);
        HoldsRecovers(l, d1.mem, s1);
      }
    }
  }

  lemma UnderwayHolds(l: Layout, c: T.Source, g: E.Engine, d: Device, s: Snapshot, t: Snapshot)
    requires Underway(l, c, g, d, s, t)
    ensures Holds(l, d.mem, s)
  {
    hide Along, Agreed, Kept;
    EngineFacts(l, g, d, s, t);
    KeptFacts(l, E.Destination(g), d, s, t);
  }
}
