/** An installation without a fault comes to its end: the package is received, written,
    verified and recorded, however long each operation takes. */
module EngineFinish {
  import opened Bytes
  import opened Record
  import opened Formats
  import opened Layouts
  import opened Flash
  import opened JournalSpec
  import opened JournalLoad
  import opened JournalSafety
  import opened JournalRuns
  import opened JournalCommit
  import opened ControlSafety
  import opened WriterSpec
  import opened WriterSafety
  import opened EngineSafety
  import opened EngineTicks
  import opened EngineInstall
  import JP = JournalPrompt
  import JB = JournalBudget
  import W = WriterRefine
  import P = PackageSpec
  import T = PackageTrip
  import E = EngineSpec
  import K = Packaging
  import B = PackageBuild
  import Crc32

  // ---- The surroundings ----

  // The journal has room for a record, whatever it says.
  ghost predicate Room(l: Layout, executing: nat, j: Journal, d: Device, o: Outcome)
    requires Fits(l, d.mem) && Ok?(l, j)
  {
    forall w: Snapshot :: Begin(l, executing, j, d, w, false, o).status != Full
  }

  // The tick finds no timeout passed, and room in the journal when it is needed.
  ghost predicate OnTime(l: Layout, executing: nat, g: E.Engine, d: Device, e: Event)
    requires Fits(l, d.mem) && Ok?(l, g.journal)
  {
    match g.state
    case Disabled | Idle | Done | Failed => Room(l, executing, g.journal, d, e.outcome)
    case Invalidating | Committing => g.journal.requested || Elapsed(e.now, g.journal.started) < l.operationTimeout
    case Receiving => Elapsed(e.now, g.waitingSince) < g.inactivity
    case Writing =>
      g.writer.state in {WEraseWait, WProgramWait} && !e.outcome.Finished? ==>
        Elapsed(e.now, g.writer.started) < l.operationTimeout
    case Verifying =>
      var loaded := Load(l, g.journal, d, e.outcome);
      FitsSame(l, d.mem, loaded.d.mem);
      Room(l, executing, loaded.j, loaded.d, e.outcome)
    case Aborting => true
  }

  // The client sends the next chunk as soon as the engine takes one.
  function Feed(l: Layout, c: T.Source, g: E.Engine): E.Engine
    requires T.Fits(c)
  {
    if !E.Accepting(g) || g.received > |Payload(c)| then g
    else
      var data := Payload(c)[g.received..g.received + P.Min(P.BLOCK, |Payload(c)| - g.received)];
      E.Chunk(l, g, g.received, data, l.crc(0, data)).0
  }

  lemma FeedJournal(l: Layout, c: T.Source, g: E.Engine)
    requires T.Fits(c)
    ensures Feed(l, c, g) == g.(rx := Feed(l, c, g).rx, rxAt := Feed(l, c, g).rxAt, received := Feed(l, c, g).received)
  {
    hide T.Fits, Payload;
  }

  function Drive(l: Layout, executing: nat, c: T.Source, g: E.Engine, d: Device,
                 script: seq<Event>): (r: (E.Engine, Device))
    requires T.Fits(c) && Fits(l, d.mem) && Ok?(l, g.journal)
    decreases |script|
  {
    if script == [] || !E.Active(g) then (g, d)
    else
      FeedJournal(l, c, g);
      var (g1, d1) := E.Tick(l, executing, Feed(l, c, g), d, script[0]);
      FitsSame(l, d.mem, d1.mem);
      Drive(l, executing, c, g1, d1, script[1..])
  }

  // No event of the script is a fault, and every tick is on time.
  ghost predicate Smooth(l: Layout, executing: nat, c: T.Source, g: E.Engine, d: Device, script: seq<Event>)
    requires T.Fits(c) && Fits(l, d.mem) && Ok?(l, g.journal)
    decreases |script|
  {
    if script == [] || !E.Active(g) then true
    else
      FeedJournal(l, c, g);
      FaultFree(script[0]) && OnTime(l, executing, Feed(l, c, g), d, script[0])
      && var (g1, d1) := E.Tick(l, executing, Feed(l, c, g), d, script[0]);
         FitsSame(l, d.mem, d1.mem);
         Smooth(l, executing, c, g1, d1, script[1..])
  }

  // ---- A healthy installation ----

  // Numbers are left for more records.
  predicate Counted(s: Snapshot, records: nat) { s.sequence + records < TWO_64 && s.counter < TWO_64 - 1 }

  ghost predicate Sound(l: Layout, c: T.Source, g: E.Engine) {
    E.Authorized(g) && !g.abortRequested && c.header.Crc(c.destination) == l.crc(0, T.Image(c))
  }

  ghost predicate Fit(g: E.Engine, d: Device, s: Snapshot, t: Snapshot) {
    match g.state
    case Disabled | Idle | Failed => g.requested && Counted(s, 2)
    case Done => g.requested ==> Counted(s, 2)
    case Invalidating => JP.Owned(g.journal, d) && !g.journal.timedOut && Counted(t, 1)
    case Receiving | Verifying => Counted(s, 1)
    case Writing => Counted(s, 1) && !g.writer.cancelled
    case Committing => JP.Owned(g.journal, d) && !g.journal.timedOut
    case Aborting => false
  }

  ghost predicate Healthy(l: Layout, c: T.Source, g: E.Engine, d: Device, s: Snapshot, t: Snapshot) {
    Underway(l, c, g, d, s, t) && Sound(l, c, g) && Fit(g, d, s, t)
  }

  // ---- How much is left to do ----

  const STEP: nat := 5000
  const TAIL: nat := JB.TICKS

  function Front(c: T.Source): int
    requires T.Fits(c)
  {
    TAIL + |T.Image(c)| + 2 + STEP * |T.Image(c)| + 2 * |Payload(c)|
  }

  function Measure(c: T.Source, g: E.Engine): int
    requires T.Fits(c) && g.rxAt <= |g.rx| <= g.received <= |Payload(c)|
  {
    var size := |T.Image(c)|;
    match g.state
    case Disabled | Idle | Failed | Aborting => Front(c) + 2 * TAIL
    case Done => if g.requested then Front(c) + 2 * TAIL else 0
    case Invalidating => Front(c) + JP.Cost(g.journal)
    case Receiving =>
      TAIL + size + 1 + STEP * (size - Reached(g.reader)) + 2 * |Stream(c, g)| + (if g.reader.releasing then 1 else 0)
    case Writing =>
      TAIL + size + 1 + STEP * (size - g.reader.offset - g.reader.length) + 2 * |Stream(c, g)| + W.Cost(g.writer)
    case Verifying => TAIL + size - g.verifyOffset
    case Committing => JP.Cost(g.journal)
  }

  // One tick later: done, or nearer to it by at least a finished operation.
  ghost predicate Nearer(l: Layout, c: T.Source, g: E.Engine, g1: E.Engine, d1: Device, e: Event, s1: Snapshot,
                         t1: Snapshot)
    requires Agreed(c, g)
  {
    && Healthy(l, c, g1, d1, s1, t1)
    && Measure(c, g1) + (if e.outcome.Finished? then 1 else 0) <= Measure(c, g)
  }

  // ---- Beginning a record ----

  /** A record begins when the numbers and the room are there. */
  lemma BeginSucceeds(l: Layout, executing: nat, j: Journal, d: Device, w: Snapshot, o: Outcome, s: Snapshot)
    requires Ready(l) && Ok?(l, j) && j.status != Busy && d.op.NoOp? && Fits(l, d.mem) && Holds(l, d.mem, s)
    requires Accepts(s, w) && Committable(JournalCommit.Next(s, w)) && Room(l, executing, j, d, o)
    ensures var r := Begin(l, executing, j, d, w, false, o);
            && r.status == Ok && r.d == d && JP.Cost(r.j) <= JB.TICKS && JP.Owned(r.j, d) && !r.j.timedOut
            && r.j.status == Busy
  {
    hide Fits, Valid, Records, Holds, Lawful, Load, Plan, Committable, Ready;
    JB.LatestFound(l, j, d, o, s);
    var loaded := Load(l, j, d, o);
    PlanFullOrOk(l, executing, loaded.j, d.mem, loaded.j.latest, s, w);
    var (j1, status) := Plan(l, executing, loaded.j, d.mem, Some(loaded.j.latest), w);
    assert Begin(l, executing, j, d, w, false, o).status == status;
    JB.IdleState(l, Request(j1));
  }

  lemma PlanFullOrOk(l: Layout, executing: nat, j: Journal, mem: seq<int>, n: nat, s: Snapshot, w: Snapshot)
    requires Ready(l) && Fits(l, mem) && Ok?(l, j) && j.status != Busy
    requires n < 2 * Records(l) && Dec(l, mem, n) == Some(s) && Accepts(s, w) && Committable(JournalCommit.Next(s, w))
    ensures Plan(l, executing, j, mem, Some(n), w).1 in {Ok, Full}
  {
    hide Fits, Valid, Records, Place, FirstBlank, Lawful, Committable, Ok?;
    JB.EncodedDecodes(l, JournalCommit.Next(s, w));
  }

  // ---- Withdrawing and committing ----

  lemma RestNearer(l: Layout, executing: nat, c: T.Source, g: E.Engine, d: Device, e: Event, s: Snapshot, t: Snapshot)
    returns (t1: Snapshot)
    requires Ready(l) && Healthy(l, c, g, d, s, t) && g.state in {E.Disabled, E.Idle, E.Done, E.Failed} && g.requested
    requires Fits(l, d.mem) && Ok?(l, g.journal) && OnTime(l, executing, g, d, e)
    ensures var (g1, d1) := E.StepRest(l, executing, g, d, e);
            Nearer(l, c, g, g1, d1, e, s, t1)
  {
    hide Underway, Fits, Ok?, Ready, Begin, Room, JP.Cost, JP.Owned, T.Fits, T.Image, Payload;
    t1 := RestAlong(l, executing, c, g, d, e, s, t);
    WithdrawBegins(l, executing, c, g, d, e, s, t);
    UnderwayAgreed(l, c, g, d, s, t);
    var (g1, d1) := E.StepRest(l, executing, g, d, e);
    UnderwayAgreed(l, c, g1, d1, s, t1);
  }

  lemma UnderwayAgreed(l: Layout, c: T.Source, g: E.Engine, d: Device, s: Snapshot, t: Snapshot)
    requires Underway(l, c, g, d, s, t)
    ensures Agreed(c, g) && T.Fits(c) && g.rxAt <= |g.rx| <= g.received <= |Payload(c)|
  {
    hide EngineInv, Along, T.Fits, Payload;
  }

  lemma WithdrawBegins(l: Layout, executing: nat, c: T.Source, g: E.Engine, d: Device, e: Event, s: Snapshot,
                       t: Snapshot)
    requires Ready(l) && Healthy(l, c, g, d, s, t) && g.state in {E.Disabled, E.Idle, E.Done, E.Failed} && g.requested
    requires Fits(l, d.mem) && Ok?(l, g.journal) && Room(l, executing, g.journal, d, e.outcome)
    ensures var slot := E.Destination(g);
            var w := g.snapshot.With(slot, g.snapshot.Slot(slot).(state := Incomplete));
            var r := Begin(l, executing, g.journal, d, w, false, e.outcome);
            && r.status == Ok && r.d == d && JP.Cost(r.j) <= JB.TICKS && JP.Owned(r.j, d) && !r.j.timedOut
  {
    hide Fits, Valid, Ok?, Ready, Begin, Room, Safe, Holds, Committable, Along, Agreed, JP.Cost, JP.Owned;
    var slot := E.Destination(g);
    RequestedFacts(l, g, d, s, t);
    DestinationOther(g);
    WithdrawSafe(l, d.mem, s, slot, s.sequence + 1);
    var w := s.With(slot, s.Slot(slot).(state := Incomplete));
    CommittableOf(l, d.mem, w.(sequence := s.sequence + 1));
    BeginSucceeds(l, executing, g.journal, d, w, e.outcome, s);
  }

  lemma CommittableOf(l: Layout, mem: seq<int>, s: Snapshot)
    requires Safe(l, mem, s)
    ensures Committable(s)
  {
    hide Intact, Committable;
  }

  lemma RequestedFacts(l: Layout, g: E.Engine, d: Device, s: Snapshot, t: Snapshot)
    requires EngineInv(l, g, d, s, t) && g.requested
    ensures g.snapshot == s && d.op.NoOp? && Holds(l, d.mem, s) && Safe(l, d.mem, s) && g.journal.status != Busy
      && g.running < 2
    ensures s.Slot(g.running).state == Confirmed
  {
    hide Fits, Valid, Safe, Holds, Cell, WriterInv, HeaderOk, Ok?, Kept;
    KeptFacts(l, E.Destination(g), d, s, t);
  }

  // One tick of the journal on time.
  lemma JournalNearer(l: Layout, g: E.Engine, d: Device, e: Event, s: Snapshot, t: Snapshot) returns (s1: Snapshot)
    requires Ready(l) && EngineInv(l, g, d, s, t) && g.state in {E.Invalidating, E.Committing} && FaultFree(e)
    requires JP.Owned(g.journal, d) && !g.journal.timedOut
    requires g.journal.requested || Elapsed(e.now, g.journal.started) < l.operationTimeout
    ensures Fits(l, d.mem) && Ok?(l, g.journal)
    ensures var (j1, d1) := Tick(l, g.journal, d, e);
            && JP.Owned(j1, d1) && !j1.timedOut && (j1.status == Busy || j1.status == Ok) && JP.Cost(g.journal) > 0
            && (j1.status == Busy ==> JP.Cost(j1) + (if e.outcome.Finished? then 1 else 0) <= JP.Cost(g.journal))
  {
    hide Fits, Valid, Records, Cell, Working, Tick, Kept, WriterInv, HeaderOk, JP.Cost, JP.Owned, JP.Prospect,
         JP.Fulfilled, Ok?, Ready, OffSlots;
    EngineFacts(l, g, d, s, t);
    JP.CostPositive(l, g.journal);
    s1 := JP.PromptTick(l, g.journal, d, e, s, t);
    var (j1, d1) := Tick(l, g.journal, d, e);
    CostSame(g.journal, g.journal.(started := j1.started));
  }

  lemma CostSame(j: Journal, j0: Journal)
    requires j0 == j.(started := j0.started)
    ensures JP.Cost(j0) == JP.Cost(j)
  {}

  lemma InvalidatingNearer(l: Layout, c: T.Source, g: E.Engine, d: Device, e: Event, s: Snapshot, t: Snapshot)
    returns (s1: Snapshot)
    requires Ready(l) && Healthy(l, c, g, d, s, t) && g.state == E.Invalidating && FaultFree(e)
    requires g.journal.requested || Elapsed(e.now, g.journal.started) < l.operationTimeout
    ensures Fits(l, d.mem) && Ok?(l, g.journal)
    ensures var (g1, d1) := E.StepInvalidating(l, g, d, e);
            Nearer(l, c, g, g1, d1, e, s1, t)
  {
    hide Fits, Valid, Ok?, Ready, Agreed, Along, EngineInv, Tick, JP.Cost, JP.Owned, P.ReaderTick, P.ReaderStart,
         T.Fits, T.Image, Payload;
    UnderwayAgreed(l, c, g, d, s, t);
    var s0 := JournalNearer(l, g, d, e, s, t);
    s1 := InvalidatingAlong(l, c, g, d, e, s, t);
    InvalidatingGoes(l, g, d, e);
    var (g1, d1) := E.StepInvalidating(l, g, d, e);
    UnderwayAgreed(l, c, g1, d1, s1, t);
    HeaderThere(c, g);
    if g1.state == E.Receiving {
      BegunPlace(g.reader, c.header, c.destination);
      EmptyStream(c, g1);
    }
  }

  lemma HeaderThere(c: T.Source, g: E.Engine)
    requires Agreed(c, g)
    ensures g.header == Some(c.header) && g.running < 2 && c.destination == E.Destination(g)
  {
    hide T.Fits, Payload, Fed;
  }

  lemma EmptyStream(c: T.Source, g: E.Engine)
    requires T.Fits(c) && g.rxAt <= |g.rx| <= g.received <= |Payload(c)|
    ensures |Stream(c, g)| <= |Payload(c)|
  {
    hide T.Fits, Payload;
  }

  lemma CommittingNearer(l: Layout, c: T.Source, g: E.Engine, d: Device, e: Event, s: Snapshot, t: Snapshot)
    returns (s1: Snapshot)
    requires Ready(l) && Healthy(l, c, g, d, s, t) && g.state == E.Committing && FaultFree(e)
    requires g.journal.requested || Elapsed(e.now, g.journal.started) < l.operationTimeout
    ensures Fits(l, d.mem) && Ok?(l, g.journal)
    ensures var (g1, d1) := E.StepCommitting(l, g, d, e);
            Nearer(l, c, g, g1, d1, e, s1, t)
  {
    hide Fits, Valid, Ok?, Ready, Agreed, Along, EngineInv, Tick, JP.Cost, JP.Owned, T.Fits, T.Image, Payload;
    UnderwayAgreed(l, c, g, d, s, t);
    var s0 := JournalNearer(l, g, d, e, s, t);
    s1 := CommittingAlong(l, c, g, d, e, s, t);
    var (g1, d1) := E.StepCommitting(l, g, d, e);
    UnderwayAgreed(l, c, g1, d1, s1, t);
    ActiveQuiet(l, g, d, s, t);
  }

  // ---- Receiving ----

  // The parser got input, or hands over what it has.
  lemma ParseNearer(c: T.Source, g: E.Engine, now: nat)
    requires Agreed(c, g) && Parsing(c, g) && g.state == E.Receiving && E.Authorized(g) && !g.abortRequested
      && !E.Accepting(g)
    ensures var g1 := E.Parse(g, now);
            && Agreed(c, g1) && Parsing(c, g1) && Reached(g1.reader) == Reached(g.reader) && !g1.reader.releasing
            && |Stream(c, g1)| <= |Stream(c, g)|
            && (g1.reader.state !in {P.RReady, P.RDone} ==>
                  && 2 * |Stream(c, g1)| + 1 <= 2 * |Stream(c, g)| + (if g.reader.releasing then 1 else 0)
                  && (g1.rx == [] ==> g1.received < |Payload(c)|))
            && (g1.reader.state == P.RDone ==> g1.rx == [] && g1.received == |Payload(c)|)
            && g1.reader.state != P.RFailed
  {
    hide T.Fits, Payload, T.Streaming, E.Parse, T.Image, Stream;
    Ahead(c, g);
    ParseMoves(c, g, now);
    var g1 := E.Parse(g, now);
    Ahead(c, g1);
    T.StreamingFacts(c, g.reader, Stream(c, g));
    T.StreamingFacts(c, g1.reader, Stream(c, g1));
    WaitingStays(g, now);
    if g1.reader.state == P.RDone { NothingAhead(c, g1); }
    if g.rx == [] && g.received == |Payload(c)| { NothingAhead(c, g); }
  }

  lemma NothingAhead(c: T.Source, g: E.Engine)
    requires T.Fits(c) && Fed(c, g)
    ensures Stream(c, g) == [] <==> g.rx == [] && g.received == |Payload(c)|
  {
    hide T.Fits, Payload;
  }

  // A block that nobody took stays.
  lemma WaitingStays(g: E.Engine, now: nat)
    requires g.rxAt <= |g.rx| && !g.reader.starting && g.reader.header.Some?
    ensures g.reader.state in {P.RReady, P.RDone} && !g.reader.releasing ==> E.Parse(g, now).reader == g.reader
  {
    ParsedReader(g, now);
  }

  // Where the engine goes when nothing is wrong.
  lemma ReceivingGoes(l: Layout, g: E.Engine, d: Device, e: Event, total: nat)
    requires Fits(l, d.mem) && Ok?(l, g.journal) && g.state == E.Receiving && !E.Stopping(g) && E.Total(g) == total
    requires var g1 := E.Parse(g, e.now);
             && g1.reader.state != P.RFailed && E.Total(g1) == total
             && (g1.reader.state == P.RDone ==> g1.rx == [] && g1.received == total)
             && (g1.reader.state !in {P.RReady, P.RDone} && g1.rx == [] ==>
                   g1.received < total && Elapsed(e.now, g1.waitingSince) < g1.inactivity)
    ensures var g1 := E.Parse(g, e.now);
            var (g2, d2) := E.StepReceiving(l, g, d, e);
            var begun := WriterBegin(l, g1.writer, d, E.Destination(g), g1.reader.offset, g1.reader.data, e.outcome);
            && (g1.reader.state == P.RReady && begun.status == Ok ==> g2 == g1.(writer := begun.w, state := E.Writing))
            && (g1.reader.state == P.RDone ==> g2 == g1.(state := E.Verifying))
            && (g1.reader.state !in {P.RReady, P.RDone} ==> g2 == g1)
  {
    hide Fits, Ok?, E.Parse, WriterBegin, E.Total;
  }

  lemma ParsedTime(g: E.Engine, now: nat)
    requires Elapsed(now, g.waitingSince) < g.inactivity
    ensures Elapsed(now, E.Parse(g, now).waitingSince) < E.Parse(g, now).inactivity
      && E.Total(E.Parse(g, now)) == E.Total(g)
  {
    hide P.ReaderTick;
  }

  lemma BlockStarts(l: Layout, c: T.Source, g: E.Engine, d: Device, o: Outcome)
    requires Agreed(c, g) && Parsing(c, g) && g.reader.state == P.RReady && !g.reader.releasing
      && HeaderOk(l, c.header, c.destination)
    requires W.Between(l, g.writer, d, c.destination, T.Image(c)[..Reached(g.reader)])
    ensures var begun := WriterBegin(l, g.writer, d, E.Destination(g), g.reader.offset, g.reader.data, o);
            && begun.status == Ok && !begun.w.cancelled && W.Cost(begun.w) == 4 * g.reader.length + 5
            && 0 < g.reader.length && g.reader.offset + g.reader.length <= |T.Image(c)|
  {
    hide T.Fits, Payload, Stream, W.Laid, T.Image;
    BlockTaken(c, g.reader, Stream(c, g));
    T.StreamingFacts(c, g.reader, Stream(c, g));
    HeaderSize(l, c.header, c.destination);
    SizeOf(c);
    BlockFits(l, c.destination, g.reader.offset, g.reader.length, |T.Image(c)|);
    PollIdle(l, d, o);
  }

  lemma SizeOf(c: T.Source)
    requires T.Fits(c)
    ensures |T.Image(c)| == c.header.imageSize > 0
  {}

  lemma BlockFits(l: Layout, slot: nat, offset: nat, n: nat, size: nat)
    requires Valid(l) && slot < 2 && offset % P.BLOCK == 0 && n > 0 && offset + n <= size <= l.slotSize
    ensures Fitting(l, slot, offset, n)
  {
    BlockAligned(offset, l.writeSize);
  }

  lemma BlockAligned(offset: nat, writeSize: nat)
    requires offset % 1024 == 0 && (writeSize == 16 || writeSize == 32)
    ensures offset % writeSize == 0
  {
    var k := offset / 1024;
    Sixteens(32 * k);
    Sixteens(64 * k);
    assert offset == 32 * (32 * k) && offset == 16 * (64 * k);
  }

  lemma Sixteens(m: nat)
    ensures (16 * m) % 16 == 0 && (32 * m) % 32 == 0
  {}

  // The three ways on, and what they leave to do.
  lemma StillReceiving(c: T.Source, g: E.Engine, g1: E.Engine)
    requires Agreed(c, g) && Agreed(c, g1) && g.state == g1.state == E.Receiving
    requires Reached(g1.reader) == Reached(g.reader) && !g1.reader.releasing
    requires 2 * |Stream(c, g1)| + 1 <= 2 * |Stream(c, g)| + (if g.reader.releasing then 1 else 0)
    ensures Measure(c, g1) + 1 <= Measure(c, g)
  {
    hide T.Fits, Payload, Stream, T.Image, Reached;
  }

  lemma NowWriting(c: T.Source, g: E.Engine, g1: E.Engine)
    requires Agreed(c, g) && Agreed(c, g1) && g.state == E.Receiving && g1.state == E.Writing
    requires g1.reader.offset == Reached(g.reader) && |Stream(c, g1)| <= |Stream(c, g)|
    requires g1.reader.length > 0 && W.Cost(g1.writer) == 4 * g1.reader.length + 5
    ensures Measure(c, g1) + 1 <= Measure(c, g)
  {
    hide T.Fits, Payload, Stream, T.Image, Reached, W.Cost;
  }

  lemma NowVerifying(c: T.Source, g: E.Engine, g1: E.Engine)
    requires Agreed(c, g) && Agreed(c, g1) && g.state == E.Receiving && g1.state == E.Verifying && g1.verifyOffset == 0
    requires Reached(g.reader) <= |T.Image(c)|
    ensures Measure(c, g1) + 1 <= Measure(c, g)
  {
    hide T.Fits, Payload, Stream, T.Image, Reached;
  }

  lemma ReceivingNearer(l: Layout, c: T.Source, g: E.Engine, d: Device, e: Event, s: Snapshot, t: Snapshot)
    requires Ready(l) && Healthy(l, c, g, d, s, t) && g.state == E.Receiving && !E.Accepting(g)
    requires Elapsed(e.now, g.waitingSince) < g.inactivity
    ensures Fits(l, d.mem) && Ok?(l, g.journal)
    ensures var (g1, d1) := E.StepReceiving(l, g, d, e);
            Nearer(l, c, g, g1, d1, e, s, t)
  {
    hide Fits, Valid, Ok?, Ready, EngineInv, Agreed, Along, Parsing, E.Parse, WriterBegin, W.Between, Measure, Reached,
         E.StepReceiving, T.Fits, E.Accepting;
    EngineFacts(l, g, d, s, t);
    UnderwayAgreed(l, c, g, d, s, t);
    ReceivingAlong(l, c, g, d, e, s, t);
    var (g1, d1) := E.StepReceiving(l, g, d, e);
    UnderwayAgreed(l, c, g1, d1, s, t);
    ReceivingOn(l, c, g, d, e, s, t);
  }

  lemma ReceivingOn(l: Layout, c: T.Source, g: E.Engine, d: Device, e: Event, s: Snapshot, t: Snapshot)
    requires Healthy(l, c, g, d, s, t) && g.state == E.Receiving && !E.Accepting(g)
    requires Elapsed(e.now, g.waitingSince) < g.inactivity
    ensures Fits(l, d.mem) && Ok?(l, g.journal) && Agreed(c, g)
    ensures var (g1, d1) := E.StepReceiving(l, g, d, e);
            && Sound(l, c, g1) && Fit(g1, d1, s, t)
            && (Agreed(c, g1) ==> Measure(c, g1) + 1 <= Measure(c, g))
  {
    hide Fits, Valid, Ok?, EngineInv, Parsing, E.Parse, WriterBegin, W.Between, Measure, Reached, E.StepReceiving,
         T.Fits, T.Image, Payload, Stream, E.Accepting, W.Cost;
    EngineFacts(l, g, d, s, t);
    ReceivingParts(l, c, g, d, s, t);
    ParseNearer(c, g, e.now);
    ParsedTime(g, e.now);
    ParsedFields(g, e.now);
    var g1 := E.Parse(g, e.now);
    ReceivingGoes(l, g, d, e, |Payload(c)|);
    var g2 := E.StepReceiving(l, g, d, e).0;
    HeaderFits(l, g, d, s, t);
    if g1.reader.state == P.RReady {
      BlockStarts(l, c, g1, d, e.outcome);
      ReachedPlain(g1.reader);
      StreamSame(c, g1, g2);
      if Agreed(c, g2) { NowWriting(c, g, g2); }
    } else if g1.reader.state == P.RDone {
      UnverifiedYet(l, g, d, s, t);
      if Agreed(c, g2) { NowVerifying(c, g, g2); }
    } else {
      StillReceiving(c, g, g2);
    }
  }

  lemma StreamSame(c: T.Source, g: E.Engine, g1: E.Engine)
    requires T.Fits(c) && g.rxAt <= |g.rx| <= g.received <= |Payload(c)|
    requires g1.rx == g.rx && g1.rxAt == g.rxAt && g1.received == g.received
    ensures Stream(c, g1) == Stream(c, g)
  {
    hide T.Fits, Payload;
  }

  lemma ReachedPlain(r: P.Reader)
    ensures !r.releasing ==> Reached(r) == r.offset
  {}

  lemma ReceivingParts(l: Layout, c: T.Source, g: E.Engine, d: Device, s: Snapshot, t: Snapshot)
    requires Healthy(l, c, g, d, s, t) && g.state == E.Receiving
    ensures Agreed(c, g) && Parsing(c, g) && Reached(g.reader) <= |T.Image(c)| && E.Total(g) == |Payload(c)|
    ensures W.Between(l, g.writer, d, c.destination, T.Image(c)[..Reached(g.reader)])
    ensures g.header == Some(c.header) && c.destination == E.Destination(g) && T.Fits(c)
  {
    hide EngineInv, T.Fits, Payload, Stream, T.Image, W.Between, T.Streaming;
  }

  lemma HeaderFits(l: Layout, g: E.Engine, d: Device, s: Snapshot, t: Snapshot)
    requires EngineInv(l, g, d, s, t) && g.header.Some?
    ensures HeaderOk(l, g.header.value, E.Destination(g))
  {
    hide Fits, Valid, Kept, Ok?, WriterInv, HeaderOk, Phase;
  }

  lemma UnverifiedYet(l: Layout, g: E.Engine, d: Device, s: Snapshot, t: Snapshot)
    requires EngineInv(l, g, d, s, t) && g.state == E.Receiving
    ensures g.verifyOffset == 0
  {
    hide Fits, Valid, Kept, Ok?, WriterInv, HeaderOk;
  }

  // ---- Writing ----

  lemma WriterNearer(l: Layout, w: Writer, d: Device, e: Event, slot: nat, prior: seq<int>)
    requires W.Refined(l, w, d, slot, prior) && Valid(l) && w.status == Busy && !w.cancelled && AllBytes(w.data)
      && FaultFree(e)
    requires w.state in {WEraseWait, WProgramWait} && !e.outcome.Finished? ==>
      Elapsed(e.now, w.started) < l.operationTimeout
    ensures var (w1, d1) := WriterTick(l, w, d, e);
            && !w1.cancelled && (w1.status == Ok || w1.status == Busy) && W.Cost(w) > 1
            && (w1.status == Busy ==> W.Cost(w1) + (if e.outcome.Finished? then 1 else 0) <= W.Cost(w))
  {
    hide W.Refined, Valid, StepPrepare, StepWait, FaultFree;
    W.RefinedValid(l, w, d, slot, prior);
    W.RefinedBusy(l, w, d, slot, prior);
    ProgramLeft(l, w, d, slot, prior);
    match w.state {
      case WIdle | WDone | WFailed =>
      case WPrepare => W.CleanPrepare(l, w, d, e, slot, prior);
      case WEraseWait | WProgramWait => W.CleanWait(l, w, d, e, slot, prior);
    }
  }

  lemma ProgramLeft(l: Layout, w: Writer, d: Device, slot: nat, prior: seq<int>)
    requires W.Refined(l, w, d, slot, prior)
    ensures w.state == WProgramWait ==> w.written < |w.data|
  {
    hide W.Laid, Valid, WriterInv;
  }

  lemma BytesAll(data: seq<byte>)
    ensures AllBytes(data)
  {}

  lemma WritingParts(l: Layout, c: T.Source, g: E.Engine, d: Device, s: Snapshot, t: Snapshot)
    requires Healthy(l, c, g, d, s, t) && g.state == E.Writing
    ensures Agreed(c, g) && Parsing(c, g) && g.reader.state == P.RReady && !g.reader.releasing && T.Fits(c)
    ensures c.destination == E.Destination(g) && !g.writer.cancelled && g.reader.offset <= |T.Image(c)|
    ensures W.Refined(l, g.writer, d, c.destination, T.Image(c)[..g.reader.offset]) && g.writer.data == g.reader.data
  {
    hide EngineInv, T.Fits, Payload, Stream, T.Image, W.Refined, T.Streaming;
  }

  lemma StillWriting(c: T.Source, g: E.Engine, g1: E.Engine, n: nat)
    requires Agreed(c, g) && Agreed(c, g1) && g.state == E.Writing && g1.reader == g.reader
      && Stream(c, g1) == Stream(c, g)
    requires g1.state == E.Writing && W.Cost(g1.writer) + n <= W.Cost(g.writer)
    ensures Measure(c, g1) + n <= Measure(c, g)
  {
    hide T.Fits, Payload, Stream, T.Image, W.Cost;
  }

  lemma BlockReceived(c: T.Source, g: E.Engine, g1: E.Engine)
    requires Agreed(c, g) && Agreed(c, g1) && g.state == E.Writing && Stream(c, g1) == Stream(c, g)
      && W.Cost(g.writer) > 1
    requires g1.state == E.Receiving && g1.reader == g.reader.(releasing := true)
    ensures Measure(c, g1) + 1 <= Measure(c, g)
  {
    hide T.Fits, Payload, Stream, T.Image, W.Cost;
  }

  lemma WritingNearer(l: Layout, c: T.Source, g: E.Engine, d: Device, e: Event, s: Snapshot, t: Snapshot)
    requires Ready(l) && Healthy(l, c, g, d, s, t) && g.state == E.Writing && FaultFree(e)
    requires g.writer.state in {WEraseWait, WProgramWait} && !e.outcome.Finished? ==>
      Elapsed(e.now, g.writer.started) < l.operationTimeout
    ensures Fits(l, d.mem) && Ok?(l, g.journal)
    ensures var (g1, d1) := E.StepWriting(l, g, d, e);
            Nearer(l, c, g, g1, d1, e, s, t)
  {
    hide Fits, Valid, Ok?, Ready, EngineInv, Agreed, Along, Parsing, W.Refined, W.Cost, Measure, WriterTick, T.Fits,
         T.Image, Payload, Stream;
    EngineFacts(l, g, d, s, t);
    UnderwayAgreed(l, c, g, d, s, t);
    WritingParts(l, c, g, d, s, t);
    WritingBusy(l, g, d, s, t);
    BytesAll(g.reader.data);
    WriterNearer(l, g.writer, d, e, c.destination, T.Image(c)[..g.reader.offset]);
    WritingAlong(l, c, g, d, e, s, t);
    var (g1, d1) := E.StepWriting(l, g, d, e);
    UnderwayAgreed(l, c, g1, d1, s, t);
    StreamSame(c, g, g1);
    if g1.state == E.Writing {
      StillWriting(c, g, g1, if e.outcome.Finished? then 1 else 0);
    } else {
      BlockReceived(c, g, g1);
    }
  }

  // ---- Verifying ----

  lemma ReadWritten(l: Layout, d: Device, slot: nat, image: seq<int>, offset: nat, n: nat)
    requires Written(l, d.mem, slot, image) && AllBytes(image) && offset + n <= |image| && d.op.NoOp?
    ensures |l.slots| == 2 && Read(d, l.slots[slot] + offset, n) == Ok
  {
    SlotInside(l, d.mem, slot);
    hide Fits, Valid;
    var at := l.slots[slot] + offset;
    var piece := d.mem[at..at + n];
    forall i | 0 <= i < n ensures 0 <= piece[i] < 256 {
      assert piece[i] == d.mem[at + i] == Slot(l, d.mem, slot)[offset + i] == image[offset + i];
    }
  }

  // The checksum of what was read back is the header's.
  lemma ChecksumRight(l: Layout, c: T.Source, mem: seq<int>, slot: nat, crc: int)
    requires T.Fits(c) && Written(l, mem, slot, T.Image(c)) && Verified(l, mem, slot, |T.Image(c)|, crc)
    ensures crc == l.crc(0, T.Image(c))
  {
    SizeOf(c);
    hide T.Fits, T.Image, Fits;
  }

  lemma VerifyingParts(l: Layout, c: T.Source, g: E.Engine, d: Device, s: Snapshot, t: Snapshot)
    requires Healthy(l, c, g, d, s, t) && g.state == E.Verifying
    ensures Agreed(c, g) && T.Fits(c) && g.header == Some(c.header) && c.destination == E.Destination(g)
      && g.running < 2
    ensures Written(l, d.mem, c.destination, T.Image(c)) && Settled(g, d, s, t) && g.verifyOffset < c.header.imageSize
    ensures Verified(l, d.mem, c.destination, g.verifyOffset, g.verifyCrc) && s.Slot(g.running).state == Confirmed
  {
    hide T.Fits, Payload, T.Image, Written, Kept, HeaderOk, WriterInv, Ok?, Verified;
  }

  lemma CommitBegins(l: Layout, executing: nat, g: E.Engine, d: Device, e: Event, h: P.Header, s: Snapshot)
    requires Ready(l) && Fits(l, d.mem) && Ok?(l, g.journal) && g.journal.status != Busy && d.op.NoOp? && g.running < 2
    requires Holds(l, d.mem, s) && Safe(l, d.mem, s) && Counted(s, 1) && s.Slot(g.running).state == Confirmed
    requires HeaderOk(l, h, E.Destination(g)) && 0 <= g.verifyCrc < TWO_32
    requires Verified(l, d.mem, E.Destination(g), h.imageSize, g.verifyCrc)
    requires var loaded := Load(l, g.journal, d, e.outcome);
             Fits(l, loaded.d.mem) && Room(l, executing, loaded.j, loaded.d, e.outcome)
    ensures var (g1, d1) := E.StepCommit(l, executing, g, d, e, h);
            && g1.state == E.Committing && d1 == d && JP.Cost(g1.journal) <= JB.TICKS && JP.Owned(g1.journal, d)
            && !g1.journal.timedOut
            && g1.owner == g.owner && g1.enabled == g.enabled && g1.abortRequested == g.abortRequested
  {
    hide Fits, Valid, Ok?, Ready, Load, Begin, Room, Safe, Holds, Committable, JP.Cost, JP.Owned, HeaderOk, Verified;
    JB.LatestFound(l, g.journal, d, e.outcome, s);
    var loaded := Load(l, g.journal, d, e.outcome);
    LoadedSnapshot(l, g.journal, d, e.outcome, s);
    CandidateSafe(l, g, d.mem, s, h, s.sequence + 1);
    var w := E.Candidate(g, s, h);
    CommittableOf(l, d.mem, w.(sequence := s.sequence + 1));
    BeginSucceeds(l, executing, loaded.j, d, w, e.outcome, s);
  }

  lemma LoadedSnapshot(l: Layout, j: Journal, d: Device, o: Outcome, s: Snapshot)
    requires Ready(l) && Ok?(l, j) && d.op.NoOp? && Fits(l, d.mem) && Holds(l, d.mem, s)
    ensures Load(l, j, d, o).snapshot == Some(s) && Load(l, j, d, o).j.status == j.status
  {
    hide Fits, Valid, Ok?, Holds, Torn, Cell, Load, Ready;
    IdleCell(l, d, s, s);
    JB.LatestFound(l, j, d, o, s);
    var s1 := LoadSafe(l, j, d, o, s, s);
  }

  // One piece more is read back, or the last one, which starts the commit.
  lemma VerifyingOn(l: Layout, executing: nat, c: T.Source, g: E.Engine, d: Device, e: Event, s: Snapshot, t: Snapshot)
    requires Ready(l) && Healthy(l, c, g, d, s, t) && g.state == E.Verifying
    requires Fits(l, d.mem) && Ok?(l, g.journal) && OnTime(l, executing, g, d, e)
    ensures var (g1, d1) := E.StepVerifying(l, executing, g, d, e);
            && Sound(l, c, g1) && Fit(g1, d1, s, t)
            && (|| (g1.state == E.Verifying && g.verifyOffset < g1.verifyOffset <= c.header.imageSize)
                || (g1.state == E.Committing && JP.Cost(g1.journal) <= JB.TICKS))
  {
    hide Fits, Valid, Ok?, Ready, EngineInv, Agreed, Along, T.Fits, T.Image, Payload, Written, Verified, E.StepCommit,
         Read, Room, Load, JP.Cost, JP.Owned, Kept, Safe, Holds, HeaderOk, Splits;
    VerifyingParts(l, c, g, d, s, t);
    EngineFacts(l, g, d, s, t);
    KeptFacts(l, E.Destination(g), d, s, t);
    HeaderFits(l, g, d, s, t);
    HeaderSize(l, c.header, c.destination);
    SizeOf(c);
    var slot := c.destination;
    var n := P.Min(256, c.header.imageSize - g.verifyOffset);
    var at := l.slots[slot] + g.verifyOffset;
    BytesAll(T.Image(c));
    ReadWritten(l, d, slot, T.Image(c), g.verifyOffset, n);
    ReadRange(d, at, n);
    ReadySplits(l);
    VerifiedMore(l, d, slot, g.verifyOffset, g.verifyCrc, n);
    var g1 := g.(verifyCrc := l.crc(g.verifyCrc, d.mem[at..at + n]), verifyOffset := g.verifyOffset + n);
    if g1.verifyOffset == c.header.imageSize {
      ChecksumRight(l, c, d.mem, slot, g1.verifyCrc);
      JB.LatestFound(l, g.journal, d, e.outcome, s);
      CommitBegins(l, executing, g1, d, e, c.header, s);
    }
  }

  lemma VerifyingNearer(l: Layout, executing: nat, c: T.Source, g: E.Engine, d: Device, e: Event, s: Snapshot,
                        t: Snapshot)
    returns (t1: Snapshot)
    requires Ready(l) && Healthy(l, c, g, d, s, t) && g.state == E.Verifying
    requires Fits(l, d.mem) && Ok?(l, g.journal) && OnTime(l, executing, g, d, e)
    ensures var (g1, d1) := E.StepVerifying(l, executing, g, d, e);
            Nearer(l, c, g, g1, d1, e, s, t1)
  {
    hide Fits, Valid, Ok?, Ready, EngineInv, Agreed, Along, T.Fits, T.Image, Payload, E.StepVerifying, OnTime, JP.Cost,
         JP.Owned;
    UnderwayAgreed(l, c, g, d, s, t);
    VerifyingOn(l, executing, c, g, d, e, s, t);
    t1 := VerifyingAlong(l, executing, c, g, d, e, s, t);
    var (g1, d1) := E.StepVerifying(l, executing, g, d, e);
    UnderwayAgreed(l, c, g1, d1, s, t1);
    VerifyingParts(l, c, g, d, s, t);
    SizeOf(c);
  }

  // ---- Whole installations ----

  lemma TickNearer(l: Layout, executing: nat, c: T.Source, g: E.Engine, d: Device, e: Event, s: Snapshot, t: Snapshot)
    returns (s1: Snapshot, t1: Snapshot)
    requires Ready(l) && Healthy(l, c, g, d, s, t) && E.Active(g) && !E.Accepting(g) && FaultFree(e)
    requires Fits(l, d.mem) && Ok?(l, g.journal) && OnTime(l, executing, g, d, e) && Agreed(c, g)
    ensures var (g1, d1) := E.Tick(l, executing, g, d, e);
            Nearer(l, c, g, g1, d1, e, s1, t1)
  {
    hide Underway, Fits, Ok?, Ready, Agreed, Nearer, Room, Load, E.Accepting, E.StepRest, E.StepInvalidating,
         E.StepReceiving, E.StepWriting, E.StepVerifying, E.StepCommitting, E.StepAborting;
    s1, t1 := s, t;
    match g.state {
      case Disabled | Idle | Done | Failed => t1 := RestNearer(l, executing, c, g, d, e, s, t);
      case Invalidating => s1 := InvalidatingNearer(l, c, g, d, e, s, t);
      case Receiving => ReceivingNearer(l, c, g, d, e, s, t);
      case Writing => WritingNearer(l, c, g, d, e, s, t);
      case Verifying => t1 := VerifyingNearer(l, executing, c, g, d, e, s, t);
      case Committing => s1 := CommittingNearer(l, c, g, d, e, s, t);
      case Aborting => assert false;
    }
  }

  // The client's chunk is taken; nothing else changes.
  lemma FeedTaken(l: Layout, c: T.Source, g: E.Engine)
    requires Agreed(c, g) && E.Accepting(g)
    ensures var g1 := Feed(l, c, g);
            var n := P.Min(P.BLOCK, |Payload(c)| - g.received);
            && 0 < n && g1 == g.(rx := Payload(c)[g.received..g.received + n], rxAt := 0, received := g.received + n)
            && !E.Accepting(g1) && Stream(c, g1) == Stream(c, g) && g1.received <= |Payload(c)|
  {
    hide T.Fits, Payload;
  }

  lemma FeedHealthy(l: Layout, c: T.Source, g: E.Engine, d: Device, s: Snapshot, t: Snapshot)
    requires Healthy(l, c, g, d, s, t) && Agreed(c, g)
    ensures var g1 := Feed(l, c, g);
            && Healthy(l, c, g1, d, s, t) && Agreed(c, g1) && !E.Accepting(g1) && Measure(c, g1) == Measure(c, g)
            && (E.Active(g1) <==> E.Active(g)) && g1.journal == g.journal
  {
    hide Underway, T.Fits, Payload, Stream, Fed, T.Image, W.Cost, JP.Cost, JP.Owned, Feed;
    var g1 := Feed(l, c, g);
    FeedSame(l, c, g);
    UnderwayAgreed(l, c, g, d, s, t);
    if E.Accepting(g) {
      FeedTaken(l, c, g);
      FeedUnderway(l, c, g, d, s, t);
      UnderwayAgreed(l, c, g1, d, s, t);
    }
  }

  lemma FeedSame(l: Layout, c: T.Source, g: E.Engine)
    requires T.Fits(c)
    ensures !E.Accepting(g) ==> Feed(l, c, g) == g
  {
    hide T.Fits, Payload;
  }

  lemma FeedUnderway(l: Layout, c: T.Source, g: E.Engine, d: Device, s: Snapshot, t: Snapshot)
    requires Underway(l, c, g, d, s, t) && T.Fits(c)
    ensures Underway(l, c, Feed(l, c, g), d, s, t)
  {
    hide Underway, T.Fits, Payload, E.Chunk, E.Accepting;
    if E.Accepting(g) && g.received <= |Payload(c)| {
      var data := Payload(c)[g.received..g.received + P.Min(P.BLOCK, |Payload(c)| - g.received)];
      ChunkAlong(l, c, g, d, g.received, data, l.crc(0, data), s, t);
    }
  }

  lemma MeasurePositive(l: Layout, c: T.Source, g: E.Engine, d: Device, s: Snapshot, t: Snapshot)
    requires Healthy(l, c, g, d, s, t) && E.Active(g) && Agreed(c, g)
    ensures Measure(c, g) > 0
  {
    hide EngineInv, T.Fits, Payload, T.Streaming, W.Between, W.Refined, Written, T.Image, JP.Cost, JP.Owned, W.Cost,
         Stream;
    SizeOf(c);
    if g.state in {E.Invalidating, E.Committing} {
      JournalCosts(l, g, d, s, t);
    } else if g.state == E.Writing {
      BlockTaken(c, g.reader, Stream(c, g));
      WriterCosts(l, g.writer, d, c.destination, T.Image(c)[..g.reader.offset]);
    } else if g.state == E.Verifying {
      VerifyingParts(l, c, g, d, s, t);
    }
  }

  lemma JournalCosts(l: Layout, g: E.Engine, d: Device, s: Snapshot, t: Snapshot)
    requires EngineInv(l, g, d, s, t)
    ensures JP.Cost(g.journal) > 0
  {
    EngineFacts(l, g, d, s, t);
    hide EngineInv;
    JP.CostPositive(l, g.journal);
  }

  lemma WriterCosts(l: Layout, w: Writer, d: Device, slot: nat, prior: seq<int>)
    requires W.Refined(l, w, d, slot, prior)
    ensures W.Cost(w) > 0
  {
    hide W.Refined;
    W.RefinedValid(l, w, d, slot, prior);
  }

  /** A healthy installation with enough finished operations ahead is driven to done. */
  lemma {:induction false} DriveFinishes(l: Layout, executing: nat, c: T.Source, g: E.Engine, d: Device,
                                         script: seq<Event>, s: Snapshot, t: Snapshot)
    returns (s1: Snapshot, t1: Snapshot)
    requires Ready(l) && Healthy(l, c, g, d, s, t) && Agreed(c, g) && T.Fits(c) && Fits(l, d.mem) && Ok?(l, g.journal)
    requires Smooth(l, executing, c, g, d, script) && Finishes(script) >= Measure(c, g)
    ensures var (g1, d1) := Drive(l, executing, c, g, d, script);
            Underway(l, c, g1, d1, s1, t1) && g1.state == E.Done && !g1.requested
    decreases |script|
  {
    hide Underway, Agreed, Sound, Fits, Ok?, Ready, T.Fits, E.Tick, OnTime, Measure, Feed, FaultFree;
    s1, t1 := s, t;
    if E.Active(g) {
      MeasurePositive(l, c, g, d, s, t);
      FeedHealthy(l, c, g, d, s, t);
      var g0 := Feed(l, c, g);
      s1, t1 := TickNearer(l, executing, c, g0, d, script[0], s, t);
      var (g1, d1) := E.Tick(l, executing, g0, d, script[0]);
      FitsSame(l, d.mem, d1.mem);
      UnderwayAgreed(l, c, g1, d1, s1, t1);
      s1, t1 := DriveFinishes(l, executing, c, g1, d1, script[1..], s1, t1);
    }
  }

  // An engine that may install: at rest, authorized, its running image confirmed.
  ghost predicate Prepared(l: Layout, g: E.Engine, d: Device, owner: Option<nat>, s: Snapshot) {
    && EngineInv(l, g, d, s, s) && d.op.NoOp? && !E.Active(g) && E.Authorized(g) && g.owner == owner
    && g.journal.status != Busy
    && s.Slot(g.running).state == Confirmed && Counted(s, 2)
  }

  lemma BeginHealthy(l: Layout, c: T.Source, g: E.Engine, d: Device, header: seq<byte>, owner: Option<nat>, o: Outcome,
                     s: Snapshot)
    returns (s1: Snapshot, t1: Snapshot)
    requires Ready(l) && Prepared(l, g, d, owner, s) && Matches(l, c, header, g.running)
    requires c.header.Crc(c.destination) == l.crc(0, T.Image(c))
    ensures Fits(l, d.mem) && Ok?(l, g.journal)
    ensures var r := E.Begin(l, g, d, header, owner, o);
            && r.status == Ok && Healthy(l, c, r.g, r.d, s1, t1) && r.g.requested
            && r.g.state in {E.Disabled, E.Idle, E.Done, E.Failed}
  {
    hide EngineInv, Fits, Valid, Ok?, Ready, Matches, Load, Underway, T.Image, P.DecodeHeader, Holds;
    EngineFacts(l, g, d, s, s);
    KeptFacts(l, E.Destination(g), d, s, s);
    s1, t1 := BegunAlong(l, c, g, d, header, owner, o, s, s);
    JB.LatestFound(l, g.journal, d, o, s);
    LoadedSnapshot(l, g.journal, d, o, s);
    HeaderDecodes(l, c, g, header);
    BegunFields(l, c, g, d, header, owner, o);
    var r := E.Begin(l, g, d, header, owner, o);
    UnderwayRequested(l, c, r.g, r.d, s1, t1);
    UnderwayHolds(l, c, r.g, r.d, s1, t1);
    HoldsUnique(l, d.mem, s, s1);
  }

  lemma HeaderDecodes(l: Layout, c: T.Source, g: E.Engine, header: seq<byte>)
    requires Matches(l, c, header, g.running)
    ensures P.DecodeHeader(header, l, E.Destination(g)) == (Ok, Some(c.header)) && g.running < 2
  {
    hide P.DecodeHeader, T.Fits, Payload;
  }

  lemma UnderwayRequested(l: Layout, c: T.Source, g: E.Engine, d: Device, s: Snapshot, t: Snapshot)
    requires Underway(l, c, g, d, s, t) && g.requested
    ensures g.snapshot == s
  {
    hide Along, Agreed;
    RequestedFacts(l, g, d, s, t);
  }

  /** An installation without a fault is done. For every package that matches, when the
      client sends each chunk as it is taken, operations start and none breaks, no timeout
      passes, the journal has room, and enough operations finish: the request is accepted,
      the engine reaches done, the slot holds exactly the image linked for it, and load
      returns a snapshot that offers it as pending. */
  lemma InstallFinishes(l: Layout, executing: nat, c: T.Source, g: E.Engine, d: Device, header: seq<byte>,
                        owner: Option<nat>, o: Outcome, script: seq<Event>, s: Snapshot)
    requires Ready(l) && Prepared(l, g, d, owner, s) && Matches(l, c, header, g.running) && T.Fits(c)
    requires c.header.Crc(c.destination) == l.crc(0, T.Image(c)) && Finishes(script) >= Front(c) + 2 * TAIL
    ensures Fits(l, d.mem) && Ok?(l, g.journal)
    ensures var begun := E.Begin(l, g, d, header, owner, o);
            && begun.status == Ok && Fits(l, begun.d.mem)
            && (Smooth(l, executing, c, begun.g, begun.d, script) ==>
                  var (g1, d1) := Drive(l, executing, c, begun.g, begun.d, script);
                  && g1.state == E.Done && !g1.requested && Written(l, d1.mem, c.destination, T.Image(c))
                  && exists s1 :: Recovers(l, d1.mem, s1) && Offers(g1, c.header, s1))
  {
    hide EngineInv, Fits, Valid, Ok?, Ready, T.Fits, E.Begin, Drive, Smooth, Written, Recovers, Offers, Matches,
         Prepared, Front, Payload, T.Image;
    PreparedFacts(l, g, d, owner, s);
    var s1, t1 := BeginHealthy(l, c, g, d, header, owner, o, s);
    var begun := E.Begin(l, g, d, header, owner, o);
    FitsSame(l, d.mem, begun.d.mem);
    UnderwayAgreed(l, c, begun.g, begun.d, s1, t1);
    if Smooth(l, executing, c, begun.g, begun.d, script) {
      s1, t1 := DriveFinishes(l, executing, c, begun.g, begun.d, script, s1, t1);
      var (g1, d1) := Drive(l, executing, c, begun.g, begun.d, script);
      UnderwayHolds(l, c, g1, d1, s1, t1);
      HoldsRecovers(l, d1.mem, s1);
    }
  }

  lemma PreparedFacts(l: Layout, g: E.Engine, d: Device, owner: Option<nat>, s: Snapshot)
    requires Prepared(l, g, d, owner, s)
    ensures Fits(l, d.mem) && Ok?(l, g.journal)
  {
    hide EngineInv;
    EngineFacts(l, g, d, s, s);
  }

  // ---- Room in the journal ----

  // Without a bank constraint there is always room.
  lemma BootRoom(l: Layout, executing: nat, j: Journal, d: Device, o: Outcome, s: Snapshot)
    requires Ready(l) && Ok?(l, j) && j.status != Busy && d.op.NoOp? && Fits(l, d.mem) && Holds(l, d.mem, s)
      && executing >= 2
    ensures Room(l, executing, j, d, o)
  {
    hide Fits, Valid, Records, Holds, Lawful, Load, Ready, Place;
    JB.LatestFound(l, j, d, o, s);
  }

  // With one there is room while the budget lasts.
  lemma BudgetRoom(l: Layout, executing: nat, j: Journal, d: Device, o: Outcome, s: Snapshot)
    requires Ready(l) && Ok?(l, j) && j.status != Busy && d.op.NoOp? && Fits(l, d.mem)
      && JB.Steady(l, d.mem, executing, s)
    requires JB.Budget(l, d.mem, executing) > 0
    ensures Room(l, executing, j, d, o)
  {
    hide Fits, Valid, Records, Holds, Lawful, Load, Ready, Plan, JB.Budget, Begin;
    JB.SteadyFacts(l, d.mem, executing, s);
    JB.LatestFound(l, j, d, o, s);
    forall w: Snapshot ensures Begin(l, executing, j, d, w, false, o).status != Full {
      PlanRoom(l, executing, j, d, o, w);
    }
  }

  lemma PlanRoom(l: Layout, executing: nat, j: Journal, d: Device, o: Outcome, w: Snapshot)
    requires Fits(l, d.mem) && Ok?(l, j) && j.status != Busy && executing < 2 && JB.Budget(l, d.mem, executing) > 0
    requires var loaded := Load(l, j, d, o);
             && loaded.status == Ok && loaded.d == d && loaded.j == j.(latest := loaded.j.latest)
             && loaded.j.latest < 2 * Records(l) && Dec(l, d.mem, loaded.j.latest).Some?
             && Bank(l, loaded.j.latest) == 1 - executing
    ensures Begin(l, executing, j, d, w, false, o).status != Full
  {
    hide Fits, Valid, Records, Load, Place, PlaceRuntime, JB.Budget;
    var loaded := Load(l, j, d, o);
    var current := Dec(l, d.mem, loaded.j.latest).value;
    if current.sequence != TWO_64 - 1 {
      var record := l.format.encode(w.(sequence := current.sequence + 1));
      if |record| == RECORD {
        var (target, eraseNeeded) := Place(l, d.mem, Some(loaded.j.latest));
        var j1 := loaded.j.(record := record, checkpoint := false, eraseOnly := false)
                  .(target := target, eraseNeeded := eraseNeeded);
        JB.PlaceCases(l, d.mem, j1, executing, loaded.j.latest);
      }
    }
  }

  // ---- Built packages ----

  /** From the producer to the record: a package built from two images, for a layout that
      matches it and a slot that it is for, is installed by a run without a fault. The
      engine is done, the slot holds exactly the image given for it, and load returns a
      snapshot that offers it as pending. */
  lemma InstallsPackage(l: Layout, executing: nat, q: B.Request, g: E.Engine, d: Device, owner: Option<nat>, o: Outcome,
                        script: seq<Event>, s: Snapshot)
    requires Ready(l) && l.crc == Standard32 && Prepared(l, g, d, owner, s) && B.Asked(q) && B.Package(q).Some?
    requires Valid(l) && g.running < 2 && l.slots == [q.addressA, q.addressB] && l.product == q.product
      && l.revision == q.revision
    requires |q.Base()| <= l.slotSize && (q.fixed.Some? ==> q.fixed.value == 1 - g.running)
    requires Finishes(script) >= JB.TICKS * 3 + 2 + (STEP + 1) * |q.Base()| + 2 * |B.Package(q).value|
    ensures var package := B.Package(q).value;
            var slot := 1 - g.running;
            && |package| >= P.HEADER && Fits(l, d.mem) && Ok?(l, g.journal)
            && var begun := E.Begin(l, g, d, package[..P.HEADER], owner, o);
               && begun.status == Ok && Fits(l, begun.d.mem) && |package| < TWO_32
               && var c := T.Source(q.Base(), q.Other(), B.Expected(q, |package|), slot);
                  && T.Fits(c) && Payload(c) == package[P.HEADER..]
                  && (Smooth(l, executing, c, begun.g, begun.d, script) ==>
                        var (g1, d1) := Drive(l, executing, c, begun.g, begun.d, script);
                        && g1.state == E.Done && Written(l, d1.mem, slot, if slot == 0 then q.a else q.b)
                        && exists s1 :: Recovers(l, d1.mem, s1) && Offers(g1, c.header, s1))
  {
    hide Fits, Valid, Ok?, Ready, T.Fits, E.Begin, Drive, Smooth, Written, Recovers, Offers, Prepared, Payload, T.Image,
         P.DecodeHeader, B.Package, EngineInv, Standard32;
    var package := B.Package(q).value;
    var slot := 1 - g.running;
    B.Accepted(q, l, slot);
    PackageSized(q);
    var c := T.Source(q.Base(), q.Other(), B.Expected(q, |package|), slot);
    PayloadOf(c, package);
    ChecksumOf(T.Image(c));
    PreparedFacts(l, g, d, owner, s);
    MatchesPackage(l, c, package, g.running);
    SizeOf(c);
    InstallFinishes(l, executing, c, g, d, package[..P.HEADER], owner, o, script, s);
  }

  lemma PackageSized(q: B.Request)
    requires B.Asked(q) && B.Package(q).Some?
    ensures B.Sized(q)
  {
    hide K.Payload;
  }

  lemma MatchesPackage(l: Layout, c: T.Source, package: seq<byte>, running: nat)
    requires T.Fits(c) && running < 2 && c.destination == 1 - running && |package| >= P.HEADER
    requires c.header.packageSize == |package| && Payload(c) == package[P.HEADER..]
    requires P.DecodeHeader(package[..P.HEADER], l, c.destination) == (Ok, Some(c.header))
    ensures Matches(l, c, package[..P.HEADER], running)
  {
    hide T.Fits, Payload, P.DecodeHeader;
  }

  lemma PayloadOf(c: T.Source, package: seq<byte>)
    requires T.Fits(c) && |package| >= P.HEADER
    requires package[P.HEADER..] == K.Payload(c.base, c.other, K.Delta(c.header), 0).value
    ensures Payload(c) == package[P.HEADER..]
  {
    hide T.Fits, K.Payload;
  }

  lemma ChecksumOf(image: seq<byte>)
    ensures Standard32(0, image) == Crc32.Checksum(image)
  {
    hide Crc32.Update, Crc32.Bits;
    BytesAll(image);
  }
}
