/** The steps of the engine machine, one by one, and any request. */
module EngineTicks {
  import opened Bytes
  import opened Record
  import opened Layouts
  import opened Flash
  import opened JournalSpec
  import opened JournalLoad
  import opened JournalSafety
  import opened JournalRuns
  import opened JournalCommit
  import opened ControlSpec
  import opened ControlSafety
  import opened WriterSpec
  import opened WriterSafety
  import opened EngineSafety
  import P = PackageSpec
  import E = EngineSpec

  lemma DestinationOther(g: E.Engine)
    requires g.running < 2
    ensures E.Destination(g) == 1 - g.running
  {}

  // ---- Starting a journal record ----

  // Beginning a commit on an idle, safe cell.
  lemma BeginKept(l: Layout, executing: nat, j: Journal, d: Device, snapshot: Snapshot, o: Outcome, s: Snapshot,
                  slot: nat)
    requires Ready(l) && Ok?(l, j) && j.status != Busy && d.op.NoOp? && Holds(l, d.mem, s) && Safe(l, d.mem, s)
      && slot < 2
    requires s.sequence + 1 < TWO_64 ==> Safe(l, d.mem, snapshot.(sequence := s.sequence + 1))
    ensures Fits(l, d.mem)
    ensures var r := Begin(l, executing, j, d, snapshot, false, o);
            && r.d == d && Ok?(l, r.j)
            && (if r.status == Ok then
                  && s.sequence + 1 < TWO_64 && r.j.status == Busy
                  && Inv(l, r.j, d, s, snapshot.(sequence := s.sequence + 1))
                  && Kept(l, slot, d, s, snapshot.(sequence := s.sequence + 1))
                else r.j.status != Busy)
  {
    hide Fits, Valid, Records, Holds, Cell, Ready, Safe, Begin, Torn, Ok?, Inv, Kept;
    HoldsFits(l, d.mem, s);
    IdleCell(l, d, s, s);
    IdleTorn(l, d);
    var s1 := BeginSafe(l, executing, j, d, snapshot, false, o, s, s);
    if Begin(l, executing, j, d, snapshot, false, o).status == Ok {
      IdleKept(l, slot, d, s, snapshot.(sequence := s.sequence + 1));
    }
  }

  /** Resting states: nothing happens, or the destination is being withdrawn. */
  lemma RestSafe(l: Layout, executing: nat, g: E.Engine, d: Device, e: Event, s: Snapshot, t: Snapshot)
    returns (t1: Snapshot)
    requires Ready(l) && EngineInv(l, g, d, s, t) && g.state in {E.Disabled, E.Idle, E.Done, E.Failed}
    ensures var (g1, d1) := E.StepRest(l, executing, g, d, e);
            && EngineInv(l, g1, d1, s, t1) && Moves(g.running, s, t, s, t1) && g1.running == g.running
            && (g1.state == E.Invalidating ==> t1.sequence == s.sequence + 1 && t1.counter == s.counter)
  {
    hide Fits, Valid, Records, Holds, Cell, Ready, Safe, Begin, Ok?, Inv, Kept, WriterInv, HeaderOk, Working, OffSlots;
    t1 := t;
    KeptFacts(l, E.Destination(g), d, s, t);
    if g.requested {
      var slot := E.Destination(g);
      DestinationOther(g);
      var withdrawn := g.snapshot.With(slot, g.snapshot.Slot(slot).(state := Incomplete));
      if s.sequence + 1 < TWO_64 {
        WithdrawSafe(l, d.mem, s, slot, s.sequence + 1);
      }
      BeginKept(l, executing, g.journal, d, withdrawn, e.outcome, s, slot);
      var begun := Begin(l, executing, g.journal, d, withdrawn, false, e.outcome);
      if begun.status == Ok {
        t1 := withdrawn.(sequence := s.sequence + 1);
        IdleOffSlots(l, d);
      }
    }
  }

  // ---- Journal work ----

  lemma JournalTick(l: Layout, g: E.Engine, d: Device, e: Event, s: Snapshot, t: Snapshot) returns (s1: Snapshot)
    requires Ready(l) && EngineInv(l, g, d, s, t) && JournalBusy(l, g, d, s, t)
    ensures var (j, d1) := Tick(l, g.journal, d, e);
            && (s1 == s || s1 == t) && Kept(l, E.Destination(g), d1, s1, t) && Inv(l, j, d1, s1, t)
            && OffSlots(l, d1.op)
            && Fits(l, d1.mem) && (j.status == Ok ==> s1 == t && d1.op.NoOp?)
            && WriterInv(l, g.writer, d1, E.Destination(g))
  {
    hide Fits, Records, Holds, Cell, Ready, Safe, Tick, Ok?, HeaderOk, Working, OffSlots, SameSlots, Phase;
    KeptFacts(l, E.Destination(g), d, s, t);
    s1 := TickSafe(l, g.journal, d, e, s, t);
    var (j, d1) := Tick(l, g.journal, d, e);
    CellValid(l, d1, s1, t);
    SafeSame(l, d.mem, d1.mem, s1);
    SafeSame(l, d.mem, d1.mem, t);
  }

  lemma InvalidatingSafe(l: Layout, g: E.Engine, d: Device, e: Event, s: Snapshot, t: Snapshot) returns (s1: Snapshot)
    requires Ready(l) && EngineInv(l, g, d, s, t) && g.state == E.Invalidating
    ensures var (g1, d1) := E.StepInvalidating(l, g, d, e);
            && EngineInv(l, g1, d1, s1, t) && Moves(g.running, s, t, s1, t) && g1.running == g.running
            && (g1.state == E.Receiving ==> s1 == t)
  {
    hide Fits, Valid, Records, Holds, Cell, Ready, Safe, Tick, Kept, WriterInv, HeaderOk, Working, OffSlots,
         P.ReaderTick, P.ReaderStart;
    s1 := JournalTick(l, g, d, e, s, t);
  }

  lemma CommittingSafe(l: Layout, g: E.Engine, d: Device, e: Event, s: Snapshot, t: Snapshot) returns (s1: Snapshot)
    requires Ready(l) && EngineInv(l, g, d, s, t) && g.state == E.Committing
    ensures var (g1, d1) := E.StepCommitting(l, g, d, e);
            && EngineInv(l, g1, d1, s1, t) && Moves(g.running, s, t, s1, t) && g1.running == g.running
            && (g1.state == E.Done ==> s1 == t && d1.op.NoOp?)
  {
    hide Fits, Valid, Records, Holds, Cell, Ready, Safe, Tick, Kept, WriterInv, HeaderOk, Working, OffSlots;
    s1 := JournalTick(l, g, d, e, s, t);
  }

  // ---- Receiving and writing ----

  // A settled engine may start aborting.
  lemma SettledAborts(l: Layout, g: E.Engine, d: Device, reason: Status, s: Snapshot, t: Snapshot)
    requires EngineInv(l, g, d, s, t) && Settled(g, d, s, t) && g.state in {E.Receiving, E.Verifying}
    ensures EngineInv(l, E.Fail(g, reason), d, s, t) && EngineInv(l, g.(state := E.Aborting), d, s, t)
  {
    hide Fits, Valid, Kept, HeaderOk, WriterInv, Ok?, Verified;
  }

  // What the parser took does not matter to the invariant.
  lemma ParsedSafe(l: Layout, g: E.Engine, d: Device, now: nat, s: Snapshot, t: Snapshot)
    requires EngineInv(l, g, d, s, t) && g.state == E.Receiving
    ensures var g1 := E.Parse(g, now);
            EngineInv(l, g1, d, s, t) && g1.running == g.running && g1.state == E.Receiving && g1.writer == g.writer
  {
    hide Fits, Valid, Kept, HeaderOk, WriterInv, Ok?, E.Parse;
    ParsedFields(g, now);
  }

  lemma WritingStarts(l: Layout, g: E.Engine, d: Device, o: Outcome, s: Snapshot, t: Snapshot)
    requires EngineInv(l, g, d, s, t) && g.state == E.Receiving
    ensures var begun := WriterBegin(l, g.writer, d, E.Destination(g), g.reader.offset, g.reader.data, o);
            && begun.d == d
            && EngineInv(l, if begun.status == Ok then g.(writer := begun.w, state := E.Writing)
                         else g.(writer := begun.w), d, s, t)
  {
    hide Fits, Valid, Kept, HeaderOk, Ok?, WriterBegin, SlotOp, WriterInv, Poll;
    BeginBounded(l, g.writer, d, E.Destination(g), g.reader.offset, g.reader.data, o);
    PollIdle(l, d, o);
  }

  lemma VerifyingStarts(l: Layout, g: E.Engine, d: Device, s: Snapshot, t: Snapshot)
    requires EngineInv(l, g, d, s, t) && g.state == E.Receiving
    ensures EngineInv(l, g.(state := E.Verifying), d, s, t)
  {
    hide Fits, Valid, Kept, HeaderOk, Ok?, WriterInv, Verified;
    VerifiedNothing(l, d.mem, E.Destination(g));
    HeaderSize(l, g.header.value, E.Destination(g));
  }

  lemma ReceivingSafe(l: Layout, g: E.Engine, d: Device, e: Event, s: Snapshot, t: Snapshot)
    requires Ready(l) && EngineInv(l, g, d, s, t) && g.state == E.Receiving
    ensures var (g1, d1) := E.StepReceiving(l, g, d, e);
            EngineInv(l, g1, d1, s, t) && g1.running == g.running
  {
    hide EngineInv, Fits, Valid, Ok?, WriterBegin, E.Parse, Settled, Ready;
    ReceivingSettled(l, g, d, s, t);
    SettledAborts(l, g, d, Ok, s, t);
    if !E.Stopping(g) {
      var g1 := E.Parse(g, e.now);
      ParsedSafe(l, g, d, e.now, s, t);
      ReceivingSettled(l, g1, d, s, t);
      SettledAborts(l, g1, d, if g1.reader.state == P.RFailed then g1.reader.status else ParseError, s, t);
      SettledAborts(l, g1, d, Timeout, s, t);
      VerifyingStarts(l, g1, d, s, t);
      WritingStarts(l, g1, d, e.outcome, s, t);
      var begun := WriterBegin(l, g1.writer, d, E.Destination(g), g1.reader.offset, g1.reader.data, e.outcome);
      if begun.status != Ok {
        ReceivingSettled(l, g1.(writer := begun.w), d, s, t);
        SettledAborts(l, g1.(writer := begun.w), d, begun.status, s, t);
      }
    }
  }

  lemma ReceivingSettled(l: Layout, g: E.Engine, d: Device, s: Snapshot, t: Snapshot)
    requires EngineInv(l, g, d, s, t) && g.state == E.Receiving
    ensures Settled(g, d, s, t) && Fits(l, d.mem) && Ok?(l, g.journal)
  {}

  lemma HeaderSize(l: Layout, h: P.Header, slot: nat)
    requires HeaderOk(l, h, slot)
    ensures 0 < h.imageSize <= l.slotSize && |l.slots| == 2
  {}

  // Parsing changes only what has been received.
  lemma ParsedFields(g: E.Engine, now: nat)
    ensures var g1 := E.Parse(g, now);
            g1 == g.(reader := g1.reader, rx := g1.rx, rxAt := g1.rxAt, waitingSince := g1.waitingSince)
  {
    hide P.ReaderTick;
  }

  lemma VerifiedNothing(l: Layout, mem: seq<int>, slot: nat)
    requires Fits(l, mem) && slot < 2
    ensures Verified(l, mem, slot, 0, 0)
  {}

  // A slot operation is no business of the journal.
  lemma SlotOpKept(l: Layout, d: Device, op: Op, slot: nat, s: Snapshot)
    requires Fits(l, d.mem) && Holds(l, d.mem, s) && Safe(l, d.mem, s) && slot < 2 && SlotOp(l, op, slot)
      && Quiet(s, slot)
    ensures Kept(l, slot, d.(op := op), s, s)
  {
    SlotOffMetadata(l, op, slot);
    hide Fits, Holds, Safe, SlotOp;
  }

  lemma SlotOffMetadata(l: Layout, op: Op, slot: nat)
    requires Valid(l) && slot < 2 && SlotOp(l, op, slot)
    ensures OffMetadata(l, Start(op), Size(op))
  {}

  lemma WriterTicked(l: Layout, w: Writer, d: Device, e: Event, slot: nat, s: Snapshot)
    requires Ready(l) && Kept(l, slot, d, s, s) && Valid(l) && slot < 2 && Quiet(s, slot) && InSlot(l, d.op, slot)
    requires WriterInv(l, w, d, slot) && w.status == Busy
    ensures var (w1, d1) := WriterTick(l, w, d, e);
            && Kept(l, slot, d1, s, s) && InSlot(l, d1.op, slot) && WriterInv(l, w1, d1, slot) && Fits(l, d1.mem)
  {
    hide Fits, Records, Holds, Cell, Ready, Safe, DeviceSafe, WriterInv, WriterTick, Poll, SlotOp;
    KeptFacts(l, slot, d, s, s);
    TickInSlot(l, w, d, e, slot);
    var (w1, d1) := WriterTick(l, w, d, e);
    if d1 == d {
    } else if d1 == Poll(l, d, e.outcome).0 {
      var s1 := PollKept(l, slot, d, s, s, e.outcome);
    } else {
      SlotOpKept(l, d, d1.op, slot, s);
      FitsSame(l, d.mem, d1.mem);
    }
  }

  lemma WritingSafe(l: Layout, g: E.Engine, d: Device, e: Event, s: Snapshot, t: Snapshot)
    requires Ready(l) && EngineInv(l, g, d, s, t) && g.state == E.Writing
    ensures var (g1, d1) := E.StepWriting(l, g, d, e);
            EngineInv(l, g1, d1, s, t) && g1.running == g.running
  {
    hide Fits, Valid, Records, Holds, Cell, Ready, Safe, Kept, HeaderOk, Ok?, WriterTick, SlotOp, Poll, InBlock;
    KeptFacts(l, E.Destination(g), d, s, t);
    WriterTicked(l, g.writer, d, e, E.Destination(g), s);
    WriterDone(l, g, d, e, s);
  }

  // A finished block leaves the device idle.
  lemma WriterDone(l: Layout, g: E.Engine, d: Device, e: Event, s: Snapshot)
    requires Valid(l) && g.running < 2 && WriterInv(l, g.writer, d, E.Destination(g)) && g.writer.status == Busy
    ensures var (w1, d1) := WriterTick(l, g.writer, d, e);
            w1.status == Ok ==> d1 == d && g.writer.state == WPrepare
  {
    hide Valid, WriterTick, WriterInv;
    TickInSlot(l, g.writer, d, e, E.Destination(g));
  }

  // ---- Verifying ----

  // One more piece read back extends the checksum.
  lemma VerifiedMore(l: Layout, d: Device, slot: nat, offset: nat, crc: int, n: nat)
    requires Splits(l.crc) && Fits(l, d.mem) && slot < 2 && Verified(l, d.mem, slot, offset, crc)
    requires offset + n <= l.slotSize && n > 0 && Read(d, l.slots[slot] + offset, n) == Ok
    ensures Verified(l, d.mem, slot, offset + n, l.crc(crc, d.mem[l.slots[slot] + offset..l.slots[slot] + offset + n]))
  {
    hide Fits, Valid, Cells, AllBytes, Splits;
    CellsGrow(l, d.mem, slot, offset, n);
    ReadBytes(d, l.slots[slot] + offset, n);
    var piece := d.mem[l.slots[slot] + offset..l.slots[slot] + offset + n];
    var a := Cells(l, d.mem, slot, offset);
    BytesConcat(a, piece);
    if offset == 0 {
      assert a + piece == piece;
    } else {
      SplitsAt(l.crc, 0, a, piece);
    }
  }

  lemma CellsGrow(l: Layout, mem: seq<int>, slot: nat, offset: nat, n: nat)
    requires Fits(l, mem) && slot < 2 && offset + n <= l.slotSize
    ensures |l.slots| == 2 && l.slots[slot] + offset + n <= |mem| && |Cells(l, mem, slot, offset)| == offset
    ensures Cells(l, mem, slot, offset + n) == Cells(l, mem, slot, offset)
      + mem[l.slots[slot] + offset..l.slots[slot] + offset + n]
  {
    SlotInside(l, mem, slot);
    hide Fits, Valid;
    SliceGrows(mem, l.slots[slot], l.slotSize, offset, n);
  }

  lemma SliceGrows(mem: seq<int>, base: nat, size: nat, offset: nat, n: nat)
    requires base + size <= |mem| && offset + n <= size
    ensures mem[base..base + size][..offset + n] == mem[base..base + size][..offset]
      + mem[base + offset..base + offset + n]
  {
    var inner, piece := mem[base..base + size], mem[base + offset..base + offset + n];
    var whole := inner[..offset + n];
    assert |whole| == offset + n;
    forall k | 0 <= k < offset + n ensures whole[k] == (inner[..offset] + piece)[k] {
      assert whole[k] == mem[base + k];
      assert k >= offset ==> piece[k - offset] == mem[base + offset + (k - offset)];
    }
  }

  lemma ReadBytes(d: Device, at: nat, n: nat)
    requires Read(d, at, n) == Ok
    ensures at + n <= |d.mem| && AllBytes(d.mem[at..at + n])
  {}

  lemma BytesConcat(a: seq<int>, b: seq<int>)
    requires AllBytes(b)
    ensures AllBytes(a) ==> AllBytes(a + b)
  {}

  lemma SplitsAt(crc: Crc, v: int, a: seq<int>, b: seq<int>)
    requires Splits(crc) && AllBytes(a) && AllBytes(b) && 0 <= v < TWO_32
    ensures crc(crc(v, a), b) == crc(v, a + b)
  {}

  // A fully verified image is intact under the record the engine writes.
  lemma CandidateSafe(l: Layout, g: E.Engine, mem: seq<int>, s: Snapshot, h: P.Header, sequence: u64)
    requires Fits(l, mem) && g.running < 2 && HeaderOk(l, h, E.Destination(g)) && Safe(l, mem, s)
    requires s.counter < TWO_64 - 1 && 0 <= g.verifyCrc < TWO_32 && sequence > 0
    requires s.Slot(g.running).state == Confirmed
    requires Verified(l, mem, E.Destination(g), h.imageSize, g.verifyCrc)
    ensures var t := E.Candidate(g, s, h).(sequence := sequence);
            Safe(l, mem, t) && t.Slot(g.running) == s.Slot(g.running) && Follows(s, t)
  {
    var slot := E.Destination(g);
    DestinationOther(g);
    var t := E.Candidate(g, s, h).(sequence := sequence);
    assert Compatible(l, slot, t.Slot(slot));
    assert Intact(l, mem, slot, t.Slot(slot));
    hide Intact, Fits;
  }

  // t records the verified image as pending.
  predicate Offers(g: E.Engine, h: P.Header, t: Snapshot) {
    t.Slot(E.Destination(g)) ==
      Image(t.counter, h.imageSize, h.Crc(E.Destination(g)), Pending, h.product, h.revision, h.version)
  }

  lemma CommitStarted(l: Layout, executing: nat, g: E.Engine, d: Device, e: Event, s: Snapshot, h: P.Header)
    returns (t1: Snapshot)
    requires Ready(l) && EngineInv(l, g.(state := E.Aborting), d, s, s) && Settled(g, d, s, s) && !g.requested
    requires s.Slot(g.running).state == Confirmed && g.header == Some(h)
    requires 0 <= g.verifyCrc < TWO_32 && Verified(l, d.mem, E.Destination(g), h.imageSize, g.verifyCrc)
    requires g.verifyCrc == h.Crc(E.Destination(g))
    ensures var (g1, d1) := E.StepCommit(l, executing, g, d, e, h);
            && EngineInv(l, g1, d1, s, t1) && Moves(g.running, s, s, s, t1) && g1.running == g.running && d1 == d
            && (g1.state == E.Committing ==> Offers(g, h, t1))
  {
    hide Fits, Valid, Records, Holds, Cell, Ready, Safe, Kept, HeaderOk, WriterInv, Ok?, Load, Begin, Torn, Verified,
         Inv, OffSlots;
    KeptFacts(l, E.Destination(g), d, s, s);
    IdleTorn(l, d);
    var s0 := LoadSafe(l, g.journal, d, e.outcome, s, s);
    var loaded := Load(l, g.journal, d, e.outcome);
    t1 := s;
    if s.counter != TWO_64 - 1 {
      var c := E.Candidate(g, s, h);
      if s.sequence + 1 < TWO_64 {
        CandidateSafe(l, g, d.mem, s, h, s.sequence + 1);
      }
      BeginKept(l, executing, loaded.j, d, c, e.outcome, s, E.Destination(g));
      var begun := Begin(l, executing, loaded.j, d, c, false, e.outcome);
      if begun.status == Ok {
        t1 := c.(sequence := s.sequence + 1);
        IdleOffSlots(l, d);
      }
    }
  }

  lemma VerifyingSafe(l: Layout, executing: nat, g: E.Engine, d: Device, e: Event, s: Snapshot, t: Snapshot)
    returns (t1: Snapshot)
    requires Ready(l) && EngineInv(l, g, d, s, t) && g.state == E.Verifying
    ensures var (g1, d1) := E.StepVerifying(l, executing, g, d, e);
            && EngineInv(l, g1, d1, s, t1) && Moves(g.running, s, t, s, t1) && g1.running == g.running && d1 == d
            && (g1.state == E.Committing ==> Offers(g, g.header.value, t1))
  {
    hide Fits, Valid, Records, Holds, Cell, Safe, Kept, WriterInv, Ok?, E.StepCommit, Verified, Read, Splits, HeaderOk,
         Ready;
    t1 := t;
    ReadySplits(l);
    if !E.Stopping(g) {
      var h := g.header.value;
      var slot := E.Destination(g);
      HeaderSize(l, h, slot);
      var n := P.Min(256, h.imageSize - g.verifyOffset);
      var at := l.slots[slot] + g.verifyOffset;
      if Read(d, at, n) == Ok {
        ReadRange(d, at, n);
        var g1 := g.(verifyCrc := l.crc(g.verifyCrc, d.mem[at..at + n]), verifyOffset := g.verifyOffset + n);
        VerifiedMore(l, d, slot, g.verifyOffset, g.verifyCrc, n);
        if g1.verifyOffset == h.imageSize && g1.verifyCrc == h.Crc(slot) {
          t1 := CommitStarted(l, executing, g1, d, e, s, h);
        }
      }
    }
  }

  lemma ReadySplits(l: Layout)
    requires Ready(l)
    ensures Splits(l.crc)
  {}

  lemma ReadRange(d: Device, at: nat, n: nat)
    requires Read(d, at, n) == Ok
    ensures at + n <= |d.mem|
  {}

  // ---- Aborting ----

  lemma AbortingWrites(l: Layout, g: E.Engine, d: Device, e: Event, s: Snapshot, t: Snapshot)
    requires Ready(l) && EngineInv(l, g, d, s, t) && g.state == E.Aborting && g.writer.status == Busy
    ensures var (w, d1) := WriterTick(l, g.writer.(cancelled := true), d, e);
            EngineInv(l, g.(writer := w), d1, s, t)
  {
    hide Fits, Valid, Records, Holds, Cell, Ready, Safe, Kept, HeaderOk, Ok?, WriterTick, SlotOp, Poll, InBlock;
    var w := g.writer.(cancelled := true);
    WriterTicked(l, w, d, e, E.Destination(g), s);
  }

  lemma AbortingJournal(l: Layout, g: E.Engine, d: Device, e: Event, s: Snapshot, t: Snapshot) returns (s1: Snapshot)
    requires Ready(l) && EngineInv(l, g, d, s, t) && g.state == E.Aborting && g.writer.status != Busy
      && g.journal.status == Busy
    ensures var (j, d1) := Tick(l, g.journal, d, e);
            EngineInv(l, g.(journal := j), d1, s1, t) && (s1 == s || s1 == t)
  {
    hide Fits, Valid, Records, Holds, Cell, Ready, Safe, Tick, Kept, WriterInv, HeaderOk, Working, OffSlots;
    s1 := JournalTick(l, g, d, e, s, t);
  }

  // With the device idle, a pending candidate is withdrawn; then the engine fails.
  lemma AbortingEnds(l: Layout, executing: nat, g: E.Engine, d: Device, e: Event, s: Snapshot) returns (t1: Snapshot)
    requires Ready(l) && EngineInv(l, g, d, s, s) && g.state == E.Aborting && g.writer.status != Busy
      && g.journal.status != Busy
    requires d.op.NoOp?
    ensures var (g1, d1) := E.StepAborting(l, executing, g, d, e);
            EngineInv(l, g1, d1, s, t1) && Moves(g.running, s, s, s, t1) && g1.running == g.running
  {
    hide Fits, Valid, Records, Holds, Cell, Ready, Safe, Kept, HeaderOk, WriterInv, Ok?, Load, Begin, Torn, Inv,
         OffSlots, Poll;
    KeptFacts(l, E.Destination(g), d, s, s);
    PollIdle(l, d, e.outcome);
    IdleTorn(l, d);
    DestinationOther(g);
    var s0 := LoadSafe(l, g.journal, d, e.outcome, s, s);
    var loaded := Load(l, g.journal, d, e.outcome);
    t1 := s;
    var slot := E.Destination(g);
    if s.Slot(slot).state == Pending {
      var withdrawn := s.With(slot, s.Slot(slot).(state := Incomplete));
      if s.sequence + 1 < TWO_64 {
        WithdrawSafe(l, d.mem, s, slot, s.sequence + 1);
      }
      BeginKept(l, executing, loaded.j, d, withdrawn, e.outcome, s, slot);
      var begun := Begin(l, executing, loaded.j, d, withdrawn, false, e.outcome);
      if begun.status == Ok {
        t1 := withdrawn.(sequence := s.sequence + 1);
        IdleOffSlots(l, d);
      }
    }
  }

  lemma AbortingSafe(l: Layout, executing: nat, g: E.Engine, d: Device, e: Event, s: Snapshot, t: Snapshot)
    returns (s1: Snapshot, t1: Snapshot)
    requires Ready(l) && EngineInv(l, g, d, s, t) && g.state == E.Aborting
    ensures var (g1, d1) := E.StepAborting(l, executing, g, d, e);
            EngineInv(l, g1, d1, s1, t1) && Moves(g.running, s, t, s1, t1) && g1.running == g.running
  {
    hide EngineInv, Fits, Valid, Ok?, WriterTick, Tick, Poll, Load, Begin, Ready;
    EngineFacts(l, g, d, s, t);
    s1, t1 := s, t;
    if g.writer.status == Busy {
      AbortingWrites(l, g, d, e, s, t);
    } else if g.journal.status == Busy {
      s1 := AbortingJournal(l, g, d, e, s, t);
    } else {
      var (d1, polled) := Poll(l, d, e.outcome);
      s1 := PollAborting(l, g, d, e.outcome, s, t);
      if polled != Busy {
        t1 := AbortingEnds(l, executing, g, d1, e, s1);
        PollTwice(l, d, e.outcome);
      }
    }
  }

  lemma EngineFacts(l: Layout, g: E.Engine, d: Device, s: Snapshot, t: Snapshot)
    requires EngineInv(l, g, d, s, t)
    ensures Fits(l, d.mem) && Valid(l) && Ok?(l, g.journal) && g.running < 2 && Kept(l, E.Destination(g), d, s, t)
  {}

  lemma PollTwice(l: Layout, d: Device, o: Outcome)
    ensures var (d1, status) := Poll(l, d, o);
            status != Busy ==> Poll(l, d1, o) == (d1, Ok)
  {}

  lemma PollAborting(l: Layout, g: E.Engine, d: Device, o: Outcome, s: Snapshot, t: Snapshot) returns (s1: Snapshot)
    requires Ready(l) && EngineInv(l, g, d, s, t) && g.state == E.Aborting && g.writer.status != Busy
      && g.journal.status != Busy
    ensures var (d1, polled) := Poll(l, d, o);
            && (s1 == s || s1 == t)
            && (if polled == Busy then d1 == d && s1 == s else d1.op.NoOp? && EngineInv(l, g, d1, s1, s1))
  {
    hide Fits, Valid, Records, Holds, Cell, Ready, Safe, Kept, HeaderOk, Ok?, Poll, Bounded;
    s1 := PollKept(l, E.Destination(g), d, s, t, o);
  }

  /** Every tick of the engine keeps the board bootable, whatever the flash and the
      clock do. */
  lemma TickKept(l: Layout, executing: nat, g: E.Engine, d: Device, e: Event, s: Snapshot, t: Snapshot)
    returns (s1: Snapshot, t1: Snapshot)
    requires Ready(l) && EngineInv(l, g, d, s, t)
    ensures var (g1, d1) := E.Tick(l, executing, g, d, e);
            EngineInv(l, g1, d1, s1, t1) && Moves(g.running, s, t, s1, t1) && g1.running == g.running
  {
    hide EngineInv, Fits, Valid, Ok?, Ready, Moves, E.StepRest, E.StepInvalidating, E.StepReceiving, E.StepWriting,
         E.StepVerifying, E.StepCommitting, E.StepAborting;
    EngineFacts(l, g, d, s, t);
    s1, t1 := s, t;
    MovesStay(g.running, s, t);
    match g.state {
      case Disabled | Idle | Done | Failed => t1 := RestSafe(l, executing, g, d, e, s, t);
      case Invalidating => s1 := InvalidatingSafe(l, g, d, e, s, t);
      case Receiving => ReceivingSafe(l, g, d, e, s, t);
      case Writing => WritingSafe(l, g, d, e, s, t);
      case Verifying => t1 := VerifyingSafe(l, executing, g, d, e, s, t);
      case Committing => s1 := CommittingSafe(l, g, d, e, s, t);
      case Aborting => s1, t1 := AbortingSafe(l, executing, g, d, e, s, t);
    }
  }

  lemma MovesStay(running: nat, s: Snapshot, t: Snapshot)
    ensures Moves(running, s, t, s, t)
  {}
}
