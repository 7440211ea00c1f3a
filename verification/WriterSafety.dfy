/** The writer touches nothing but the slot it was given. */
module WriterSafety {
  import opened TornRecord
  import opened Layouts
  import opened Flash
  import opened WriterSpec
  import opened Arithmetic

  // ---- Arithmetic of sectors and words ----

  lemma SectorFits(position: nat, sector: nat, slot: nat)
    requires sector > 0 && slot % sector == 0 && position < slot
    ensures SectorOf(position, sector) + sector <= slot
  {
    var p, q := position / sector, slot / sector;
    assert position == p * sector + position % sector && slot == q * sector;
    if p >= q {
      MulMonotone(q, p, sector);
      assert false;
    }
    MulMonotone(p + 1, q, sector);
    assert (p + 1) * sector == p * sector + sector;
  }

  lemma Multiple(q: nat, k: nat)
    ensures (q * (256 * k)) % 256 == 0
  {
    assert q * (256 * k) == 256 * (q * k);
    MultipleOf(q * k);
  }

  lemma MultipleOf(n: nat)
    ensures (256 * n) % 256 == 0
  {}

  lemma SlotWords(l: Layout)
    requires Valid(l)
    ensures l.slotSize % 256 == 0
  {
    var q, k := l.slotSize / l.sectorSize, l.sectorSize / 256;
    assert l.slotSize == q * l.sectorSize && l.sectorSize == 256 * k;
    Multiple(q, k);
  }

  lemma WordFits(l: Layout, position: nat)
    requires Valid(l) && position < l.slotSize && Aligned(position, l.writeSize)
    ensures position + l.writeSize <= l.slotSize
  {
    SlotWords(l);
    WordBelow(position, l.slotSize, l.writeSize);
  }

  lemma WordBelow(position: nat, size: nat, writeSize: nat)
    requires (writeSize == 16 || writeSize == 32) && size % 256 == 0 && position < size && Aligned(position, writeSize)
    ensures position + writeSize <= size
  {
    if writeSize == 32 {
      Below32(position / 32, size / 256);
    } else {
      Below16(position / 16, size / 256);
    }
  }

  lemma Below32(a: int, b: int)
    requires 32 * a < 256 * b
    ensures 32 * a + 32 <= 256 * b
  {}

  lemma Below16(a: int, b: int)
    requires 16 * a < 256 * b
    ensures 16 * a + 16 <= 256 * b
  {}

  // ---- Operations inside the slot ----

  ghost predicate SlotOp(l: Layout, op: Op, slot: nat)
    requires Valid(l) && slot < 2
  {
    !op.NoOp? && l.slots[slot] <= Start(op) && Start(op) + Size(op) <= l.slots[slot] + l.slotSize
  }

  // A writer at work stays inside its block, word by word.
  ghost predicate InBlock(l: Layout, base: nat, offset: nat, size: nat, written: nat, slot: nat)
    requires Valid(l) && slot < 2
  {
    && base == l.slots[slot] && offset + size <= l.slotSize && written <= size
    && (written < size ==> Aligned(offset + written, l.writeSize))
  }

  ghost predicate Bounded(l: Layout, w: Writer, slot: nat)
    requires Valid(l) && slot < 2
  {
    InBlock(l, w.base, w.offset, |w.data|, w.written, slot)
  }

  ghost predicate WriterInv(l: Layout, w: Writer, d: Device, slot: nat)
    requires Valid(l) && slot < 2
  {
    && (w.status == Busy <==> w.requested || w.state in {WPrepare, WEraseWait, WProgramWait})
    && (w.requested ==> w.state !in {WPrepare, WEraseWait, WProgramWait})
    && (w.status == Busy ==> Bounded(l, w, slot))
    && (w.requested || w.state == WPrepare ==> d.op.NoOp?)
  }

  lemma BeginBounded(l: Layout, w: Writer, d: Device, slot: nat, offset: nat, data: seq<int>, o: Outcome)
    requires Valid(l) && slot < 2 && w.status != Busy && WriterInv(l, w, d, slot)
    ensures var r := WriterBegin(l, w, d, slot, offset, data, o);
            if r.status == Ok then WriterInv(l, r.w, r.d, slot) && r.w.status == Busy else r.w == w
    ensures var r := WriterBegin(l, w, d, slot, offset, data, o);
            r.d == d || (r.d, r.status) == (Poll(l, d, o).0, if Poll(l, d, o).1 == Busy then Busy else Ok)
  {
    hide Poll, Valid;
    ValidWrite(l);
    PollIdle(l, d, o);
    if offset % l.writeSize == 0 {
      AlignedOffset(offset, l.writeSize);
    }
  }

  lemma PollIdle(l: Layout, d: Device, o: Outcome)
    ensures Poll(l, d, o).1 == Busy || Poll(l, d, o).0.op.NoOp?
    ensures d.op.NoOp? ==> Poll(l, d, o) == (d, Ok)
  {}

  lemma ValidWrite(l: Layout)
    requires Valid(l)
    ensures l.writeSize == 16 || l.writeSize == 32
  {}

  lemma AlignedOffset(offset: nat, writeSize: nat)
    requires (writeSize == 16 || writeSize == 32) && offset % writeSize == 0
    ensures Aligned(offset, writeSize)
  {}

  lemma WriterOps(l: Layout, w: Writer, slot: nat)
    requires Valid(l) && slot < 2 && Bounded(l, w, slot) && w.written < |w.data|
    ensures var position := w.offset + w.written;
            && SlotOp(l, EraseOp(w.base + SectorOf(position, l.sectorSize), l.sectorSize), slot)
            && SlotOp(l, ProgramOp(w.base + position, Word(l, w)), slot)
  {
    var position := w.offset + w.written;
    SectorFits(position, l.sectorSize, l.slotSize);
    WordFits(l, position);
  }

  lemma NextWord(l: Layout, w: Writer, slot: nat)
    requires Valid(l) && slot < 2 && Bounded(l, w, slot) && w.written < |w.data|
    ensures Bounded(l, w.(written := w.written + Count(l, w)), slot)
  {
    hide Valid, Aligned;
    ValidWrite(l);
    AlignedNext(w.offset + w.written, l.writeSize);
    assert w.offset + (w.written + l.writeSize) == w.offset + w.written + l.writeSize;
  }

  lemma AlignedNext(position: nat, writeSize: nat)
    requires (writeSize == 16 || writeSize == 32) && Aligned(position, writeSize)
    ensures Aligned(position + writeSize, writeSize)
  {}

  lemma WrittenRange(l: Layout, w: Writer, slot: nat)
    requires Valid(l) && slot < 2 && Bounded(l, w, slot)
    ensures w.written <= |w.data|
  {}

  /** A tick of the writer leaves the device as it was, starts an operation inside
      the slot, or polls the one in flight. */
  lemma TickInSlot(l: Layout, w: Writer, d: Device, e: Event, slot: nat)
    requires Valid(l) && slot < 2 && WriterInv(l, w, d, slot)
    ensures var (w1, d1) := WriterTick(l, w, d, e);
            && WriterInv(l, w1, d1, slot)
            && (d1 == d || d1 == Poll(l, d, e.outcome).0
                || (d.op.NoOp? && d1 == d.(op := d1.op) && SlotOp(l, d1.op, slot) && w.status == Busy))
            && (w.status == Busy && w1.status == Ok ==> d1 == d && w.state == WPrepare)
            && (w1.status == Busy ==> w.status == Busy)
  {
    hide Valid, Poll, SlotOp, StartProgram, Word, InBlock, SectorOf;
    PollIdle(l, d, e.outcome);
    match w.state {
      case WIdle | WDone | WFailed =>
      case WPrepare =>
        WrittenRange(l, w, slot);
        if !w.cancelled && w.written < |w.data| {
          WriterOps(l, w, slot);
          StartProgramCases(d, w.base + w.offset + w.written, Word(l, w), e.refuse);
        }
      case WEraseWait =>
      case WProgramWait =>
        WrittenRange(l, w, slot);
        if w.written < |w.data| {
          NextWord(l, w, slot);
        }
    }
  }
}
