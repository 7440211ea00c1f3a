/** Writing consecutive blocks leaves their concatenation in the slot. */
module WriterRefine {
  import opened Bytes
  import opened TornRecord
  import opened Layouts
  import opened Flash
  import opened WriterSpec
  import opened WriterSafety
  import opened Arithmetic

  ghost predicate OnSector(position: nat, sector: nat) { sector > 0 && exists q: nat :: position == Mul(q, sector) }

  lemma SectorStart(position: nat, sector: nat)
    requires OnSector(position, sector)
    ensures SectorOf(position, sector) == position && OnSector(position + sector, sector)
  {
    var q: nat :| position == Mul(q, sector);
    MultipleMod(q, sector);
    assert position + sector == Mul(q + 1, sector);
  }

  // The slot holds `content`, and is blank from there to `until`.
  ghost predicate Laid(l: Layout, mem: seq<int>, slot: nat, content: seq<int>, until: nat) {
    && Fits(l, mem) && slot < 2 && |content| <= until <= l.slotSize && OnSector(until, l.sectorSize)
    && Holding(Slot(l, mem, slot), content, until)
  }

  ghost predicate Holding(cells: seq<int>, content: seq<int>, until: nat) {
    && |content| <= until <= |cells| && cells[..|content|] == content
    && forall i :: |content| <= i < until ==> cells[i] == BLANK
  }

  // Everything written when `prior` is what earlier blocks wrote.
  function Content(w: Writer, prior: seq<int>): seq<int>
    requires w.written <= |w.data|
  {
    prior + w.data[..w.written]
  }

  ghost predicate Refined(l: Layout, w: Writer, d: Device, slot: nat, prior: seq<int>) {
    && Valid(l) && slot < 2 && w.written <= |w.data| && |prior| == w.offset && WriterInv(l, w, d, slot)
    && var content := Content(w, prior);
       match w.state
       case WEraseWait =>
         && d.op == EraseOp(l.slots[slot] + |content|, l.sectorSize) && w.erasedUntil == |content| + l.sectorSize
         && Laid(l, d.mem, slot, content, |content|) && w.erasedUntil <= l.slotSize && w.written < |w.data|
       case WProgramWait =>
         && w.written < |w.data| && d.op == ProgramOp(l.slots[slot] + |content|, Word(l, w))
         && Laid(l, d.mem, slot, content, w.erasedUntil) && |content| + l.writeSize <= w.erasedUntil
       case _ => d.op.NoOp? && Laid(l, d.mem, slot, content, w.erasedUntil)
  }

  // ---- Operations that finish ----

  lemma HoldingErased(cells: seq<int>, content: seq<int>, size: nat)
    requires Holding(cells, content, |content|) && |content| + size <= |cells|
    ensures Holding(Splice(cells, |content|, Fill(size, BLANK)), content, |content| + size)
  {}

  lemma HoldingProgrammed(cells: seq<int>, content: seq<int>, until: nat, data: seq<int>, pad: nat)
    requires Holding(cells, content, until) && |content| + |data| + pad <= until
    ensures Holding(Splice(cells, |content|, data + Fill(pad, BLANK)), content + data, until)
  {
    var after := Splice(cells, |content|, data + Fill(pad, BLANK));
    assert after[..|content| + |data|] == content + data;
  }

  // An operation inside a slot does to the slot what it does to the chip.
  lemma SpliceSlot(l: Layout, mem: seq<int>, slot: nat, at: nat, data: seq<int>)
    requires Fits(l, mem) && slot < 2 && at + |data| <= l.slotSize
    ensures |l.slots| == 2 && l.slots[slot] + at + |data| <= |mem|
    ensures Fits(l, Splice(mem, l.slots[slot] + at, data))
    ensures Slot(l, Splice(mem, l.slots[slot] + at, data), slot) == Splice(Slot(l, mem, slot), at, data)
  {
    SlotInside(l, mem, slot);
    var after := Splice(mem, l.slots[slot] + at, data);
    FitsSame(l, mem, after);
    hide Fits, Valid, Splice;
    SpliceInner(mem, l.slots[slot], l.slotSize, at, data);
  }

  lemma SpliceInner(mem: seq<int>, base: nat, n: nat, at: nat, data: seq<int>)
    requires base + n <= |mem| && at + |data| <= n
    ensures Splice(mem, base + at, data)[base..base + n] == Splice(mem[base..base + n], at, data)
  {}

  lemma ApplySplice(mem: seq<int>, at: nat, size: nat, data: seq<int>)
    ensures at + size <= |mem| ==> Apply(mem, EraseOp(at, size)) == Splice(mem, at, Fill(size, BLANK))
    ensures at + |data| <= |mem| ==> Apply(mem, ProgramOp(at, data)) == Splice(mem, at, data)
  {}

  lemma EraseLaid(l: Layout, mem: seq<int>, slot: nat, content: seq<int>)
    requires Laid(l, mem, slot, content, |content|) && |content| + l.sectorSize <= l.slotSize
    ensures Laid(l, Apply(mem, EraseOp(l.slots[slot] + |content|, l.sectorSize)), slot, content,
                 |content| + l.sectorSize)
  {
    hide Fits, Valid, OnSector, Holding, Slot, Splice, Apply;
    SectorStart(|content|, l.sectorSize);
    SpliceSlot(l, mem, slot, |content|, Fill(l.sectorSize, BLANK));
    ApplySplice(mem, l.slots[slot] + |content|, l.sectorSize, []);
    HoldingErased(Slot(l, mem, slot), content, l.sectorSize);
  }

  lemma ProgramLaid(l: Layout, mem: seq<int>, slot: nat, content: seq<int>, until: nat, data: seq<int>, pad: nat)
    requires Laid(l, mem, slot, content, until) && |content| + |data| + pad <= until
    ensures Laid(l, Apply(mem, ProgramOp(l.slots[slot] + |content|, data + Fill(pad, BLANK))), slot, content + data,
                 until)
  {
    hide Fits, Valid, OnSector, Holding, Slot, Splice, Apply;
    SpliceSlot(l, mem, slot, |content|, data + Fill(pad, BLANK));
    ApplySplice(mem, l.slots[slot] + |content|, 0, data + Fill(pad, BLANK));
    HoldingProgrammed(Slot(l, mem, slot), content, until, data, pad);
  }

  // A word of the erased area is blank, so it accepts the program.
  lemma WordAccepted(l: Layout, d: Device, slot: nat, content: seq<int>, until: nat, word: seq<int>)
    requires Laid(l, d.mem, slot, content, until) && |content| + |word| <= until && d.op.NoOp? && AllBytes(word)
    ensures StartProgram(d, l.slots[slot] + |content|, word, false)
            == (d.(op := ProgramOp(l.slots[slot] + |content|, word)), Ok)
  {
    BlankWord(l, d.mem, slot, content, until, |word|);
    hide Fits, Valid, OnSector, Holding, Slot, StartProgram;
    BlankStarts(d, l.slots[slot] + |content|, word);
  }

  lemma BlankWord(l: Layout, mem: seq<int>, slot: nat, content: seq<int>, until: nat, n: nat)
    requires Laid(l, mem, slot, content, until) && |content| + n <= until
    ensures l.slots[slot] + |content| + n <= |mem|
    ensures forall i :: l.slots[slot] + |content| <= i < l.slots[slot] + |content| + n ==> mem[i] == BLANK
  {
    hide OnSector;
    var base := l.slots[slot];
    forall i | base + |content| <= i < base + |content| + n ensures mem[i] == BLANK {
      assert mem[i] == Slot(l, mem, slot)[i - base];
    }
  }

  lemma WordInside(l: Layout, position: nat, until: nat)
    requires Valid(l) && position < until && OnSector(until, l.sectorSize) && Aligned(position, l.writeSize)
    ensures position + l.writeSize <= until
  {
    var q: nat :| until == Mul(q, l.sectorSize);
    var k := l.sectorSize / 256;
    assert l.sectorSize == 256 * k;
    Multiple(q, k);
    WordBelow(position, until, l.writeSize);
  }

  // ---- One tick ----

  // Unless the write fails or is cancelled, the refinement goes on.
  ghost predicate GoesOn(l: Layout, w: Writer, w1: Writer, d1: Device, slot: nat, prior: seq<int>) {
    && w1.data == w.data && w1.offset == w.offset
    && (w1.status in {Busy, Ok} ==> Refined(l, w1, d1, slot, prior))
    && (w1.status == Ok ==> w1.written == |w1.data|)
  }

  // A program started on blank cells only; an erase started behind all that is written.
  ghost predicate StartsClean(l: Layout, w: Writer, d: Device, d1: Device, slot: nat, prior: seq<int>)
    requires Valid(l) && slot < 2 && w.written <= |w.data|
  {
    d.op.NoOp? && !d1.op.NoOp? ==>
      && Start(d1.op) >= l.slots[slot] + |Content(w, prior)| && Start(d1.op) + Size(d1.op) <= |d.mem|
      && (d1.op.ProgramOp? ==> forall i :: Start(d1.op) <= i < Start(d1.op) + Size(d1.op) ==> d.mem[i] == BLANK)
  }

  lemma PrepareFacts(l: Layout, w: Writer, d: Device, slot: nat, prior: seq<int>)
    requires Refined(l, w, d, slot, prior) && w.state == WPrepare && w.written < |w.data|
    ensures var content := Content(w, prior);
            && Laid(l, d.mem, slot, content, w.erasedUntil) && d.op.NoOp? && |l.slots| == 2 && w.base == l.slots[slot]
            && |content| == w.offset + w.written < l.slotSize && Aligned(|content|, l.writeSize)
            && (w.offset + w.written >= w.erasedUntil ==>
                  && w.erasedUntil == |content| && SectorOf(|content|, l.sectorSize) == |content|
                  && |content| + l.sectorSize <= l.slotSize)
            && (w.offset + w.written < w.erasedUntil ==> |content| + l.writeSize <= w.erasedUntil)
  {
    var content := Content(w, prior);
    assert |content| == w.offset + w.written;
    if |content| >= w.erasedUntil {
      SectorStart(|content|, l.sectorSize);
      SectorFits(|content|, l.sectorSize, l.slotSize);
    } else {
      WordInside(l, |content|, w.erasedUntil);
    }
  }

  lemma PrepareRefined(l: Layout, w: Writer, d: Device, e: Event, slot: nat, prior: seq<int>)
    requires Refined(l, w, d, slot, prior) && w.state == WPrepare
    ensures var (w1, d1) := StepPrepare(l, w, d, e);
            GoesOn(l, w, w1, d1, slot, prior) && StartsClean(l, w, d, d1, slot, prior)
  {
    hide Valid, Fits, Laid, StartProgram, SectorOf, InBlock;
    TickInSlot(l, w, d, e, slot);
    if !w.cancelled && w.written < |w.data| {
      PrepareFacts(l, w, d, slot, prior);
      var content := Content(w, prior);
      if w.offset + w.written >= w.erasedUntil {
        LaidStart(l, d.mem, slot, content, w.erasedUntil, l.sectorSize);
      } else {
        LaidStart(l, d.mem, slot, content, w.erasedUntil, l.writeSize);
        BlankWord(l, d.mem, slot, content, w.erasedUntil, l.writeSize);
        StartProgramCases(d, w.base + w.offset + w.written, Word(l, w), e.refuse);
      }
    }
  }

  lemma LaidStart(l: Layout, mem: seq<int>, slot: nat, content: seq<int>, until: nat, n: nat)
    requires Laid(l, mem, slot, content, until) && |content| + n <= l.slotSize
    ensures |l.slots| == 2 && l.slots[slot] + |content| + n <= |mem|
  {}

  lemma WaitRefined(l: Layout, w: Writer, d: Device, e: Event, slot: nat, prior: seq<int>)
    requires Refined(l, w, d, slot, prior) && w.state in {WEraseWait, WProgramWait}
    ensures var (w1, d1) := StepWait(l, w, d, e);
            GoesOn(l, w, w1, d1, slot, prior) && StartsClean(l, w, d, d1, slot, prior)
  {
    hide Valid, Fits, Laid, Apply, InBlock, Torn;
    TickInSlot(l, w, d, e, slot);
    var content := Content(w, prior);
    if e.outcome.Finished? {
      if w.state == WEraseWait {
        EraseLaid(l, d.mem, slot, content);
      } else {
        var n := Count(l, w);
        var data := w.data[w.written..w.written + n];
        ProgramLaid(l, d.mem, slot, content, w.erasedUntil, data, l.writeSize - n);
        assert prior + w.data[..w.written + n] == content + data;
      }
    }
  }

  /** Every tick keeps the slot equal to what has been written so far, starts
      programs only on blank words and erases only behind everything written. */
  lemma TickRefined(l: Layout, w: Writer, d: Device, e: Event, slot: nat, prior: seq<int>)
    requires Refined(l, w, d, slot, prior)
    ensures var (w1, d1) := WriterTick(l, w, d, e);
            && w1.data == w.data && w1.offset == w.offset
            && (w.status == Busy ==> GoesOn(l, w, w1, d1, slot, prior))
            && StartsClean(l, w, d, d1, slot, prior)
  {
    hide Valid, Fits, Laid, StepPrepare, StepWait, InBlock;
    match w.state {
      case WIdle | WDone | WFailed =>
      case WPrepare => PrepareRefined(l, w, d, e, slot, prior);
      case WEraseWait | WProgramWait => WaitRefined(l, w, d, e, slot, prior);
    }
  }

  // ---- Whole blocks ----

  function WriteRun(l: Layout, w: Writer, d: Device, script: seq<Event>): (r: (Writer, Device))
    requires Valid(l)
    decreases |script|
  {
    if w.status != Busy || script == [] then (w, d)
    else
      var (w1, d1) := WriterTick(l, w, d, script[0]);
      WriteRun(l, w1, d1, script[1..])
  }

  lemma {:induction false} RunRefined(l: Layout, w: Writer, d: Device, slot: nat, prior: seq<int>, script: seq<Event>)
    requires Refined(l, w, d, slot, prior) && w.status == Busy
    ensures var (w1, d1) := WriteRun(l, w, d, script);
            GoesOn(l, w, w1, d1, slot, prior)
    decreases |script|
  {
    hide Refined, WriterTick, Valid;
    RefinedValid(l, w, d, slot, prior);
    if script != [] {
      TickRefined(l, w, d, script[0], slot, prior);
      var (w1, d1) := WriterTick(l, w, d, script[0]);
      if w1.status == Busy {
        RunRefined(l, w1, d1, slot, prior, script[1..]);
      }
    }
  }

  lemma RefinedValid(l: Layout, w: Writer, d: Device, slot: nat, prior: seq<int>)
    requires Refined(l, w, d, slot, prior)
    ensures Valid(l) && slot < 2 && w.written <= |w.data|
  {}

  // A block and the events its writing meets.
  datatype Block = Block(data: seq<int>, outcome: Outcome, script: seq<Event>)

  datatype Wrote = Wrote(w: Writer, d: Device, ok: bool)

  function WriteBlock(l: Layout, w: Writer, d: Device, slot: nat, offset: nat, b: Block): Wrote
    requires Valid(l)
  {
    var begun := WriterBegin(l, w, d, slot, offset, b.data, b.outcome);
    if begun.status != Ok then Wrote(begun.w, begun.d, false)
    else
      var (w1, d1) := WriteRun(l, begun.w, begun.d, b.script);
      Wrote(w1, d1, w1.status == Ok)
  }

  // Consecutive blocks, each where the last one ended, until one does not succeed.
  function WriteAll(l: Layout, w: Writer, d: Device, slot: nat, offset: nat, blocks: seq<Block>): Wrote
    requires Valid(l)
    decreases |blocks|
  {
    if blocks == [] then Wrote(w, d, true)
    else
      var r := WriteBlock(l, w, d, slot, offset, blocks[0]);
      if r.ok then WriteAll(l, r.w, r.d, slot, offset + |blocks[0].data|, blocks[1..]) else r
  }

  function Concat(blocks: seq<Block>): seq<int>
    decreases |blocks|
  {
    if blocks == [] then [] else blocks[0].data + Concat(blocks[1..])
  }

  // Between blocks: prior is what has been written.
  ghost predicate Between(l: Layout, w: Writer, d: Device, slot: nat, prior: seq<int>) {
    && Valid(l) && slot < 2 && WriterInv(l, w, d, slot) && w.status != Busy && d.op.NoOp? && Fits(l, d.mem)
    && (prior != [] ==> Laid(l, d.mem, slot, prior, w.erasedUntil))
  }

  lemma BeginRefined(l: Layout, w: Writer, d: Device, slot: nat, prior: seq<int>, b: Block)
    requires Between(l, w, d, slot, prior)
    ensures var r := WriterBegin(l, w, d, slot, |prior|, b.data, b.outcome);
            r.status == Ok ==> r.d == d && Refined(l, r.w, r.d, slot, prior) && r.w.status == Busy && r.w.data == b.data
  {
    BeginBounded(l, w, d, slot, |prior|, b.data, b.outcome);
    PollIdle(l, d, b.outcome);
    NothingLaid(l, d.mem, slot);
    hide Valid, Fits, Laid, Poll, WriterInv;
    var r := WriterBegin(l, w, d, slot, |prior|, b.data, b.outcome);
    if r.status == Ok { assert Content(r.w, prior) == prior; }
  }

  lemma NothingLaid(l: Layout, mem: seq<int>, slot: nat)
    requires Fits(l, mem) && slot < 2
    ensures Laid(l, mem, slot, [], 0)
  {
    assert 0 == Mul(0, l.sectorSize);
  }

  lemma BlockRefined(l: Layout, w: Writer, d: Device, slot: nat, prior: seq<int>, b: Block)
    requires Between(l, w, d, slot, prior)
    ensures var r := WriteBlock(l, w, d, slot, |prior|, b);
            r.ok ==>
              && Between(l, r.w, r.d, slot, prior + b.data)
              && Laid(l, r.d.mem, slot, prior + b.data, r.w.erasedUntil)
  {
    hide Valid, Fits, Laid, WriteRun, WriterBegin, WriterInv, Refined;
    BeginRefined(l, w, d, slot, prior, b);
    var begun := WriterBegin(l, w, d, slot, |prior|, b.data, b.outcome);
    if begun.status == Ok {
      RunRefined(l, begun.w, begun.d, slot, prior, b.script);
      var (w1, d1) := WriteRun(l, begun.w, begun.d, b.script);
      if w1.status == Ok {
        FinishedBetween(l, w1, d1, slot, prior);
        assert prior + w1.data[..|w1.data|] == prior + b.data;
      }
    }
  }

  lemma FinishedBetween(l: Layout, w: Writer, d: Device, slot: nat, prior: seq<int>)
    requires Refined(l, w, d, slot, prior) && w.status == Ok && w.written == |w.data|
    ensures Between(l, w, d, slot, Content(w, prior)) && Laid(l, d.mem, slot, Content(w, prior), w.erasedUntil)
  {
    hide Valid, Fits, OnSector, Holding;
  }

  lemma {:induction false} WritesConcatenation(l: Layout, w: Writer, d: Device, slot: nat, prior: seq<int>,
                                               blocks: seq<Block>)
    requires Between(l, w, d, slot, prior)
    ensures Valid(l)
    ensures var r := WriteAll(l, w, d, slot, |prior|, blocks);
            r.ok ==> Between(l, r.w, r.d, slot, prior + Concat(blocks))
    decreases |blocks|
  {
    hide Fits, WriteBlock, Between, Laid;
    BetweenValid(l, w, d, slot, prior);
    if blocks == [] {
      assert prior + Concat(blocks) == prior;
    } else {
      BlockRefined(l, w, d, slot, prior, blocks[0]);
      var r := WriteBlock(l, w, d, slot, |prior|, blocks[0]);
      if r.ok {
        WritesConcatenation(l, r.w, r.d, slot, prior + blocks[0].data, blocks[1..]);
        assert prior + blocks[0].data + Concat(blocks[1..]) == prior + Concat(blocks);
      }
    }
  }

  lemma BetweenValid(l: Layout, w: Writer, d: Device, slot: nat, prior: seq<int>)
    requires Between(l, w, d, slot, prior)
    ensures Valid(l)
  {}

  /** The refinement: for every valid layout and every timing, if the blocks of an
      image are all written ok then the slot holds their concatenation, padded with
      erased cells to the end of the last sector used. */
  lemma WritesImage(l: Layout, w: Writer, d: Device, slot: nat, blocks: seq<Block>)
    requires Valid(l) && Fits(l, d.mem) && slot < 2 && WriterInv(l, w, d, slot) && w.status != Busy && d.op.NoOp?
    ensures var r := WriteAll(l, w, d, slot, 0, blocks);
            var image := Concat(blocks);
            r.ok && image != [] ==>
              && |image| <= r.w.erasedUntil <= l.slotSize && Fits(l, r.d.mem)
              && Slot(l, r.d.mem, slot)[..|image|] == image
              && forall i :: |image| <= i < r.w.erasedUntil ==> Slot(l, r.d.mem, slot)[i] == BLANK
  {
    WritesConcatenation(l, w, d, slot, [], blocks);
    assert [] + Concat(blocks) == Concat(blocks);
  }

  // ---- Writes without a fault succeed ----

  // No poll of the run finds its operation still running after the timeout.
  ghost predicate Timely(l: Layout, w: Writer, d: Device, script: seq<Event>)
    requires Valid(l)
    decreases |script|
  {
    w.status == Busy && script != [] ==>
      && (w.state in {WEraseWait, WProgramWait} && !script[0].outcome.Finished? ==>
            Elapsed(script[0].now, w.started) < l.operationTimeout)
      && var (w1, d1) := WriterTick(l, w, d, script[0]);
         Timely(l, w1, d1, script[1..])
  }

  // An upper bound of the ticks still needed.
  function Cost(w: Writer): int {
    4 * (|w.data| - w.written) +
    match w.state
    case WIdle | WDone | WFailed => 5
    case WPrepare => if w.offset + w.written >= w.erasedUntil then 4 else 2
    case WEraseWait => 3
    case WProgramWait => 1
  }

  lemma CleanPrepare(l: Layout, w: Writer, d: Device, e: Event, slot: nat, prior: seq<int>)
    requires Refined(l, w, d, slot, prior) && w.state == WPrepare && !w.cancelled && AllBytes(w.data) && FaultFree(e)
    ensures var (w1, d1) := StepPrepare(l, w, d, e);
            !w1.cancelled && (w1.status == Ok || (w1.status == Busy && Cost(w1) < Cost(w)))
  {
    hide Valid, Fits, Laid, StartProgram, SectorOf, InBlock;
    RefinedBusy(l, w, d, slot, prior);
    if w.written < |w.data| {
      PrepareFacts(l, w, d, slot, prior);
      var content := Content(w, prior);
      if w.offset + w.written >= w.erasedUntil {
        LaidStart(l, d.mem, slot, content, w.erasedUntil, l.sectorSize);
      } else {
        WordAccepted(l, d, slot, content, w.erasedUntil, Word(l, w));
      }
    }
  }

  lemma RefinedBusy(l: Layout, w: Writer, d: Device, slot: nat, prior: seq<int>)
    requires Refined(l, w, d, slot, prior)
    ensures w.state in {WPrepare, WEraseWait, WProgramWait} ==> w.status == Busy && !w.requested
    ensures w.status == Busy && w.state !in {WPrepare, WEraseWait, WProgramWait} ==> w.requested
  {
    hide Valid, Laid, InBlock;
  }

  // An operation still running costs nothing; a finished one brings the end nearer.
  lemma CleanWait(l: Layout, w: Writer, d: Device, e: Event, slot: nat, prior: seq<int>)
    requires Refined(l, w, d, slot, prior) && w.state in {WEraseWait, WProgramWait} && !w.cancelled && FaultFree(e)
    requires !e.outcome.Finished? ==> Elapsed(e.now, w.started) < l.operationTimeout
    ensures var (w1, d1) := StepWait(l, w, d, e);
            !w1.cancelled && w1.status == Busy && Cost(w1) + (if e.outcome.Finished? then 1 else 0) <= Cost(w)
  {
    hide Fits, Laid, InBlock, Apply;
    RefinedBusy(l, w, d, slot, prior);
    assert |Content(w, prior)| == w.offset + w.written;
  }

  lemma {:induction false} CleanRun(l: Layout, w: Writer, d: Device, slot: nat, prior: seq<int>, script: seq<Event>)
    requires Refined(l, w, d, slot, prior) && w.status == Busy && !w.cancelled && AllBytes(w.data)
    requires Finishes(script) >= Cost(w) && Valid(l) && Timely(l, w, d, script)
    requires forall i :: 0 <= i < |script| ==> FaultFree(script[i])
    ensures WriteRun(l, w, d, script).0.status == Ok
    decreases |script|
  {
    hide Refined, Valid, StepPrepare, StepWait, FaultFree;
    RefinedValid(l, w, d, slot, prior);
    RefinedBusy(l, w, d, slot, prior);
    var e := script[0];
    match w.state {
      case WIdle | WDone | WFailed =>
      case WPrepare => CleanPrepare(l, w, d, e, slot, prior);
      case WEraseWait | WProgramWait => CleanWait(l, w, d, e, slot, prior);
    }
    TickRefined(l, w, d, e, slot, prior);
    var (w1, d1) := WriterTick(l, w, d, e);
    if w1.status == Busy {
      CleanRun(l, w1, d1, slot, prior, script[1..]);
    }
  }

  // The block meets no fault and no timeout, however long its operations take.
  ghost predicate CleanEvents(l: Layout, w: Writer, d: Device, slot: nat, offset: nat, b: Block)
    requires Valid(l)
  {
    && Finishes(b.script) >= 4 * |b.data| + 5 && (forall i :: 0 <= i < |b.script| ==> FaultFree(b.script[i]))
    && var begun := WriterBegin(l, w, d, slot, offset, b.data, b.outcome);
       Timely(l, begun.w, begun.d, b.script)
  }

  /** A block at the end of what has been written, aligned and inside the slot, is
      written ok when it meets no fault; anything else is refused at once. */
  lemma CleanBlock(l: Layout, w: Writer, d: Device, slot: nat, prior: seq<int>, b: Block)
    requires Valid(l) && Between(l, w, d, slot, prior) && AllBytes(b.data) && CleanEvents(l, w, d, slot, |prior|, b)
    ensures WriteBlock(l, w, d, slot, |prior|, b).ok <==>
              b.data != [] && |prior| % l.writeSize == 0 && |prior| < l.slotSize && |prior| + |b.data| <= l.slotSize
  {
    hide Fits, Laid, WriteRun, WriterInv, Refined, Poll, Timely;
    BeginRefined(l, w, d, slot, prior, b);
    PollIdle(l, d, b.outcome);
    var begun := WriterBegin(l, w, d, slot, |prior|, b.data, b.outcome);
    if begun.status == Ok {
      RefinedBusy(l, begun.w, begun.d, slot, prior);
      CleanRun(l, begun.w, begun.d, slot, prior, b.script);
    }
  }
}
