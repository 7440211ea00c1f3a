/** The block writer as the object it is, over the flash object. */
module WriterMachine {
  import opened Layouts
  import opened Flash
  import opened JournalMachine
  import W = WriterSpec

  class Writer {
    const l: Layout
    const flash: FlashDevice
    var state: W.WriterState
    var status: Status
    var base: nat
    var offset: nat
    var erasedUntil: nat
    var written: nat
    var data: seq<int>
    var started: nat
    var requested: bool
    var cancelled: bool

    function Model(): W.Writer
      reads this
    {
      W.Writer(state, status, base, offset, erasedUntil, written, data, started, requested, cancelled)
    }

    constructor (l: Layout, flash: FlashDevice)
      ensures this.l == l && this.flash == flash && Model() == W.NO_WRITER
    {
      this.l, this.flash := l, flash;
      state, status, base, offset, erasedUntil, written := W.WIdle, Ok, 0, 0, 0, 0;
      data, started, requested, cancelled := [], 0, false, false;
    }

    method Begin(slot: nat, at: nat, block: seq<int>, o: Outcome) returns (result: Status)
      modifies this, flash
      ensures W.WriterBegun(Model(), flash.Model(), result)
              == W.WriterBegin(l, old(Model()), old(flash.Model()), slot, at, block, o)
    {
      hide Apply, Torn, W.Fitting;
      if status == Busy {
        return Busy;
      }
      if !W.Fitting(l, slot, at, |block|) {
        return InvalidArgument;
      }
      var polled := flash.Poll(l, o);
      if polled == Busy {
        return Busy;
      }
      FittingSlot(l, slot, at, |block|);
      Take(l.slots[slot], at, block);
      return Ok;
    }

    method Take(start: nat, at: nat, block: seq<int>)
      modifies this
      ensures Model()
              == old(Model()).(base := start, offset := at, erasedUntil := if at == 0 then 0 else old(erasedUntil),
                               written := 0, data := block, requested := true, cancelled := false, status := Busy)
    {
      base := start;
      offset := at;
      if at == 0 {
        erasedUntil := 0;
      }
      written, data := 0, block;
      requested, cancelled, status := true, false, Busy;
    }

    method Cancel()
      modifies this`cancelled
      ensures Model() == old(Model()).(cancelled := true)
    {
      cancelled := true;
    }

    method StepPrepare(e: Event)
      requires Valid(l)
      modifies this, flash
      ensures (Model(), flash.Model()) == W.StepPrepare(l, old(Model()), old(flash.Model()), e)
    {
      hide Valid, StartProgram, StartErase;
      if cancelled {
        status, state := Status.Refused, W.WDone;
        return;
      }
      if written >= |data| {
        status, state := Ok, W.WDone;
        return;
      }
      SectorSize(l);
      var position := offset + written;
      var result;
      if position >= erasedUntil {
        var sector := W.SectorOf(position, l.sectorSize);
        result := flash.Erase(base + sector, l.sectorSize, e.refuse);
        erasedUntil := sector + l.sectorSize;
        state := W.WEraseWait;
      } else {
        // The last word is padded with erased bytes.
        result := flash.Program(base + position, W.Word(l, Model()), e.refuse);
        state := W.WProgramWait;
      }
      started := e.now;
      if result != Ok {
        status := if result == Busy then IoError else result;
        state := W.WFailed;
      }
    }

    method StepWait(e: Event)
      requires Valid(l)
      modifies this, flash
      ensures (Model(), flash.Model()) == W.StepWait(l, old(Model()), old(flash.Model()), e)
    {
      hide Valid, Apply, Torn;
      var result := flash.Poll(l, e.outcome);
      if result == Busy && Elapsed(e.now, started) >= l.operationTimeout {
        result := Timeout;
      }
      if result == Busy {
        return;
      }
      if result != Ok {
        status, state := result, W.WFailed;
      } else if cancelled {
        status, state := Status.Refused, W.WDone;
      } else {
        if state == W.WProgramWait && written <= |data| {
          written := written + W.Count(l, Model());
        }
        state := W.WPrepare;
      }
    }

    /** One tick of the writer. */
    method Tick(e: Event)
      requires Valid(l)
      modifies this, flash
      ensures (Model(), flash.Model()) == W.WriterTick(l, old(Model()), old(flash.Model()), e)
    {
      hide Valid, W.StepPrepare, W.StepWait;
      match state {
        case WIdle | WDone | WFailed =>
          if requested {
            requested := false;
            state := W.WPrepare;
          }
        case WPrepare => StepPrepare(e);
        case WEraseWait | WProgramWait => StepWait(e);
      }
    }
  }

  lemma SectorSize(l: Layout)
    requires Valid(l)
    ensures l.sectorSize > 0
  {}

  lemma FittingSlot(l: Layout, slot: nat, offset: nat, n: nat)
    requires W.Fitting(l, slot, offset, n)
    ensures slot < |l.slots|
  {}
}
