/** The erase-on-demand block writer of lib/update/writer.cpp on values. */
module WriterSpec {
  import opened Bytes
  import opened Layouts
  import opened Flash

  datatype WriterState = WIdle | WPrepare | WEraseWait | WProgramWait | WDone | WFailed

  datatype Writer = Writer(state: WriterState, status: Status, base: nat, offset: nat, erasedUntil: nat, written: nat,
                           data: seq<int>, started: nat, requested: bool, cancelled: bool)

  const NO_WRITER: Writer := Writer(WIdle, Ok, 0, 0, 0, 0, [], 0, false, false)

  datatype WriterBegun = WriterBegun(w: Writer, d: Device, status: Status)

  // A block of n bytes that may go to the slot.
  predicate Fitting(l: Layout, slot: nat, offset: nat, n: nat) {
    && Valid(l) && slot < 2 && n > 0 && offset % l.writeSize == 0 && offset < l.slotSize
    && n <= l.slotSize - offset
  }

  function WriterBegin(l: Layout, w: Writer, d: Device, slot: nat, offset: nat, data: seq<int>,
                       o: Outcome): (r: WriterBegun)
    ensures |r.d.mem| == |d.mem|
  {
    if w.status == Busy then WriterBegun(w, d, Busy)
    else if !Fitting(l, slot, offset, |data|) then WriterBegun(w, d, InvalidArgument)
    else
      var (d1, polled) := Poll(l, d, o);
      if polled == Busy then WriterBegun(w, d1, Busy)
      else
        WriterBegun(w.(base := l.slots[slot], offset := offset, erasedUntil := if offset == 0 then 0 else w.erasedUntil,
                       written := 0, data := data, requested := true, cancelled := false, status := Busy), d1, Ok)
  }

  // How many bytes of the block the next word carries.
  function Count(l: Layout, w: Writer): nat
    requires w.written <= |w.data|
  {
    if |w.data| - w.written <= l.writeSize then |w.data| - w.written else l.writeSize
  }

  function Word(l: Layout, w: Writer): seq<int>
    requires w.written <= |w.data|
  {
    w.data[w.written..w.written + Count(l, w)] + Fill(l.writeSize - Count(l, w), BLANK)
  }

  function Refused(w: Writer, status: Status): Writer {
    w.(status := if status == Busy then IoError else status, state := WFailed)
  }

  function SectorOf(position: nat, size: nat): (r: nat)
    requires size > 0
    ensures r <= position
  {
    position - position % size
  }

  function StepPrepare(l: Layout, w: Writer, d: Device, e: Event): (r: (Writer, Device))
    requires Valid(l)
    ensures |r.1.mem| == |d.mem|
  {
    if w.cancelled then (w.(status := Status.Refused, state := WDone), d)
    else if w.written >= |w.data| then (w.(status := Ok, state := WDone), d)
    else
      var position := w.offset + w.written;
      if position >= w.erasedUntil then
        var sector := SectorOf(position, l.sectorSize);
        var (d1, status) := StartErase(d, w.base + sector, l.sectorSize, e.refuse);
        var w1 := w.(erasedUntil := sector + l.sectorSize, started := e.now);
        if status != Ok then (Refused(w1, status), d1) else (w1.(state := WEraseWait), d1)
      else
        var (d1, status) := StartProgram(d, w.base + position, Word(l, w), e.refuse);
        var w1 := w.(started := e.now);
        if status != Ok then (Refused(w1, status), d1) else (w1.(state := WProgramWait), d1)
  }

  function StepWait(l: Layout, w: Writer, d: Device, e: Event): (r: (Writer, Device))
    requires Valid(l)
    ensures |r.1.mem| == |d.mem|
  {
    var (d1, polled) := Poll(l, d, e.outcome);
    var status := if polled == Busy && Elapsed(e.now, w.started) >= l.operationTimeout then Timeout else polled;
    if status == Busy then (w, d1)
    else if status != Ok then (w.(status := status, state := WFailed), d1)
    else if w.cancelled then (w.(status := Status.Refused, state := WDone), d1)
    else
      var count := if w.state == WProgramWait && w.written <= |w.data| then Count(l, w) else 0;
      (w.(written := w.written + count, state := WPrepare), d1)
  }

  function WriterTick(l: Layout, w: Writer, d: Device, e: Event): (r: (Writer, Device))
    requires Valid(l)
    ensures |r.1.mem| == |d.mem|
  {
    match w.state
    case WIdle | WDone | WFailed => if w.requested then (w.(requested := false, state := WPrepare), d) else (w, d)
    case WPrepare => StepPrepare(l, w, d, e)
    case WEraseWait | WProgramWait => StepWait(l, w, d, e)
  }
}
