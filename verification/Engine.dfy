/** The update engine of lib/update/engine.cpp on values: requests are separate
    functions, and one tick is one step of the machine. */
module EngineSpec {
  import opened Bytes
  import opened Record
  import opened Layouts
  import opened Flash
  import J = JournalSpec
  import opened PackageSpec
  import opened WriterSpec

  datatype State =
    Disabled | Idle | Invalidating | Receiving | Writing | Verifying | Committing | Done | Aborting | Failed

  // rx is the chunk being parsed and rxAt how much of it the parser has taken.
  datatype Engine = Engine(
    state: State, status: Status, abortReason: Status, owner: Option<nat>, enabled: bool, requested: bool,
    abortRequested: bool, running: nat, header: Option<Header>, snapshot: Snapshot, rx: seq<byte>, rxAt: nat,
    received: nat, verifyOffset: nat, verifyCrc: int, waitingSince: nat, inactivity: nat,
    journal: J.Journal, writer: Writer, reader: Reader)

  function Create(running: nat, inactivity: nat): Engine {
    Engine(Disabled, NotRunning, Status.Refused, None, false, false, false, running, None,
           Snapshot(0, 0, J.NOTHING, J.NOTHING), [], 0, 0, 0, 0, 0, inactivity, J.FRESH, NO_WRITER, NO_READER)
  }

  predicate Active(g: Engine) {
    g.requested || g.state !in {Disabled, Idle, Done, Failed}
  }

  predicate Authorized(g: Engine) { g.enabled || g.owner.Some? }

  function Destination(g: Engine): nat { if g.running == 0 then 1 else 0 }

  function Total(g: Engine): nat {
    if g.header.Some? && g.header.value.packageSize > HEADER then g.header.value.packageSize - HEADER else 0
  }

  predicate Accepting(g: Engine) {
    && Authorized(g) && !g.abortRequested && g.state == Receiving && g.rx == [] && g.received < Total(g)
    && g.reader.state != RReady
  }

  // ---- Requests ----

  function Reserve(g: Engine, owner: Option<nat>): (Engine, Status) {
    if owner.None? then (g, InvalidArgument)
    else if g.owner.Some? || Active(g) then (g, Busy)
    else (g.(owner := owner), Ok)
  }

  function Release(g: Engine, owner: Option<nat>): Engine {
    if g.owner == owner && !Active(g) then g.(owner := None) else g
  }

  datatype EngineBegun = EngineBegun(g: Engine, d: Device, status: Status)

  function Begin(l: Layout, g: Engine, d: Device, bytes: seq<byte>, owner: Option<nat>, o: Outcome): (r: EngineBegun)
    requires Fits(l, d.mem) && J.Ok?(l, g.journal)
    ensures J.Ok?(l, r.g.journal) && |r.d.mem| == |d.mem|
  {
    if g.owner != owner then EngineBegun(g, d, Busy)
    else if !Authorized(g) then EngineBegun(g, d, NotRunning)
    else if Active(g) then EngineBegun(g, d, Busy)
    else if g.running >= 2 then EngineBegun(g, d, Unsupported)
    else
      var (decoded, header) := DecodeHeader(bytes, l, Destination(g));
      if decoded != Ok then EngineBegun(g, d, decoded)
      else
        var g1 := g.(header := header);
        var loaded := J.Load(l, g.journal, d, o);
        if loaded.status != Ok then EngineBegun(g1.(journal := loaded.j), loaded.d, loaded.status)
        else
          var g2 := g1.(journal := loaded.j, snapshot := loaded.snapshot.value);
          if g2.snapshot.Slot(g.running).state != Confirmed then EngineBegun(g2, loaded.d, NotConfirmed)
          else if g2.snapshot.counter == TWO_64 - 1 then EngineBegun(g2, loaded.d, CounterExhausted)
          else
            EngineBegun(g2.(requested := true, abortRequested := false, received := 0, verifyOffset := 0,
                            verifyCrc := 0, rx := [], rxAt := 0, status := Busy), loaded.d, Ok)
  }

  function Chunk(l: Layout, g: Engine, offset: nat, data: seq<byte>, crc: int): (Engine, Status) {
    if !Accepting(g) then (g, Busy)
    else if data == [] || |data| > BLOCK || offset != g.received || |data| > Total(g) - g.received
      then (g, InvalidArgument)
    else if l.crc(0, data) != crc then (g, ChecksumError)
    else (g.(rx := data, rxAt := 0, received := g.received + |data|), Ok)
  }

  function Abort(g: Engine, reason: Status): Engine {
    if Active(g) then g.(abortRequested := true, abortReason := reason) else g
  }

  function Enable(g: Engine, value: bool): Engine { g.(enabled := value) }

  // ---- The machine ----

  function Fail(g: Engine, reason: Status): Engine {
    g.(abortReason := reason, abortRequested := true, state := Aborting)
  }

  predicate Stopping(g: Engine) { !Authorized(g) || g.abortRequested }

  function StepRest(l: Layout, executing: nat, g: Engine, d: Device, e: Event): (r: (Engine, Device))
    requires Fits(l, d.mem) && J.Ok?(l, g.journal)
    ensures J.Ok?(l, r.0.journal) && |r.1.mem| == |d.mem|
  {
    if g.requested then
      var slot := Destination(g);
      var s := g.snapshot.With(slot, g.snapshot.Slot(slot).(state := Incomplete));
      var begun := J.Begin(l, executing, g.journal, d, s, false, e.outcome);
      var g1 := g.(requested := false, snapshot := s, journal := begun.j);
      if begun.status == Ok then (g1.(state := Invalidating), begun.d)
      else (g1.(status := begun.status, state := Failed), begun.d)
    else if !Authorized(g) then (g.(state := Disabled), d)
    else if g.state == Disabled then (g.(status := Ok, state := Idle), d)
    else (g, d)
  }

  function StepInvalidating(l: Layout, g: Engine, d: Device, e: Event): (r: (Engine, Device))
    requires Fits(l, d.mem) && J.Ok?(l, g.journal)
    ensures J.Ok?(l, r.0.journal) && |r.1.mem| == |d.mem|
  {
    var (j, d1) := J.Tick(l, g.journal, d, e);
    var g1 := g.(journal := j);
    if Stopping(g) then (g1.(state := Aborting), d1)
    else if j.status == Busy then (g1, d1)
    else if j.status != Ok then (g1.(status := j.status, state := Failed), d1)
    else if g.header.None? then (g1, d1)
    else
      var r := ReaderTick(ReaderStart(g.reader, g.header.value, Destination(g)), []).0;
      (g1.(reader := r, waitingSince := e.now, state := Receiving), d1)
  }

  // Feed the parser and see what it has.
  function Parse(g: Engine, now: nat): Engine {
    var (r, n) := ReaderTick(g.reader, if g.rxAt <= |g.rx| then g.rx[g.rxAt..] else []);
    var g1 := g.(reader := r, rxAt := g.rxAt + n);
    if g1.rx != [] && g1.rxAt == |g1.rx| then g1.(rx := [], rxAt := 0, waitingSince := now) else g1
  }

  function StepReceiving(l: Layout, g: Engine, d: Device, e: Event): (r: (Engine, Device))
    requires Fits(l, d.mem) && J.Ok?(l, g.journal)
    ensures J.Ok?(l, r.0.journal) && |r.1.mem| == |d.mem|
  {
    if Stopping(g) then (g.(state := Aborting), d)
    else
      var g1 := Parse(g, e.now);
      if g1.reader.state == RFailed then (Fail(g1, g1.reader.status), d)
      else if g1.reader.state == RReady then
        var begun := WriterBegin(l, g1.writer, d, Destination(g), g1.reader.offset, g1.reader.data, e.outcome);
        var g2 := g1.(writer := begun.w);
        if begun.status == Ok then (g2.(state := Writing), begun.d) else (Fail(g2, begun.status), begun.d)
      else if g1.reader.state == RDone then
        if g1.rx != [] || g1.received != Total(g1) then (Fail(g1, ParseError), d) else (g1.(state := Verifying), d)
      else if g1.rx == [] && g1.received == Total(g1) then (Fail(g1, ParseError), d)
      else if g1.rx == [] && Elapsed(e.now, g1.waitingSince) >= g1.inactivity then (Fail(g1, Timeout), d)
      else (g1, d)
  }

  function StepWriting(l: Layout, g: Engine, d: Device, e: Event): (r: (Engine, Device))
    requires Fits(l, d.mem) && J.Ok?(l, g.journal)
    ensures J.Ok?(l, r.0.journal) && |r.1.mem| == |d.mem|
  {
    if Stopping(g) then (g.(writer := g.writer.(cancelled := true), state := Aborting), d)
    else
      var (w, d1) := WriterTick(l, g.writer, d, e);
      var g1 := g.(writer := w);
      if w.status == Busy then (g1, d1)
      else if w.status != Ok then (Fail(g1, w.status), d1)
      else (g1.(reader := g.reader.(releasing := true), waitingSince := e.now, state := Receiving), d1)
  }

  // The pending record for a verified image.
  function Candidate(g: Engine, s: Snapshot, h: Header): Snapshot
    requires s.counter < TWO_64 - 1 && 0 <= g.verifyCrc < TWO_32
  {
    var image := Image(s.counter + 1, h.imageSize, g.verifyCrc, Pending, h.product, h.revision, h.version);
    s.(counter := s.counter + 1).With(Destination(g), image)
  }

  function StepCommit(l: Layout, executing: nat, g: Engine, d: Device, e: Event, h: Header): (r: (Engine, Device))
    requires Fits(l, d.mem) && J.Ok?(l, g.journal) && 0 <= g.verifyCrc < TWO_32
    ensures J.Ok?(l, r.0.journal) && |r.1.mem| == |d.mem|
  {
    var loaded := J.Load(l, g.journal, d, e.outcome);
    var g1 := g.(journal := loaded.j);
    if loaded.status != Ok then (Fail(g1, loaded.status), loaded.d)
    else if loaded.snapshot.value.counter == TWO_64 - 1 then
      (Fail(g1.(snapshot := loaded.snapshot.value), CounterExhausted), loaded.d)
    else
      var s := Candidate(g, loaded.snapshot.value, h);
      var begun := J.Begin(l, executing, loaded.j, loaded.d, s, false, e.outcome);
      var g2 := g1.(snapshot := s, journal := begun.j);
      if begun.status == Ok then (g2.(state := Committing), begun.d) else (Fail(g2, begun.status), begun.d)
  }

  function StepVerifying(l: Layout, executing: nat, g: Engine, d: Device, e: Event): (r: (Engine, Device))
    requires Fits(l, d.mem) && J.Ok?(l, g.journal)
    ensures J.Ok?(l, r.0.journal) && |r.1.mem| == |d.mem|
  {
    if Stopping(g) || g.header.None? then (g.(state := Aborting), d)
    else
      var h := g.header.value;
      var left := if g.verifyOffset <= h.imageSize then h.imageSize - g.verifyOffset else 0;
      var n := Min(256, left);
      var at := l.slots[Destination(g)] + g.verifyOffset;
      if Read(d, at, n) != Ok then (Fail(g, Read(d, at, n)), d)
      else
        var g1 := g.(verifyCrc := l.crc(g.verifyCrc, d.mem[at..at + n]), verifyOffset := g.verifyOffset + n);
        if g1.verifyOffset != h.imageSize then (g1, d)
        else if g1.verifyCrc != h.Crc(Destination(g)) then (Fail(g1, ChecksumError), d)
        else StepCommit(l, executing, g1, d, e, h)
  }

  function StepCommitting(l: Layout, g: Engine, d: Device, e: Event): (r: (Engine, Device))
    requires Fits(l, d.mem) && J.Ok?(l, g.journal)
    ensures J.Ok?(l, r.0.journal) && |r.1.mem| == |d.mem|
  {
    var (j, d1) := J.Tick(l, g.journal, d, e);
    var g1 := g.(journal := j);
    if Stopping(g) then (g1.(state := Aborting), d1)
    else if j.status == Busy then (g1, d1)
    else if j.status == Ok then (g1.(status := Ok, state := Done), d1)
    else (Fail(g1.(status := j.status), j.status), d1)
  }

  function StepAborting(l: Layout, executing: nat, g: Engine, d: Device, e: Event): (r: (Engine, Device))
    requires Fits(l, d.mem) && J.Ok?(l, g.journal)
    ensures J.Ok?(l, r.0.journal) && |r.1.mem| == |d.mem|
  {
    if g.writer.status == Busy then
      var (w, d1) := WriterTick(l, g.writer.(cancelled := true), d, e);
      (g.(writer := w), d1)
    else if g.journal.status == Busy then
      var (j, d1) := J.Tick(l, g.journal, d, e);
      (g.(journal := j), d1)
    else
      var (d1, polled) := Poll(l, d, e.outcome);
      if polled == Busy then (g, d1)
      else
        var loaded := J.Load(l, g.journal, d1, e.outcome);
        var slot := Destination(g);
        var g1 := g.(journal := loaded.j);
        if loaded.status != Ok then (EndAbort(g1, loaded.status), loaded.d)
        else
          var s := loaded.snapshot.value;
          if s.Slot(slot).state != Pending then (EndAbort(g1.(snapshot := s), Ok), loaded.d)
          else
            // The commit marker may have been in flight: take the candidate back.
            var s1 := s.With(slot, s.Slot(slot).(state := Incomplete));
            var begun := J.Begin(l, executing, loaded.j, loaded.d, s1, false, e.outcome);
            var g2 := g1.(snapshot := s1, journal := begun.j);
            if begun.status == Ok then (g2, begun.d) else (EndAbort(g2, begun.status), begun.d)
  }

  function EndAbort(g: Engine, result: Status): Engine {
    g.(status := if result == Ok then g.abortReason else result, abortRequested := false, rx := [], rxAt := 0,
       state := Failed)
  }

  function Tick(l: Layout, executing: nat, g: Engine, d: Device, e: Event): (r: (Engine, Device))
    requires Fits(l, d.mem) && J.Ok?(l, g.journal)
    ensures J.Ok?(l, r.0.journal) && |r.1.mem| == |d.mem|
  {
    match g.state
    case Disabled | Idle | Done | Failed => StepRest(l, executing, g, d, e)
    case Invalidating => StepInvalidating(l, g, d, e)
    case Receiving => StepReceiving(l, g, d, e)
    case Writing => StepWriting(l, g, d, e)
    case Verifying => StepVerifying(l, executing, g, d, e)
    case Committing => StepCommitting(l, g, d, e)
    case Aborting => StepAborting(l, executing, g, d, e)
  }
}
