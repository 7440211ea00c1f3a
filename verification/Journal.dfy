/** The boot journal of lib/boot/journal.cpp on values: one function per call, one
    step of the machine per tick. Records are numbered; At gives the address. */
module JournalSpec {
  import opened Bytes
  import opened Record
  import opened TornRecord
  import opened Layouts
  import opened Flash

  datatype State = Idle | Erase | EraseWait | Write | WriteWait | Verify | Done | Failed

  datatype Journal = Journal(
    state: State, status: Status, record: seq<int>, pendingRecord: seq<int>,
    target: nat, pendingTarget: nat, latest: nat, offset: nat, started: nat,
    requested: bool, eraseNeeded: bool, checkpoint: bool, eraseOnly: bool, timedOut: bool)

  predicate Active(state: State) {
    state in {Erase, EraseWait, Write, WriteWait, Verify}
  }

  // Field ranges that every call keeps, and when the machine has work.
  predicate Ok?(l: Layout, j: Journal) {
    && Valid(l)
    && |j.record| == |j.pendingRecord| == RECORD
    && j.target < 2 * Records(l) && j.pendingTarget < 2 * Records(l) && j.latest < 2 * Records(l)
    && Aligned(j.offset, l.writeSize) && j.offset <= RECORD
    && (j.requested ==> !Active(j.state))
    && (j.status == Busy <==> j.requested || Active(j.state))
    && (j.requested || j.state in {Erase, EraseWait, Write, WriteWait} ==> j.offset < RECORD)
  }

  const EMPTY_RECORD: seq<int> := Fill(RECORD, 0)

  const FRESH: Journal :=
    Journal(Idle, Ok, EMPTY_RECORD, EMPTY_RECORD, 0, 0, 0, 0, 0, false, false, false, false, false)

  // ---- Loading ----

  // Each sector is scanned from its end.
  function Order(l: Layout, k: nat): (n: nat)
    requires k < 2 * Records(l)
    ensures n < 2 * Records(l)
  {
    if k < Records(l) then Records(l) - 1 - k else 3 * Records(l) - 1 - k
  }

  datatype Scan = Scan(best: Option<nat>, conflict: bool, unreadable: bool)

  predicate Found(l: Layout, mem: seq<int>, p: Scan)
    requires Fits(l, mem)
  {
    p.best.Some? ==> p.best.value < 2 * Records(l) && Dec(l, mem, p.best.value).Some?
  }

  function Visit(l: Layout, mem: seq<int>, p: Scan, n: nat): (q: Scan)
    requires Fits(l, mem) && n < 2 * Records(l) && Found(l, mem, p)
    ensures Found(l, mem, q)
  {
    var c := Rec(l, mem, n);
    var peek := l.format.peek(c[..16]);
    var best := if p.best.Some? then Dec(l, mem, p.best.value) else None;
    if !AllBytes(c[..16]) then p.(unreadable := true)
    else if peek.None? then p
    else if best.Some? && peek.value < best.value.sequence then p
    else if !AllBytes(c[16..]) then p.(unreadable := true)
    else if Dec(l, mem, n).None? then p
    else if best.Some? && Dec(l, mem, n).value.sequence == best.value.sequence && c != Rec(l, mem, p.best.value) then
      p.(conflict := true)
    else if best.None? || Dec(l, mem, n).value.sequence > best.value.sequence then p.(best := Some(n))
    else p
  }

  function ScanTo(l: Layout, mem: seq<int>, k: nat): (p: Scan)
    requires Fits(l, mem) && k <= 2 * Records(l)
    ensures Found(l, mem, p)
  {
    if k == 0 then Scan(None, false, false)
    else
      var p := ScanTo(l, mem, k - 1);
      if p.conflict then p else Visit(l, mem, p, Order(l, k - 1))
  }

  function LoadStatus(p: Scan): Status {
    if p.conflict then ChecksumError
    else if p.best.Some? then Ok
    else if p.unreadable then IoError else NotFound
  }

  datatype Loaded = Loaded(j: Journal, d: Device, status: Status, snapshot: Option<Snapshot>)

  function Load(l: Layout, j: Journal, d: Device, o: Outcome): (r: Loaded)
    requires Fits(l, d.mem) && Ok?(l, j)
    ensures Ok?(l, r.j) && |r.d.mem| == |d.mem|
    ensures r.status == Ok ==> r.snapshot.Some? && r.d.op.NoOp?
  {
    var (d1, polled) := Poll(l, d, o);
    if polled == Busy then Loaded(j, d1, Busy, None)
    else
      var p := ScanTo(l, d1.mem, 2 * Records(l));
      var j1 := if p.best.Some? then j.(latest := p.best.value) else j;
      Loaded(j1, d1, LoadStatus(p), if LoadStatus(p) == Ok then Dec(l, d1.mem, p.best.value) else None)
  }

  // What load would find.
  function Durable(l: Layout, mem: seq<int>): Option<Snapshot>
  {
    if !Fits(l, mem) then None
    else
      var p := ScanTo(l, mem, 2 * Records(l));
      if LoadStatus(p) == Ok then Dec(l, mem, p.best.value) else None
  }

  // ---- Beginning a commit ----

  predicate IsBlank(l: Layout, mem: seq<int>, n: nat)
    requires Fits(l, mem) && n < 2 * Records(l)
  {
    forall i :: 0 <= i < RECORD ==> Rec(l, mem, n)[i] == BLANK
  }

  // The first blank record in [lo, hi).
  function FirstBlank(l: Layout, mem: seq<int>, lo: nat, hi: nat): (r: Option<nat>)
    requires Fits(l, mem) && lo <= hi <= 2 * Records(l)
    ensures r.Some? ==> lo <= r.value < hi
    decreases hi - lo
  {
    if lo == hi then None
    else if IsBlank(l, mem, lo) then Some(lo)
    else FirstBlank(l, mem, lo + 1, hi)
  }

  const NOTHING: Image := Image(0, 0, 0, Empty, 0, 0, Version(0, 0, 0, Zeros(41), false))

  // The first record of a sector.
  function First(l: Layout, bank: nat): nat { if bank == 0 then 0 else Records(l) }

  // Where the next record goes: behind the latest one, or the other sector.
  function Place(l: Layout, mem: seq<int>, latest: Option<nat>): (r: (nat, bool))
    requires Fits(l, mem) && (latest.Some? ==> latest.value < 2 * Records(l))
    ensures r.0 < 2 * Records(l)
  {
    if latest.None? then (0, true)
    else
      var bank := Bank(l, latest.value);
      var free := FirstBlank(l, mem, latest.value + 1, First(l, bank) + Records(l));
      if free.Some? then (free.value, false) else (First(l, 1 - bank), true)
  }

  // Where it goes while an application executes from `executing`: only into the
  // other bank, after a checkpoint if that bank holds the latest record.
  function PlaceRuntime(l: Layout, mem: seq<int>, j: Journal, executing: nat,
                        latest: Option<nat>): (r: (Journal, Status))
    requires Fits(l, mem) && Ok?(l, j) && executing < 2
    requires latest.Some? ==> latest.value < 2 * Records(l) && Dec(l, mem, latest.value).Some?
    ensures Ok?(l, r.0) && r.0.status == j.status && r.0.state == j.state
  {
    var inactive := 1 - executing;
    var free := FirstBlank(l, mem, First(l, inactive), First(l, inactive) + Records(l));
    if free.Some? then (j.(target := free.value, eraseNeeded := false), Ok)
    else
      var j1 := j.(target := First(l, inactive), eraseNeeded := true);
      if latest.Some? && Bank(l, latest.value) == inactive then
        var spare := FirstBlank(l, mem, First(l, executing), First(l, executing) + Records(l));
        if spare.None? then (j1, Full)
        else
          (j1.(pendingRecord := j1.record, pendingTarget := j1.target, record := Rec(l, mem, latest.value),
               target := spare.value, checkpoint := true, eraseNeeded := false), Ok)
      else (j1, Ok)
  }

  function Request(j: Journal): Journal {
    j.(offset := 0, timedOut := false, requested := true, status := Busy)
  }

  datatype Begun = Begun(j: Journal, d: Device, status: Status)

  // executing is 0 or 1 for an application's bank, 2 for boot-time maintenance.
  function Begin(l: Layout, executing: nat, j: Journal, d: Device, s: Snapshot, initialize: bool,
                 o: Outcome): (r: Begun)
    requires Fits(l, d.mem) && Ok?(l, j)
    ensures Ok?(l, r.j) && |r.d.mem| == |d.mem|
  {
    if j.status == Busy then Begun(j, d, Busy)
    else
      var loaded := Load(l, j, d, o);
      if loaded.status != Ok && !(initialize && loaded.status == NotFound) then Begun(loaded.j, loaded.d, loaded.status)
      else
        var latest := if loaded.status == Ok then Some(loaded.j.latest) else None;
        var (j1, status) := Plan(l, executing, loaded.j, loaded.d.mem, latest, s);
        Begun(if status == Ok then Request(j1) else j1, loaded.d, status)
  }

  // Encode the next record and choose its place.
  function Plan(l: Layout, executing: nat, j: Journal, mem: seq<int>, latest: Option<nat>,
                s: Snapshot): (r: (Journal, Status))
    requires Fits(l, mem) && Ok?(l, j) && j.status != Busy
    requires latest.Some? ==> latest.value < 2 * Records(l) && Dec(l, mem, latest.value).Some?
    ensures Ok?(l, r.0) && r.0.status == j.status && r.0.state == j.state
  {
    var current := if latest.Some? then Dec(l, mem, latest.value).value else Snapshot(0, 0, NOTHING, NOTHING);
    if current.sequence == TWO_64 - 1 || s.counter < current.counter then (j, CounterExhausted)
    else
      var record := l.format.encode(s.(sequence := current.sequence + 1));
      if |record| != RECORD || l.format.decode(record).None? then (j, InvalidArgument)
      else
        var j1 := j.(record := record, checkpoint := false, eraseOnly := false);
        var (target, eraseNeeded) := Place(l, mem, latest);
        var j2 := j1.(target := target, eraseNeeded := eraseNeeded);
        if executing < 2 then PlaceRuntime(l, mem, j2, executing, latest) else (j2, Ok)
  }

  // ---- The machine ----

  function Fail(j: Journal, status: Status): Journal
  {
    j.(status := if status == Busy then IoError else status, state := Failed)
  }

  // A poll that ends the wait either fails the machine or lets it continue.
  function Waited(l: Layout, j: Journal, d: Device, o: Outcome): (r: (Option<Journal>, Device))
    ensures |r.1.mem| == |d.mem|
    ensures r.0.Some? ==> r.0.value == j || (r.0.value == Fail(j, r.0.value.status) && r.0.value.status != Busy)
  {
    var (d1, status) := Poll(l, d, o);
    if status == Busy && !j.timedOut then (Some(j), d1)
    else if status != Ok || j.timedOut then (Some(Fail(j, if j.timedOut then Timeout else status)), d1)
    else (None, d1)
  }

  function NextUnit(offset: nat, writeSize: nat): (r: nat)
    requires (writeSize == 16 || writeSize == 32) && Aligned(offset, writeSize) && offset < RECORD
    ensures Aligned(r, writeSize) && r == offset + writeSize <= RECORD
  {
    if writeSize == 32 then offset + 32 else offset + 16
  }

  function StepErase(l: Layout, j: Journal, d: Device, e: Event): (r: (Journal, Device))
    requires Fits(l, d.mem) && Ok?(l, j) && j.state == Erase
    ensures Ok?(l, r.0) && |r.1.mem| == |d.mem|
  {
    if j.timedOut then (Fail(j, Timeout), d)
    else
      var (d1, status) := StartErase(d, At(l, j.target), l.sectorSize, e.refuse);
      if status != Ok then (Fail(j, status), d1) else (j.(state := EraseWait), d1)
  }

  function StepEraseWait(l: Layout, j: Journal, d: Device, e: Event): (r: (Journal, Device))
    requires Fits(l, d.mem) && Ok?(l, j) && j.state == EraseWait
    ensures Ok?(l, r.0) && |r.1.mem| == |d.mem|
  {
    var (ended, d1) := Waited(l, j, d, e.outcome);
    if ended.Some? then (ended.value, d1)
    else if j.eraseOnly then (j.(status := Ok, state := Done), d1)
    else (j.(state := Write), d1)
  }

  function StepWrite(l: Layout, j: Journal, d: Device, e: Event): (r: (Journal, Device))
    requires Fits(l, d.mem) && Ok?(l, j) && j.state == Write
    ensures Ok?(l, r.0) && |r.1.mem| == |d.mem|
  {
    if j.timedOut then (Fail(j, Timeout), d)
    else
      var (d1, status) := StartProgram(d, At(l, j.target) + j.offset, j.record[j.offset..j.offset + l.writeSize],
                                       e.refuse);
      if status != Ok then (Fail(j, status), d1) else (j.(state := WriteWait), d1)
  }

  function StepWriteWait(l: Layout, j: Journal, d: Device, e: Event): (r: (Journal, Device))
    requires Fits(l, d.mem) && Ok?(l, j) && j.state == WriteWait
    ensures Ok?(l, r.0) && |r.1.mem| == |d.mem|
  {
    var (ended, d1) := Waited(l, j, d, e.outcome);
    if ended.Some? then (ended.value, d1)
    else
      var offset := NextUnit(j.offset, l.writeSize);
      (j.(offset := offset, state := if offset == RECORD then Verify else Write), d1)
  }

  function StepVerify(l: Layout, j: Journal, d: Device): (r: (Journal, Device))
    requires Fits(l, d.mem) && Ok?(l, j) && j.state == Verify
    ensures Ok?(l, r.0) && |r.1.mem| == |d.mem|
  {
    var status := Read(d, At(l, j.target), RECORD);
    var checked := if status == Ok && Rec(l, d.mem, j.target) != j.record then ChecksumError else status;
    if checked == Ok && j.checkpoint then
      (j.(record := j.pendingRecord, target := j.pendingTarget, offset := 0, checkpoint := false, state := Erase), d)
    else if checked == Ok then (j.(status := Ok, state := Done), d)
    else (Fail(j, checked), d)
  }

  function Step(l: Layout, j: Journal, d: Device, e: Event): (r: (Journal, Device))
    requires Fits(l, d.mem) && Ok?(l, j)
    ensures Ok?(l, r.0) && |r.1.mem| == |d.mem|
  {
    match j.state
    case Idle | Done | Failed =>
      if j.requested then (j.(requested := false, state := if j.eraseNeeded then Erase else Write), d) else (j, d)
    case Erase => StepErase(l, j, d, e)
    case EraseWait => StepEraseWait(l, j, d, e)
    case Write => StepWrite(l, j, d, e)
    case WriteWait => StepWriteWait(l, j, d, e)
    case Verify => StepVerify(l, j, d)
  }

  function Tick(l: Layout, j: Journal, d: Device, e: Event): (r: (Journal, Device))
    requires Fits(l, d.mem) && Ok?(l, j)
    ensures Ok?(l, r.0) && |r.1.mem| == |d.mem|
  {
    var j0 :=
      if j.requested then j.(started := e.now)
      else if j.status == Busy && Elapsed(e.now, j.started) >= l.operationTimeout then j.(timedOut := true)
      else j;
    Step(l, j0, d, e)
  }

  datatype Ran = Ran(j: Journal, d: Device, rest: seq<Event>)

  // The foreground loop. It ends when the machine does, or with the script: then
  // power is gone and the status is still Busy.
  function Run(l: Layout, j: Journal, d: Device, start: nat, timeout: nat, script: seq<Event>): (r: Ran)
    requires Fits(l, d.mem) && Ok?(l, j)
    ensures Ok?(l, r.j) && |r.d.mem| == |d.mem|
    decreases |script|
  {
    if j.status != Busy || script == [] then Ran(j, d, script)
    else
      var e := script[0];
      var (j1, d1) := Tick(l, j.(timedOut := Elapsed(e.caller, start) >= timeout), d, e);
      Run(l, j1, d1, start, timeout, script[1..])
  }

  datatype Committed = Committed(j: Journal, d: Device, status: Status, rest: seq<Event>)

  function Commit(l: Layout, executing: nat, j: Journal, d: Device, s: Snapshot, timeout: nat, initialize: bool,
                  start: nat, o: Outcome, script: seq<Event>): (r: Committed)
    requires Fits(l, d.mem) && Ok?(l, j)
    ensures Ok?(l, r.j) && |r.d.mem| == |d.mem|
  {
    var begun := Begin(l, executing, j, d, s, initialize, o);
    if begun.status != Ok then Committed(begun.j, begun.d, begun.status, script)
    else
      var ran := Run(l, begun.j, begun.d, start, if timeout == 0 then l.operationTimeout else timeout, script);
      Committed(ran.j, ran.d, ran.j.status, ran.rest)
  }

  // The two halves of prepare_runtime: copy the newest record to the other bank,
  // then leave this bank blank.
  function PrepareCopy(l: Layout, bank: nat, j: Journal, mem: seq<int>): (r: Journal)
    requires Fits(l, mem) && Ok?(l, j) && bank < 2 && j.status != Busy && Dec(l, mem, j.latest).Some?
    ensures Ok?(l, r)
  {
    var other := First(l, 1 - bank);
    var free := FirstBlank(l, mem, other, other + Records(l));
    Request(j.(record := Rec(l, mem, j.latest), target := if free.Some? then free.value else other,
               eraseNeeded := free.None?, eraseOnly := false, checkpoint := false))
  }

  predicate BankBlank(l: Layout, mem: seq<int>, bank: nat)
    requires Fits(l, mem) && bank < 2
  {
    forall n :: First(l, bank) <= n < First(l, bank) + Records(l) ==> IsBlank(l, mem, n)
  }

  function PrepareErase(l: Layout, bank: nat, j: Journal, d: Device, start: nat, timeout: nat,
                        script: seq<Event>): (r: Committed)
    requires Fits(l, d.mem) && Ok?(l, j) && bank < 2 && j.status != Busy
    ensures Ok?(l, r.j) && |r.d.mem| == |d.mem|
  {
    if BankBlank(l, d.mem, bank) then Committed(j, d, Ok, script)
    else
      var j1 := Request(j.(target := First(l, bank), eraseNeeded := true, eraseOnly := true, checkpoint := false));
      var ran := Run(l, j1, d, start, timeout, script);
      Committed(ran.j, ran.d, ran.j.status, ran.rest)
  }

  function PrepareRuntime(l: Layout, executing: nat, bank: nat, j: Journal, d: Device, timeout: nat, start: nat,
                          o: Outcome, script: seq<Event>): (r: Committed)
    requires Fits(l, d.mem) && Ok?(l, j)
    ensures Ok?(l, r.j) && |r.d.mem| == |d.mem|
  {
    if bank >= 2 || executing < 2 then Committed(j, d, Unsupported, script)
    else if j.status == Busy then Committed(j, d, Busy, script)
    else
      var loaded := Load(l, j, d, o);
      if loaded.status != Ok then Committed(loaded.j, loaded.d, loaded.status, script)
      else if Bank(l, loaded.j.latest) != bank then
        PrepareErase(l, bank, loaded.j, loaded.d, start, timeout, script)
      else
        var ran := Run(l, PrepareCopy(l, bank, loaded.j, loaded.d.mem), loaded.d, start, timeout, script);
        if ran.j.status != Ok then Committed(ran.j, ran.d, ran.j.status, ran.rest)
        else PrepareErase(l, bank, ran.j, ran.d, Restart(start, ran.rest), timeout, ran.rest)
  }
}
