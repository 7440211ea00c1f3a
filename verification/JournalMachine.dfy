/** The flash device and the journal as the objects they are: fields updated in
    place, proved against the functions on values that the theorems are about. */
module JournalMachine {
  import opened Bytes
  import opened Record
  import opened Layouts
  import opened Flash
  import J = JournalSpec
  import JR = JournalRuns
  import JS = JournalScan

  class FlashDevice {
    var mem: seq<int>
    var op: Op

    function Model(): Device
      reads this
    {
      Device(mem, op)
    }

    constructor (mem: seq<int>)
      ensures this.mem == mem && op == NoOp
    {
      this.mem := mem;
      op := NoOp;
    }

    method Poll(l: Layout, o: Outcome) returns (status: Status)
      modifies this
      ensures (Model(), status) == Flash.Poll(l, old(Model()), o) && |mem| == |old(mem)|
    {
      if op.NoOp? {
        return Ok;
      }
      match o {
        case Running =>
          return Busy;
        case Finished =>
          mem := Apply(mem, op);
          op := NoOp;
          return Ok;
        case Broken(after) =>
          if !Torn(l, Model(), after) {
            return Busy;
          }
          mem := after;
          op := NoOp;
          return IoError;
      }
    }

    method Erase(address: nat, size: nat, refuse: bool) returns (status: Status)
      modifies this`op
      ensures (Model(), status) == StartErase(old(Model()), address, size, refuse)
    {
      if !op.NoOp? {
        return Busy;
      }
      if address + size > |mem| {
        return InvalidArgument;
      }
      if refuse {
        return IoError;
      }
      op := EraseOp(address, size);
      return Ok;
    }

    // One-to-zero: a program that would set a bit is refused.
    method Program(address: nat, data: seq<int>, refuse: bool) returns (status: Status)
      modifies this`op
      ensures (Model(), status) == StartProgram(old(Model()), address, data, refuse)
    {
      if !op.NoOp? {
        return Busy;
      }
      if address + |data| > |mem| {
        return InvalidArgument;
      }
      for i := 0 to |data|
        invariant AllBytes(mem[address..address + i])
      {
        if !(0 <= mem[address + i] < 256) {
          assert !AllBytes(mem[address..address + |data|]) by {
            assert mem[address..address + |data|][i] == mem[address + i];
          }
          return IoError;
        }
        assert mem[address..address + i + 1] == mem[address..address + i] + [mem[address + i]];
      }
      if !Clears(mem[address..address + |data|], data) {
        return InvalidArgument;
      }
      if refuse {
        return IoError;
      }
      op := ProgramOp(address, data);
      return Ok;
    }
  }

  // The scan of load(), one record at a time: locals of the loop.
  method Scan(l: Layout, mem: seq<int>) returns (best: Option<nat>, conflict: bool, unreadable: bool)
    requires Fits(l, mem)
    ensures J.Scan(best, conflict, unreadable) == J.ScanTo(l, mem, 2 * Records(l))
  {
    hide Fits, Valid, AllBytes, J.Visit;
    best, conflict, unreadable := None, false, false;
    for k := 0 to 2 * Records(l)
      invariant J.Scan(best, conflict, unreadable) == J.ScanTo(l, mem, k) && !conflict
    {
      var n := J.Order(l, k);
      assert J.ScanTo(l, mem, k + 1) == J.Visit(l, mem, J.ScanTo(l, mem, k), n);
      best, conflict, unreadable := Visit(l, mem, best, unreadable, n);
      if conflict {
        Stuck(l, mem, k + 1, 2 * Records(l));
        return;
      }
    }
  }

  // A conflict ends the scan at once.
  lemma {:induction false} Stuck(l: Layout, mem: seq<int>, k: nat, m: nat)
    requires Fits(l, mem) && k <= m <= 2 * Records(l) && J.ScanTo(l, mem, k).conflict
    ensures J.ScanTo(l, mem, m) == J.ScanTo(l, mem, k)
    decreases m
  {
    hide Fits, Valid, J.Visit;
    if k < m { Stuck(l, mem, k, m - 1); }
  }

  // Read the header first, the rest of the record only if it may be newer.
  method Visit(l: Layout, mem: seq<int>, best: Option<nat>, unreadable: bool, n: nat)
    returns (best1: Option<nat>, conflict: bool, unreadable1: bool)
    requires Fits(l, mem) && n < 2 * Records(l) && J.Found(l, mem, J.Scan(best, false, unreadable))
    ensures J.Scan(best1, conflict, unreadable1) == J.Visit(l, mem, J.Scan(best, false, unreadable), n)
  {
    hide Fits, Valid, AllBytes;
    best1, conflict, unreadable1 := best, false, unreadable;
    var bytes := Rec(l, mem, n);
    if !AllBytes(bytes[..16]) {
      unreadable1 := true;
      return;
    }
    var sequence := l.format.peek(bytes[..16]);
    if sequence.None? {
      return;
    }
    if best.Some? && sequence.value < Dec(l, mem, best.value).value.sequence {
      return;
    }
    if !AllBytes(bytes[16..]) {
      unreadable1 := true;
      return;
    }
    var candidate := l.format.decode(bytes);
    if candidate.None? {
      return;
    }
    if best.Some? && candidate.value.sequence == Dec(l, mem, best.value).value.sequence
      && bytes != Rec(l, mem, best.value) {
      conflict := true;
      return;
    }
    if best.None? || candidate.value.sequence > Dec(l, mem, best.value).value.sequence {
      best1 := Some(n);
    }
  }

  // The first blank record of a sector from record lo on. The loop counts 32-bit
  // addresses, and compares them with the end of the sector in 64 bits.
  method FindBlank(l: Layout, mem: seq<int>, bank: nat, lo: nat) returns (r: Option<nat>)
    requires Fits(l, mem) && Searchable(l) && bank < 2
      && J.First(l, bank) <= lo <= J.First(l, bank) + Records(l) <= 2 * Records(l)
    ensures r == J.FirstBlank(l, mem, lo, J.First(l, bank) + Records(l))
  {
    hide Fits, Valid, Records, J.IsBlank, JS.Visited, JS.GoesOn;
    var first, base, n := J.First(l, bank), Base(l, mem, bank), lo;
    var at := (base + RECORD * (lo - first)) % TWO_32;
    StartsAt(base, lo - first);
    SectorEnds(l, mem, bank, n - first);
    while at < base + l.sectorSize
      invariant lo <= n <= first + Records(l) && at == JS.Visited(base, n - first)
      invariant at < base + l.sectorSize <==> n < first + Records(l)
      invariant J.FirstBlank(l, mem, lo, first + Records(l)) == J.FirstBlank(l, mem, n, first + Records(l))
      decreases first + Records(l) - n
    {
      var blank := Erased(l, mem, n);
      if blank {
        return Some(n);
      }
      JS.ScanNext(base, n - first);
      SectorEnds(l, mem, bank, n + 1 - first);
      at := (at + RECORD) % TWO_32;
      n := n + 1;
    }
    return None;
  }

  function Base(l: Layout, mem: seq<int>, bank: nat): nat
    requires Fits(l, mem) && bank < 2
  {
    l.metadata[bank]
  }

  lemma StartsAt(base: nat, k: nat)
    ensures (base + RECORD * k) % TWO_32 == JS.Visited(base, k)
  {}

  lemma SectorEnds(l: Layout, mem: seq<int>, bank: nat, k: nat)
    requires Fits(l, mem) && Searchable(l) && bank < 2 && k <= Records(l)
    ensures JS.Visited(l.metadata[bank], k) < l.metadata[bank] + l.sectorSize <==> k < Records(l)
  {
    JS.ScanVisits(l, bank, k);
  }

  method Erased(l: Layout, mem: seq<int>, n: nat) returns (blank: bool)
    requires Fits(l, mem) && n < 2 * Records(l)
    ensures blank == J.IsBlank(l, mem, n)
  {
    var bytes := Rec(l, mem, n);
    for i := 0 to RECORD
      invariant forall k :: 0 <= k < i ==> bytes[k] == BLANK
    {
      if bytes[i] != BLANK {
        return false;
      }
    }
    return true;
  }

  lemma Geometry(l: Layout)
    requires Layouts.Valid(l)
    ensures |l.metadata| == 2 && (l.writeSize == 16 || l.writeSize == 32)
  {}

  lemma Ranges(l: Layout, j: J.Journal)
    requires J.Ok?(l, j)
    ensures j.latest < 2 * Records(l) && |j.record| == RECORD
    ensures forall bank :: 0 <= bank < 2 ==> J.First(l, bank) + Records(l) <= 2 * Records(l)
  {}

  // A load changes nothing but where the newest record was found.
  lemma LoadedFacts(l: Layout, j: J.Journal, d: Device, o: Outcome)
    requires Fits(l, d.mem) && J.Ok?(l, j)
    ensures var r := J.Load(l, j, d, o);
            && r.j == j.(latest := r.j.latest) && Fits(l, r.d.mem)
            && (r.status == Ok ==> r.j.latest < 2 * Records(l) && Dec(l, r.d.mem, r.j.latest).Some?)
  {
    hide Fits, Layouts.Valid, Records, J.ScanTo;
    FitsSame(l, d.mem, J.Load(l, j, d, o).d.mem);
  }

  class Journal {
    const l: Layout
    const flash: FlashDevice
    var state: J.State
    var status: Status
    var record: seq<int>
    var pendingRecord: seq<int>
    var target: nat
    var pendingTarget: nat
    var latest: nat
    var offset: nat
    var started: nat
    var requested: bool
    var eraseNeeded: bool
    var checkpoint: bool
    var eraseOnly: bool
    var timedOut: bool

    function Model(): J.Journal
      reads this
    {
      J.Journal(state, status, record, pendingRecord, target, pendingTarget, latest, offset, started,
                requested, eraseNeeded, checkpoint, eraseOnly, timedOut)
    }

    ghost predicate Valid()
      reads this, flash
    {
      Fits(l, flash.mem) && Searchable(l) && J.Ok?(l, Model())
    }

    constructor (l: Layout, flash: FlashDevice)
      requires Fits(l, flash.mem) && Searchable(l)
      ensures Valid() && this.l == l && this.flash == flash && Model() == J.FRESH
    {
      this.l, this.flash := l, flash;
      state, status, record, pendingRecord := J.Idle, Ok, J.EMPTY_RECORD, J.EMPTY_RECORD;
      target, pendingTarget, latest, offset, started := 0, 0, 0, 0, 0;
      requested, eraseNeeded, checkpoint, eraseOnly, timedOut := false, false, false, false, false;
    }

    method Load(o: Outcome) returns (result: Status, snapshot: Option<Snapshot>)
      requires Valid()
      modifies this`latest, flash
      ensures Valid() && J.Loaded(Model(), flash.Model(), result, snapshot) ==
        J.Load(l, old(Model()), old(flash.Model()), o)
    {
      hide Fits, Layouts.Valid, J.ScanTo;
      var polled := flash.Poll(l, o);
      FitsSame(l, old(flash.mem), flash.mem);
      if polled == Busy {
        return Busy, None;
      }
      var best, conflict, unreadable := Scan(l, flash.mem);
      if best.Some? {
        latest := best.value;
      }
      result := if conflict then ChecksumError else if best.Some? then Ok else if unreadable then IoError else NotFound;
      snapshot := if result == Ok then Dec(l, flash.mem, best.value) else None;
    }

    // The checks and the choice of a place that begin() makes after loading.
    method Prepare(snapshot: Snapshot, found: bool, executing: nat) returns (result: Status)
      requires Valid() && status != Busy && (found ==> Dec(l, flash.mem, latest).Some?)
      modifies this`record, this`checkpoint, this`eraseOnly, this`target, this`eraseNeeded, this`pendingRecord,
        this`pendingTarget
      ensures Valid()
      ensures (Model(), result)
              == J.Plan(l, executing, old(Model()), flash.mem, if found then Some(latest) else None, snapshot)
    {
      hide Fits, Layouts.Valid, Records, J.Place, J.PlaceRuntime;
      var current := if found then Dec(l, flash.mem, latest).value else Snapshot(0, 0, J.NOTHING, J.NOTHING);
      if current.sequence == TWO_64 - 1 || snapshot.counter < current.counter {
        return CounterExhausted;
      }
      var bytes := l.format.encode(snapshot.(sequence := current.sequence + 1));
      if |bytes| != RECORD || l.format.decode(bytes).None? {
        return InvalidArgument;
      }
      record := bytes;
      checkpoint := false;
      eraseOnly := false;
      var place := Place(found);
      if executing < 2 {
        result := PlaceRuntime(executing, found);
      } else {
        result := Ok;
      }
    }

    method Place(found: bool) returns (place: (nat, bool))
      requires Valid() && status != Busy
      modifies this`target, this`eraseNeeded
      ensures Valid() && place == J.Place(l, flash.mem, if found then Some(latest) else None)
      ensures Model() == old(Model()).(target := place.0, eraseNeeded := place.1)
    {
      hide Fits, Layouts.Valid, J.FirstBlank;
      eraseNeeded := true;
      target := 0;
      if found {
        var bank := Bank(l, latest);
        var free := FindBlank(l, flash.mem, bank, latest + 1);
        if free.Some? {
          target := free.value;
          eraseNeeded := false;
        } else {
          target := J.First(l, 1 - bank);
        }
      }
      place := (target, eraseNeeded);
    }

    method PlaceRuntime(executing: nat, found: bool) returns (result: Status)
      requires Valid() && status != Busy && executing < 2 && (found ==> Dec(l, flash.mem, latest).Some?)
      modifies this`target, this`eraseNeeded, this`pendingRecord, this`pendingTarget, this`record, this`checkpoint
      ensures (Model(), result)
              == J.PlaceRuntime(l, flash.mem, old(Model()), executing, if found then Some(latest) else None)
      ensures Valid()
    {
      hide Fits, Layouts.Valid, Records, J.FirstBlank, J.Ok?;
      Ranges(l, Model());
      var inactive := 1 - executing;
      var free := FindBlank(l, flash.mem, inactive, J.First(l, inactive));
      Aim(if free.Some? then free.value else J.First(l, inactive), free.None?);
      if free.None? && found && Bank(l, latest) == inactive {
        var spare := FindBlank(l, flash.mem, executing, J.First(l, executing));
        if spare.None? {
          return Full;
        }
        Checkpoint(spare.value, Rec(l, flash.mem, latest));
      }
      return Ok;
    }

    method Aim(place: nat, erase: bool)
      modifies this`target, this`eraseNeeded
      ensures Model() == old(Model()).(target := place, eraseNeeded := erase)
    {
      target, eraseNeeded := place, erase;
    }

    // Put the planned record off until a copy of the newest one is in place.
    method Checkpoint(place: nat, newest: seq<int>)
      modifies this`target, this`eraseNeeded, this`pendingRecord, this`pendingTarget, this`record, this`checkpoint
      ensures var j := old(Model());
              Model() == j.(pendingRecord := j.record, pendingTarget := j.target, record := newest, target := place,
                            checkpoint := true, eraseNeeded := false)
    {
      pendingRecord := record;
      pendingTarget := target;
      record := newest;
      target := place;
      checkpoint := true;
      eraseNeeded := false;
    }

    method Begin(snapshot: Snapshot, initialize: bool, executing: nat, o: Outcome) returns (result: Status)
      requires Valid()
      modifies this, flash
      ensures J.Begun(Model(), flash.Model(), result)
              == J.Begin(l, executing, old(Model()), old(flash.Model()), snapshot, initialize, o)
      ensures Valid()
    {
      hide Fits, Layouts.Valid, Records, J.Plan, J.Load, J.Ok?;
      if status == Busy {
        return Busy;
      }
      LoadedFacts(l, Model(), flash.Model(), o);
      var loaded, current := Load(o);
      if loaded != Ok && !(initialize && loaded == NotFound) {
        return loaded;
      }
      result := Prepare(snapshot, loaded == Ok, executing);
      if result == Ok {
        Ask();
      }
    }

    // Ask the machine to start on what has been planned.
    method Ask()
      modifies this`offset, this`timedOut, this`requested, this`status
      ensures Model() == J.Request(old(Model()))
    {
      offset, timedOut, requested, status := 0, false, true, Busy;
    }

    method Fail(result: Status)
      modifies this`status, this`state
      ensures Model() == J.Fail(old(Model()), result)
    {
      status := if result == Busy then IoError else result;
      state := J.Failed;
    }

    // Ends a wait by failing, or says that the operation has finished.
    method Wait(o: Outcome) returns (finished: bool)
      requires Valid()
      modifies this`status, this`state, flash
      ensures |flash.mem| == |old(flash.mem)|
      ensures var (ended, d) := J.Waited(l, old(Model()), old(flash.Model()), o);
              flash.Model() == d && finished == ended.None? && Model() == if finished then old(Model()) else ended.value
    {
      var result := flash.Poll(l, o);
      if result == Busy && !timedOut {
        return false;
      }
      if result != Ok || timedOut {
        Fail(if timedOut then Timeout else result);
        return false;
      }
      return true;
    }

    method StepErase(e: Event)
      requires Valid() && state == J.Erase
      modifies this`status, this`state, flash
      ensures (Model(), flash.Model()) == J.StepErase(l, old(Model()), old(flash.Model()), e)
    {
      hide Fits, Layouts.Valid, Records;
      if timedOut {
        Fail(Timeout);
        return;
      }
      Geometry(l);
      var result := flash.Erase(At(l, target), l.sectorSize, e.refuse);
      if result != Ok {
        Fail(result);
      } else {
        state := J.EraseWait;
      }
    }

    method StepWrite(e: Event)
      requires Valid() && state == J.Write
      modifies this`status, this`state, flash
      ensures (Model(), flash.Model()) == J.StepWrite(l, old(Model()), old(flash.Model()), e)
    {
      hide Fits, Layouts.Valid, Records, StartProgram;
      if timedOut {
        Fail(Timeout);
        return;
      }
      Geometry(l);
      JR.UnitFits(l, Model());
      var result := flash.Program(At(l, target) + offset, record[offset..offset + l.writeSize], e.refuse);
      if result != Ok {
        Fail(result);
      } else {
        state := J.WriteWait;
      }
    }

    method StepVerify()
      requires Valid() && state == J.Verify
      modifies this`status, this`state, this`record, this`target, this`offset, this`checkpoint
      ensures (Model(), flash.Model()) == J.StepVerify(l, old(Model()), flash.Model())
    {
      hide Fits, Layouts.Valid, Records, AllBytes;
      Geometry(l);
      var result := Read(flash.Model(), At(l, target), RECORD);
      if result == Ok && Rec(l, flash.mem, target) != record {
        result := ChecksumError;
      }
      if result == Ok && checkpoint {
        record := pendingRecord;
        target := pendingTarget;
        offset := 0;
        checkpoint := false;
        state := J.Erase;
      } else if result == Ok {
        status := Ok;
        state := J.Done;
      } else {
        Fail(result);
      }
    }

    method Step(e: Event)
      requires Valid()
      modifies this, flash
      ensures (Model(), flash.Model()) == J.Step(l, old(Model()), old(flash.Model()), e)
    {
      hide Fits, Layouts.Valid, Records, J.Waited, J.StepErase, J.StepWrite, J.StepVerify;
      match state {
        case Idle | Done | Failed =>
          if requested {
            requested := false;
            state := if eraseNeeded then J.Erase else J.Write;
          }
        case Erase => StepErase(e);
        case EraseWait =>
          var finished := Wait(e.outcome);
          if finished {
            if eraseOnly {
              status := Ok;
              state := J.Done;
            } else {
              state := J.Write;
            }
          }
        case Write => StepWrite(e);
        case WriteWait =>
          Geometry(l);
          var finished := Wait(e.outcome);
          if finished {
            offset := J.NextUnit(offset, l.writeSize);
            state := if offset == RECORD then J.Verify else J.Write;
          }
        case Verify => StepVerify();
      }
    }

    /** One tick of the machine. */
    method Tick(e: Event)
      requires Valid()
      modifies this, flash
      ensures Valid() && (Model(), flash.Model()) == J.Tick(l, old(Model()), old(flash.Model()), e)
    {
      hide Fits, Layouts.Valid, Records, J.Step;
      if requested {
        started := e.now;
      } else if status == Busy && Elapsed(e.now, started) >= l.operationTimeout {
        timedOut := true;
      }
      Step(e);
      FitsSame(l, old(flash.mem), flash.mem);
    }

    // The foreground loop: tick until the machine ends or the events do.
    method Run(start: nat, timeout: nat, script: seq<Event>) returns (rest: seq<Event>)
      requires Valid()
      modifies this, flash
      ensures Valid()
      ensures J.Ran(Model(), flash.Model(), rest)
              == J.Run(l, old(Model()), old(flash.Model()), start, timeout, script)
    {
      hide Fits, Layouts.Valid, Records, J.Tick;
      rest := script;
      while status == Busy && rest != []
        invariant Valid()
        invariant J.Run(l, Model(), flash.Model(), start, timeout, rest) ==
          J.Run(l, old(Model()), old(flash.Model()), start, timeout, script)
        decreases |rest|
      {
        timedOut := Elapsed(rest[0].caller, start) >= timeout;
        Tick(rest[0]);
        rest := rest[1..];
      }
    }

    /** A whole commit, as far as the events go. */
    method Commit(executing: nat, snapshot: Snapshot, timeout: nat, initialize: bool, start: nat, o: Outcome,
                  script: seq<Event>)
      returns (result: Status, rest: seq<Event>)
      requires Valid()
      modifies this, flash
      ensures Valid()
      ensures J.Committed(Model(), flash.Model(), result, rest)
              == J.Commit(l, executing, old(Model()), old(flash.Model()), snapshot, timeout, initialize, start, o,
                          script)
    {
      hide Fits, Layouts.Valid, Records, J.Begin, J.Run;
      rest := script;
      result := Begin(snapshot, initialize, executing, o);
      if result == Ok {
        rest := Run(start, if timeout == 0 then l.operationTimeout else timeout, script);
        result := status;
      }
    }

    method BankErased(bank: nat) returns (blank: bool)
      requires Valid() && bank < 2
      ensures blank == J.BankBlank(l, flash.mem, bank)
    {
      hide Fits, Layouts.Valid, Records, J.IsBlank, JS.Visited, JS.GoesOn;
      var first, base, n := J.First(l, bank), Base(l, flash.mem, bank), J.First(l, bank);
      var at := base;
      JS.ScanStarts(base);
      SectorEnds(l, flash.mem, bank, 0);
      while at < base + l.sectorSize
        invariant first <= n <= first + Records(l) && at == JS.Visited(base, n - first)
        invariant at < base + l.sectorSize <==> n < first + Records(l)
        invariant forall k :: first <= k < n ==> J.IsBlank(l, flash.mem, k)
        decreases first + Records(l) - n
      {
        var erased := Erased(l, flash.mem, n);
        if !erased {
          return false;
        }
        JS.ScanNext(base, n - first);
        SectorEnds(l, flash.mem, bank, n + 1 - first);
        at := (at + RECORD) % TWO_32;
        n := n + 1;
      }
      return true;
    }

    method PrepareErase(bank: nat, start: nat, timeout: nat, script: seq<Event>)
      returns (result: Status, rest: seq<Event>)
      requires Valid() && bank < 2 && status != Busy
      modifies this, flash
      ensures Valid()
      ensures J.Committed(Model(), flash.Model(), result, rest)
              == J.PrepareErase(l, bank, old(Model()), old(flash.Model()), start, timeout, script)
    {
      hide Fits, Layouts.Valid, J.BankBlank, J.Run;
      var blank := BankErased(bank);
      if blank {
        return Ok, script;
      }
      target := J.First(l, bank);
      eraseNeeded := true;
      eraseOnly := true;
      checkpoint := false;
      Ask();
      rest := Run(start, timeout, script);
      result := status;
    }

    method PrepareCopy(bank: nat)
      requires Valid() && bank < 2 && status != Busy && Dec(l, flash.mem, latest).Some?
      modifies this`record, this`target, this`eraseNeeded, this`eraseOnly, this`offset, this`timedOut, this`checkpoint,
        this`requested, this`status
      ensures Valid() && Model() == J.PrepareCopy(l, bank, old(Model()), flash.mem)
    {
      hide Fits, Layouts.Valid, J.FirstBlank;
      var other := J.First(l, 1 - bank);
      var free := FindBlank(l, flash.mem, 1 - bank, other);
      record := Rec(l, flash.mem, latest);
      target := if free.Some? then free.value else other;
      eraseNeeded := free.None?;
      eraseOnly := false;
      checkpoint := false;
      Ask();
    }

    /** Preparing a bank for an application: copy the newest record out of it, then
        leave it blank. */
    method PrepareRuntime(executing: nat, bank: nat, timeout: nat, start: nat, o: Outcome, script: seq<Event>)
      returns (result: Status, rest: seq<Event>)
      requires Valid()
      modifies this, flash
      ensures Valid()
      ensures J.Committed(Model(), flash.Model(), result, rest)
              == J.PrepareRuntime(l, executing, bank, old(Model()), old(flash.Model()), timeout, start, o, script)
    {
      hide Fits, Layouts.Valid, J.ScanTo, J.Run, J.PrepareErase, J.PrepareCopy, Records;
      rest := script;
      if bank >= 2 || executing < 2 {
        return Unsupported, rest;
      }
      if status == Busy {
        return Busy, rest;
      }
      var snapshot;
      result, snapshot := Load(o);
      if result != Ok {
        return;
      }
      if Bank(l, latest) == bank {
        PrepareCopy(bank);
        rest := Run(start, timeout, script);
        if status != Ok {
          return status, rest;
        }
        result, rest := PrepareErase(bank, Restart(start, rest), timeout, rest);
        return;
      }
      result, rest := PrepareErase(bank, start, timeout, rest);
    }
  }
}
