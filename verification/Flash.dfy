/** The single-operation flash device of lib/boot/flash.h with the one-to-zero
    semantics of platform/host/flash.cpp. A cell is a byte or UNREADABLE. */
module Flash {
  import opened Bytes
  import opened Layouts

  // The statuses of core/foundation/types.hpp that flash users return.
  datatype Status = Ok | NotRunning | InvalidArgument | NotFound | Full | Busy | ParseError
                  | Unsupported | IoError | Timeout | ChecksumError | Incompatible
                  | NotConfirmed | Refused | CounterExhausted

  datatype Op = NoOp | EraseOp(address: nat, size: nat) | ProgramOp(address: nat, data: seq<int>)

  datatype Device = Device(mem: seq<int>, op: Op)

  // What one interaction with the outside brings: the clock as the caller and
  // the machine read it, whether the device refuses to start an operation, and
  // how a poll of the operation in flight ends.
  datatype Outcome = Running | Finished | Broken(mem: seq<int>)
  datatype Event = Event(caller: nat, now: nat, refuse: bool, outcome: Outcome)

  // An event that is no fault: operations start, and none breaks.
  predicate FaultFree(e: Event) { !e.refuse && !e.outcome.Broken? }

  // How many polls find the operation in flight finished.
  function Finishes(script: seq<Event>): nat
    decreases |script|
  {
    if script == [] then 0 else (if script[0].outcome.Finished? then 1 else 0) + Finishes(script[1..])
  }

  // The clock as it is read again when a second operation begins.
  function Restart(start: nat, script: seq<Event>): nat { if script == [] then start else script[0].caller }

  // Unsigned 64-bit difference of two clock readings.
  function Elapsed(now: nat, since: nat): nat { (now - since) % TWO_64 }

  function Splice(mem: seq<int>, at: nat, data: seq<int>): (r: seq<int>)
    requires at + |data| <= |mem|
    ensures |r| == |mem|
  {
    mem[..at] + data + mem[at + |data|..]
  }

  // Nothing changed except possibly [at, at + n).
  predicate Outside(mem: seq<int>, after: seq<int>, at: nat, n: nat) {
    |after| == |mem| && forall i :: 0 <= i < |mem| && !(at <= i < at + n) ==> after[i] == mem[i]
  }

  function Size(op: Op): nat {
    match op
    case NoOp => 0
    case EraseOp(_, n) => n
    case ProgramOp(_, data) => |data|
  }

  function Start(op: Op): nat {
    match op
    case NoOp => 0
    case EraseOp(a, _) => a
    case ProgramOp(a, _) => a
  }

  function Apply(mem: seq<int>, op: Op): (r: seq<int>)
    ensures |r| == |mem|
  {
    if Start(op) + Size(op) > |mem| then mem
    else match op
      case NoOp => mem
      case EraseOp(a, n) => Splice(mem, a, Fill(n, BLANK))
      case ProgramOp(a, data) => Splice(mem, a, data)
  }

  // The one assumption about interrupted erases: a journal record that changed
  // no longer decodes.
  predicate ErasureEvident(l: Layout, mem: seq<int>, after: seq<int>)
    requires |mem| == |after|
  {
    Fits(l, mem) ==>
      forall n :: 0 <= n < 2 * Records(l) ==>
        Rec(l, after, n) == Rec(l, mem, n) || Dec(l, after, n).None?
  }

  // What an interruption of the operation in flight can leave. A program touches
  // one write unit and can leave anything there; an erase leaves each cell old,
  // blank or unreadable.
  predicate Torn(l: Layout, d: Device, after: seq<int>) {
    && Outside(d.mem, after, Start(d.op), Size(d.op))
    && (d.op.EraseOp? ==>
          && ErasureEvident(l, d.mem, after)
          && forall i :: 0 <= i < |after| ==> after[i] in {d.mem[i], BLANK, UNREADABLE})
  }

  function Poll(l: Layout, d: Device, o: Outcome): (r: (Device, Status))
    ensures |r.0.mem| == |d.mem|
  {
    if d.op.NoOp? then (d, Ok)
    else match o
      case Running => (d, Busy)
      case Finished => (Device(Apply(d.mem, d.op), NoOp), Ok)
      case Broken(after) => if Torn(l, d, after) then (Device(after, NoOp), IoError) else (d, Busy)
  }

  // Programming can only clear bits.
  predicate ClearsByte(before: int, after: int) {
    0 <= before < 256 && 0 <= after < 256 && (before as bv8) & (after as bv8) == after as bv8
  }

  predicate Clears(before: seq<int>, after: seq<int>)
    requires |before| == |after|
  {
    forall i :: 0 <= i < |after| ==> ClearsByte(before[i], after[i])
  }

  function Read(d: Device, address: nat, n: nat): Status {
    if !d.op.NoOp? then Busy
    else if address + n > |d.mem| then InvalidArgument
    else if AllBytes(d.mem[address..address + n]) then Ok else IoError
  }

  function StartErase(d: Device, address: nat, size: nat, refuse: bool): (Device, Status) {
    if !d.op.NoOp? then (d, Busy)
    else if address + size > |d.mem| then (d, InvalidArgument)
    else if refuse then (d, IoError)
    else (d.(op := EraseOp(address, size)), Ok)
  }

  function StartProgram(d: Device, address: nat, data: seq<int>, refuse: bool): (Device, Status) {
    if !d.op.NoOp? then (d, Busy)
    else if address + |data| > |d.mem| then (d, InvalidArgument)
    else if !AllBytes(d.mem[address..address + |data|]) then (d, IoError)
    else if !Clears(d.mem[address..address + |data|], data) then (d, InvalidArgument)
    else if refuse then (d, IoError)
    else (d.(op := ProgramOp(address, data)), Ok)
  }

  lemma StartProgramCases(d: Device, address: nat, data: seq<int>, refuse: bool)
    ensures var (d1, status) := StartProgram(d, address, data, refuse);
            if status == Ok then d.op.NoOp? && d1 == d.(op := ProgramOp(address, data)) else d1 == d
  {}

  lemma BlankAccepts(after: byte)
    ensures ClearsByte(BLANK, after)
  {}

  lemma SameSlice(mem: seq<int>, after: seq<int>, at: nat, n: nat, p: nat, len: nat)
    requires Outside(mem, after, at, n) && p + len <= |mem|
    requires p + len <= at || at + n <= p
    ensures after[p..p + len] == mem[p..p + len]
  {}

  // Blank cells accept any program.
  lemma BlankStarts(d: Device, address: nat, data: seq<int>)
    requires d.op.NoOp? && address + |data| <= |d.mem| && AllBytes(data)
    requires forall i :: address <= i < address + |data| ==> d.mem[i] == BLANK
    ensures StartProgram(d, address, data, false) == (d.(op := ProgramOp(address, data)), Ok)
  {
    var cells := d.mem[address..address + |data|];
    forall i | 0 <= i < |data| ensures cells[i] == BLANK && ClearsByte(BLANK, data[i]) {
      BlankAccepts(data[i]);
    }
  }
}
