/** The A/B boot policy of lib/boot/control.cpp on values. */
module ControlSpec {
  import opened Bytes
  import opened Record
  import opened Layouts
  import opened Flash
  import opened JournalSpec

  // The checks on the recorded image that need no flash read.
  predicate Compatible(l: Layout, slot: nat, image: Image) {
    && slot < 2 && image.size != 0 && image.size <= l.slotSize
    && image.product == l.product && image.revision == l.revision && image.installation != 0
  }

  function Cells(l: Layout, mem: seq<int>, slot: nat, size: nat): seq<int>
    requires Fits(l, mem) && slot < 2 && size <= l.slotSize
  {
    Slot(l, mem, slot)[..size]
  }

  function VerifyImage(l: Layout, d: Device, slot: nat, image: Image): Status
    requires Fits(l, d.mem)
  {
    if !Compatible(l, slot, image) then Incompatible
    else if !d.op.NoOp? then Busy
    else if !AllBytes(Cells(l, d.mem, slot, image.size)) then IoError
    else if l.crc(0, Cells(l, d.mem, slot, image.size)) == image.crc then Ok
    else ChecksumError
  }

  function WithState(s: Snapshot, slot: nat, state: ImageState): Snapshot {
    s.With(slot, s.Slot(slot).(state := state))
  }

  // Trials that were not confirmed are over.
  function RejectTrials(s: Snapshot): Snapshot {
    var first := if s.a.state == Trial then WithState(s, 0, ImageState.Rejected) else s;
    if first.b.state == Trial then WithState(first, 1, ImageState.Rejected) else first
  }

  function Newest(s: Snapshot): (slot: nat)
    ensures slot < 2
  {
    if s.b.installation > s.a.installation then 1 else 0
  }

  predicate Bootable(state: ImageState) { state == Pending || state == Confirmed }

  // The slot to boot: the newer installation first, if its image verifies.
  function Choose(l: Layout, d: Device, s: Snapshot): (r: (Option<nat>, Status))
    requires Fits(l, d.mem)
    ensures r.0.Some? ==> r.0.value < 2
  {
    var first := Newest(s);
    var second := 1 - first;
    if Bootable(s.Slot(first).state) && VerifyImage(l, d, first, s.Slot(first)) == Ok then (Some(first), Ok)
    else
      var failure := if Bootable(s.Slot(first).state) then VerifyImage(l, d, first, s.Slot(first)) else NotFound;
      if !Bootable(s.Slot(second).state) then (None, failure)
      else if VerifyImage(l, d, second, s.Slot(second)) == Ok then (Some(second), Ok)
      else (None, VerifyImage(l, d, second, s.Slot(second)))
  }

  // Where a selection stopped.
  datatype Stage = Loading | Rejecting | Choosing | Trying | Selected

  datatype Selection = Selection(status: Status, slot: nat, trial: bool, image: Image)

  datatype Boot = Boot(j: Journal, d: Device, selection: Selection, stage: Stage, rest: seq<Event>)

  function Refusal(j: Journal, d: Device, status: Status, stage: Stage, rest: seq<Event>): Boot {
    Boot(j, d, Selection(status, 2, false, NOTHING), stage, rest)
  }

  // Boot the chosen slot; a pending image is recorded as a trial first.
  function Try(l: Layout, executing: nat, j: Journal, d: Device, s: Snapshot, slot: nat, start: nat,
               script: seq<Event>): (r: Boot)
    requires Fits(l, d.mem) && Ok?(l, j) && slot < 2
    ensures Ok?(l, r.j) && |r.d.mem| == |d.mem|
  {
    if s.Slot(slot).state != Pending then
      Boot(j, d, Selection(Ok, slot, false, s.Slot(slot)), Selected, script)
    else
      var tried := WithState(s, slot, Trial);
      var c := Commit(l, executing, j, d, tried, 0, false, start, Running, script);
      if c.status != Ok then Refusal(c.j, c.d, c.status, Trying, c.rest)
      else Boot(c.j, c.d, Selection(Ok, slot, true, tried.Slot(slot)), Selected, c.rest)
  }

  function Pick(l: Layout, executing: nat, j: Journal, d: Device, s: Snapshot, start: nat,
                script: seq<Event>): (r: Boot)
    requires Fits(l, d.mem) && Ok?(l, j)
    ensures Ok?(l, r.j) && |r.d.mem| == |d.mem|
  {
    var (slot, failure) := Choose(l, d, s);
    if slot.None? then Refusal(j, d, failure, Choosing, script)
    else Try(l, executing, j, d, s, slot.value, start, script)
  }

  function Select(l: Layout, executing: nat, j: Journal, d: Device, start: nat, o: Outcome,
                  script: seq<Event>): (r: Boot)
    requires Fits(l, d.mem) && Ok?(l, j)
    ensures Ok?(l, r.j) && |r.d.mem| == |d.mem|
  {
    var loaded := Load(l, j, d, o);
    if loaded.status != Ok then Refusal(loaded.j, loaded.d, loaded.status, Loading, script)
    else
      var s := loaded.snapshot.value;
      if RejectTrials(s) == s then Pick(l, executing, loaded.j, loaded.d, s, start, script)
      else
        var c := Commit(l, executing, loaded.j, loaded.d, RejectTrials(s), 0, false, start, Running, script);
        if c.status != Ok then Refusal(c.j, c.d, c.status, Rejecting, c.rest)
        else Pick(l, executing, c.j, c.d, RejectTrials(s), Restart(start, c.rest), c.rest)
  }

  function Confirm(l: Layout, executing: nat, j: Journal, d: Device, running: nat, start: nat, o: Outcome,
                   script: seq<Event>): (r: Committed)
    requires Fits(l, d.mem) && Ok?(l, j)
    ensures Ok?(l, r.j) && |r.d.mem| == |d.mem|
  {
    if running >= 2 then Committed(j, d, Unsupported, script)
    else
      var loaded := Load(l, j, d, o);
      if loaded.status != Ok then Committed(loaded.j, loaded.d, loaded.status, script)
      else
        var s := loaded.snapshot.value;
        if s.Slot(running).state == Confirmed then Committed(loaded.j, loaded.d, Ok, script)
        else if s.Slot(running).state != Trial then Committed(loaded.j, loaded.d, NotRunning, script)
        else Commit(l, executing, loaded.j, loaded.d, WithState(s, running, Confirmed), 0, false, start, Running,
                    script)
  }
}
