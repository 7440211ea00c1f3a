/** The boot policy as the object it is, over the journal object. */
module ControlMachine {
  import opened Bytes
  import opened Record
  import opened Layouts
  import opened Flash
  import opened JournalMachine
  import J = JournalSpec
  import C = ControlSpec
  import S = JournalSafety

  const BUFFER: nat := 256

  lemma PieceEnds(cells: seq<int>, offset: nat, count: nat)
    requires offset + count <= |cells|
    ensures cells[..offset] + cells[offset..offset + count] == cells[..offset + count]
    ensures AllBytes(cells[..offset]) && AllBytes(cells[offset..offset + count]) ==> AllBytes(cells[..offset + count])
    ensures !AllBytes(cells[offset..offset + count]) ==> !AllBytes(cells)
  {
    var piece := cells[offset..offset + count];
    if !AllBytes(piece) {
      var i :| 0 <= i < |piece| && !(0 <= piece[i] < 256);
      assert cells[offset + i] == piece[i];
    }
    if AllBytes(cells[..offset]) && AllBytes(piece) {
      var whole := cells[..offset + count];
      forall i | 0 <= i < |whole| ensures 0 <= whole[i] < 256 {
        assert i < offset ==> cells[..offset][i] == whole[i];
        assert i >= offset ==> piece[i - offset] == whole[i];
      }
    }
  }

  lemma CrcGrows(l: Layout, a: seq<int>, b: seq<int>)
    requires Splits(l.crc) && AllBytes(a) && AllBytes(b)
    ensures l.crc(l.crc(0, a), b) == l.crc(0, a + b)
  {}

  // The checksum of cells read a buffer at a time, unless some cannot be read.
  method Accumulate(l: Layout, cells: seq<int>) returns (r: Option<int>)
    requires Splits(l.crc) && cells != []
    ensures r == if AllBytes(cells) then Some(l.crc(0, cells)) else None
  {
    hide AllBytes, Splits;
    var crc, offset := 0, 0;
    assert cells[..0] == [];
    EmptyBytes();
    while offset < |cells|
      invariant 0 <= offset <= |cells| && AllBytes(cells[..offset])
      invariant crc == if offset == 0 then 0 else l.crc(0, cells[..offset])
    {
      var count := if BUFFER <= |cells| - offset then BUFFER else |cells| - offset;
      var bytes := cells[offset..offset + count];
      PieceEnds(cells, offset, count);
      if !AllBytes(bytes) {
        return None;
      }
      if offset > 0 {
        CrcGrows(l, cells[..offset], bytes);
      } else {
        assert cells[..count] == bytes;
      }
      crc := l.crc(crc, bytes);
      offset := offset + count;
    }
    assert cells[..offset] == cells;
    r := Some(crc);
  }

  class Control {
    const l: Layout
    const journal: Journal

    ghost predicate Valid()
      reads this, journal, journal.flash
    {
      journal.l == l && journal.Valid() && S.Ready(l)
    }

    constructor (l: Layout, journal: Journal)
      requires journal.l == l && journal.Valid() && S.Ready(l)
      ensures Valid() && this.l == l && this.journal == journal
    {
      this.l, this.journal := l, journal;
    }

    // Check a slot piece by piece; equals checking it at once.
    method Verify(slot: nat, image: Image) returns (result: Status)
      requires Valid()
      ensures result == C.VerifyImage(l, journal.flash.Model(), slot, image)
    {
      if slot >= 2 || image.size == 0 || image.size > l.slotSize || image.product != l.product
         || image.revision != l.revision || image.installation == 0
      {
        return Incompatible;
      }
      if !journal.flash.op.NoOp? {
        return Busy;
      }
      var cells := C.Cells(l, journal.flash.mem, slot, image.size);
      var crc := Accumulate(l, cells);
      return if crc.None? then IoError else if crc.value == image.crc then Ok else ChecksumError;
    }

    // Trials that were never confirmed are over.
    method RejectTrials(s: Snapshot) returns (snapshot: Snapshot, rejected: bool)
      ensures snapshot == C.RejectTrials(s) && (rejected <==> snapshot != s)
    {
      snapshot, rejected := s, false;
      for i := 0 to 2
        invariant snapshot == (if i == 0 then s
                               else if i == 1 then (if s.a.state == Trial then C.WithState(s, 0, ImageState.Rejected)
                                                    else s)
                               else C.RejectTrials(s))
        invariant rejected <==> snapshot != s
      {
        if snapshot.Slot(i).state == Trial {
          snapshot := C.WithState(snapshot, i, ImageState.Rejected);
          rejected := true;
        }
      }
    }

    // The slot to boot, and why not.
    method Choose(s: Snapshot) returns (slot: Option<nat>, failure: Status)
      requires Valid()
      ensures (slot, failure) == C.Choose(l, journal.flash.Model(), s)
    {
      hide Fits, Layouts.Valid, C.VerifyImage;
      var newest := C.Newest(s);
      failure := NotFound;
      for i := 0 to 2
        invariant i < 2 ==>
          failure == if i == 1 && C.Bootable(s.Slot(newest).state)
            then C.VerifyImage(l, journal.flash.Model(), newest, s.Slot(newest))
                     else NotFound
        invariant failure != Ok
        invariant i == 2 ==> (None, failure) == C.Choose(l, journal.flash.Model(), s)
      {
        var candidate := if i == 0 then newest else 1 - newest;
        if C.Bootable(s.Slot(candidate).state) {
          var result := Verify(candidate, s.Slot(candidate));
          if result == Ok {
            return Some(candidate), Ok;
          }
          failure := result;
        }
      }
      slot := None;
    }

    /** Select the slot to boot. */
    method Select(executing: nat, start: nat, o: Outcome, script: seq<Event>)
      returns (selection: C.Selection, ghost stage: C.Stage, rest: seq<Event>)
      requires Valid()
      modifies journal, journal.flash
      ensures Valid()
      ensures C.Boot(journal.Model(), journal.flash.Model(), selection, stage, rest)
              == C.Select(l, executing, old(journal.Model()), old(journal.flash.Model()), start, o, script)
    {
      hide Fits, Layouts.Valid, J.Load, J.Commit, J.Ok?, C.RejectTrials, C.Pick;
      rest := script;
      var result, loaded := journal.Load(o);
      if result != Ok {
        return Refusal(result), C.Loading, rest;
      }
      var snapshot, rejected := RejectTrials(loaded.value);
      if rejected {
        result, rest := journal.Commit(executing, snapshot, 0, false, start, Running, rest);
        if result != Ok {
          return Refusal(result), C.Rejecting, rest;
        }
      }
      selection, stage, rest := Pick(executing, snapshot, if rejected then Restart(start, rest) else start, rest);
    }

    function Refusal(status: Status): C.Selection { C.Selection(status, 2, false, J.NOTHING) }

    method Pick(executing: nat, s: Snapshot, start: nat, script: seq<Event>)
      returns (selection: C.Selection, ghost stage: C.Stage, rest: seq<Event>)
      requires Valid()
      modifies journal, journal.flash
      ensures Valid()
      ensures C.Boot(journal.Model(), journal.flash.Model(), selection, stage, rest)
              == C.Pick(l, executing, old(journal.Model()), old(journal.flash.Model()), s, start, script)
    {
      hide Fits, Layouts.Valid, J.Commit, J.Ok?, C.Choose;
      rest := script;
      var slot, failure := Choose(s);
      if slot.None? {
        return Refusal(failure), C.Choosing, rest;
      }
      var image := s.Slot(slot.value);
      if image.state != Pending {
        return C.Selection(Ok, slot.value, false, image), C.Selected, rest;
      }
      var tried := C.WithState(s, slot.value, Trial);
      var result;
      result, rest := journal.Commit(executing, tried, 0, false, start, Running, rest);
      if result != Ok {
        return Refusal(result), C.Trying, rest;
      }
      selection, stage := C.Selection(Ok, slot.value, true, tried.Slot(slot.value)), C.Selected;
    }

    /** Confirm the image that is running. */
    method ConfirmImage(executing: nat, running: nat, start: nat, o: Outcome, script: seq<Event>)
      returns (result: Status, rest: seq<Event>)
      requires Valid()
      modifies journal, journal.flash
      ensures Valid()
      ensures J.Committed(journal.Model(), journal.flash.Model(), result, rest)
              == C.Confirm(l, executing, old(journal.Model()), old(journal.flash.Model()), running, start, o, script)
    {
      hide Fits, Layouts.Valid, J.Load, J.Commit, J.Ok?;
      rest := script;
      if running >= 2 {
        return Unsupported, rest;
      }
      var snapshot;
      result, snapshot := journal.Load(o);
      if result != Ok {
        return;
      }
      if snapshot.value.Slot(running).state == Confirmed {
        return Ok, rest;
      }
      if snapshot.value.Slot(running).state != Trial {
        return NotRunning, rest;
      }
      result, rest := journal.Commit(executing, C.WithState(snapshot.value, running, Confirmed), 0, false, start,
                                     Running, rest);
    }
  }

  lemma EmptyBytes()
    ensures AllBytes([])
  {}
}