/** What the boot policy keeps: a confirmed, intact image, and no record that
    vouches for an image whose bytes do not match. */
module ControlSafety {
  import opened Bytes
  import opened Record
  import opened Layouts
  import opened Flash
  import opened JournalSpec
  import opened JournalLoad
  import opened JournalSafety
  import opened JournalRuns
  import opened JournalCommit
  import opened ControlSpec

  predicate Claims(state: ImageState) { state in {Pending, Trial, Confirmed} }

  // The slot holds the recorded image.
  ghost predicate Intact(l: Layout, mem: seq<int>, slot: nat, image: Image) {
    && Fits(l, mem) && Compatible(l, slot, image)
    && AllBytes(Cells(l, mem, slot, image.size)) && l.crc(0, Cells(l, mem, slot, image.size)) == image.crc
  }

  ghost predicate Honest(l: Layout, mem: seq<int>, s: Snapshot, slot: nat) {
    Claims(s.Slot(slot).state) ==> Intact(l, mem, slot, s.Slot(slot))
  }

  /** The no-brick condition on flash and durable snapshot. */
  ghost predicate Safe(l: Layout, mem: seq<int>, s: Snapshot) {
    && Committable(s)
    && Honest(l, mem, s, 0) && Honest(l, mem, s, 1)
    && (s.a.state == Confirmed || s.b.state == Confirmed)
    && s.a.installation != s.b.installation
  }

  lemma IntactVerifies(l: Layout, d: Device, slot: nat, image: Image)
    requires Fits(l, d.mem) && d.op.NoOp?
    ensures VerifyImage(l, d, slot, image) == Ok <==> Intact(l, d.mem, slot, image)
  {}

  lemma IntactSame(l: Layout, mem: seq<int>, after: seq<int>, slot: nat, image: Image)
    requires Fits(l, mem) && Fits(l, after) && slot < 2 && Slot(l, after, slot) == Slot(l, mem, slot)
    ensures Intact(l, mem, slot, image) <==> Intact(l, after, slot, image)
  {}

  lemma SafeSame(l: Layout, mem: seq<int>, after: seq<int>, s: Snapshot)
    requires SameSlots(l, mem, after) && Safe(l, mem, s)
    ensures Safe(l, after, s)
  {
    FitsSame(l, mem, after);
    hide Fits, Intact;
    IntactSame(l, mem, after, 0, s.a);
    IntactSame(l, mem, after, 1, s.b);
  }

  // Changes of state that vouch for nothing new.
  predicate Weakens(s: Snapshot, t: Snapshot, slot: nat) {
    && t.Slot(slot) == s.Slot(slot).(state := t.Slot(slot).state)
    && (Claims(t.Slot(slot).state) ==> Claims(s.Slot(slot).state))
  }

  lemma SafeWeakened(l: Layout, mem: seq<int>, s: Snapshot, t: Snapshot)
    requires Safe(l, mem, s) && Weakens(s, t, 0) && Weakens(s, t, 1)
    requires t.a.state == Confirmed || t.b.state == Confirmed
    requires t.counter >= s.counter && t.sequence > 0
    ensures Safe(l, mem, t)
  {
    IntactState(l, mem, 0, s.a, t.a.state);
    IntactState(l, mem, 1, s.b, t.b.state);
    hide Intact;
  }

  // Whether an image is intact does not depend on its recorded state.
  lemma IntactState(l: Layout, mem: seq<int>, slot: nat, image: Image, state: ImageState)
    ensures Intact(l, mem, slot, image) <==> Intact(l, mem, slot, image.(state := state))
  {}

  // States only fade to trial or rejected.
  predicate Fades(s: Snapshot, t: Snapshot) {
    && t.counter == s.counter
    && t.a == s.a.(state := t.a.state) && (t.a.state == s.a.state || t.a.state in {Trial, ImageState.Rejected})
    && t.b == s.b.(state := t.b.state) && (t.b.state == s.b.state || t.b.state in {Trial, ImageState.Rejected})
  }

  // ---- Selecting ----

  // With a confirmed, intact image something is always chosen, and it verifies.
  lemma ChooseFinds(l: Layout, d: Device, s: Snapshot)
    requires Fits(l, d.mem) && d.op.NoOp? && Safe(l, d.mem, s)
    ensures var (slot, _) := Choose(l, d, s);
            slot.Some? && Bootable(s.Slot(slot.value).state) && Intact(l, d.mem, slot.value, s.Slot(slot.value))
  {
    hide Fits, VerifyImage, Intact;
    IntactVerifies(l, d, 0, s.a);
    IntactVerifies(l, d, 1, s.b);
  }

  // What the durable snapshot says after a selection.
  predicate Booted(s: Snapshot, slot: nat, trial: bool, image: Image) {
    && slot < 2 && s.Slot(slot) == image && s.Slot(1 - slot).state != Trial
    && image.state == if trial then Trial else Confirmed
  }

  // The commits that select makes keep the cell safe.
  lemma CommitSafe(l: Layout, executing: nat, j: Journal, d: Device, snapshot: Snapshot, start: nat, o: Outcome,
                   script: seq<Event>, s: Snapshot) returns (s1: Snapshot, t1: Snapshot)
    requires Ready(l) && Ok?(l, j) && j.status != Busy && d.op.NoOp? && Holds(l, d.mem, s) && Safe(l, d.mem, s)
    requires Safe(l, d.mem, snapshot)
    ensures var r := Commit(l, executing, j, d, snapshot, 0, false, start, o, script);
            && Cell(l, r.d, s1, t1) && Safe(l, r.d.mem, s1) && Safe(l, r.d.mem, t1)
            && SameSlots(l, d.mem, r.d.mem) && OffSlots(l, r.d.op)
            && (s1 == s || s1 == t1) && (t1 == s || t1 == snapshot.(sequence := t1.sequence))
            && (r.status == Ok ==> Accepts(s, snapshot) && s1 == t1 && t1 == JournalCommit.Next(s, snapshot)
                                   && r.d.op.NoOp? && Fits(l, r.d.mem) && Holds(l, r.d.mem, s1) && r.j.status != Busy)
  {
    hide Fits, Valid, Records, Holds, Cell, Ready, OffSlots, SameSlots, Commit, Safe;
    HoldsFits(l, d.mem, s);
    s1 := CommitCell(l, executing, j, d, snapshot, 0, false, start, o, script, s);
    var r := Commit(l, executing, j, d, snapshot, 0, false, start, o, script);
    SafeSame(l, d.mem, r.d.mem, s);
    if Accepts(s, snapshot) {
      t1 := JournalCommit.Next(s, snapshot);
      SafeSequence(l, d.mem, snapshot, t1);
      SafeSame(l, d.mem, r.d.mem, t1);
      CellValid(l, r.d, s1, t1);
    } else {
      t1 := s;
    }
  }

  lemma SafeSequence(l: Layout, mem: seq<int>, s: Snapshot, t: Snapshot)
    requires Safe(l, mem, s) && t == s.(sequence := t.sequence) && t.sequence > 0
    ensures Safe(l, mem, t)
  {
    hide Intact;
  }

  lemma RejectSafe(l: Layout, mem: seq<int>, s: Snapshot)
    requires Safe(l, mem, s)
    ensures Safe(l, mem, RejectTrials(s)) && RejectTrials(s).a.state != Trial && RejectTrials(s).b.state != Trial
    ensures RejectTrials(s).counter == s.counter && RejectTrials(s).sequence == s.sequence
  {
    hide Intact;
    SafeWeakened(l, mem, s, RejectTrials(s));
  }

  lemma TrySafe(l: Layout, executing: nat, j: Journal, d: Device, s: Snapshot, slot: nat, start: nat,
                script: seq<Event>)
    returns (s1: Snapshot, t1: Snapshot)
    requires Ready(l) && Ok?(l, j) && j.status != Busy && d.op.NoOp? && Fits(l, d.mem) && Holds(l, d.mem, s)
      && Safe(l, d.mem, s)
    requires slot < 2 && Bootable(s.Slot(slot).state) && Intact(l, d.mem, slot, s.Slot(slot))
      && s.Slot(1 - slot).state != Trial
    requires s.Slot(slot).state == Pending ==> s.Slot(1 - slot).state == Confirmed
    ensures var r := Try(l, executing, j, d, s, slot, start, script);
            && Cell(l, r.d, s1, t1) && Safe(l, r.d.mem, s1) && Safe(l, r.d.mem, t1)
            && SameSlots(l, d.mem, r.d.mem) && OffSlots(l, r.d.op) && Fades(s, s1) && Fades(s, t1)
            && (r.stage == Trying || r.stage == Selected)
            && (r.stage == Selected ==>
                  && r.selection.status == Ok && r.d.op.NoOp? && s1 == t1 && Holds(l, r.d.mem, s1)
                  && Booted(s1, r.selection.slot, r.selection.trial, r.selection.image)
                  && Intact(l, r.d.mem, r.selection.slot, r.selection.image) && r.j.status != Busy
                  && (r.selection.trial ==>
                      s.Slot(slot).state == Pending && s1 == WithState(s, slot, Trial).(sequence := s1.sequence))
                  && (!r.selection.trial ==> s1 == s))
  {
    hide Fits, Valid, Records, Holds, Cell, Ready, OffSlots, SameSlots, Commit, Intact, Ok?, Committable;
    HoldsFits(l, d.mem, s);
    IdleCell(l, d, s, s);
    IdleOffSlots(l, d);
    TornSlotsIdle(l, d);
    if s.Slot(slot).state != Pending {
      s1, t1 := s, s;
    } else {
      var tried := WithState(s, slot, Trial);
      CommittableSequence(s);
      SafeWeakened(l, d.mem, s, tried);
      s1, t1 := CommitSafe(l, executing, j, d, tried, start, Running, script, s);
      var r := Commit(l, executing, j, d, tried, 0, false, start, Running, script);
      if r.status == Ok {
        IntactState(l, d.mem, slot, s.Slot(slot), Trial);
        SlotSame(l, d.mem, r.d.mem, slot);
        IntactSame(l, d.mem, r.d.mem, slot, tried.Slot(slot));
      }
    }
  }

  lemma CommittableSequence(s: Snapshot)
    requires Committable(s)
    ensures s.sequence > 0
  {}

  lemma SlotSame(l: Layout, mem: seq<int>, after: seq<int>, slot: nat)
    requires SameSlots(l, mem, after) && slot < 2
    ensures Fits(l, after) && Slot(l, after, slot) == Slot(l, mem, slot)
  {}

  lemma PickSafe(l: Layout, executing: nat, j: Journal, d: Device, s: Snapshot, start: nat, script: seq<Event>)
    returns (s1: Snapshot, t1: Snapshot)
    requires Ready(l) && Ok?(l, j) && j.status != Busy && d.op.NoOp? && Fits(l, d.mem) && Holds(l, d.mem, s)
      && Safe(l, d.mem, s)
    requires s.a.state != Trial && s.b.state != Trial
    ensures var r := Pick(l, executing, j, d, s, start, script);
            && Cell(l, r.d, s1, t1) && Safe(l, r.d.mem, s1) && Safe(l, r.d.mem, t1)
            && SameSlots(l, d.mem, r.d.mem) && OffSlots(l, r.d.op) && Fades(s, s1) && Fades(s, t1)
            && (r.stage == Trying || r.stage == Selected)
            && (r.stage == Selected ==>
                  && r.selection.status == Ok && r.d.op.NoOp? && s1 == t1 && Holds(l, r.d.mem, s1)
                  && Booted(s1, r.selection.slot, r.selection.trial, r.selection.image)
                  && Intact(l, r.d.mem, r.selection.slot, r.selection.image) && r.j.status != Busy
                  && SelectedFrom(s, s1, r.selection.slot, r.selection.trial))
  {
    hide Fits, Valid, Records, Holds, Cell, Ready, OffSlots, SameSlots, Intact, Ok?, Committable, Choose, Try, Honest;
    ChooseFinds(l, d, s);
    var slot := Choose(l, d, s).0.value;
    s1, t1 := TrySafe(l, executing, j, d, s, slot, start, script);
    TrySlot(l, executing, j, d, s, slot, start, script);
  }

  lemma TrySlot(l: Layout, executing: nat, j: Journal, d: Device, s: Snapshot, slot: nat, start: nat,
                script: seq<Event>)
    requires Ok?(l, j) && Fits(l, d.mem) && slot < 2
    ensures var r := Try(l, executing, j, d, s, slot, start, script);
            r.stage == Selected ==> r.selection.slot == slot
  {
    hide Fits, Ok?, Commit;
  }

  // How a selection changes the durable snapshot.
  predicate SelectedFrom(s: Snapshot, s1: Snapshot, slot: nat, trial: bool) {
    if trial then s.Slot(slot).state == Pending && s1 == WithState(s, slot, Trial).(sequence := s1.sequence)
      else s1 == s
  }

  /** From a safe cell, select keeps the cell safe wherever the power goes, and
      stops short of a verified slot only if one of its journal commits did. */
  lemma SelectSafe(l: Layout, executing: nat, j: Journal, d: Device, start: nat, o: Outcome, script: seq<Event>,
                   s: Snapshot)
    returns (s1: Snapshot, t1: Snapshot)
    requires Ready(l) && Ok?(l, j) && j.status != Busy && d.op.NoOp? && Holds(l, d.mem, s) && Safe(l, d.mem, s)
    ensures var r := Select(l, executing, j, d, start, o, script);
            && Cell(l, r.d, s1, t1) && Safe(l, r.d.mem, s1) && Safe(l, r.d.mem, t1)
            && SameSlots(l, d.mem, r.d.mem) && OffSlots(l, r.d.op) && Fades(s, s1) && Fades(s, t1)
            && (r.stage in {Rejecting, Trying, Selected})
            && (r.stage == Selected ==>
                  && r.selection.status == Ok && r.d.op.NoOp? && s1 == t1 && Holds(l, r.d.mem, s1)
                  && Booted(s1, r.selection.slot, r.selection.trial, r.selection.image)
                  && Intact(l, r.d.mem, r.selection.slot, r.selection.image) && r.j.status != Busy
                  && exists q: Snapshot :: q == RejectTrials(s).(sequence := q.sequence) && SelectedFrom(q, s1,
                        r.selection.slot, r.selection.trial))
  {
    hide Fits, Valid, Records, Holds, Cell, Ready, OffSlots, SameSlots, Intact, Ok?, Commit, Pick, Load, Safe, Torn,
         Booted;
    HoldsFits(l, d.mem, s);
    IdleCell(l, d, s, s);
    IdleTorn(l, d);
    var s0 := LoadSafe(l, j, d, o, s, s);
    var loaded := Load(l, j, d, o);
    LoadedIdle(l, j, loaded);
    RejectSafe(l, d.mem, s);
    var q := RejectTrials(s);
    if q == s {
      s1, t1 := PickSafe(l, executing, loaded.j, d, s, start, script);
      assert q == RejectTrials(s).(sequence := q.sequence);
    } else {
      s1, t1 := CommitSafe(l, executing, loaded.j, d, q, start, Running, script, s);
      var c := Commit(l, executing, loaded.j, d, q, 0, false, start, Running, script);
      if c.status == Ok {
        var m, q1 := c.d.mem, s1;
        s1, t1 := PickSafe(l, executing, c.j, c.d, q1, Restart(start, c.rest), c.rest);
        PickSequence(l, executing, c.j, c.d, q, q1.sequence, Restart(start, c.rest), c.rest);
        SameSlotsChain(l, d.mem, m, Pick(l, executing, c.j, c.d, q, Restart(start, c.rest), c.rest).d.mem);
        assert q1 == RejectTrials(s).(sequence := q1.sequence);
      }
    }
  }

  // The sequence number in a requested snapshot does not matter.
  lemma PlanSequence(l: Layout, executing: nat, j: Journal, mem: seq<int>, latest: Option<nat>, s: Snapshot, k: u64)
    requires Fits(l, mem) && Ok?(l, j) && j.status != Busy
    requires latest.Some? ==> latest.value < 2 * Records(l) && Dec(l, mem, latest.value).Some?
    ensures Plan(l, executing, j, mem, latest, s) == Plan(l, executing, j, mem, latest, s.(sequence := k))
  {
    hide Fits, Valid, Records, Ok?, Place, PlaceRuntime;
  }

  lemma CommitSequence(l: Layout, executing: nat, j: Journal, d: Device, s: Snapshot, start: nat, o: Outcome,
                       script: seq<Event>, k: u64)
    requires Fits(l, d.mem) && Ok?(l, j)
    ensures Commit(l, executing, j, d, s, 0, false, start, o, script) ==
            Commit(l, executing, j, d, s.(sequence := k), 0, false, start, o, script)
  {
    hide Fits, Valid, Records, Plan, Run, ScanTo, Poll;
    if j.status != Busy {
      var loaded := Load(l, j, d, o);
      if loaded.status == Ok {
        FitsSame(l, d.mem, loaded.d.mem);
        PlanSequence(l, executing, loaded.j, loaded.d.mem, Some(loaded.j.latest), s, k);
      }
    }
  }

  lemma PickSequence(l: Layout, executing: nat, j: Journal, d: Device, s: Snapshot, k: u64, start: nat,
                     script: seq<Event>)
    requires Fits(l, d.mem) && Ok?(l, j)
    ensures Pick(l, executing, j, d, s, start, script) == Pick(l, executing, j, d, s.(sequence := k), start, script)
  {
    hide Fits, Valid, Records, Ok?, Commit, VerifyImage;
    CommitSequence(l, executing, j, d, WithState(s, 0, Trial), start, Running, script, k);
    CommitSequence(l, executing, j, d, WithState(s, 1, Trial), start, Running, script, k);
  }

  lemma LoadedIdle(l: Layout, j: Journal, r: Loaded)
    requires Ok?(l, j) && r.j == j.(latest := r.j.latest)
    ensures r.j.status == j.status
  {}
}
