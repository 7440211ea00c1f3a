/** Every request and every tick of the update engine keeps the board bootable. */
module EngineSafety {
  import opened Bytes
  import opened Record
  import opened Layouts
  import opened Flash
  import opened JournalSpec
  import opened JournalLoad
  import opened JournalSafety
  import opened JournalRuns
  import opened JournalCommit
  import opened ControlSpec
  import opened ControlSafety
  import opened WriterSafety
  import P = PackageSpec
  import E = EngineSpec

  // Nothing vouches for the content of the slot.
  predicate Quiet(s: Snapshot, slot: nat) { !Claims(s.Slot(slot).state) }

  // The operation in flight is the journal's, or is inside a slot that nothing
  // vouches for.
  ghost predicate DeviceSafe(l: Layout, slot: nat, d: Device, s: Snapshot, t: Snapshot)
    requires Valid(l) && slot < 2
  {
    OffSlots(l, d.op) || (SlotOp(l, d.op, slot) && Quiet(s, slot) && Quiet(t, slot))
  }

  /** The crash invariant of the whole board, for an update into `slot`. */
  ghost predicate Kept(l: Layout, slot: nat, d: Device, s: Snapshot, t: Snapshot) {
    && slot < 2 && Cell(l, d, s, t) && Safe(l, d.mem, s) && Safe(l, d.mem, t) && Valid(l)
    && DeviceSafe(l, slot, d, s, t)
  }

  // ---- Interruption ----

  lemma SlotsDisjoint(l: Layout, op: Op, slot: nat)
    requires Valid(l) && slot < 2 && SlotOp(l, op, slot)
    ensures Disjoint(l.slots[1 - slot], l.slotSize, Start(op), Size(op))
  {}

  lemma SafeQuiet(l: Layout, mem: seq<int>, after: seq<int>, slot: nat, s: Snapshot)
    requires Fits(l, mem) && Fits(l, after) && slot < 2 && Safe(l, mem, s) && Quiet(s, slot)
    requires Slot(l, after, 1 - slot) == Slot(l, mem, 1 - slot)
    ensures Safe(l, after, s)
  {
    hide Fits, Intact, Committable;
    IntactSame(l, mem, after, 1 - slot, s.Slot(1 - slot));
  }

  lemma OtherSlotSame(l: Layout, d: Device, slot: nat, after: seq<int>)
    requires Fits(l, d.mem) && slot < 2 && Torn(l, d, after) && SlotOp(l, d.op, slot)
    ensures Fits(l, after) && Slot(l, after, 1 - slot) == Slot(l, d.mem, 1 - slot)
  {
    SlotsDisjoint(l, d.op, slot);
    FitsSame(l, d.mem, after);
    SlotInside(l, d.mem, 1 - slot);
    hide Fits, Valid, SlotOp, ErasureEvident;
    SameSlice(d.mem, after, Start(d.op), Size(d.op), l.slots[1 - slot], l.slotSize);
  }

  lemma SafeTorn(l: Layout, slot: nat, d: Device, s: Snapshot, after: seq<int>)
    requires Fits(l, d.mem) && slot < 2 && Safe(l, d.mem, s) && Torn(l, d, after)
    requires OffSlots(l, d.op) || (SlotOp(l, d.op, slot) && Quiet(s, slot))
    ensures Safe(l, after, s)
  {
    hide Fits, Valid, Safe, OffSlots, SlotOp, Torn, SameSlots;
    FitsValid(l, d.mem);
    if OffSlots(l, d.op) {
      TornSlots(l, d, after);
      SafeSame(l, d.mem, after, s);
    } else {
      OtherSlotSame(l, d, slot, after);
      SafeQuiet(l, d.mem, after, slot, s);
    }
  }

  /** Whatever an interruption leaves, a durable snapshot is safe with it. */
  lemma TornKept(l: Layout, slot: nat, d: Device, s: Snapshot, t: Snapshot, after: seq<int>) returns (s1: Snapshot)
    requires Ready(l) && Kept(l, slot, d, s, t) && Torn(l, d, after)
    ensures (s1 == s || s1 == t) && Holds(l, after, s1) && Safe(l, after, s1)
  {
    hide Fits, Valid, Safe, OffSlots, SlotOp, Torn, Cell, Holds, Ready;
    CellValid(l, d, s, t);
    TornCell(l, d, s, t, after);
    s1 := if Holds(l, after, s) then s else t;
    SafeTorn(l, slot, d, s1, after);
  }

  lemma IdleKept(l: Layout, slot: nat, d: Device, s: Snapshot, t: Snapshot)
    requires Holds(l, d.mem, s) && d.op.NoOp? && slot < 2 && Safe(l, d.mem, s) && Safe(l, d.mem, t)
    ensures Kept(l, slot, d, s, t)
  {
    hide Fits, Valid, Safe, Cell, Holds;
    HoldsFits(l, d.mem, s);
    IdleCell(l, d, s, t);
    IdleOffSlots(l, d);
  }

  lemma KeptFacts(l: Layout, slot: nat, d: Device, s: Snapshot, t: Snapshot)
    requires Kept(l, slot, d, s, t)
    ensures Fits(l, d.mem) && Valid(l) && slot < 2 && Cell(l, d, s, t) && Holds(l, d.mem, s)
    ensures Safe(l, d.mem, s) && Safe(l, d.mem, t) && DeviceSafe(l, slot, d, s, t)
  {}

  lemma PollKept(l: Layout, slot: nat, d: Device, s: Snapshot, t: Snapshot, o: Outcome) returns (s1: Snapshot)
    requires Ready(l) && Kept(l, slot, d, s, t)
    ensures var (d1, status) := Poll(l, d, o);
            && (s1 == s || s1 == t)
            && (if status == Busy then d1 == d && s1 == s
                else
                  d1.op.NoOp? && Holds(l, d1.mem, s1) && Safe(l, d1.mem, s1) && Kept(l, slot, d1, s1, s1)
                  && Fits(l, d1.mem))
  {
    hide Fits, Valid, Safe, DeviceSafe, Torn, Cell, Holds, Ready, Poll;
    KeptFacts(l, slot, d, s, t);
    PollCell(l, d, s, t, o);
    var (d1, status) := Poll(l, d, o);
    s1 := s;
    if status != Busy {
      s1 := TornKept(l, slot, d, s, t, d1.mem);
      IdleKept(l, slot, d1, s1, s1);
      HoldsFits(l, d1.mem, s1);
    }
  }

  // ---- The engine invariant ----

  ghost predicate HeaderOk(l: Layout, h: P.Header, slot: nat) {
    |l.slots| == 2 && P.Suits(h, l, slot) && |h.version.commit| == 41 && h.version.commit[40] == 0
  }

  ghost predicate InSlot(l: Layout, op: Op, slot: nat)
    requires Valid(l) && slot < 2
  {
    op.NoOp? || SlotOp(l, op, slot)
  }

  // No flash work is going on and the destination is vouched for by nothing.
  ghost predicate Settled(g: E.Engine, d: Device, s: Snapshot, t: Snapshot) {
    && d.op.NoOp? && s == t && Quiet(s, E.Destination(g)) && g.writer.status != Busy && g.journal.status != Busy
    && g.header.Some?
  }

  predicate Unverified(g: E.Engine) { g.verifyOffset == 0 && g.verifyCrc == 0 }

  // The running checksum covers exactly the bytes read back so far.
  ghost predicate Verified(l: Layout, mem: seq<int>, slot: nat, offset: nat, crc: int)
    requires Fits(l, mem) && slot < 2
  {
    && offset <= l.slotSize && AllBytes(Cells(l, mem, slot, offset))
    && crc == (if offset == 0 then 0 else l.crc(0, Cells(l, mem, slot, offset)))
  }

  ghost predicate JournalBusy(l: Layout, g: E.Engine, d: Device, s: Snapshot, t: Snapshot)
    requires Valid(l)
  {
    g.journal.status == Busy && g.writer.status != Busy && Inv(l, g.journal, d, s, t) && OffSlots(l, d.op)
  }

  ghost predicate WriterBusy(l: Layout, g: E.Engine, d: Device, s: Snapshot, t: Snapshot)
    requires Valid(l)
  {
    && g.writer.status == Busy && g.journal.status != Busy && s == t && Quiet(s, E.Destination(g))
    && InSlot(l, d.op, E.Destination(g))
  }

  ghost predicate Phase(l: Layout, g: E.Engine, d: Device, s: Snapshot, t: Snapshot)
    requires Fits(l, d.mem) && Valid(l)
  {
    match g.state
    case Disabled | Idle | Done | Failed =>
      && g.writer.status != Busy && g.journal.status != Busy
      && (g.requested ==> d.op.NoOp? && s == t && g.snapshot == s && g.header.Some? && Unverified(g))
    case Invalidating => JournalBusy(l, g, d, s, t) && Quiet(t, E.Destination(g)) && g.header.Some? && Unverified(g)
    case Receiving => Settled(g, d, s, t) && Unverified(g)
    case Writing => WriterBusy(l, g, d, s, t) && g.header.Some? && Unverified(g)
    case Verifying =>
      && Settled(g, d, s, t) && g.verifyOffset < g.header.value.imageSize
      && Verified(l, d.mem, E.Destination(g), g.verifyOffset, g.verifyCrc)
    case Committing => JournalBusy(l, g, d, s, t)
    case Aborting => g.writer.status == Busy || g.journal.status == Busy ==>
      WriterBusy(l, g, d, s, t) || JournalBusy(l, g, d, s, t)
  }

  ghost predicate EngineInv(l: Layout, g: E.Engine, d: Device, s: Snapshot, t: Snapshot) {
    && g.running < 2 && Ok?(l, g.journal) && Kept(l, E.Destination(g), d, s, t)
    && Fits(l, d.mem) && Valid(l) && WriterInv(l, g.writer, d, E.Destination(g))
    && (g.header.Some? ==> HeaderOk(l, g.header.value, E.Destination(g)))
    && (E.Active(g) ==> s.Slot(g.running).state == Confirmed && t.Slot(g.running).state == Confirmed)
    && (g.requested ==> g.state in {E.Disabled, E.Idle, E.Done, E.Failed})
    && Phase(l, g, d, s, t)
  }

  // ---- How the engine changes the durable snapshot ----

  // A slot of t is as in s, or the same image no longer vouched for, or a new pending
  // installation.
  predicate SlotFrom(s: Snapshot, t: Snapshot, slot: nat) {
    || t.Slot(slot) == s.Slot(slot)
    || (Quiet(t, slot) && t.Slot(slot) == s.Slot(slot).(state := t.Slot(slot).state))
    || (t.Slot(slot).state == Pending && s.counter < t.Slot(slot).installation <= t.counter)
  }

  predicate Follows(s: Snapshot, t: Snapshot) {
    t.counter >= s.counter && SlotFrom(s, t, 0) && SlotFrom(s, t, 1)
  }

  // The running slot is never touched.
  predicate Moves(running: nat, s: Snapshot, t: Snapshot, s1: Snapshot, t1: Snapshot) {
    (s1 == s || s1 == t) && (t1 == s1 || t1 == t || (Follows(s1, t1) && t1.Slot(running) == s1.Slot(running)))
  }

  // Withdrawing a slot that is not running keeps the snapshot safe.
  lemma WithdrawSafe(l: Layout, mem: seq<int>, s: Snapshot, slot: nat, sequence: u64)
    requires Safe(l, mem, s) && slot < 2 && s.Slot(1 - slot).state == Confirmed && sequence > 0
    ensures var t := s.With(slot, s.Slot(slot).(state := Incomplete)).(sequence := sequence);
            Safe(l, mem, t) && Quiet(t, slot) && t.Slot(1 - slot) == s.Slot(1 - slot) && Follows(s, t)
  {
    hide Intact, Committable;
    CommittableSequence(s);
    SafeWeakened(l, mem, s, s.With(slot, s.Slot(slot).(state := Incomplete)).(sequence := sequence));
  }
}
