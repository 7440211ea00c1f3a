/** Write-once records emulated in flash, and the serial number kept in them
    (lib/otp/record.cpp, flash.cpp, store.cpp), on values. */
module OtpSpec {
  import opened Bytes
  import opened Record
  import opened Layouts
  import opened Flash

  const BLOCKS: nat := 32
  const CELLS: nat := 256
  const RECORD_BYTES: nat := 64
  const PAYLOAD: nat := 56
  const CLAIM: u32 := 0x3143504f
  const COMMIT: u32 := 0x3144504f
  const LOCK: u32 := 0x314c504f
  const SERIAL: nat := 1
  const UNWRITTEN: nat := 0xffff

  // ---- Records ----

  function Read16(s: seq<byte>, at: nat): nat
    requires at + 2 <= |s|
  {
    Join(s[at], s[at + 1])
  }

  // Everything but the stored checksum, in two pieces.
  function RecordSum(r: seq<byte>): int
    requires |r| == RECORD_BYTES
  {
    Standard32(Standard32(0, r[..4]), r[8..])
  }

  predicate ValidRecord(r: seq<byte>)
    requires |r| == RECORD_BYTES
  {
    && Read16(r, 0) != UNWRITTEN && Read16(r, 2) <= PAYLOAD
    && Read32(r, 4) == RecordSum(r)
    && forall i :: 8 + Read16(r, 2) <= i < RECORD_BYTES ==> r[i] == BLANK
  }

  function PayloadOf(r: seq<byte>): seq<byte>
    requires |r| == RECORD_BYTES
  {
    if Read16(r, 2) > PAYLOAD then [] else r[8..8 + Read16(r, 2)]
  }

  predicate ValidSerial(value: seq<byte>) {
    value != [] && |value| <= PAYLOAD && forall i :: 0 <= i < |value| ==> 0x20 <= value[i] <= 0x7e
  }

  function Ones(n: nat): (s: seq<byte>)
    ensures |s| == n && forall i :: 0 <= i < n ==> s[i] == BLANK
  {
    seq(n, i => 255)
  }

  // The record of a serial number, its checksum filled in last.
  function SerialRecord(value: seq<byte>): (r: seq<byte>)
    ensures |r| == RECORD_BYTES
  {
    if !ValidSerial(value) then Ones(RECORD_BYTES)
    else
      var head: seq<byte> := [1, 0, |value|, 0];
      var tail := value + Ones(PAYLOAD - |value|);
      head + Encode32(Sum32(head, tail)) + tail
  }

  function Sum32(head: seq<byte>, tail: seq<byte>): u32 {
    var sum := Standard32(Standard32(0, head), tail);
    if 0 <= sum < TWO_32 then sum else 0
  }

  // ---- Blocks ----

  // A 16-byte marker: kind, block, tag, and the checksum of those and a body.
  function MarkerHead(kind: u32, block: u32, tag: u32): (r: seq<byte>)
    ensures |r| == 12
  {
    Encode32(kind) + Encode32(block) + Encode32(tag)
  }

  function Marker(kind: u32, block: u32, tag: u32, body: seq<byte>): (r: seq<byte>)
    ensures |r| == 16
  {
    MarkerHead(kind, block, tag) + Encode32(Sum32(MarkerHead(kind, block, tag), body))
  }

  predicate Blank(cells: seq<int>) { forall i :: 0 <= i < |cells| ==> cells[i] == BLANK }

  function Word(cells: seq<int>, i: nat): (r: seq<int>)
    requires |cells| == CELLS && i < 16
    ensures |r| == 16
  {
    cells[16 * i..16 * i + 16]
  }

  function SetWord(cells: seq<int>, i: nat, word: seq<int>): (r: seq<int>)
    requires |cells| == CELLS && i < 16 && |word| == 16
    ensures |r| == CELLS
  {
    cells[..16 * i] + word + cells[16 * i + 16..]
  }

  datatype Storage = Unused | Consumed | Unreadable

  datatype View = View(storage: Storage, record: seq<byte>, locked: bool)

  // Words 0 to 5 hold the claim, the body and the commit; the rest are locks.
  predicate Committed(head: seq<byte>, block: nat)
    requires |head| == 96 && block < BLOCKS
  {
    var kind := Read32(head, 88);
    && head[..16] == Marker(CLAIM, block, 1, []) && kind < UNWRITTEN
    && head[80..96] == Marker(COMMIT, block, kind, head[16..80])
  }

  function CommittedRecord(head: seq<byte>): (r: seq<byte>)
    requires |head| == 96 && Read32(head, 88) < UNWRITTEN
    ensures |r| == RECORD_BYTES
  {
    [Read32(head, 88) % 256, Read32(head, 88) / 256] + head[18..80]
  }

  predicate Locked(cells: seq<int>, block: nat, record: seq<byte>)
    requires |cells| == CELLS && block < BLOCKS && |record| == RECORD_BYTES
  {
    exists i :: 6 <= i < 16 && Word(cells, i) == Marker(LOCK, block, Read32(record, 4), [])
  }

  function Inspect(cells: seq<int>, block: nat, attempted: bool): (v: View)
    requires |cells| == CELLS && block < BLOCKS
    ensures |v.record| == RECORD_BYTES
  {
    if !attempted && Blank(cells) then View(Unused, Ones(RECORD_BYTES), false)
    else if !AllBytes(cells[..96]) then View(Unreadable, Ones(RECORD_BYTES), false)
    else
      var head: seq<byte> := cells[..96];
      if !Committed(head, block) then View(Consumed, Ones(RECORD_BYTES), false)
      else View(Consumed, CommittedRecord(head), Locked(cells, block, CommittedRecord(head)))
  }

  datatype Kind = KUnused | KValid | KInvalid | KUnknown | KUnreadable

  function Classify(v: View): Kind
    requires |v.record| == RECORD_BYTES
  {
    if v.storage == Unreadable then KUnreadable
    else if v.storage == Unused && !v.locked then KUnused
    else if !ValidRecord(v.record) then KInvalid
    else if Read16(v.record, 0) != SERIAL then KUnknown
    else if ValidSerial(PayloadOf(v.record)) then KValid else KInvalid
  }

  // ---- The flash emulation ----

  // What becomes of one program: refused at the start, done, failed or timed out
  // or cut by a power loss with the word left in some state.
  datatype Fate = Denied(status: Status) | Done | Broken(word: seq<int>) | Stuck(word: seq<int>) | Cut(word: seq<int>)

  datatype Otp = Otp(blocks: seq<seq<int>>, attempted: seq<bool>, lockNext: seq<nat>, timedOut: bool, powered: bool,
                     fates: seq<Fate>)

  predicate Shaped(blocks: seq<seq<int>>) {
    |blocks| == BLOCKS && forall b :: 0 <= b < BLOCKS ==> |blocks[b]| == CELLS
  }

  predicate OtpOk(o: Otp) { Shaped(o.blocks) && |o.attempted| == |o.lockNext| == BLOCKS }

  // The device as a reboot finds it.
  function Rebooted(blocks: seq<seq<int>>, fates: seq<Fate>): (o: Otp)
    requires Shaped(blocks)
    ensures OtpOk(o)
  {
    Otp(blocks, seq(BLOCKS, i => false), seq(BLOCKS, i => 0), false, true, fates)
  }

  datatype Wrote = Wrote(o: Otp, status: Status, attempted: bool)

  function Torn(cells: seq<int>, i: nat, word: seq<int>): (r: seq<int>)
    requires |cells| == CELLS && i < 16
    ensures |r| == CELLS
  {
    if |word| == 16 then SetWord(cells, i, word) else cells
  }

  // Program one word and wait for it. Without events the power is gone.
  function Write(o: Otp, block: nat, i: nat, word: seq<int>): (r: Wrote)
    requires OtpOk(o) && block < BLOCKS && i < 16 && |word| == 16
    ensures OtpOk(r.o)
  {
    if !o.powered || o.fates == [] then Wrote(o.(powered := false), NotRunning, false)
    else
      var cells := o.blocks[block];
      var o1 := o.(fates := o.fates[1..]);
      match o.fates[0]
      case Denied(status) => Wrote(o1, if status == Ok then IoError else status, false)
      case Done => Wrote(o1.(blocks := o.blocks[block := SetWord(cells, i, word)],
                             attempted := o.attempted[block := true]), Ok, true)
      case Broken(torn) => Wrote(o1.(blocks := o.blocks[block := Torn(cells, i, torn)],
                                     attempted := o.attempted[block := true]), IoError, true)
      case Stuck(torn) =>
        Wrote(o1.(blocks := o.blocks[block := Torn(cells, i, torn)], attempted := o.attempted[block := true],
                  timedOut := true), Timeout, true)
      case Cut(torn) =>
        Wrote(o1.(blocks := o.blocks[block := Torn(cells, i, torn)], powered := false), NotRunning, true)
  }

  // The body as flash holds it: the type stays erased until the commit.
  function Body(record: seq<byte>): (r: seq<byte>)
    requires |record| == RECORD_BYTES
    ensures |r| == RECORD_BYTES
  {
    [255, 255] + record[2..]
  }

  function BodyWord(body: seq<byte>, k: nat): (r: seq<byte>)
    requires |body| == RECORD_BYTES && k < 4
    ensures |r| == 16
  {
    body[16 * k..16 * k + 16]
  }

  // The body words from the k-th on, leaving erased ones alone, then the commit.
  function WriteBody(o: Otp, block: nat, record: seq<byte>, k: nat): (r: Wrote)
    requires OtpOk(o) && block < BLOCKS && |record| == RECORD_BYTES && k <= 4
    ensures OtpOk(r.o)
    decreases 4 - k
  {
    var body := Body(record);
    if k == 4 then Write(o, block, 5, Marker(COMMIT, block, Read16(record, 0), body)).(attempted := true)
    else if Blank(BodyWord(body, k)) then WriteBody(o, block, record, k + 1)
    else
      var r := Write(o, block, 1 + k, BodyWord(body, k));
      if r.status != Ok then r.(attempted := true) else WriteBody(r.o, block, record, k + 1)
  }

  function Program(o: Otp, block: nat, record: seq<byte>): (r: Wrote)
    requires OtpOk(o) && |record| == RECORD_BYTES
    ensures OtpOk(r.o)
  {
    if o.timedOut then Wrote(o, Timeout, false)
    else if block >= BLOCKS then Wrote(o, InvalidArgument, false)
    else
      var v := Inspect(o.blocks[block], block, o.attempted[block]);
      if v.storage != Unused || v.locked then Wrote(o, Status.Refused, false)
      else
        var r := Write(o, block, 0, Marker(CLAIM, block, 1, []));
        if r.status != Ok then r else WriteBody(r.o, block, record, 0)
  }

  // One past the last lock word that is not readably blank.
  function LockFrom(cells: seq<int>, i: nat): (n: nat)
    requires |cells| == CELLS && 6 <= i <= 16
    ensures 6 <= n <= 16 && (i < 16 ==> n >= 6)
    ensures forall k :: n <= k < i ==> Blank(Word(cells, k))
  {
    if i == 6 then 6
    else if !Blank(Word(cells, i - 1)) then i
    else LockFrom(cells, i - 1)
  }

  function LockBlock(o: Otp, block: nat): (r: (Otp, Status))
    requires OtpOk(o)
    ensures OtpOk(r.0)
  {
    if o.timedOut then (o, Timeout)
    else if block >= BLOCKS then (o, InvalidArgument)
    else
      var v := Inspect(o.blocks[block], block, o.attempted[block]);
      if v.locked then (o, Ok)
      else if v.storage != Consumed || !ValidRecord(v.record) then (o, Status.Refused)
      else
        var free := LockFrom(o.blocks[block], 16);
        var next := if free < o.lockNext[block] then o.lockNext[block] else free;
        if next >= 16 then (o, IoError)
        else
          var r := Write(o, block, next, Marker(LOCK, block, Read32(v.record, 4), []));
          (if r.attempted then r.o.(lockNext := r.o.lockNext[block := next + 1]) else r.o, r.status)
  }

  // ---- The serial store ----

  function KindOf(blocks: seq<seq<int>>, b: nat): Kind
    requires Shaped(blocks) && b < BLOCKS
  {
    Classify(Inspect(blocks[b], b, false))
  }

  // What a scan of the first k blocks after a reboot finds.
  function NextFree(blocks: seq<seq<int>>, k: nat): (n: nat)
    requires Shaped(blocks) && k <= BLOCKS
    ensures n <= k
  {
    if k == 0 then 0 else if KindOf(blocks, k - 1) != KUnused then k else NextFree(blocks, k - 1)
  }

  function SerialBlock(blocks: seq<seq<int>>, k: nat): (r: Option<nat>)
    requires Shaped(blocks) && k <= BLOCKS
    ensures r.Some? ==> r.value < k
  {
    if k == 0 then None else if KindOf(blocks, k - 1) == KValid then Some(k - 1) else SerialBlock(blocks, k - 1)
  }

  // The serial number that a fresh init reports.
  function Serial(blocks: seq<seq<int>>): Option<seq<byte>>
    requires Shaped(blocks)
  {
    var b := SerialBlock(blocks, BLOCKS);
    if b.None? then None else Some(PayloadOf(Inspect(blocks[b.value], b.value, false).record))
  }

  datatype Store = Store(serial: Option<(nat, seq<byte>)>, next: nat, locked: bool)

  predicate StoreOk(s: Store) {
    s.next <= BLOCKS && (s.serial.Some? ==> s.serial.value.0 < BLOCKS && |s.serial.value.1| == RECORD_BYTES)
  }

  function Init(o: Otp): (s: Store)
    requires OtpOk(o)
    ensures StoreOk(s)
  {
    var b := SerialBlock(o.blocks, BLOCKS);
    if b.None? then Store(None, NextFree(o.blocks, BLOCKS), false)
    else
      var v := Inspect(o.blocks[b.value], b.value, false);
      Store(Some((b.value, v.record)), NextFree(o.blocks, BLOCKS), v.locked)
  }

  datatype Set = Set(s: Store, o: Otp, status: Status)

  function StoreLock(s: Store, o: Otp, block: nat): (r: Set)
    requires OtpOk(o) && StoreOk(s)
    ensures OtpOk(r.o) && StoreOk(r.s)
  {
    var (o1, status) := LockBlock(o, block);
    var locked := !o1.timedOut && block < BLOCKS && Inspect(o1.blocks[block], block, o1.attempted[block]).locked;
    var s1 := s.(locked := locked);
    if status != Ok then Set(s1, o1, status)
    else if !locked then Set(s1, o1, if o1.timedOut then Timeout else IoError)
    else Set(s1, o1, Ok)
  }

  function SetSerial(s: Store, o: Otp, value: seq<byte>): (r: Set)
    requires OtpOk(o) && StoreOk(s)
    ensures OtpOk(r.o) && StoreOk(r.s)
  {
    if !ValidSerial(value) then Set(s, o, InvalidArgument)
    else if s.serial.Some? && PayloadOf(s.serial.value.1) == value then
      if s.locked then Set(s, o, Ok) else StoreLock(s, o, s.serial.value.0)
    else if s.next == BLOCKS then Set(s, o, Full)
    else
      var proposed := SerialRecord(value);
      var w := Program(o, s.next, proposed);
      var s1 := if w.attempted || w.status == Ok then s.(next := s.next + 1) else s;
      if w.status != Ok then Set(s1, w.o, w.status)
      else if w.o.timedOut then Set(s1, w.o, Timeout)
      else
        var v := Inspect(w.o.blocks[s.next], s.next, w.o.attempted[s.next]);
        if v.storage == Unreadable then Set(s1, w.o, IoError)
        else if Classify(v) != KValid || v.record != proposed then Set(s1, w.o, ChecksumError)
        else StoreLock(s1.(serial := Some((s.next, v.record)), locked := v.locked), w.o, s.next)
  }
}
