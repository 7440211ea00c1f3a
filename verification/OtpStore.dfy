/** Serial updates are atomic, whatever happens to any of their writes. */
module OtpStore {
  import opened Bytes
  import R = Record
  import opened Flash
  import opened OtpSpec
  import opened OtpSafety

  // Only block b changed, and there only cells that were blank: nothing is erased
  // and no written word is programmed again.
  ghost predicate Appended(before: seq<seq<int>>, after: seq<seq<int>>, b: nat) {
    && Shaped(before) && Shaped(after) && b < BLOCKS && OnlyBlank(before[b], after[b])
    && forall c :: 0 <= c < BLOCKS && c != b ==> after[c] == before[c]
  }

  lemma AppendedSame(blocks: seq<seq<int>>, b: nat)
    requires Shaped(blocks) && b < BLOCKS
    ensures Appended(blocks, blocks, b)
  {}

  lemma AppendedChain(x: seq<seq<int>>, y: seq<seq<int>>, z: seq<seq<int>>, b: nat)
    requires Appended(x, y, b) && Appended(y, z, b)
    ensures Appended(x, z, b)
  {
    OnlyBlankChain(x[b], y[b], z[b]);
  }

  // ---- Writes ----

  lemma WriteEffect(o: Otp, block: nat, i: nat, word: seq<int>)
    requires OtpOk(o) && block < BLOCKS && i < 16 && |word| == 16 && Blank(Word(o.blocks[block], i))
    ensures var r := Write(o, block, i, word);
            && Appended(o.blocks, r.o.blocks, block)
            && (forall k :: 0 <= k < 16 && k != i ==> Word(r.o.blocks[block], k) == Word(o.blocks[block], k))
            && (r.status == Ok ==> Word(r.o.blocks[block], i) == word && r.attempted)
            && (!r.attempted ==> r.o.blocks == o.blocks && r.o.attempted == o.attempted)
            && (forall c :: 0 <= c < BLOCKS && c != block ==> r.o.attempted[c] == o.attempted[c])
            && r.o.lockNext == o.lockNext && (r.status == Ok ==> r.o.timedOut == o.timedOut)
  {
    hide Word, SetWord, Blank;
    var cells := o.blocks[block];
    AppendedSame(o.blocks, block);
    if o.powered && o.fates != [] {
      var changed := match o.fates[0]
        case Denied(_) => word
        case Done => word
        case Broken(torn) => torn
        case Stuck(torn) => torn
        case Cut(torn) => torn;
      if |changed| == 16 {
        BlankWordSet(cells, i, changed);
        forall k | 0 <= k < 16
          ensures Word(SetWord(cells, i, changed), k) == if k == i then changed else Word(cells, k)
        {
          WordSet(cells, i, changed, k);
        }
      }
    }
  }

  // The block reads as the record, or as no valid one.
  ghost predicate Faithful(cells: seq<int>, block: nat, record: seq<byte>)
    requires |cells| == CELLS && block < BLOCKS
  {
    forall a: bool :: Classify(Inspect(cells, block, a)) == KValid ==> Inspect(cells, block, a).record == record
  }

  ghost predicate Complete(cells: seq<int>, block: nat, record: seq<byte>)
    requires |cells| == CELLS && block < BLOCKS
  {
    forall a: bool :: Inspect(cells, block, a).storage == Consumed && Inspect(cells, block, a).record == record
  }

  lemma NoCommitFaithful(cells: seq<int>, block: nat, record: seq<byte>)
    requires |cells| == CELLS && block < BLOCKS && Blank(Word(cells, 5))
    ensures Faithful(cells, block, record)
  {
    hide Word, Blank, Classify, Inspect;
    NoCommit(cells, block, true);
    NoCommit(cells, block, false);
    forall a: bool ensures Classify(Inspect(cells, block, a)) != KValid {
      NoCommit(cells, block, a);
    }
  }

  lemma TornCommitFaithful(cells: seq<int>, block: nat, record: seq<byte>)
    requires |cells| == CELLS && block < BLOCKS && |record| == RECORD_BYTES && ValidRecord(record)
    requires forall j :: 0 <= j < 4 ==> Word(cells, 1 + j) == BodyWord(Body(record), j)
    ensures Faithful(cells, block, record)
  {
    hide Word, Blank, Classify, Inspect, ValidRecord;
    forall a: bool | Classify(Inspect(cells, block, a)) == KValid ensures Inspect(cells, block, a).record == record {
      TornCommit(cells, block, record, a);
    }
  }

  lemma CompleteFaithful(cells: seq<int>, block: nat, record: seq<byte>)
    requires |cells| == CELLS && block < BLOCKS && |record| == RECORD_BYTES && ValidRecord(record)
    requires Word(cells, 0) == Marker(CLAIM, block, 1, [])
    requires forall j :: 0 <= j < 4 ==> Word(cells, 1 + j) == BodyWord(Body(record), j)
    requires Word(cells, 5) == Marker(COMMIT, block, Read16(record, 0), Body(record))
    ensures Complete(cells, block, record)
  {
    hide Word, Marker, Inspect, ValidRecord;
    forall a: bool ensures Inspect(cells, block, a).storage == Consumed && Inspect(cells, block, a).record == record {
      CompleteBlock(cells, block, record, a);
    }
  }

  lemma BuiltNext(cells: seq<int>, after: seq<int>, block: nat, record: seq<byte>, k: nat)
    requires Built(cells, block, record, k) && k < 4 && |after| == CELLS
    requires Word(after, 1 + k) == BodyWord(Body(record), k)
    requires forall j :: 0 <= j < 16 && j != 1 + k ==> Word(after, j) == Word(cells, j)
    ensures Built(after, block, record, k + 1)
  {
    hide Word, Marker, Blank, BodyWord, Body;
  }

  lemma AllBlankEqual(a: seq<int>, b: seq<int>)
    requires |a| == |b| && Blank(a) && Blank(b)
    ensures a == b
  {}

  lemma CommitWrite(o: Otp, block: nat, record: seq<byte>)
    requires OtpOk(o) && block < BLOCKS && |record| == RECORD_BYTES && ValidRecord(record)
    requires Built(o.blocks[block], block, record, 4)
    ensures var r := Write(o, block, 5, Marker(COMMIT, block, Read16(record, 0), Body(record)));
            && Appended(o.blocks, r.o.blocks, block) && Faithful(r.o.blocks[block], block, record)
            && (r.status == Ok ==> Complete(r.o.blocks[block], block, record) && r.o.timedOut == o.timedOut)
            && (forall c :: 0 <= c < BLOCKS && c != block ==> r.o.attempted[c] == o.attempted[c])
  {
    hide Word, Marker, Blank, Write, ValidRecord, BodyWord, Faithful, Complete;
    var commit := Marker(COMMIT, block, Read16(record, 0), Body(record));
    WriteEffect(o, block, 5, commit);
    var r := Write(o, block, 5, commit);
    TornCommitFaithful(r.o.blocks[block], block, record);
    if r.status == Ok {
      CompleteFaithful(r.o.blocks[block], block, record);
    }
  }

  /** However far the body and the commit get, the block reads as the intended
      record or as no valid record; on success it reads as the record. */
  lemma {:induction false} WriteBodyEffect(o: Otp, block: nat, record: seq<byte>, k: nat)
    requires OtpOk(o) && block < BLOCKS && |record| == RECORD_BYTES && ValidRecord(record)
    requires k <= 4 && Built(o.blocks[block], block, record, k)
    ensures var r := WriteBody(o, block, record, k);
            && Appended(o.blocks, r.o.blocks, block) && Faithful(r.o.blocks[block], block, record)
            && (r.status == Ok ==> Complete(r.o.blocks[block], block, record) && r.o.timedOut == o.timedOut)
            && (forall c :: 0 <= c < BLOCKS && c != block ==> r.o.attempted[c] == o.attempted[c])
    decreases 4 - k
  {
    hide Word, Marker, Blank, Write, ValidRecord, BodyWord, Faithful, Complete, Appended;
    if k == 4 {
      CommitWrite(o, block, record);
    } else {
      var word := BodyWord(Body(record), k);
      assert Blank(Word(o.blocks[block], 1 + k));
      if Blank(word) {
        AllBlankEqual(word, Word(o.blocks[block], 1 + k));
        BuiltNext(o.blocks[block], o.blocks[block], block, record, k);
        WriteBodyEffect(o, block, record, k + 1);
      } else {
        WriteEffect(o, block, 1 + k, word);
        var r := Write(o, block, 1 + k, word);
        if r.status == Ok {
          BuiltNext(o.blocks[block], r.o.blocks[block], block, record, k);
          WriteBodyEffect(r.o, block, record, k + 1);
          AppendedChain(o.blocks, r.o.blocks, WriteBody(r.o, block, record, k + 1).o.blocks, block);
        } else {
          assert Word(r.o.blocks[block], 5) == Word(o.blocks[block], 5);
          NoCommitFaithful(r.o.blocks[block], block, record);
        }
      }
    }
  }

  lemma BlankWords(cells: seq<int>)
    requires |cells| == CELLS && Blank(cells)
    ensures forall k :: 0 <= k < 16 ==> Blank(Word(cells, k))
  {}

  lemma ProgramEffect(o: Otp, block: nat, record: seq<byte>)
    requires OtpOk(o) && block < BLOCKS && |record| == RECORD_BYTES && ValidRecord(record)
    ensures var r := Program(o, block, record);
            && Appended(o.blocks, r.o.blocks, block)
            && (r.o.blocks == o.blocks || (Blank(o.blocks[block]) && Faithful(r.o.blocks[block], block, record)))
            && (r.status == Ok ==>
                Blank(o.blocks[block]) && Complete(r.o.blocks[block], block, record) && !r.o.timedOut)
            && (!r.attempted ==> r.o.blocks == o.blocks && r.o.attempted == o.attempted)
            && (forall c :: 0 <= c < BLOCKS && c != block ==> r.o.attempted[c] == o.attempted[c])
  {
    hide Word, Marker, Write, WriteBody, ValidRecord, Faithful, Complete, Appended, AllBytes;
    AppendedSame(o.blocks, block);
    var v := Inspect(o.blocks[block], block, o.attempted[block]);
    if !o.timedOut && v.storage == Unused && !v.locked {
      BlankWords(o.blocks[block]);
      var claim := Marker(CLAIM, block, 1, []);
      WriteEffect(o, block, 0, claim);
      var w := Write(o, block, 0, claim);
      if w.status == Ok {
        assert Built(w.o.blocks[block], block, record, 0);
        WriteBodyEffect(w.o, block, record, 0);
        AppendedChain(o.blocks, w.o.blocks, WriteBody(w.o, block, record, 0).o.blocks, block);
        BodyAttempted(w.o, block, record, 0);
      } else {
        assert Word(w.o.blocks[block], 5) == Word(o.blocks[block], 5);
        NoCommitFaithful(w.o.blocks[block], block, record);
      }
    }
  }

  lemma {:induction false} BodyAttempted(o: Otp, block: nat, record: seq<byte>, k: nat)
    requires OtpOk(o) && block < BLOCKS && |record| == RECORD_BYTES && k <= 4
    ensures WriteBody(o, block, record, k).attempted
    decreases 4 - k
  {
    hide Write, Marker, Blank;
    if k < 4 {
      BodyAttempted(o, block, record, k + 1);
      BodyAttempted(Write(o, block, 1 + k, BodyWord(Body(record), k)).o, block, record, k + 1);
    }
  }

  // ---- Locking ----

  // Same head, and no change at all in a blank block.
  ghost predicate HeadKept(before: seq<int>, after: seq<int>) {
    |before| == |after| == CELLS && after[..96] == before[..96] && (Blank(before) <==> Blank(after))
  }

  lemma InspectKept(cells: seq<int>, after: seq<int>, block: nat, a: bool)
    requires HeadKept(cells, after) && block < BLOCKS
    ensures var v, w := Inspect(cells, block, a), Inspect(after, block, a);
            v.storage == w.storage && v.record == w.record && Classify(v) == Classify(w)
  {
    hide AllBytes, Committed, ValidRecord, Locked, Blank;
  }

  lemma LockedConsumed(cells: seq<int>, block: nat, a: bool)
    requires |cells| == CELLS && block < BLOCKS && Inspect(cells, block, a).storage == Consumed
    requires ValidRecord(Inspect(cells, block, a).record)
    ensures cells[0] == 0x4f && Inspect(cells, block, a) == Inspect(cells, block, true)
    ensures Inspect(cells, block, a) == Inspect(cells, block, false)
  {
    hide Locked, ValidRecord;
    OnesInvalid();
    var head: seq<byte> := cells[..96];
    assert Committed(head, block);
    MarkerFirst(block, 1, []);
    assert head[0] == head[..16][0];
  }

  /** An attempt to lock a block, torn or not, leaves its record as it was. */
  lemma LockEffect(o: Otp, block: nat)
    requires OtpOk(o)
    ensures var (o1, status) := LockBlock(o, block);
            && Shaped(o1.blocks)
            && (block < BLOCKS ==> Appended(o.blocks, o1.blocks, block) && HeadKept(o.blocks[block], o1.blocks[block]))
            && (block >= BLOCKS ==> o1 == o)
            && (forall c :: 0 <= c < BLOCKS && c != block ==> o1.attempted[c] == o.attempted[c])
  {
    hide Word, Marker, Write, ValidRecord, Appended, Inspect, LockFrom;
    if block < BLOCKS {
      AppendedSame(o.blocks, block);
      var v := Inspect(o.blocks[block], block, o.attempted[block]);
      if !o.timedOut && !v.locked && v.storage == Consumed && ValidRecord(v.record) {
        LockedConsumed(o.blocks[block], block, o.attempted[block]);
        var free := LockFrom(o.blocks[block], 16);
        var next := if free < o.lockNext[block] then o.lockNext[block] else free;
        if next < 16 {
          var word := Marker(LOCK, block, Read32(v.record, 4), []);
          WriteEffect(o, block, next, word);
          var r := Write(o, block, next, word);
          HeadWords(o.blocks[block], r.o.blocks[block]);
          assert r.o.blocks[block][..96][0] == o.blocks[block][..96][0];
        }
      }
    }
  }

  // ---- What a reboot finds ----

  lemma {:induction false} SerialBlockSame(before: seq<seq<int>>, after: seq<seq<int>>, k: nat)
    requires Shaped(before) && Shaped(after) && k <= BLOCKS
    requires forall c :: 0 <= c < k ==> KindOf(after, c) == KindOf(before, c)
    ensures SerialBlock(after, k) == SerialBlock(before, k)
  {
    hide KindOf;
    if k > 0 { SerialBlockSame(before, after, k - 1); }
  }

  lemma {:induction false} SerialBlockBelow(blocks: seq<seq<int>>, b: nat, k: nat)
    requires Shaped(blocks) && b <= k <= BLOCKS && forall c :: b <= c < k ==> KindOf(blocks, c) != KValid
    ensures SerialBlock(blocks, k) == SerialBlock(blocks, b)
  {
    hide KindOf;
    if b < k { SerialBlockBelow(blocks, b, k - 1); }
  }

  lemma BlankUnused(blocks: seq<seq<int>>, b: nat)
    requires Shaped(blocks) && b < BLOCKS && Blank(blocks[b])
    ensures KindOf(blocks, b) == KUnused
  {}

  // Heads decide the serial number.
  lemma SerialKept(before: seq<seq<int>>, after: seq<seq<int>>)
    requires Shaped(before) && Shaped(after) && forall c :: 0 <= c < BLOCKS ==> HeadKept(before[c], after[c])
    ensures Serial(after) == Serial(before) && SerialBlock(after, BLOCKS) == SerialBlock(before, BLOCKS)
  {
    hide HeadKept, Inspect, Classify, SerialBlock;
    forall c | 0 <= c < BLOCKS
      ensures KindOf(after, c) == KindOf(before, c)
        && Inspect(after[c], c, false).record == Inspect(before[c], c, false).record
    {
      InspectKept(before[c], after[c], c, false);
    }
    SerialBlockSame(before, after, BLOCKS);
  }

  /** A block written behind all used ones changes what a reboot finds only by
      reading as the record: then the serial number is the record's. */
  lemma SerialAppended(before: seq<seq<int>>, after: seq<seq<int>>, b: nat, record: seq<byte>)
    requires Appended(before, after, b) && |record| == RECORD_BYTES && Faithful(after[b], b, record)
    requires forall c :: b <= c < BLOCKS ==> Blank(before[c])
    ensures Serial(after) == if KindOf(after, b) == KValid then R.Some(PayloadOf(record)) else Serial(before)
  {
    hide Blank, Inspect, Classify, SerialBlock, OnlyBlank, PayloadOf;
    forall c | 0 <= c < BLOCKS ensures c != b ==> KindOf(after, c) == KindOf(before, c) {}
    forall c | b <= c < BLOCKS ensures KindOf(before, c) == KUnused { BlankUnused(before, c); }
    SerialBlockBelow(before, b, BLOCKS);
    SerialBlockBelow(after, b + 1, BLOCKS);
    SerialBlockSame(before, after, b);
    SerialBlockStep(after, b);
  }

  lemma SerialBlockStep(blocks: seq<seq<int>>, b: nat)
    requires Shaped(blocks) && b < BLOCKS
    ensures SerialBlock(blocks, b + 1) == if KindOf(blocks, b) == KValid then R.Some(b) else SerialBlock(blocks, b)
  {}

  // ---- Sessions ----

  // Every block the store has not used is blank.
  ghost predicate Session(s: Store, o: Otp) {
    && OtpOk(o) && StoreOk(s) && (s.serial.Some? ==> s.serial.value.0 < s.next)
    && forall b :: s.next <= b < BLOCKS ==> Blank(o.blocks[b]) && !o.attempted[b]
  }

  // The cached serial number is the one a reboot would find.
  ghost predicate Current(s: Store, o: Otp)
    requires OtpOk(o) && StoreOk(s)
  {
    Serial(o.blocks) == if s.serial.Some? then R.Some(PayloadOf(s.serial.value.1)) else R.None
  }

  lemma {:induction false} NextFreeUnused(blocks: seq<seq<int>>, k: nat)
    requires Shaped(blocks) && k <= BLOCKS
    ensures forall b :: NextFree(blocks, k) <= b < k ==> KindOf(blocks, b) == KUnused
    ensures SerialBlock(blocks, k).Some? ==> SerialBlock(blocks, k).value < NextFree(blocks, k)
  {
    hide KindOf;
    if k > 0 { NextFreeUnused(blocks, k - 1); }
  }

  lemma UnusedBlank(blocks: seq<seq<int>>, b: nat)
    requires Shaped(blocks) && b < BLOCKS && KindOf(blocks, b) == KUnused
    ensures Blank(blocks[b])
  {
    hide AllBytes, Committed, ValidRecord, Locked;
  }

  /** A fresh init starts a session on what the flash holds. */
  lemma InitSession(blocks: seq<seq<int>>, fates: seq<Fate>)
    requires Shaped(blocks)
    ensures var o := Rebooted(blocks, fates);
            Session(Init(o), o) && Current(Init(o), o)
  {
    hide Inspect, Blank, SerialBlock, NextFree;
    NextFreeUnused(blocks, BLOCKS);
    forall b | NextFree(blocks, BLOCKS) <= b < BLOCKS ensures Blank(blocks[b]) { UnusedBlank(blocks, b); }
  }

  lemma StoreLockEffect(s: Store, o: Otp, block: nat)
    requires Session(s, o) && block < s.next
    ensures var r := StoreLock(s, o, block);
            && Session(r.s, r.o) && Appended(o.blocks, r.o.blocks, block) && Serial(r.o.blocks) == Serial(o.blocks)
            && r.s.serial == s.serial && (Current(s, o) ==> Current(r.s, r.o))
  {
    hide Inspect, LockBlock, Blank, Appended, HeadKept, Serial;
    LockEffect(o, block);
    var (o1, status) := LockBlock(o, block);
    AppendedOthers(o.blocks, o1.blocks, block);
    SerialKept(o.blocks, o1.blocks);
  }

  lemma AppendedOthers(before: seq<seq<int>>, after: seq<seq<int>>, b: nat)
    requires Appended(before, after, b) && HeadKept(before[b], after[b])
    ensures forall c :: 0 <= c < BLOCKS ==> HeadKept(before[c], after[c])
    ensures forall c :: 0 <= c < BLOCKS && c != b ==> after[c] == before[c]
  {}

  lemma CompleteValid(blocks: seq<seq<int>>, b: nat, value: seq<byte>, attempted: bool)
    requires Shaped(blocks) && b < BLOCKS && ValidSerial(value) && Complete(blocks[b], b, SerialRecord(value))
    ensures KindOf(blocks, b) == KValid && Classify(Inspect(blocks[b], b, attempted)) == KValid
    ensures Faithful(blocks[b], b, SerialRecord(value))
  {
    hide Inspect, ValidRecord, SerialRecord, Read16, PayloadOf;
    SerialRoundTrip(value);
  }

  lemma Unwritten(s: Store, o: Otp, w: Wrote, next: nat)
    requires Session(s, o) && OtpOk(w.o) && s.next < BLOCKS && Appended(o.blocks, w.o.blocks, s.next)
    requires forall c :: 0 <= c < BLOCKS && c != s.next ==> w.o.attempted[c] == o.attempted[c]
    requires next == s.next + 1 || (next == s.next && w.o.blocks == o.blocks && w.o.attempted == o.attempted)
    ensures Session(s.(next := next), w.o)
  {
    hide Blank, OnlyBlank;
  }

  /** Crash atomicity: whatever becomes of each write, and wherever the power goes,
      a fresh init afterwards finds the old serial number or the new one; only blank
      cells of one block were written; the session can go on. With a current cache
      an ok result means that the new number is the one found. */
  lemma SetSerialAtomic(s: Store, o: Otp, value: seq<byte>)
    requires Session(s, o)
    ensures var r := SetSerial(s, o, value);
            && Session(r.s, r.o) && (Serial(r.o.blocks) == Serial(o.blocks) || Serial(r.o.blocks) == R.Some(value))
            && (r.o.blocks == o.blocks || exists b :: Appended(o.blocks, r.o.blocks, b))
            && (Current(s, o) ==> (r.status == Ok ==> Serial(r.o.blocks) == R.Some(value))
                                  && (Current(r.s, r.o) || (r.status != Ok && Serial(r.o.blocks) == R.Some(value))))
  {
    hide Inspect, Blank, Appended, Faithful, Complete, Serial, Program, StoreLock, PayloadOf, SerialRecord, Classify,
         ValidSerial;
    if ValidSerial(value) {
      if s.serial.Some? && PayloadOf(s.serial.value.1) == value {
        StoreLockEffect(s, o, s.serial.value.0);
      } else if s.next < BLOCKS {
        NewSerial(s, o, value);
      }
    }
  }

  lemma NewSerial(s: Store, o: Otp, value: seq<byte>)
    requires Session(s, o) && ValidSerial(value) && s.next < BLOCKS
    requires !(s.serial.Some? && PayloadOf(s.serial.value.1) == value)
    ensures var r := SetSerial(s, o, value);
            && Session(r.s, r.o) && (Serial(r.o.blocks) == Serial(o.blocks) || Serial(r.o.blocks) == R.Some(value))
            && Appended(o.blocks, r.o.blocks, s.next)
            && (r.status == Ok ==> Serial(r.o.blocks) == R.Some(value))
            && (Current(s, o) ==> Current(r.s, r.o) || (r.status != Ok && Serial(r.o.blocks) == R.Some(value)))
  {
    hide Inspect, Blank, Appended, Faithful, Complete, Serial, Program, StoreLock, PayloadOf, SerialRecord, Classify,
         ValidRecord;
    SerialRoundTrip(value);
    var proposed := SerialRecord(value);
    ProgramEffect(o, s.next, proposed);
    var w := Program(o, s.next, proposed);
    var s1 := if w.attempted || w.status == Ok then s.(next := s.next + 1) else s;
    Unwritten(s, o, w, s1.next);
    if w.o.blocks != o.blocks {
      SerialAppended(o.blocks, w.o.blocks, s.next, proposed);
    }
    if w.status == Ok {
      VerifiedSerial(s1, o, w, s.next, value);
      var s2 := s1.(serial := R.Some((s.next, proposed)),
                    locked := Inspect(w.o.blocks[s.next], s.next, w.o.attempted[s.next]).locked);
      StoreLockEffect(s2, w.o, s.next);
      AppendedChain(o.blocks, w.o.blocks, StoreLock(s2, w.o, s.next).o.blocks, s.next);
    }
  }

  lemma VerifiedSerial(s: Store, o: Otp, w: Wrote, b: nat, value: seq<byte>)
    requires Session(s, w.o) && s.next == b + 1 && ValidSerial(value) && Appended(o.blocks, w.o.blocks, b)
    requires Complete(w.o.blocks[b], b, SerialRecord(value)) && forall c :: b <= c < BLOCKS ==> Blank(o.blocks[c])
    ensures var v := Inspect(w.o.blocks[b], b, w.o.attempted[b]);
            var s2 := s.(serial := R.Some((b, v.record)), locked := v.locked);
            && v.storage == Consumed && v.record == SerialRecord(value) && Classify(v) == KValid
            && Session(s2, w.o) && Current(s2, w.o) && Serial(w.o.blocks) == R.Some(value)
  {
    hide Inspect, Blank, Appended, Faithful, Complete, Serial, PayloadOf, SerialRecord, Classify, ValidSerial;
    SerialRoundTrip(value);
    CompleteValid(w.o.blocks, b, value, w.o.attempted[b]);
    SerialAppended(o.blocks, w.o.blocks, b, SerialRecord(value));
    CompleteView(w.o.blocks[b], b, SerialRecord(value), w.o.attempted[b]);
  }

  lemma CompleteView(cells: seq<int>, block: nat, record: seq<byte>, a: bool)
    requires |cells| == CELLS && block < BLOCKS && Complete(cells, block, record)
    ensures Inspect(cells, block, a).storage == Consumed && Inspect(cells, block, a).record == record
  {}

  // ---- Whole lives ----

  function SetAll(s: Store, o: Otp, values: seq<seq<byte>>): (r: (Store, Otp))
    requires OtpOk(o) && StoreOk(s)
    ensures StoreOk(r.0) && OtpOk(r.1)
    decreases |values|
  {
    if values == [] then (s, o)
    else
      var r := SetSerial(s, o, values[0]);
      SetAll(r.s, r.o, values[1..])
  }

  // A session from one reboot to the next: its events and the values asked for.
  datatype Boot = Boot(fates: seq<Fate>, values: seq<seq<byte>>)

  function Life(blocks: seq<seq<int>>, boots: seq<Boot>): (r: seq<seq<int>>)
    requires Shaped(blocks)
    ensures Shaped(r)
    decreases |boots|
  {
    if boots == [] then blocks
    else
      var o := Rebooted(blocks, boots[0].fates);
      Life(SetAll(Init(o), o, boots[0].values).1.blocks, boots[1..])
  }

  // Nothing written was ever changed again.
  ghost predicate WriteOnce(before: seq<seq<int>>, after: seq<seq<int>>) {
    Shaped(before) && Shaped(after) && forall b :: 0 <= b < BLOCKS ==> OnlyBlank(before[b], after[b])
  }

  lemma AppendedOnce(x: seq<seq<int>>, y: seq<seq<int>>, b: nat)
    requires Appended(x, y, b)
    ensures WriteOnce(x, y)
  {}

  lemma WriteOnceChain(x: seq<seq<int>>, y: seq<seq<int>>, z: seq<seq<int>>)
    requires WriteOnce(x, y) && WriteOnce(y, z)
    ensures WriteOnce(x, z)
  {
    forall b | 0 <= b < BLOCKS ensures OnlyBlank(x[b], z[b]) { OnlyBlankChain(x[b], y[b], z[b]); }
  }

  // The serial number found after is the one before or one of the values.
  ghost predicate Known(before: seq<seq<int>>, after: seq<seq<int>>, values: seq<seq<byte>>)
    requires Shaped(before) && Shaped(after)
  {
    Serial(after) == Serial(before) || exists i :: 0 <= i < |values| && Serial(after) == R.Some(values[i])
  }

  lemma {:induction false} SetAllKnown(s: Store, o: Otp, values: seq<seq<byte>>)
    requires Session(s, o)
    ensures WriteOnce(o.blocks, SetAll(s, o, values).1.blocks) && Known(o.blocks, SetAll(s, o, values).1.blocks, values)
    decreases |values|
  {
    hide Serial, SetSerial, Appended, OnlyBlank, Session;
    SessionShaped(s, o);
    if values == [] {
      SameOnce(o.blocks);
    } else {
      SetSerialAtomic(s, o, values[0]);
      var r := SetSerial(s, o, values[0]);
      if r.o.blocks == o.blocks {
        SameOnce(o.blocks);
      } else {
        var b :| Appended(o.blocks, r.o.blocks, b);
        AppendedOnce(o.blocks, r.o.blocks, b);
      }
      SetAllKnown(r.s, r.o, values[1..]);
      var after := SetAll(r.s, r.o, values[1..]).1.blocks;
      WriteOnceChain(o.blocks, r.o.blocks, after);
      assert forall i :: 0 <= i < |values[1..]| ==> values[1..][i] == values[i + 1];
    }
  }

  lemma SameOnce(blocks: seq<seq<int>>)
    requires Shaped(blocks)
    ensures WriteOnce(blocks, blocks)
  {}

  lemma SessionShaped(s: Store, o: Otp)
    requires Session(s, o)
    ensures OtpOk(o) && StoreOk(s) && Shaped(o.blocks)
  {}

  function AllValues(boots: seq<Boot>): seq<seq<byte>>
    decreases |boots|
  {
    if boots == [] then [] else boots[0].values + AllValues(boots[1..])
  }

  /** Over any number of sessions, with every kind of write failure and power cuts
      anywhere: no written cell ever changes again, and the serial number found is
      the original one or one that was asked for. */
  lemma {:induction false} LifeSafe(blocks: seq<seq<int>>, boots: seq<Boot>)
    requires Shaped(blocks)
    ensures WriteOnce(blocks, Life(blocks, boots)) && Known(blocks, Life(blocks, boots), AllValues(boots))
    decreases |boots|
  {
    hide Serial, SetAll, OnlyBlank, Session, Init;
    if boots == [] {
      SameOnce(blocks);
    } else {
      var o := Rebooted(blocks, boots[0].fates);
      InitSession(blocks, boots[0].fates);
      var mine := boots[0].values;
      SetAllKnown(Init(o), o, mine);
      var between := SetAll(Init(o), o, mine).1.blocks;
      LifeSafe(between, boots[1..]);
      var after := Life(between, boots[1..]);
      WriteOnceChain(blocks, between, after);
      var rest := AllValues(boots[1..]);
      assert forall i :: 0 <= i < |mine| ==> (mine + rest)[i] == mine[i];
      assert forall i :: 0 <= i < |rest| ==> (mine + rest)[|mine| + i] == rest[i];
    }
  }

  // ---- An ok result and a stale cache ----

  // Every write succeeds except the commit, which lands but is reported failed.
  function LandedFates(block: nat, record: seq<byte>, k: nat): seq<Fate>
    requires block < BLOCKS && |record| == RECORD_BYTES && k <= 4
    decreases 4 - k
  {
    if k == 4 then [Fate.Broken(Marker(COMMIT, block, Read16(record, 0), Body(record)))]
    else (if Blank(BodyWord(Body(record), k)) then [] else [Done]) + LandedFates(block, record, k + 1)
  }

  lemma {:induction false} LandedBody(o: Otp, block: nat, record: seq<byte>, k: nat)
    requires OtpOk(o) && block < BLOCKS && |record| == RECORD_BYTES && ValidRecord(record) && o.powered
    requires k <= 4 && Built(o.blocks[block], block, record, k) && o.fates == LandedFates(block, record, k)
    ensures var r := WriteBody(o, block, record, k);
            r.status == IoError && r.attempted && Complete(r.o.blocks[block], block, record)
    decreases 4 - k
  {
    hide Word, Marker, Blank, ValidRecord, BodyWord, Complete, SetWord;
    var cells := o.blocks[block];
    if k == 4 {
      var commit := Marker(COMMIT, block, Read16(record, 0), Body(record));
      forall i | 0 <= i < 16 ensures Word(SetWord(cells, 5, commit), i) == if i == 5 then commit else Word(cells, i) {
        WordSet(cells, 5, commit, i);
      }
      CompleteFaithful(SetWord(cells, 5, commit), block, record);
    } else {
      var word := BodyWord(Body(record), k);
      if Blank(word) {
        AllBlankEqual(word, Word(cells, 1 + k));
        BuiltNext(cells, cells, block, record, k);
        LandedBody(o, block, record, k + 1);
      } else {
        WriteEffect(o, block, 1 + k, word);
        var r := Write(o, block, 1 + k, word);
        BuiltNext(cells, r.o.blocks[block], block, record, k);
        LandedBody(r.o, block, record, k + 1);
      }
    }
  }

  lemma {:induction false} SerialBlockValid(blocks: seq<seq<int>>, k: nat)
    requires Shaped(blocks) && k <= BLOCKS && SerialBlock(blocks, k).Some?
    ensures KindOf(blocks, SerialBlock(blocks, k).value) == KValid
  {
    hide KindOf;
    if k > 0 && KindOf(blocks, k - 1) != KValid { SerialBlockValid(blocks, k - 1); }
  }

  lemma SerialValid(blocks: seq<seq<int>>)
    requires Shaped(blocks) && Serial(blocks).Some?
    ensures ValidSerial(Serial(blocks).value)
  {
    hide Inspect, SerialBlock, ValidRecord;
    SerialBlockValid(blocks, BLOCKS);
  }

  /** The cache is not always current: when a commit lands but is reported failed,
      asking again for the cached number is answered ok, and yet a reboot finds the
      number whose update failed. */
  lemma StaleCache(s: Store, o: Otp, value: seq<byte>)
    requires Session(s, o) && Current(s, o) && s.serial.Some? && s.locked && s.next < BLOCKS
    requires ValidSerial(value) && value != PayloadOf(s.serial.value.1) && !o.timedOut && o.powered
    requires o.fates == [Done] + LandedFates(s.next, SerialRecord(value), 0)
    ensures var r := SetSerial(s, o, value);
            var again := SetSerial(r.s, r.o, PayloadOf(s.serial.value.1));
            r.status == IoError && again.status == Ok && Serial(again.o.blocks) == R.Some(value)
  {
    hide Blank, Faithful, Complete, Serial, StoreLock, PayloadOf, SerialRecord, Classify, ValidRecord, Word, Marker,
         Appended, ValidSerial, AllBytes;
    SerialValid(o.blocks);
    SerialRoundTrip(value);
    var b, record := s.next, SerialRecord(value);
    var claim := Marker(CLAIM, b, 1, []);
    BlankWords(o.blocks[b]);
    WriteEffect(o, b, 0, claim);
    var w := Write(o, b, 0, claim);
    assert w.o.fates == LandedFates(b, record, 0);
    assert Built(w.o.blocks[b], b, record, 0);
    LandedBody(w.o, b, record, 0);
    ProgramEffect(o, b, record);
    var p := Program(o, b, record);
    CompleteValid(p.o.blocks, b, value, false);
    SerialAppended(o.blocks, p.o.blocks, b, record);
  }

  // A call that failed, used up a block, and left the cached number: snapshot() shows
  // it by fewer blocks remaining and the same serial block.
  predicate Doubtful(s: Store, r: Set) { r.status != Ok && r.s.next > s.next && r.s.serial == s.serial }

  predicate Cached(s: Store, value: seq<byte>)
    requires StoreOk(s)
  {
    s.serial.Some? && PayloadOf(s.serial.value.1) == value
  }

  // A doubtful call whose record is in flash after all.
  predicate Landed(s: Store, r: Set)
    requires OtpOk(r.o)
  {
    Doubtful(s, r) && s.next < BLOCKS && KindOf(r.o.blocks, s.next) == KValid
  }

  /** One call, from any state of a session: the cache is current afterwards exactly if
      the call is no landed doubtful one, and it replaced the cached number or the cache
      was current before. */
  lemma CallTrust(s: Store, o: Otp, value: seq<byte>)
    requires Session(s, o)
    ensures var r := SetSerial(s, o, value);
            && (Current(r.s, r.o) <==> !Landed(s, r) && (r.s.serial != s.serial || Current(s, o)))
            && (Landed(s, r) ==> Serial(r.o.blocks) == R.Some(value) && !Cached(s, value))
  {
    hide Inspect, Blank, Appended, Faithful, Complete, Serial, Program, StoreLock, PayloadOf, SerialRecord, Classify,
         ValidSerial, KindOf;
    if ValidSerial(value) {
      if Cached(s, value) {
        StoreLockEffect(s, o, s.serial.value.0);
        LockKeepsNext(s, o, s.serial.value.0);
      } else if s.next < BLOCKS {
        NewTrust(s, o, value);
      }
    }
  }

  lemma LockKeepsNext(s: Store, o: Otp, block: nat)
    requires OtpOk(o) && StoreOk(s)
    ensures StoreLock(s, o, block).s == s.(locked := StoreLock(s, o, block).s.locked)
  {
    hide LockBlock, Inspect;
  }

  lemma NewTrust(s: Store, o: Otp, value: seq<byte>)
    requires Session(s, o) && ValidSerial(value) && s.next < BLOCKS && !Cached(s, value)
    ensures var r := SetSerial(s, o, value);
            && (Current(r.s, r.o) <==> !Landed(s, r) && (r.s.serial != s.serial || Current(s, o)))
            && (Landed(s, r) ==> Serial(r.o.blocks) == R.Some(value))
  {
    hide Inspect, Blank, Appended, Faithful, Complete, Serial, Program, StoreLock, PayloadOf, SerialRecord, Classify,
         ValidRecord, KindOf;
    SerialRoundTrip(value);
    var proposed := SerialRecord(value);
    ProgramEffect(o, s.next, proposed);
    var w := Program(o, s.next, proposed);
    var s1 := if w.attempted || w.status == Ok then s.(next := s.next + 1) else s;
    Unwritten(s, o, w, s1.next);
    if w.status == Ok {
      VerifiedSerial(s1, o, w, s.next, value);
      var locked := Inspect(w.o.blocks[s.next], s.next, w.o.attempted[s.next]).locked;
      var s2 := s1.(serial := R.Some((s.next, proposed)), locked := locked);
      StoreLockEffect(s2, w.o, s.next);
      LockKeepsNext(s2, w.o, s.next);
    } else if w.o.blocks != o.blocks {
      SerialAppended(o.blocks, w.o.blocks, s.next, proposed);
    } else {
      BlankUnused(o.blocks, s.next);
    }
  }

  // No call of the series is doubtful.
  ghost predicate Trusted(s: Store, o: Otp, values: seq<seq<byte>>)
    requires OtpOk(o) && StoreOk(s)
    decreases |values|
  {
    values != [] ==>
      var r := SetSerial(s, o, values[0]);
      !Doubtful(s, r) && Trusted(r.s, r.o, values[1..])
  }

  // After the calls a landed doubtful one has not been followed by one that replaced
  // the cached number; stale says so of the time before them.
  ghost predicate Stale(s: Store, o: Otp, values: seq<seq<byte>>, stale: bool)
    requires OtpOk(o) && StoreOk(s)
    decreases |values|
  {
    if values == [] then stale
    else
      var r := SetSerial(s, o, values[0]);
      Stale(r.s, r.o, values[1..], Landed(s, r) || (stale && r.s.serial == s.serial))
  }

  lemma {:induction false} StaleExactly(s: Store, o: Otp, values: seq<seq<byte>>, stale: bool)
    requires Session(s, o) && (Current(s, o) <==> !stale)
    ensures var (s1, o1) := SetAll(s, o, values);
            Session(s1, o1) && (Current(s1, o1) <==> !Stale(s, o, values, stale))
    decreases |values|
  {
    hide Session, Current, SetSerial, Serial, Appended, Landed;
    SessionShaped(s, o);
    if values != [] {
      CallTrust(s, o, values[0]);
      SetSerialAtomic(s, o, values[0]);
      var r := SetSerial(s, o, values[0]);
      StaleExactly(r.s, r.o, values[1..], Landed(s, r) || (stale && r.s.serial == s.serial));
    }
  }

  /** Over every session: an ok answer is false, and a reboot finds another number,
      exactly if the cache is stale by the calls before and the number asked for is the
      cached one. */
  lemma OkExactly(blocks: seq<seq<int>>, fates: seq<Fate>, values: seq<seq<byte>>, value: seq<byte>)
    requires Shaped(blocks)
    ensures var o := Rebooted(blocks, fates);
            var (s1, o1) := SetAll(Init(o), o, values);
            var r := SetSerial(s1, o1, value);
            r.status == Ok ==>
              (Serial(r.o.blocks) == R.Some(value) <==> !(Stale(Init(o), o, values, false) && Cached(s1, value)))
  {
    hide Session, SetSerial, Serial, Appended, Stale, SetAll, Init, PayloadOf;
    InitSession(blocks, fates);
    var o := Rebooted(blocks, fates);
    StaleExactly(Init(o), o, values, false);
    var (s1, o1) := SetAll(Init(o), o, values);
    SessionShaped(s1, o1);
    if SetSerial(s1, o1, value).status == Ok {
      if Current(s1, o1) {
        SetSerialAtomic(s1, o1, value);
      } else if Cached(s1, value) {
        CachedUnlocked(s1, o1, value);
      } else {
        NewOk(s1, o1, value);
      }
    }
  }

  lemma {:induction false} TrustedFresh(s: Store, o: Otp, values: seq<seq<byte>>)
    requires OtpOk(o) && StoreOk(s) && Trusted(s, o, values)
    ensures !Stale(s, o, values, false)
    decreases |values|
  {
    hide SetSerial, KindOf;
    if values != [] {
      var r := SetSerial(s, o, values[0]);
      TrustedFresh(r.s, r.o, values[1..]);
    }
  }

  /** In a session without a doubtful call, an ok answer is true: a reboot finds the
      number asked for. */
  lemma OkTrue(blocks: seq<seq<int>>, fates: seq<Fate>, values: seq<seq<byte>>, value: seq<byte>)
    requires Shaped(blocks) && var o := Rebooted(blocks, fates); Trusted(Init(o), o, values)
    ensures var o := Rebooted(blocks, fates);
            var (s1, o1) := SetAll(Init(o), o, values);
            var r := SetSerial(s1, o1, value);
            r.status == Ok ==> Serial(r.o.blocks) == R.Some(value)
  {
    hide SetSerial, Serial, Trusted, SetAll, Init, Stale, Cached;
    var o := Rebooted(blocks, fates);
    TrustedFresh(Init(o), o, values);
    OkExactly(blocks, fates, values, value);
  }

  lemma CachedUnlocked(s: Store, o: Otp, value: seq<byte>)
    requires Session(s, o) && Cached(s, value)
    ensures Serial(SetSerial(s, o, value).o.blocks) == Serial(o.blocks)
  {
    hide Inspect, Blank, Appended, Serial, Program, StoreLock, PayloadOf, SerialRecord, Classify, ValidSerial;
    if ValidSerial(value) { StoreLockEffect(s, o, s.serial.value.0); }
  }

  lemma NewOk(s: Store, o: Otp, value: seq<byte>)
    requires Session(s, o) && !Cached(s, value) && SetSerial(s, o, value).status == Ok
    ensures Serial(SetSerial(s, o, value).o.blocks) == R.Some(value)
  {
    hide Inspect, Blank, Appended, Serial, Program, StoreLock, PayloadOf, SerialRecord, Classify, ValidSerial;
    NewSerial(s, o, value);
  }
}
