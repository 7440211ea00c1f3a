/** The write-once emulation and the serial store as the objects they are. */
module OtpMachine {
  import opened Bytes
  import R = Record
  import opened Flash
  import O = OtpSpec

  lemma Sized(o: O.Otp, block: nat)
    requires O.OtpOk(o) && block < O.BLOCKS
    ensures |o.blocks| == O.BLOCKS && |o.blocks[block]| == O.CELLS
  {}

  // The first lock word behind all that are not readably blank.
  method FindLock(cells: seq<int>) returns (next: nat)
    requires |cells| == O.CELLS
    ensures next == O.LockFrom(cells, 16)
  {
    hide O.Blank, O.Word;
    next := 6;
    for i := 6 to 16
      invariant next == O.LockFrom(cells, i)
    {
      if !O.Blank(O.Word(cells, i)) {
        next := i + 1;
      }
    }
  }

  // The scan of init() over a rebooted device.
  method ScanBlocks(blocks: seq<seq<int>>) returns (serial: R.Option<(nat, seq<byte>)>, next: nat, locked: bool)
    requires O.Shaped(blocks)
    ensures next == O.NextFree(blocks, O.BLOCKS)
    ensures var b := O.SerialBlock(blocks, O.BLOCKS);
            if b.None? then serial == R.None && !locked
            else
              var v := O.Inspect(blocks[b.value], b.value, false);
              serial == R.Some((b.value, v.record)) && locked == v.locked
  {
    hide O.Inspect, O.Classify;
    serial, next, locked := R.None, 0, false;
    for i := 0 to O.BLOCKS
      invariant next == O.NextFree(blocks, i)
      invariant var b := O.SerialBlock(blocks, i);
                if b.None? then serial == R.None && !locked
                else
                  var v := O.Inspect(blocks[b.value], b.value, false);
                  serial == R.Some((b.value, v.record)) && locked == v.locked
    {
      var v := O.Inspect(blocks[i], i, false);
      var kind := O.Classify(v);
      if kind != O.KUnused {
        next := i + 1;
      }
      if kind == O.KValid {
        serial, locked := R.Some((i, v.record)), v.locked;
      }
    }
  }

  class FlashOtp {
    var blocks: seq<seq<int>>
    var attempted: seq<bool>
    var lockNext: seq<nat>
    var timedOut: bool
    // The environment: whether there is power, and what becomes of each program.
    var powered: bool
    var fates: seq<O.Fate>

    function Model(): O.Otp
      reads this
    {
      O.Otp(blocks, attempted, lockNext, timedOut, powered, fates)
    }

    ghost predicate Valid()
      reads this
    {
      O.OtpOk(Model())
    }

    constructor (blocks: seq<seq<int>>, fates: seq<O.Fate>)
      requires O.Shaped(blocks)
      ensures Valid() && Model() == O.Rebooted(blocks, fates)
    {
      this.blocks, this.fates := blocks, fates;
      attempted, lockNext := seq(O.BLOCKS, i => false), seq(O.BLOCKS, i => 0);
      timedOut, powered := false, true;
    }

    // Program one word and wait until it has finished, failed or timed out.
    method Write(block: nat, i: nat, word: seq<int>) returns (status: Status, tried: bool)
      requires Valid() && block < O.BLOCKS && i < 16 && |word| == 16
      modifies this
      ensures Valid() && O.Wrote(Model(), status, tried) == O.Write(old(Model()), block, i, word)
    {
      hide O.SetWord, O.Torn;
      if !powered || fates == [] {
        powered := false;
        return NotRunning, false;
      }
      var fate := fates[0];
      fates := fates[1..];
      match fate {
        case Denied(refusal) =>
          return if refusal == Ok then IoError else refusal, false;
        case Done =>
          blocks := blocks[block := O.SetWord(blocks[block], i, word)];
          attempted := attempted[block := true];
          return Ok, true;
        case Broken(torn) =>
          blocks := blocks[block := O.Torn(blocks[block], i, torn)];
          attempted := attempted[block := true];
          return IoError, true;
        case Stuck(torn) =>
          blocks := blocks[block := O.Torn(blocks[block], i, torn)];
          attempted := attempted[block := true];
          timedOut := true;
          return Timeout, true;
        case Cut(torn) =>
          blocks := blocks[block := O.Torn(blocks[block], i, torn)];
          powered := false;
          return NotRunning, true;
      }
    }

    // Claim, body and commit, leaving erased body words alone.
    method Program(block: nat, record: seq<byte>) returns (status: Status, tried: bool)
      requires Valid() && |record| == O.RECORD_BYTES
      modifies this
      ensures Valid() && O.Wrote(Model(), status, tried) == O.Program(old(Model()), block, record)
    {
      hide O.Inspect, O.Marker, O.Write, O.WriteBody, O.Shaped;
      if timedOut {
        return Timeout, false;
      }
      if block >= O.BLOCKS {
        return InvalidArgument, false;
      }
      var before := Look(block);
      if before.storage != O.Unused || before.locked {
        return Status.Refused, false;
      }
      status, tried := Write(block, 0, O.Marker(O.CLAIM, block, 1, []));
      if status == Ok {
        status := WriteBody(block, record);
        tried := true;
      }
    }

    method WriteBody(block: nat, record: seq<byte>) returns (status: Status)
      requires Valid() && block < O.BLOCKS && |record| == O.RECORD_BYTES
      modifies this
      ensures Valid() && O.Wrote(Model(), status, true) == O.WriteBody(old(Model()), block, record, 0)
    {
      hide O.Inspect, O.Marker, O.Write, O.Shaped, O.Blank;
      var body := O.Body(record);
      for k := 0 to 4
        invariant Valid() && O.WriteBody(Model(), block, record, k) == O.WriteBody(old(Model()), block, record, 0)
      {
        var bytes := O.BodyWord(body, k);
        if !O.Blank(bytes) {
          var tried;
          status, tried := Write(block, 1 + k, bytes);
          if status != Ok {
            return;
          }
        }
      }
      var tried;
      status, tried := Write(block, 5, O.Marker(O.COMMIT, block, O.Read16(record, 0), body));
    }

    // Inspect, for a block in range.
    method Look(block: nat) returns (v: O.View)
      requires Valid() && block < O.BLOCKS
      ensures v == O.Inspect(blocks[block], block, attempted[block])
    {
      v := O.Inspect(blocks[block], block, attempted[block]);
    }

    method Lock(block: nat) returns (status: Status)
      requires Valid()
      modifies this
      ensures Valid() && (Model(), status) == O.LockBlock(old(Model()), block)
    {
      hide O.Inspect, O.Marker, O.Write, O.Shaped, O.ValidRecord, O.Blank;
      if timedOut {
        return Timeout;
      }
      if block >= O.BLOCKS {
        return InvalidArgument;
      }
      var current := Look(block);
      if current.locked {
        return Ok;
      }
      if current.storage != O.Consumed || !O.ValidRecord(current.record) {
        return Status.Refused;
      }
      Sized(Model(), block);
      var next := FindLock(blocks[block]);
      if next < lockNext[block] {
        next := lockNext[block];
      }
      if next >= 16 {
        return IoError;
      }
      var tried;
      status, tried := Write(block, next, O.Marker(O.LOCK, block, Read32(current.record, 4), []));
      if tried {
        lockNext := lockNext[block := next + 1];
      }
    }
  }

  class SerialStore {
    const flash: FlashOtp
    var serial: R.Option<(nat, seq<byte>)>
    var next: nat
    var locked: bool

    function Model(): O.Store
      reads this
    {
      O.Store(serial, next, locked)
    }

    ghost predicate Valid()
      reads this, flash
    {
      flash.Valid() && O.StoreOk(Model())
    }

    /** Scan all blocks of a rebooted device: the last valid record is the serial
        number, and everything behind the last used block is free. */
    constructor (flash: FlashOtp)
      requires flash.Valid()
      ensures Valid() && this.flash == flash && Model() == O.Init(flash.Model())
    {
      this.flash := flash;
      serial, next, locked := R.None, 0, false;
      new;
      hide O.Inspect, O.SerialBlock, O.NextFree;
      serial, next, locked := ScanBlocks(flash.blocks);
    }

    method Lock(block: nat) returns (status: Status)
      requires Valid()
      modifies this`locked, flash
      ensures Valid() && O.Set(Model(), flash.Model(), status) == O.StoreLock(old(Model()), old(flash.Model()), block)
    {
      hide O.Inspect, O.LockBlock, O.Shaped;
      status := flash.Lock(block);
      locked := false;
      if !flash.timedOut && block < O.BLOCKS {
        var v := flash.Look(block);
        locked := v.locked;
      }
      if status == Ok && !locked {
        status := if flash.timedOut then Timeout else IoError;
      }
    }

    /** Change the serial number. */
    method SetSerial(value: seq<byte>) returns (status: Status)
      requires Valid()
      modifies this, flash
      ensures Valid() && O.Set(Model(), flash.Model(), status) == O.SetSerial(old(Model()), old(flash.Model()), value)
    {
      hide O.Inspect, O.Program, O.StoreLock, O.Classify, O.SerialRecord, O.ValidSerial, O.PayloadOf, O.Shaped;
      if !O.ValidSerial(value) {
        return InvalidArgument;
      }
      if serial.Some? && O.PayloadOf(serial.value.1) == value {
        if locked {
          return Ok;
        }
        status := Lock(serial.value.0);
        return;
      }
      if next == O.BLOCKS {
        return Full;
      }
      var proposed := O.SerialRecord(value);
      var index := next;
      var tried;
      status, tried := flash.Program(index, proposed);
      if tried || status == Ok {
        next := next + 1;
      }
      if status != Ok {
        return;
      }
      if flash.timedOut {
        return Timeout;
      }
      var v := flash.Look(index);
      if v.storage == O.Unreadable {
        return IoError;
      }
      if O.Classify(v) != O.KValid || v.record != proposed {
        return ChecksumError;
      }
      serial, locked := R.Some((index, v.record)), v.locked;
      status := Lock(index);
    }
  }
}
