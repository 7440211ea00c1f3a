/** The stream parser of lib/update/package.cpp as the object it is: fixed buffers
    filled in place, and patches applied in place. */
module PackageMachine {
  import opened Bytes
  import opened Record
  import opened PackageSpec
  import F = Flash

  // Store a little-endian word.
  method WriteWord(data: array<byte>, at: nat, value: u32)
    requires at + 4 <= data.Length
    modifies data
    ensures data[..] == PutWord(old(data[..]), at, value)
  {
    var bytes := Encode32(value);
    data[at] := bytes[0];
    data[at + 1] := bytes[1];
    data[at + 2] := bytes[2];
    data[at + 3] := bytes[3];
    assert data[..] == old(data[..])[..at] + bytes + old(data[..])[at + 4..];
  }

  // Copy input behind what a buffer holds, up to a limit.
  method Copy(input: seq<byte>, buffer: array<byte>, filled: nat, limit: nat) returns (count: nat)
    requires filled <= limit <= buffer.Length
    modifies buffer
    ensures count == Taken(input, filled, limit) && filled + count <= limit
    ensures buffer[..filled + count] == old(buffer[..filled]) + input[..count]
  {
    count := if |input| <= limit - filled then |input| else limit - filled;
    for i := 0 to count
      invariant buffer[..filled + i] == old(buffer[..filled]) + input[..i]
    {
      buffer[filled + i] := input[i];
      assert buffer[..filled + i + 1] == buffer[..filled + i] + [input[i]];
    }
  }

  lemma PutPrefix(data: seq<byte>, at: nat, value: u32, length: nat)
    requires at + 4 <= length <= |data|
    ensures PutWord(data, at, value)[..length] == PutWord(data[..length], at, value)
  {}

  class PackageReader {
    var state: ReaderState
    var header: Option<Header>
    var destination: nat
    var starting: bool
    var releasing: bool
    var offset: nat
    var length: nat
    var patchCount: nat
    var filled: nat
    var status: F.Status
    const blockHeader: array<byte>
    const patches: array<byte>
    const data: array<byte>

    ghost predicate Buffers() {
      && blockHeader.Length == 12 && patches.Length == 2 * MAX_PATCHES && data.Length == BLOCK
      && blockHeader != patches && patches != data && data != blockHeader
    }

    ghost predicate Valid()
      reads this
    {
      && Buffers()
      && (state in {RPatches, RData, RReady} ==> patchCount <= MAX_PATCHES && length <= BLOCK)
      && (state == RHeader ==> filled < 12) && (state == RPatches ==> filled < 2 * patchCount && length > 0)
      && (state == RData ==> filled < length)
    }

    // The parser as a value: only what the current stage still uses matters.
    ghost predicate Represents(r: Reader)
      reads this, blockHeader, patches, data
    {
      && Valid() && r.state == state && r.header == header && r.destination == destination && r.starting == starting
      && r.releasing == releasing && r.offset == offset && r.status == status
      && (state in {RPatches, RData, RReady} ==> r.length == length && r.patchCount == patchCount)
      && (state == RHeader ==> r.got == blockHeader[..filled])
      && (state == RPatches ==> r.got == patches[..filled])
      && (state == RData ==> r.got == data[..filled] && r.patches == patches[..2 * patchCount])
      && (state == RReady ==> r.data == data[..length])
    }

    constructor ()
      ensures Represents(NO_READER) && fresh(blockHeader) && fresh(patches) && fresh(data)
    {
      state, header, destination, starting, releasing := RIdle, None, 0, false, false;
      offset, length, patchCount, filled, status := 0, 0, 0, 0, F.Ok;
      blockHeader, patches, data := new byte[12], new byte[2 * MAX_PATCHES], new byte[BLOCK];
    }

    method Start(h: Header, slot: nat, ghost r: Reader)
      requires Represents(r)
      modifies this`header, this`destination, this`starting
      ensures Represents(ReaderStart(r, h, slot))
    {
      header := Some(h);
      destination := slot;
      starting := true;
    }

    method Release()
      requires Valid()
      modifies this`releasing
      ensures Valid() && releasing
    {
      releasing := true;
    }

    method Move(at: nat, value: u32)
      requires Buffers() && at + 4 <= length <= BLOCK
      modifies data
      ensures data[..length] == PutWord(old(data[..length]), at, value)
    {
      ghost var before := data[..];
      PutPrefix(before, at, value, length);
      WriteWord(data, at, value);
      assert data[..length] == data[..][..length] && before[..length] == old(data[..length]);
    }

    /** Apply the patches to the block in place. */
    method Apply() returns (ok: bool)
      requires Buffers() && header.Some? && patchCount <= MAX_PATCHES && length <= BLOCK
      modifies data
      ensures var patched := Patch(header.value, destination, patches[..2 * patchCount], patchCount, 0, 0,
                                   old(data[..length]));
              ok == patched.Some? && (ok ==> data[..length] == patched.value)
    {
      hide Read32, PutWord, Relocate;
      var h, codes := header.value, patches[..2 * patchCount];
      ghost var target := Patch(h, destination, codes, patchCount, 0, 0, data[..length]);
      var previous: nat := 0;
      for i := 0 to patchCount
        invariant target == Patch(h, destination, codes, patchCount, i, previous, data[..length])
        modifies data
      {
        var code := Code(codes, i);
        var at := code % 256 * 4;
        if (code / 256) % 128 != 0 || at + 4 > length || (i > 0 && at <= previous) || h.encoding != 0 {
          return false;
        }
        if destination == 1 {
          Move(at, Relocate(h, code, Read32(data[..length], at)));
        }
        previous := at;
      }
      return true;
    }

    // The parser as a value agrees on what the stages do not change.
    ghost predicate Shares(r: Reader)
      reads this
    {
      && Buffers() && r.header == header && r.destination == destination && r.starting == starting
      && r.releasing == releasing
      && r.offset == offset && r.status == status
    }

    // A whole block header is there: go on to its patches or its data, or fail.
    method Interpret(got: seq<byte>, h: Header, ghost r: Reader)
      requires |got| == 12 && Shares(r) && r.state == RHeader && state == RHeader
      modifies this`state, this`length, this`patchCount, this`filled, this`status
      ensures Represents(ParseBlock(r, h, got))
    {
      hide Read32;
      length, patchCount := Read32(got, 4), Read32(got, 8);
      if Read32(got, 0) != offset || offset >= h.imageSize || length != Min(BLOCK, h.imageSize - offset)
        || patchCount > MAX_PATCHES {
        status := F.ParseError;
        state := RFailed;
      } else {
        filled := 0;
        state := if patchCount > 0 then RPatches else RData;
      }
    }

    // The stages that take input.
    method TakeHeader(input: seq<byte>, ghost r: Reader) returns (consumed: nat)
      requires Represents(r) && header.Some? && state == RHeader && !starting
      modifies this`state, this`length, this`patchCount, this`filled, this`status, blockHeader
      ensures Represents(ReaderTick(r, input).0) && consumed == ReaderTick(r, input).1
    {
      hide ParseBlock;
      consumed := Copy(input, blockHeader, filled, 12);
      filled := filled + consumed;
      if filled == 12 {
        assert blockHeader[..12] == r.got + input[..consumed];
        Interpret(blockHeader[..12], header.value, r);
      }
    }

    method TakePatches(input: seq<byte>, ghost r: Reader) returns (consumed: nat)
      requires Represents(r) && header.Some? && state == RPatches && !starting
      modifies this`state, this`filled, patches
      ensures Represents(ReaderTick(r, input).0) && consumed == ReaderTick(r, input).1
    {
      consumed := Copy(input, patches, filled, 2 * patchCount);
      filled := filled + consumed;
      if filled == 2 * patchCount {
        filled := 0;
        state := RData;
      }
    }

    method TakeData(input: seq<byte>, ghost r: Reader) returns (consumed: nat)
      requires Represents(r) && header.Some? && state == RData && !starting
      modifies this`state, this`filled, this`status, data
      ensures Represents(ReaderTick(r, input).0) && consumed == ReaderTick(r, input).1
    {
      hide Patch;
      consumed := Copy(input, data, filled, length);
      filled := filled + consumed;
      if filled == length {
        var ok := Apply();
        if ok {
          state := RReady;
        } else {
          status := F.ParseError;
          state := RFailed;
        }
      }
    }

    /** One tick of the parser, as the theorems about streams have it. */
    method Tick(input: seq<byte>, ghost r: Reader) returns (consumed: nat)
      requires Represents(r)
      modifies this, blockHeader, patches, data
      ensures Represents(ReaderTick(r, input).0) && consumed == ReaderTick(r, input).1
    {
      hide Read32, Patch;
      consumed := 0;
      if starting {
        starting, releasing := false, false;
        offset, length, patchCount, filled := 0, 0, 0, 0;
        status := F.Ok;
        state := RHeader;
      } else if header.Some? {
        match state {
          case RHeader => consumed := TakeHeader(input, r);
          case RPatches => consumed := TakePatches(input, r);
          case RData => consumed := TakeData(input, r);
          case RReady =>
            if releasing {
              releasing := false;
              offset := offset + length;
              filled := 0;
              state := if offset == header.value.imageSize then RDone else RHeader;
            }
          case RIdle | RDone | RFailed =>
        }
      }
    }
  }
}
