/** Double-buffered asynchronous output (lib/console/output.hpp). */
module Output {
  import opened Bytes

  function Flat(frames: seq<seq<byte>>): seq<byte> {
    if frames == [] then [] else Flat(frames[..|frames| - 1]) + frames[|frames| - 1]
  }

  lemma FlatAppend(frames: seq<seq<byte>>, f: seq<byte>)
    ensures Flat(frames + [f]) == Flat(frames) + f
  {
    assert (frames + [f])[..|frames|] == frames;
  }

  // A transfer handed to the driver: the frames [lo, hi) of those accepted, as the
  // bytes that the driver was given.
  datatype Handed = Handed(lo: nat, hi: nat, bytes: seq<byte>)

  datatype Status = Ok | Full | Failed

  function Spliced(before: seq<byte>, base: nat, text: seq<byte>): seq<byte>
    requires base + |text| <= |before|
  {
    before[..base] + text + before[base + |text|..]
  }

  function Part(s: seq<byte>, at: nat, n: nat): seq<byte>
    requires at + n <= |s|
  {
    s[at..at + n]
  }

  lemma SplicedBehind(before: seq<byte>, lo: nat, n: nat, text: seq<byte>)
    requires lo + n + |text| <= |before|
    ensures |Spliced(before, lo + n, text)| == |before|
    ensures Part(Spliced(before, lo + n, text), lo, n + |text|) == Part(before, lo, n) + text
  {}

  lemma SplicedApart(before: seq<byte>, base: nat, text: seq<byte>, lo: nat, n: nat)
    requires base + |text| <= |before| && lo + n <= |before| && (lo + n <= base || base + |text| <= lo)
    ensures |Spliced(before, base, text)| == |before|
    ensures Part(Spliced(before, base, text), lo, n) == Part(before, lo, n)
  {}

  lemma QueueGrows(accepted: seq<seq<byte>>, first: nat, text: seq<byte>)
    requires first <= |accepted|
    ensures Flat((accepted + [text])[first..]) == Flat(accepted[first..]) + text
  {
    FlatAppend(accepted[first..], text);
    assert (accepted + [text])[first..] == accepted[first..] + [text];
  }

  lemma QueueEmpty(accepted: seq<seq<byte>>)
    ensures Flat(accepted[|accepted|..]) == []
    ensures forall lo :: 0 <= lo <= |accepted| ==> accepted[lo..|accepted|] == accepted[lo..]
  {}

  lemma NothingQueued(s: seq<byte>, at: nat)
    requires at <= |s|
    ensures Part(s, at, 0) == []
  {}

  method CopyTo(storage: array<byte>, base: nat, text: seq<byte>)
    requires base + |text| <= storage.Length
    modifies storage
    ensures storage[..] == Spliced(old(storage[..]), base, text)
  {
    ghost var before := storage[..];
    for i := 0 to |text|
      invariant storage[..] == Spliced(before, base, text[..i])
    {
      storage[base + i] := text[i];
    }
    assert text[..|text|] == text;
  }

  // Every transfer handed over is a run of whole accepted frames, and the runs
  // follow one another in order.
  ghost predicate WholeFrames(handed: seq<Handed>, first: nat, accepted: seq<seq<byte>>) {
    && (forall k :: 0 <= k < |handed| ==>
          handed[k].lo <= handed[k].hi <= first <= |accepted|
            && handed[k].bytes == Flat(accepted[handed[k].lo..handed[k].hi]))
    && (forall j, k :: 0 <= j < k < |handed| ==> handed[j].hi <= handed[k].lo)
  }

  // Accepting another frame keeps what was handed over.
  lemma StillWhole(handed: seq<Handed>, first: nat, accepted: seq<seq<byte>>, text: seq<byte>)
    requires WholeFrames(handed, first, accepted)
    ensures WholeFrames(handed, first, accepted + [text])
  {
    assert forall k :: 0 <= k < |handed| ==>
      (accepted + [text])[handed[k].lo..handed[k].hi] == accepted[handed[k].lo..handed[k].hi];
  }

  class BufferedOutput {
    const capacity: nat
    const frameCapacity: nat
    const storage: array<byte>
    var frame: seq<byte>
    var overflow: bool
    var filling: nat
    var pending: nat
    var active: nat
    var dropped: nat
    var errors: nat
    var sent: nat
    var transfers: nat

    // The frames that flushes accepted, in order; those from `first` on wait in the
    // filling half. The transfers handed over, in order.
    ghost var accepted: seq<seq<byte>>
    ghost var first: nat
    ghost var handed: seq<Handed>

    function Half(half: nat): (r: nat)
      ensures half < 2 ==> r + capacity <= 2 * capacity
    {
      if half == 0 then 0 else capacity
    }

    ghost predicate Valid()
      reads this, storage
    {
      && capacity > 0 && storage.Length == 2 * capacity && filling < 2 && pending <= capacity && active <= capacity
      && |frame| <= frameCapacity && first <= |accepted|
      && Part(storage[..], Half(filling), pending) == Flat(accepted[first..])
      && (active > 0 ==>
            handed != [] && Part(storage[..], Half(1 - filling), active) == handed[|handed| - 1].bytes)
      && WholeFrames(handed, first, accepted)
    }

    constructor (capacity: nat, frameCapacity: nat, storage: array<byte>)
      requires capacity > 0 && storage.Length == 2 * capacity
      ensures Valid() && this.storage == storage && this.capacity == capacity && this.frameCapacity == frameCapacity
      ensures frame == [] && !overflow && pending == 0 && active == 0 && accepted == [] && handed == []
    {
      this.capacity, this.frameCapacity, this.storage := capacity, frameCapacity, storage;
      frame, overflow, filling, pending, active := [], false, 0, 0, 0;
      dropped, errors, sent, transfers := 0, 0, 0, 0;
      accepted, first, handed := [], 0, [];
    }

    // Text joins the frame being collected, or spoils it.
    method Write(text: seq<byte>)
      requires Valid()
      modifies this`frame, this`overflow
      ensures Valid()
      ensures overflow == (old(overflow) || |old(frame)| + |text| > frameCapacity)
      ensures frame == if overflow then old(frame) else old(frame) + text
    {
      if overflow {
        return;
      }
      if |text| > frameCapacity - |frame| {
        overflow := true;
        return;
      }
      frame := frame + text;
    }

    // Hand the filling half to the driver if it is idle; the driver may refuse.
    method Start(accepts: bool) returns (ok: bool)
      requires Valid()
      modifies this`active, this`pending, this`filling, this`errors, this`handed, this`first
      ensures Valid() && first >= old(first)
      ensures old(active) > 0 || old(pending) == 0 ==>
        ok && active == old(active) && pending == old(pending) && filling == old(filling) && handed == old(handed)
          && first == old(first)
        && errors == old(errors)
      ensures old(active) == 0 && old(pending) > 0 && accepts ==>
        ok && active == old(pending) && pending == 0 && filling == 1 - old(filling) && first == |accepted|
          && errors == old(errors)
        && handed == old(handed) + [Handed(old(first), |accepted|, Flat(accepted[old(first)..]))]
      ensures old(active) == 0 && old(pending) > 0 && !accepts ==>
        !ok && active == 0 && pending == 0 && filling == old(filling) && first == |accepted| && handed == old(handed)
        && errors == old(errors) + 1
    {
      if active > 0 || pending == 0 {
        return true;
      }
      if accepts {
        active, pending := pending, 0;
        handed := handed + [Handed(first, |accepted|, Flat(accepted[first..]))];
        first := |accepted|;
        filling := 1 - filling;
        QueueEmpty(accepted);
        NothingQueued(storage[..], Half(filling));
        return true;
      }
      Error();
      return false;
    }

    // Copy a frame behind what waits in the filling half.
    method Append(text: seq<byte>)
      requires Valid() && |text| <= capacity - pending
      modifies this`accepted, this`pending, storage
      ensures Valid() && accepted == old(accepted) + [text] && pending == old(pending) + |text|
      ensures Part(storage[..], Half(1 - filling), capacity) == old(Part(storage[..], Half(1 - filling), capacity))
    {
      hide Part, Spliced, Flat, WholeFrames;
      var base := Half(filling) + pending;
      ghost var before := storage[..];
      CopyTo(storage, base, text);
      SplicedBehind(before, Half(filling), pending, text);
      SplicedApart(before, base, text, Half(1 - filling), capacity);
      SplicedApart(before, base, text, Half(1 - filling), active);
      QueueGrows(accepted, first, text);
      StillWhole(handed, first, accepted, text);
      accepted := accepted + [text];
      pending := pending + |text|;
    }

    /** A frame goes whole into the filling half or is dropped whole; the half that
        the driver owns is not touched. */
    method Flush(accepts: bool) returns (status: Status)
      requires Valid()
      modifies this, storage
      ensures Valid() && frame == [] && !overflow && sent == old(sent) && transfers == old(transfers)
      ensures var dropping := old(overflow) || |old(frame)| > capacity - old(pending);
              && dropped == old(dropped) + (if dropping then 1 else 0) && (status == Full <==> dropping)
              && accepted == (if dropping then old(accepted) else old(accepted) + [old(frame)])
              && (dropping || old(active) > 0 ==> handed == old(handed) && active == old(active))
              && (!dropping && old(active) > 0 ==> pending == old(pending) + |old(frame)| && status == Ok)
              && (!dropping && old(active) == 0 && old(pending) + |old(frame)| > 0 && accepts ==>
                    status == Ok && |handed| == |old(handed)| + 1 && handed[|old(handed)|].hi == |accepted|)
      ensures old(active) > 0 ==>
        filling == old(filling)
        && Part(storage[..], Half(1 - filling), capacity) == old(Part(storage[..], Half(1 - filling), capacity))
    {
      hide Part, Spliced, Flat, WholeFrames;
      var text := frame;
      frame := [];
      var spoiled := overflow;
      overflow := false;
      if spoiled || |text| > capacity - pending {
        dropped := dropped + 1;
        return Full;
      }
      Append(text);
      var ok := Start(accepts);
      status := if ok then Ok else Failed;
    }

    method Complete(accepts: bool)
      requires Valid()
      modifies this
      ensures Valid() && accepted == old(accepted) && frame == old(frame)
      ensures sent == old(sent) + old(active) && transfers == old(transfers) + (if old(active) > 0 then 1 else 0)
      ensures old(active) > 0 && old(pending) > 0 && accepts ==> |handed| == |old(handed)| + 1 && active == old(pending)
      ensures old(active) > 0 && old(pending) == 0 ==> active == 0 && handed == old(handed)
    {
      if active == 0 {
        return;
      }
      sent := sent + active;
      transfers := transfers + 1;
      active := 0;
      var ok := Start(accepts);
    }

    // A failed transfer: everything queued is forgotten, later frames start afresh.
    method Error()
      requires Valid()
      modifies this`errors, this`pending, this`active, this`first
      ensures Valid() && errors == old(errors) + 1 && pending == 0 && active == 0 && first == |accepted|
    {
      errors := errors + 1;
      pending, active := 0, 0;
      first := |accepted|;
      QueueEmpty(accepted);
      NothingQueued(storage[..], Half(filling));
    }

    method Discard()
      requires Valid()
      modifies this`frame, this`overflow, this`pending, this`active, this`first
      ensures Valid() && frame == [] && !overflow && pending == 0 && active == 0 && first == |accepted|
    {
      frame, overflow := [], false;
      pending, active := 0, 0;
      first := |accepted|;
      QueueEmpty(accepted);
      NothingQueued(storage[..], Half(filling));
    }
  }
}
