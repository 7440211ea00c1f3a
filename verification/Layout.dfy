/** Flash geometry (lib/boot/flash.h, Layout::valid of lib/boot/journal.cpp). */
module Layouts {
  import opened Bytes
  import opened Record
  import opened Formats
  import Crc32

  // A checksum service: update(value, bytes), with zero as the initial value.
  type Crc = (int, seq<int>) -> int

  // Updating in pieces equals updating on the concatenation.
  ghost predicate Splits(crc: Crc) {
    forall v, a, b :: AllBytes(a) && AllBytes(b) && 0 <= v < TWO_32 ==>
      0 <= crc(v, a) < TWO_32 && crc(crc(v, a), b) == crc(v, a + b)
  }

  function Standard32(v: int, bytes: seq<int>): int {
    if 0 <= v < TWO_32 && AllBytes(bytes) then Crc32.Update(v as bv32, Crc32.Bits(bytes)) as int else 0
  }

  lemma BitsConcat(a: seq<byte>, b: seq<byte>)
    ensures Crc32.Bits(a + b) == Crc32.Bits(a) + Crc32.Bits(b)
  {}

  lemma NumberRoundTrip(x: bv32)
    ensures (x as int) as bv32 == x && 0 <= x as int < TWO_32
  {}

  /** The checksum of lib/util/crc32.h, as a number, can be computed in pieces. */
  lemma StandardSplits()
    ensures Splits(Standard32)
  {
    hide Crc32.Update, Crc32.Bits;
    forall v, a, b | AllBytes(a) && AllBytes(b) && 0 <= v < TWO_32
      ensures 0 <= Standard32(v, a) < TWO_32 && Standard32(Standard32(v, a), b) == Standard32(v, a + b)
    {
      BitsConcat(a, b);
      Crc32.UpdateSplit(v as bv32, Crc32.Bits(a), Crc32.Bits(b));
      NumberRoundTrip(Crc32.Update(v as bv32, Crc32.Bits(a)));
    }
  }

  // format is the journal record format that the write size selects; Standard in
  // Formats is the one the source uses. crc is the borrowed checksum service.
  datatype Layout = Layout(slots: seq<u32>, metadata: seq<u32>, slotSize: u32, sectorSize: u32,
                           writeSize: u32, product: u32, revision: u32, operationTimeout: nat,
                           format: Format, crc: Crc)

  predicate Disjoint(a: int, n: int, b: int, m: int) {
    a + n <= b || b + m <= a
  }

  // Two slots and two metadata sectors, as (start, length).
  function Regions(l: Layout): (r: seq<(int, int)>)
    requires |l.slots| == |l.metadata| == 2
    ensures |r| == 4
  {
    [(l.slots[0], l.slotSize), (l.slots[1], l.slotSize),
     (l.metadata[0], l.sectorSize), (l.metadata[1], l.sectorSize)]
  }

  predicate Valid(l: Layout) {
    && |l.slots| == |l.metadata| == 2
    && l.slotSize != 0 && l.sectorSize != 0 && l.operationTimeout != 0
    && l.sectorSize % RECORD == 0 && (l.writeSize == 16 || l.writeSize == 32)
    && SectorAligned(l)
    && l.product != 0 && l.revision != 0
    && l.slots[0] + l.slotSize <= TWO_32 && l.slots[1] + l.slotSize <= TWO_32
    && l.metadata[0] + l.sectorSize <= TWO_32 && l.metadata[1] + l.sectorSize <= TWO_32
    && Disjoint(l.slots[1], l.slotSize, l.slots[0], l.slotSize)
    && Disjoint(l.metadata[0], l.sectorSize, l.slots[0], l.slotSize)
    && Disjoint(l.metadata[0], l.sectorSize, l.slots[1], l.slotSize)
    && Disjoint(l.metadata[1], l.sectorSize, l.slots[0], l.slotSize)
    && Disjoint(l.metadata[1], l.sectorSize, l.slots[1], l.slotSize)
    && Disjoint(l.metadata[1], l.sectorSize, l.metadata[0], l.sectorSize)
  }

  // No journal sector ends at the last 32-bit address.
  predicate Searchable(l: Layout) {
    |l.metadata| == 2 && l.metadata[0] + l.sectorSize < TWO_32 && l.metadata[1] + l.sectorSize < TWO_32
  }

  predicate SectorAligned(l: Layout)
    requires |l.slots| == |l.metadata| == 2 && l.sectorSize != 0
  {
    && l.slotSize % l.sectorSize == 0
    && l.slots[0] % l.sectorSize == 0 && l.slots[1] % l.sectorSize == 0
    && l.metadata[0] % l.sectorSize == 0 && l.metadata[1] % l.sectorSize == 0
  }

  method CheckValid(l: Layout) returns (ok: bool)
    requires |l.slots| == |l.metadata| == 2
    ensures ok == Valid(l)
  {
    if l.slotSize == 0 || l.sectorSize == 0 || l.operationTimeout == 0 || l.sectorSize % RECORD != 0
       || (l.writeSize != 16 && l.writeSize != 32) || l.slotSize % l.sectorSize != 0
       || l.product == 0 || l.revision == 0
    {
      return false;
    }
    for i := 0 to 2
      invariant forall k :: 0 <= k < i ==> l.slots[k] % l.sectorSize == 0 && l.metadata[k] % l.sectorSize == 0
    {
      if l.slots[i] % l.sectorSize != 0 || l.metadata[i] % l.sectorSize != 0 {
        return false;
      }
    }
    var regions := Regions(l);
    for i := 0 to 4
      invariant forall k :: 0 <= k < i ==> regions[k].0 + regions[k].1 <= TWO_32
      invariant forall k, j :: 0 <= j < k < i ==>
        Disjoint(regions[k].0, regions[k].1, regions[j].0, regions[j].1)
    {
      if regions[i].0 + regions[i].1 > TWO_32 {
        return false;
      }
      for j := 0 to i
        invariant forall k :: 0 <= k < j ==>
          Disjoint(regions[i].0, regions[i].1, regions[k].0, regions[k].1)
      {
        if regions[i].0 < regions[j].0 + regions[j].1 && regions[j].0 < regions[i].0 + regions[i].1 {
          return false;
        }
      }
    }
    assert regions[0].0 + regions[0].1 <= TWO_32 && regions[1].0 + regions[1].1 <= TWO_32;
    assert regions[2].0 + regions[2].1 <= TWO_32 && regions[3].0 + regions[3].1 <= TWO_32;
    assert Disjoint(regions[1].0, regions[1].1, regions[0].0, regions[0].1);
    return true;
  }

  // ---- Journal records inside the two metadata sectors ----

  function Records(l: Layout): nat { l.sectorSize / RECORD }

  // Record n: the first Records(l) lie in metadata sector 0, the rest in 1.
  function At(l: Layout, n: nat): nat
    requires |l.metadata| == 2 && n < 2 * Records(l)
  {
    if n < Records(l) then l.metadata[0] + RECORD * n
    else l.metadata[1] + RECORD * (n - Records(l))
  }

  function Bank(l: Layout, n: nat): nat {
    if n < Records(l) then 0 else 1
  }

  function Dec(l: Layout, mem: seq<int>, n: nat): Option<Snapshot>
    requires Fits(l, mem) && n < 2 * Records(l)
  {
    l.format.decode(Rec(l, mem, n))
  }

  // A chip image large enough for every region of the layout.
  predicate Fits(l: Layout, mem: seq<int>) {
    && Valid(l)
    && l.slots[0] + l.slotSize <= |mem| && l.slots[1] + l.slotSize <= |mem|
    && l.metadata[0] + l.sectorSize <= |mem| && l.metadata[1] + l.sectorSize <= |mem|
  }

  lemma FitsValid(l: Layout, mem: seq<int>)
    requires Fits(l, mem)
    ensures Valid(l)
  {}

  lemma FitsSame(l: Layout, mem: seq<int>, after: seq<int>)
    requires Fits(l, mem) && |after| == |mem|
    ensures Fits(l, after)
  {}

  lemma SlotInside(l: Layout, mem: seq<int>, slot: nat)
    requires Fits(l, mem) && slot < 2
    ensures |l.slots| == 2 && l.slots[slot] + l.slotSize <= |mem|
  {}

  function Rec(l: Layout, mem: seq<int>, n: nat): seq<int>
    requires Fits(l, mem) && n < 2 * Records(l)
    ensures |Rec(l, mem, n)| == RECORD
  {
    RecordsFit(l, mem, n);
    mem[At(l, n)..At(l, n) + RECORD]
  }

  function Slot(l: Layout, mem: seq<int>, s: nat): seq<int>
    requires Fits(l, mem) && s < 2
    ensures |Slot(l, mem, s)| == l.slotSize
  {
    mem[l.slots[s]..l.slots[s] + l.slotSize]
  }

  lemma RecordsFit(l: Layout, mem: seq<int>, n: nat)
    requires Fits(l, mem) && n < 2 * Records(l)
    ensures l.metadata[Bank(l, n)] <= At(l, n)
    ensures At(l, n) + RECORD <= l.metadata[Bank(l, n)] + l.sectorSize <= |mem|
  {
  }

  // Distinct records do not overlap, and no record overlaps a slot.
  lemma RecordsApart(l: Layout, m: nat, n: nat)
    requires Valid(l) && m < 2 * Records(l) && n < 2 * Records(l) && m != n
    ensures Disjoint(At(l, m), RECORD, At(l, n), RECORD)
  {
  }

  lemma SlotsApart(l: Layout, n: nat, s: nat)
    requires Valid(l) && n < 2 * Records(l) && s < 2
    ensures Disjoint(l.slots[s], l.slotSize, l.metadata[Bank(l, n)], l.sectorSize)
    ensures Disjoint(l.slots[s], l.slotSize, At(l, n), RECORD)
    ensures Disjoint(l.slots[0], l.slotSize, l.slots[1], l.slotSize)
  {
  }

  lemma BanksApart(l: Layout, n: nat, b: nat)
    requires Valid(l) && n < 2 * Records(l) && b < 2 && b != Bank(l, n)
    ensures Disjoint(l.metadata[b], l.sectorSize, At(l, n), RECORD)
  {
  }
}
