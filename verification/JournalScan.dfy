/** The searches of a journal sector for a blank record in 32-bit addresses, as
    lib/boot/journal.cpp makes them. */
module JournalScan {
  import opened Bytes
  import opened Record
  import opened Layouts
  import opened JournalSpec

  // The k-th address of a search that starts at base, in 32 bits.
  function Visited(base: nat, k: nat): nat { (base + RECORD * k) % TWO_32 }

  // The loop condition, which is evaluated in 64 bits.
  predicate GoesOn(base: nat, sector: nat, k: nat) { Visited(base, k) < base + sector }

  /** A search of a valid sector without a blank record ends exactly if the sector
      does not end at the last address: there the 32-bit address wraps to zero and
      never reaches the 64-bit bound. */
  lemma ScanEnds(base: nat, sector: nat)
    requires sector % RECORD == 0 && base + sector <= TWO_32
    ensures (exists k: nat :: !GoesOn(base, sector, k)) <==> base + sector < TWO_32
  {
    if base + sector < TWO_32 {
      assert !GoesOn(base, sector, sector / RECORD);
    }
  }

  /** Then it visits the records of the sector in order, and stops behind the last. */
  lemma ScanVisits(l: Layout, bank: nat, k: nat)
    requires Valid(l) && Searchable(l) && bank < 2 && k <= Records(l)
    ensures GoesOn(l.metadata[bank], l.sectorSize, k) <==> k < Records(l)
    ensures k < Records(l) ==> Visited(l.metadata[bank], k) == At(l, First(l, bank) + k)
  {
    assert Visited(l.metadata[bank], k) == l.metadata[bank] + RECORD * k;
  }

  // The loop's step.
  lemma ScanNext(base: nat, k: nat)
    ensures Visited(base, k + 1) == (Visited(base, k) + RECORD) % TWO_32
  {}

  lemma ScanStarts(base: nat)
    requires base < TWO_32
    ensures Visited(base, 0) == base
  {}
}
