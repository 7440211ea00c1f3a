/** What loading the journal finds, for every content of the flash. */
module JournalLoad {
  import opened Bytes
  import opened Record
  import opened Formats
  import opened Layouts
  import opened Flash
  import opened JournalSpec

  // Two records that claim the same sequence number but differ.
  ghost predicate Conflicting(l: Layout, mem: seq<int>, m: nat, n: nat)
    requires Fits(l, mem)
  {
    && m < 2 * Records(l) && n < 2 * Records(l)
    && Dec(l, mem, m).Some? && Dec(l, mem, n).Some?
    && Dec(l, mem, m).value.sequence == Dec(l, mem, n).value.sequence
    && Rec(l, mem, m) != Rec(l, mem, n)
  }

  ghost predicate Disagree(l: Layout, mem: seq<int>)
    requires Fits(l, mem)
  {
    exists m, n :: Conflicting(l, mem, m, n)
  }

  // A decoding record at n is no newer than s and, if it is as new, in the native
  // format.
  ghost predicate AtMost(l: Layout, mem: seq<int>, n: nat, s: Snapshot)
    requires Fits(l, mem) && n < 2 * Records(l)
  {
    Dec(l, mem, n).Some? ==>
      && Dec(l, mem, n).value.sequence <= s.sequence
      && (Dec(l, mem, n).value.sequence == s.sequence ==> l.format.native(Rec(l, mem, n)))
  }

  // s is the durable snapshot: some record decodes to it, none is newer, and
  // records with equal sequence numbers are equal.
  ghost predicate Holds(l: Layout, mem: seq<int>, s: Snapshot) {
    && Fits(l, mem)
    && (exists n :: 0 <= n < 2 * Records(l) && Dec(l, mem, n) == Some(s))
    && (forall n :: 0 <= n < 2 * Records(l) ==> AtMost(l, mem, n, s))
    && !Disagree(l, mem)
  }

  // Every decoding record visited so far is no newer than the best one, and equal to it
  // if it is as new.
  ghost predicate Covers(l: Layout, mem: seq<int>, p: Scan, k: nat)
    requires Fits(l, mem) && k <= 2 * Records(l)
  {
    && Found(l, mem, p)
    && (p.best.Some? ==> exists i :: 0 <= i < k && Order(l, i) == p.best.value)
    && forall i :: 0 <= i < k && Dec(l, mem, Order(l, i)).Some? ==>
         && p.best.Some? && Dec(l, mem, Order(l, i)).value.sequence <= Dec(l, mem, p.best.value).value.sequence
         && (Dec(l, mem, Order(l, i)).value.sequence == Dec(l, mem, p.best.value).value.sequence ==>
               Rec(l, mem, Order(l, i)) == Rec(l, mem, p.best.value))
  }

  // Visits i and k meet differing records with one number, and no newer one before k.
  ghost predicate Caught(l: Layout, mem: seq<int>, i: nat, k: nat)
    requires Fits(l, mem)
  {
    && i < k < 2 * Records(l) && Conflicting(l, mem, Order(l, i), Order(l, k))
    && forall j :: 0 <= j < k && Dec(l, mem, Order(l, j)).Some? ==>
         Dec(l, mem, Order(l, j)).value.sequence <= Dec(l, mem, Order(l, k)).value.sequence
  }

  ghost predicate CaughtBefore(l: Layout, mem: seq<int>, k: nat)
    requires Fits(l, mem)
  {
    exists i: nat, m: nat :: m < k && Caught(l, mem, i, m)
  }

  // A decoding record passes the checks that load makes before decoding it.
  lemma DecodedHeader(l: Layout, mem: seq<int>, n: nat)
    requires Lawful(l.format, l.writeSize) && Fits(l, mem) && n < 2 * Records(l) && Dec(l, mem, n).Some?
    ensures var c := Rec(l, mem, n);
            && AllBytes(c[..16]) && AllBytes(c[16..])
            && l.format.peek(c[..16]) == Some(Dec(l, mem, n).value.sequence)
  {
    assert AllBytes(Rec(l, mem, n));
  }

  lemma VisitCovers(l: Layout, mem: seq<int>, p: Scan, k: nat)
    requires Lawful(l.format, l.writeSize)
    requires Fits(l, mem) && k < 2 * Records(l) && Covers(l, mem, p, k) && !p.conflict
    ensures var q := Visit(l, mem, p, Order(l, k));
            if q.conflict then CaughtBefore(l, mem, k + 1)
              else Covers(l, mem, q, k + 1) && forall i: nat :: !Caught(l, mem, i, k)
  {
    hide Fits, Lawful, AllBytes;
    var n := Order(l, k);
    var q := Visit(l, mem, p, n);
    if Dec(l, mem, n).Some? {
      DecodedHeader(l, mem, n);
      if q.conflict {
        var i :| 0 <= i < k && Order(l, i) == p.best.value;
        assert Caught(l, mem, i, k);
      }
    }
    if !q.conflict {
      assert Order(l, k) == n;
      assert Covers(l, mem, q, k + 1);
    }
  }

  lemma EmptyCovers(l: Layout, mem: seq<int>, p: Scan)
    requires Fits(l, mem) && p == Scan(None, false, false)
    ensures Covers(l, mem, p, 0)
  {}

  lemma {:induction false} ScanCovers(l: Layout, mem: seq<int>, k: nat)
    requires Lawful(l.format, l.writeSize) && Fits(l, mem) && k <= 2 * Records(l)
    ensures var p := ScanTo(l, mem, k);
            if p.conflict then CaughtBefore(l, mem, k) else Covers(l, mem, p, k) && !CaughtBefore(l, mem, k)
  {
    hide Visit, Fits, Lawful, Covers, Caught;
    if k == 0 {
      EmptyCovers(l, mem, ScanTo(l, mem, 0));
    } else {
      ScanCovers(l, mem, k - 1);
      var p := ScanTo(l, mem, k - 1);
      if !p.conflict {
        VisitCovers(l, mem, p, k - 1);
        assert ScanTo(l, mem, k) == Visit(l, mem, p, Order(l, k - 1));
        assert Covers(l, mem, ScanTo(l, mem, k), k - 1 + 1) || ScanTo(l, mem, k).conflict;
      }
    }
  }

  lemma OrderOnto(l: Layout, n: nat) returns (k: nat)
    requires n < 2 * Records(l)
    ensures k < 2 * Records(l) && Order(l, k) == n
  {
    k := if n < Records(l) then Records(l) - 1 - n else 3 * Records(l) - 1 - n;
  }

  /** For any flash content, load answers ok only with a newest decoding record that
      every other record with its number equals, finds nothing only when nothing
      decodes, and reports a conflict exactly if it meets differing records with one
      number before any newer one. */
  lemma LoadExact(l: Layout, mem: seq<int>)
    requires Lawful(l.format, l.writeSize) && Fits(l, mem)
    ensures var p := ScanTo(l, mem, 2 * Records(l));
            && (LoadStatus(p) == Ok ==> forall n :: 0 <= n < 2 * Records(l) && Dec(l, mem, n).Some? ==>
                  && Dec(l, mem, n).value.sequence <= Dec(l, mem, p.best.value).value.sequence
                  && !Conflicting(l, mem, n, p.best.value))
            && (LoadStatus(p) == ChecksumError <==> CaughtBefore(l, mem, 2 * Records(l)))
            && (LoadStatus(p) in {IoError, NotFound} ==>
                  forall n :: 0 <= n < 2 * Records(l) ==> Dec(l, mem, n).None?)
  {
    hide ScanTo, Fits, Caught;
    ScanCovers(l, mem, 2 * Records(l));
    var p := ScanTo(l, mem, 2 * Records(l));
    if !p.conflict {
      forall n | 0 <= n < 2 * Records(l) && Dec(l, mem, n).Some?
        ensures && p.best.Some? && Dec(l, mem, n).value.sequence <= Dec(l, mem, p.best.value).value.sequence
                && !Conflicting(l, mem, n, p.best.value)
      {
        var k := OrderOnto(l, n);
      }
    }
  }

  lemma CaughtDisagrees(l: Layout, mem: seq<int>, k: nat)
    requires Fits(l, mem) && CaughtBefore(l, mem, k)
    ensures Disagree(l, mem)
  {
    hide Fits, Conflicting;
    var i: nat, m: nat :| m < k && Caught(l, mem, i, m);
    assert Conflicting(l, mem, Order(l, i), Order(l, m));
  }

  /** Differing records with the newest number are always reported. */
  lemma ConflictReported(l: Layout, mem: seq<int>, m: nat, n: nat)
    requires Lawful(l.format, l.writeSize) && Fits(l, mem) && Conflicting(l, mem, m, n)
    requires forall k :: 0 <= k < 2 * Records(l) && Dec(l, mem, k).Some? ==>
      Dec(l, mem, k).value.sequence <= Dec(l, mem, n).value.sequence
    ensures LoadStatus(ScanTo(l, mem, 2 * Records(l))) == ChecksumError
  {
    hide ScanTo, Fits, CaughtBefore;
    LoadExact(l, mem);
  }

  /** A durable snapshot is what load returns. */
  lemma LoadHolds(l: Layout, mem: seq<int>, s: Snapshot)
    requires Lawful(l.format, l.writeSize) && Holds(l, mem, s)
    ensures var p := ScanTo(l, mem, 2 * Records(l));
            LoadStatus(p) == Ok && Dec(l, mem, p.best.value) == Some(s)
  {
    hide ScanTo, Fits;
    LoadExact(l, mem);
    if CaughtBefore(l, mem, 2 * Records(l)) { CaughtDisagrees(l, mem, 2 * Records(l)); }
    var n :| 0 <= n < 2 * Records(l) && Dec(l, mem, n) == Some(s);
    var p := ScanTo(l, mem, 2 * Records(l));
    assert AtMost(l, mem, p.best.value, s);
    assert !Conflicting(l, mem, n, p.best.value);
  }
}
