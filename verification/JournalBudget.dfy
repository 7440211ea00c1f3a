/** The runtime budget of the journal: how many commits fit while an application
    executes from one bank. */
module JournalBudget {
  import opened Bytes
  import opened Record
  import opened Formats
  import opened Layouts
  import opened Flash
  import opened JournalSpec
  import opened JournalLoad
  import opened JournalSafety
  import opened JournalRuns
  import opened JournalCommit
  import opened JournalPrompt

  // ---- Counting blank records ----

  function Blanks(l: Layout, mem: seq<int>, lo: nat, hi: nat): (k: nat)
    requires Fits(l, mem) && lo <= hi <= 2 * Records(l)
    ensures k <= hi - lo
    decreases hi - lo
  {
    if lo == hi then 0 else (if IsBlank(l, mem, lo) then 1 else 0) + Blanks(l, mem, lo + 1, hi)
  }

  lemma {:induction false} BlanksSame(l: Layout, mem: seq<int>, after: seq<int>, lo: nat, hi: nat)
    requires Fits(l, mem) && Fits(l, after) && lo <= hi <= 2 * Records(l)
    requires forall n :: lo <= n < hi ==> (IsBlank(l, after, n) <==> IsBlank(l, mem, n))
    ensures Blanks(l, after, lo, hi) == Blanks(l, mem, lo, hi)
    decreases hi - lo
  {
    hide Fits, IsBlank, Records;
    if lo < hi { BlanksSame(l, mem, after, lo + 1, hi); }
  }

  lemma {:induction false} BlanksUsed(l: Layout, mem: seq<int>, after: seq<int>, lo: nat, hi: nat, k: nat)
    requires Fits(l, mem) && Fits(l, after) && lo <= k < hi <= 2 * Records(l)
    requires IsBlank(l, mem, k) && !IsBlank(l, after, k)
    requires forall n :: lo <= n < hi && n != k ==> (IsBlank(l, after, n) <==> IsBlank(l, mem, n))
    ensures Blanks(l, after, lo, hi) + 1 == Blanks(l, mem, lo, hi)
    decreases hi - lo
  {
    hide Fits, IsBlank, Records;
    if lo == k { BlanksSame(l, mem, after, lo + 1, hi); } else { BlanksUsed(l, mem, after, lo + 1, hi, k); }
  }

  lemma {:induction false} BlanksAll(l: Layout, mem: seq<int>, lo: nat, hi: nat)
    requires Fits(l, mem) && lo <= hi <= 2 * Records(l)
    requires forall n :: lo <= n < hi ==> IsBlank(l, mem, n)
    ensures Blanks(l, mem, lo, hi) == hi - lo
    decreases hi - lo
  {
    hide Fits, IsBlank, Records;
    if lo < hi { BlanksAll(l, mem, lo + 1, hi); }
  }

  lemma {:induction false} BlanksNone(l: Layout, mem: seq<int>, lo: nat, hi: nat)
    requires Fits(l, mem) && lo <= hi <= 2 * Records(l)
    ensures Blanks(l, mem, lo, hi) == 0 <==> FirstBlank(l, mem, lo, hi).None?
    decreases hi - lo
  {
    hide Fits, IsBlank, Records;
    if lo < hi { BlanksNone(l, mem, lo + 1, hi); }
  }

  // Free records of a sector.
  function Free(l: Layout, mem: seq<int>, bank: nat): (k: nat)
    requires Fits(l, mem) && bank < 2
    ensures k <= Records(l)
  {
    Blanks(l, mem, First(l, bank), First(l, bank) + Records(l))
  }

  function Budget(l: Layout, mem: seq<int>, executing: nat): int
    requires Fits(l, mem) && executing < 2
  {
    Free(l, mem, 1 - executing) + Records(l) * Free(l, mem, executing)
  }

  // s is durable, and only in the bank that does not execute.
  ghost predicate Steady(l: Layout, mem: seq<int>, executing: nat, s: Snapshot) {
    && Holds(l, mem, s) && executing < 2
    && forall n :: 0 <= n < 2 * Records(l) && Dec(l, mem, n) == Some(s) ==> Bank(l, n) == 1 - executing
  }

  // ---- What one commit does to the counts ----

  lemma DecodedNotBlank(l: Layout, mem: seq<int>, n: nat)
    requires Ready(l) && Fits(l, mem) && n < 2 * Records(l) && Dec(l, mem, n).Some?
    ensures !IsBlank(l, mem, n)
  {
    hide Fits;
    var c := Rec(l, mem, n);
    assert c[RECORD - 1] != BLANK;
  }

  lemma WipedBlank(l: Layout, mem: seq<int>, n: nat)
    requires Fits(l, mem) && n < 2 * Records(l) && Rec(l, mem, n) == WIPED
    ensures IsBlank(l, mem, n)
  {}

  lemma SameBlank(l: Layout, mem: seq<int>, after: seq<int>, n: nat)
    requires Fits(l, mem) && Fits(l, after) && n < 2 * Records(l) && Rec(l, after, n) == Rec(l, mem, n)
    ensures IsBlank(l, after, n) <==> IsBlank(l, mem, n)
  {}

  // A record appended to the free bank costs one free record.
  lemma AppendCounts(l: Layout, mem: seq<int>, after: seq<int>, executing: nat, target: nat)
    requires Ready(l) && Fits(l, mem) && Fits(l, after) && executing < 2 && target < 2 * Records(l)
    requires Bank(l, target) == 1 - executing && IsBlank(l, mem, target) && Dec(l, after, target).Some?
    requires forall n :: 0 <= n < 2 * Records(l) && n != target ==> Rec(l, after, n) == Rec(l, mem, n)
    ensures Budget(l, after, executing) == Budget(l, mem, executing) - 1
  {
    hide Fits, IsBlank, Lawful, Rec, Blanks;
    DecodedNotBlank(l, after, target);
    forall n | 0 <= n < 2 * Records(l) && n != target ensures IsBlank(l, after, n) <==> IsBlank(l, mem, n) {
      SameBlank(l, mem, after, n);
    }
    BankRange(l, target);
    BankBounds(l, executing);
    BlanksUsed(l, mem, after, First(l, 1 - executing), First(l, 1 - executing) + Records(l), target);
    BlanksSame(l, mem, after, First(l, executing), First(l, executing) + Records(l));
  }

  lemma BankRange(l: Layout, n: nat)
    requires n < 2 * Records(l)
    ensures First(l, Bank(l, n)) <= n < First(l, Bank(l, n)) + Records(l)
  {}

  lemma BankBounds(l: Layout, executing: nat)
    requires executing < 2
    ensures First(l, executing) + Records(l) <= 2 * Records(l) && First(l, 1 - executing) + Records(l) <= 2 * Records(l)
    ensures forall n :: First(l, executing) <= n < First(l, executing) + Records(l) ==> Bank(l, n) == executing
    ensures forall n :: First(l, 1 - executing) <= n < First(l, 1 - executing) + Records(l) ==>
      Bank(l, n) == 1 - executing
  {}

  // A checkpoint costs one record of the executing bank and refills the other.
  lemma CheckpointCounts(l: Layout, mem: seq<int>, after: seq<int>, executing: nat, spare: nat)
    requires Ready(l) && Fits(l, mem) && Fits(l, after) && executing < 2 && spare < 2 * Records(l)
    requires Bank(l, spare) == executing && IsBlank(l, mem, spare) && Dec(l, after, spare).Some?
    requires Free(l, mem, 1 - executing) == 0
    requires Dec(l, after, First(l, 1 - executing)).Some?
    requires forall n :: 0 <= n < 2 * Records(l) && Bank(l, n) != executing && n != First(l, 1 - executing) ==>
               Rec(l, after, n) == WIPED
    requires forall n :: 0 <= n < 2 * Records(l) && Bank(l, n) == executing && n != spare ==>
      Rec(l, after, n) == Rec(l, mem, n)
    ensures Budget(l, after, executing) == Budget(l, mem, executing) - 1
  {
    hide Fits, IsBlank, Lawful, Rec;
    var free := First(l, 1 - executing);
    BankRange(l, spare);
    BankBounds(l, executing);
    DecodedNotBlank(l, after, spare);
    DecodedNotBlank(l, after, free);
    forall n | 0 <= n < 2 * Records(l) && Bank(l, n) == executing && n != spare
      ensures IsBlank(l, after, n) <==> IsBlank(l, mem, n)
    {
      SameBlank(l, mem, after, n);
    }
    forall n | free < n < free + Records(l) ensures IsBlank(l, after, n) { WipedBlank(l, after, n); }
    BlanksUsed(l, mem, after, First(l, executing), First(l, executing) + Records(l), spare);
    BlanksAll(l, after, free + 1, free + Records(l));
    assert Free(l, after, 1 - executing) == Records(l) - 1;
    TimesLess(Records(l), Free(l, mem, executing), Free(l, after, executing));
  }

  lemma TimesLess(r: nat, a: nat, b: nat)
    requires a == b + 1
    ensures r * a == r * b + r
  {}

  // ---- One commit ----

  lemma LatestFound(l: Layout, j: Journal, d: Device, o: Outcome, s: Snapshot)
    requires Ready(l) && Ok?(l, j) && d.op.NoOp? && Holds(l, d.mem, s)
    ensures var loaded := Load(l, j, d, o);
            && loaded.status == Ok && loaded.d == d && loaded.j == j.(latest := loaded.j.latest)
            && Fits(l, d.mem) && loaded.j.latest < 2 * Records(l) && Dec(l, d.mem, loaded.j.latest) == Some(s)
  {
    hide Fits, Valid, Records, Lawful, Holds, Torn, ScanTo, Cell;
    HoldsFits(l, d.mem, s);
    IdleCell(l, d, s, s);
    var s1 := LoadSafe(l, j, d, o, s, s);
    IdleTorn(l, d);
  }

  // The plan of a commit that is due: append, or checkpoint and refill, or full.
  ghost predicate Appends(l: Layout, mem: seq<int>, executing: nat, w: Job, erase: bool)
    requires Fits(l, mem) && executing < 2
  {
    && !w.checkpoint && !w.eraseOnly && !erase
    && w.target < 2 * Records(l) && Bank(l, w.target) == 1 - executing && IsBlank(l, mem, w.target)
  }

  ghost predicate Refills(l: Layout, mem: seq<int>, executing: nat, w: Job, erase: bool)
    requires Fits(l, mem) && executing < 2
  {
    && w.checkpoint && !w.eraseOnly && !erase && w.pendingTarget == First(l, 1 - executing)
    && w.target < 2 * Records(l) && Bank(l, w.target) == executing && IsBlank(l, mem, w.target)
    && Free(l, mem, 1 - executing) == 0
  }

  lemma PlaceCases(l: Layout, mem: seq<int>, j: Journal, executing: nat, n: nat)
    requires Fits(l, mem) && Ok?(l, j) && executing < 2 && !j.checkpoint && !j.eraseOnly
    requires n < 2 * Records(l) && Dec(l, mem, n).Some? && Bank(l, n) == 1 - executing
    ensures var (j1, status) := PlaceRuntime(l, mem, j, executing, Some(n));
            && (status == Ok || status == Full)
            && (status == Full <==> Budget(l, mem, executing) == 0)
            && (status == Ok ==>
                  || (Appends(l, mem, executing, JobOf(j1), j1.eraseNeeded) && j1.record == j.record)
                  || (Refills(l, mem, executing, JobOf(j1), j1.eraseNeeded)
                      && j1.record == Rec(l, mem, n) && j1.pendingRecord == j.record))
  {
    hide Fits, Valid, IsBlank, Ok?, FirstBlank, Free, Records;
    FreeFirst(l, mem, 1 - executing);
    FreeFirst(l, mem, executing);
    BudgetZero(l, Records(l), Free(l, mem, 1 - executing), Free(l, mem, executing), n);
  }

  lemma FreeFirst(l: Layout, mem: seq<int>, bank: nat)
    requires Fits(l, mem) && bank < 2
    ensures First(l, bank) + Records(l) <= 2 * Records(l)
    ensures var free := FirstBlank(l, mem, First(l, bank), First(l, bank) + Records(l));
            && (free.None? <==> Free(l, mem, bank) == 0)
            && (free.Some? ==>
                free.value < 2 * Records(l) && Bank(l, free.value) == bank && IsBlank(l, mem, free.value))
  {
    hide Fits, Valid, IsBlank, FirstBlank, Blanks;
    FirstBlankExact(l, mem, First(l, bank), First(l, bank) + Records(l));
    BlanksNone(l, mem, First(l, bank), First(l, bank) + Records(l));
  }

  lemma BudgetZero(l: Layout, r: nat, f: nat, e: nat, n: nat)
    requires n < 2 * r
    ensures f + r * e == 0 <==> f == 0 && e == 0
  {
    if e > 0 { assert r * e >= r; }
  }

  // The new snapshot is only where it was written.
  lemma SteadyAfter(l: Layout, mem: seq<int>, after: seq<int>, executing: nat, place: nat, s: Snapshot, t: Snapshot)
    requires Holds(l, mem, s) && Holds(l, after, t) && executing < 2 && t.sequence > s.sequence
    requires place < 2 * Records(l) && Bank(l, place) == 1 - executing
    requires forall n :: 0 <= n < 2 * Records(l) && n != place ==>
      Rec(l, after, n) == Rec(l, mem, n) || Dec(l, after, n) in {None, Some(s)}
    ensures Steady(l, after, executing, t)
  {
    hide Fits, Valid, Disagree;
    forall n | 0 <= n < 2 * Records(l) && Dec(l, after, n) == Some(t) ensures n == place {
      assert AtMost(l, mem, n, s);
    }
  }

  lemma AppendDone(l: Layout, j: Journal, mem: seq<int>, after: seq<int>, executing: nat, s: Snapshot, t: Snapshot)
    requires Ready(l) && Holds(l, mem, s) && Holds(l, after, t) && executing < 2 && t.sequence > s.sequence
    requires Fits(l, mem) && Fits(l, after) && Appends(l, mem, executing, JobOf(j), Erasing(j))
      && Fulfilled(l, j, mem, after)
    requires l.format.decode(j.record) == Some(t)
    ensures Steady(l, after, executing, t) && Budget(l, after, executing) == Budget(l, mem, executing) - 1
  {
    hide Fits, Valid, Holds, IsBlank, Lawful, Budget, Steady, Records;
    AppendCounts(l, mem, after, executing, j.target);
    SteadyAfter(l, mem, after, executing, j.target, s, t);
  }

  lemma RefillDone(l: Layout, j: Journal, mem: seq<int>, after: seq<int>, executing: nat, s: Snapshot, t: Snapshot)
    requires Ready(l) && Holds(l, mem, s) && Holds(l, after, t) && executing < 2 && t.sequence > s.sequence
    requires Fits(l, mem) && Fits(l, after) && Refills(l, mem, executing, JobOf(j), Erasing(j))
      && Fulfilled(l, j, mem, after)
    requires l.format.decode(j.pendingRecord) == Some(t) && l.format.decode(j.record) == Some(s)
    ensures Steady(l, after, executing, t) && Budget(l, after, executing) == Budget(l, mem, executing) - 1
  {
    hide Fits, Valid, Holds, IsBlank, Budget, Steady, Free, Records;
    FirstInBank(l, 1 - executing, j.target);
    WipedRefused(l);
    assert Rec(l, after, j.pendingTarget) == j.pendingRecord;
    CheckpointCounts(l, mem, after, executing, j.target);
    SteadyAfter(l, mem, after, executing, j.pendingTarget, s, t);
  }

  lemma WipedRefused(l: Layout)
    requires Ready(l)
    ensures l.format.decode(WIPED).None?
  {
    assert WIPED[RECORD - 1] == BLANK;
  }

  // What a call brings: the snapshot, the clock and the events.
  datatype Call = Call(snapshot: Snapshot, timeout: nat, start: nat, outcome: Outcome, script: seq<Event>)

  const TICKS: nat := 1033

  function Limit(l: Layout, c: Call): nat { if c.timeout == 0 then l.operationTimeout else c.timeout }

  // The call meets no fault and no timeout, however long its operations take, and
  // all the operations it may need finish.
  ghost predicate Clean(l: Layout, executing: nat, j: Journal, d: Device, c: Call)
    requires Fits(l, d.mem) && Ok?(l, j)
  {
    && Finishes(c.script) >= TICKS && AllFaultFree(c.script)
    && var begun := Begin(l, executing, j, d, c.snapshot, false, c.outcome);
       FitsSame(l, d.mem, begun.d.mem);
       begun.status == Ok ==> InTime(l, begun.j, begun.d, c.start, Limit(l, c), c.script)
  }

  ghost predicate Acceptable(s: Snapshot, c: Call) {
    Accepts(s, c.snapshot) && Committable(Next(s, c.snapshot))
  }

  function Perform(l: Layout, executing: nat, j: Journal, d: Device, c: Call): (r: Committed)
    requires Fits(l, d.mem) && Ok?(l, j)
    ensures Ok?(l, r.j) && |r.d.mem| == |d.mem|
  {
    Commit(l, executing, j, d, c.snapshot, c.timeout, false, c.start, c.outcome, c.script)
  }

  lemma EncodedDecodes(l: Layout, s: Snapshot)
    requires Ready(l) && Committable(s)
    ensures |l.format.encode(s)| == RECORD && l.format.decode(l.format.encode(s)) == Some(s)
  {}

  lemma PlanCases(l: Layout, executing: nat, j: Journal, mem: seq<int>, n: nat, s: Snapshot, snapshot: Snapshot)
    requires Ready(l) && Fits(l, mem) && Ok?(l, j) && j.status != Busy && executing < 2
    requires n < 2 * Records(l) && Dec(l, mem, n) == Some(s) && Bank(l, n) == 1 - executing
    requires Accepts(s, snapshot) && Committable(Next(s, snapshot))
    ensures var (j1, status) := Plan(l, executing, j, mem, Some(n), snapshot);
            && (status == Ok || status == Full)
            && (status == Full <==> Budget(l, mem, executing) == 0)
            && (status == Ok ==>
                  || (Appends(l, mem, executing, JobOf(j1), j1.eraseNeeded)
                      && l.format.decode(j1.record) == Some(Next(s, snapshot)))
                  || (Refills(l, mem, executing, JobOf(j1), j1.eraseNeeded)
                      && l.format.decode(j1.record) == Some(s)
                      && l.format.decode(j1.pendingRecord) == Some(Next(s, snapshot))))
  {
    hide Fits, Valid, Records, Place, PlaceRuntime, Committable, Budget, Appends, Refills, Lawful;
    var next := Next(s, snapshot);
    var record := l.format.encode(next);
    EncodedDecodes(l, next);
    var (target, eraseNeeded) := Place(l, mem, Some(n));
    var j2 := j.(record := record, checkpoint := false, eraseOnly := false)
              .(target := target, eraseNeeded := eraseNeeded);
    PlaceCases(l, mem, j2, executing, n);
  }

  /** A runtime commit without a fault succeeds and spends exactly one unit of the
      budget, or finds the journal full and changes nothing. */
  lemma CommitSpends(l: Layout, executing: nat, j: Journal, d: Device, c: Call, s: Snapshot)
    requires Ready(l) && Ok?(l, j) && j.status != Busy && d.op.NoOp? && Steady(l, d.mem, executing, s)
    requires Fits(l, d.mem) && Clean(l, executing, j, d, c) && Acceptable(s, c)
    ensures var r := Perform(l, executing, j, d, c);
            && r.d.op.NoOp? && r.j.status != Busy && Fits(l, r.d.mem)
            && if Budget(l, d.mem, executing) == 0 then r.status == Full && r.d == d
               else && r.status == Ok && Steady(l, r.d.mem, executing, Next(s, c.snapshot))
                    && Budget(l, r.d.mem, executing) == Budget(l, d.mem, executing) - 1
  {
    hide Fits, Valid, Records, Holds, Lawful, Cell, Working, Budget, Appends, Refills, Load, Plan, Run, Committable,
         OffSlots;
    SteadyFacts(l, d.mem, executing, s);
    LatestFound(l, j, d, c.outcome, s);
    var loaded := Load(l, j, d, c.outcome);
    PlanCases(l, executing, loaded.j, d.mem, loaded.j.latest, s, c.snapshot);
    var (j1, status) := Plan(l, executing, loaded.j, d.mem, Some(loaded.j.latest), c.snapshot);
    if status == Ok {
      var t := Next(s, c.snapshot);
      IdleCell(l, d, s, s);
      IdleOffSlots(l, d);
      var s1 := BeginSafe(l, executing, j, d, c.snapshot, false, c.outcome, s, s);
      var begun := Request(j1);
      IdleState(l, begun);
      PromptRun(l, begun, d, c.start, Limit(l, c), c.script, s, t);
      var r := Run(l, begun, d, c.start, Limit(l, c), c.script);
      if Appends(l, d.mem, executing, JobOf(j1), j1.eraseNeeded) && l.format.decode(j1.record) == Some(t) {
        AppendDone(l, begun, d.mem, r.d.mem, executing, s, t);
      } else {
        RefillDone(l, begun, d.mem, r.d.mem, executing, s, t);
      }
    }
  }

  lemma SteadyFacts(l: Layout, mem: seq<int>, executing: nat, s: Snapshot)
    requires Steady(l, mem, executing, s)
    ensures Holds(l, mem, s) && Fits(l, mem) && Valid(l) && executing < 2
    ensures forall n :: 0 <= n < 2 * Records(l) && Dec(l, mem, n) == Some(s) ==> Bank(l, n) == 1 - executing
  {}

  lemma IdleState(l: Layout, j: Journal)
    requires Ok?(l, j) && j.requested
    ensures !Active(j.state) && Cost(j) <= TICKS && j.status == Busy && (Erasing(j) == j.eraseNeeded)
  {}

  // ---- Any number of commits ----

  function Statuses(l: Layout, executing: nat, j: Journal, d: Device, calls: seq<Call>): (r: seq<Status>)
    requires Fits(l, d.mem) && Ok?(l, j)
    ensures |r| == |calls|
    decreases |calls|
  {
    if calls == [] then []
    else
      var r := Perform(l, executing, j, d, calls[0]);
      FitsSame(l, d.mem, r.d.mem);
      [r.status] + Statuses(l, executing, r.j, r.d, calls[1..])
  }

  // Each call is clean when its turn comes.
  ghost predicate AllClean(l: Layout, executing: nat, j: Journal, d: Device, calls: seq<Call>)
    requires Fits(l, d.mem) && Ok?(l, j)
    decreases |calls|
  {
    calls != [] ==>
      && Clean(l, executing, j, d, calls[0])
      && var r := Perform(l, executing, j, d, calls[0]);
         FitsSame(l, d.mem, r.d.mem);
         AllClean(l, executing, r.j, r.d, calls[1..])
  }

  // Each call is acceptable over the snapshot durable when its turn comes.
  ghost predicate AllAcceptable(s: Snapshot, budget: int, calls: seq<Call>)
    decreases |calls|
  {
    calls != [] ==>
      && Acceptable(s, calls[0])
      && AllAcceptable(if budget > 0 then Next(s, calls[0].snapshot) else s, budget - 1, calls[1..])
  }

  /** The runtime bound: of any series of fault-free commits exactly the first
      Budget succeed, and every later one finds the journal full. */
  lemma {:induction false} BudgetExact(l: Layout, executing: nat, j: Journal, d: Device, calls: seq<Call>, s: Snapshot)
    requires Ready(l) && Ok?(l, j) && j.status != Busy && d.op.NoOp? && Steady(l, d.mem, executing, s)
    requires Fits(l, d.mem) && executing < 2 && AllClean(l, executing, j, d, calls)
      && AllAcceptable(s, Budget(l, d.mem, executing), calls)
    ensures forall i :: 0 <= i < |calls| ==>
      Statuses(l, executing, j, d, calls)[i] == if i < Budget(l, d.mem, executing) then Ok else Full
    decreases |calls|
  {
    hide Fits, Valid, Records, Holds, Lawful, Budget, Perform, Steady, Ok?, Clean, Acceptable;
    if calls != [] {
      BudgetNonNegative(l, d.mem, executing);
      CommitSpends(l, executing, j, d, calls[0], s);
      var r := Perform(l, executing, j, d, calls[0]);
      if Budget(l, d.mem, executing) == 0 {
        AcceptableWhenFull(s, 0, -1, calls[1..]);
        BudgetExact(l, executing, r.j, r.d, calls[1..], s);
      } else {
        BudgetExact(l, executing, r.j, r.d, calls[1..], Next(s, calls[0].snapshot));
      }
    }
  }

  lemma {:induction false} AcceptableWhenFull(s: Snapshot, a: int, b: int, calls: seq<Call>)
    requires AllAcceptable(s, b, calls) && a <= 0 && b <= 0
    ensures AllAcceptable(s, a, calls)
    decreases |calls|
  {
    if calls != [] { AcceptableWhenFull(s, a - 1, b - 1, calls[1..]); }
  }

  lemma BudgetNonNegative(l: Layout, mem: seq<int>, executing: nat)
    requires Fits(l, mem) && executing < 2
    ensures Budget(l, mem, executing) >= 0
  {
    hide Fits, Free, Records;
    var r, e := Records(l), Free(l, mem, executing);
    assert r * e >= 0;
  }

  /** Once a bank has been prepared for an application, the budget is F + R * R:
      the free records of the other bank and R refills of R records each. */
  lemma PreparedBudget(l: Layout, bank: nat, j: Journal, d: Device, timeout: nat, start: nat, o: Outcome,
                       script: seq<Event>, s: Snapshot)
    requires Ready(l) && Ok?(l, j) && d.op.NoOp? && Holds(l, d.mem, s)
    ensures Fits(l, d.mem)
    ensures var r := PrepareRuntime(l, 2, bank, j, d, timeout, start, o, script);
            r.status == Ok ==>
              && bank < 2 && Fits(l, r.d.mem) && r.d.op.NoOp? && Steady(l, r.d.mem, bank, s)
              && Budget(l, r.d.mem, bank) == Free(l, r.d.mem, 1 - bank) + Records(l) * Records(l)
  {
    hide Fits, Valid, Records, Holds, Lawful, Cell, PrepareRuntime, BankBlank, Free, IsBlank, OffSlots, SameSlots;
    HoldsFits(l, d.mem, s);
    PrepareCell(l, 2, bank, j, d, timeout, start, o, script, s);
    var r := PrepareRuntime(l, 2, bank, j, d, timeout, start, o, script);
    if r.status == Ok {
      CellValid(l, r.d, s, s);
      BlankBank(l, r.d.mem, bank);
    }
  }

  lemma BlankBank(l: Layout, mem: seq<int>, bank: nat)
    requires Ready(l) && Fits(l, mem) && bank < 2 && BankBlank(l, mem, bank)
    ensures Free(l, mem, bank) == Records(l)
    ensures forall n :: 0 <= n < 2 * Records(l) && Dec(l, mem, n).Some? ==> Bank(l, n) == 1 - bank
  {
    hide Fits, Lawful, IsBlank;
    BankBounds(l, bank);
    BlanksAll(l, mem, First(l, bank), First(l, bank) + Records(l));
    forall n | 0 <= n < 2 * Records(l) && Dec(l, mem, n).Some? ensures Bank(l, n) == 1 - bank {
      DecodedNotBlank(l, mem, n);
      BankRange(l, n);
    }
  }
}
