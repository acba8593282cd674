/** Records kept by the profiling engine, its saturating arithmetic, the heap
    metrics taken when a section closes, and the invariant on sequence numbers
    that every reachable engine state satisfies. */
module ProfilingEntries {

  /** Rust's u64. Compute-unit and heap values are u64 in the profiler. */
  type u64 = x: int | 0 <= x < 0x1_0000_0000_0000_0000

  /** Heap size available to a profiled execution context. */
  const HEAP_CAPACITY: nat := 32000

  datatype Option<T> = None | Some(value: T)

  /** Rust's saturating_sub: the difference, clamped at zero. */
  function SatSub(a: nat, b: nat): (r: nat)
    ensures r <= a
    ensures b <= a ==> r + b == a
    ensures a < b ==> r == 0
  {
    if b <= a then a - b else 0
  }

  /** A section that has been opened and not yet closed. */
  datatype ActiveEntry = ActiveEntry(
    id: string,
    startCu: u64,
    startSequence: nat,
    startHeap: Option<u64>)

  datatype HeapMetrics = HeapMetrics(
    startHeap: u64,
    endHeap: u64,
    totalHeap: u64,
    netHeap: u64,
    remainingHeap: u64)

  /** A closed section. Only netCu and heap.netHeap are changed after creation. */
  datatype CompletedEntry = CompletedEntry(
    id: string,
    startCu: u64,
    endCu: u64,
    startSequence: nat,
    endSequence: nat,
    totalCu: u64,
    netCu: u64,
    remainingCu: u64,
    heap: Option<HeapMetrics>)

  /** The heap metrics a section gets when it closes: present only when heap
      tracking was requested both when it opened (startHeap is Some) and when
      it closes (withHeap). */
  function HeapAtClose(startHeap: Option<u64>, heapValue: u64, withHeap: bool): (h: Option<HeapMetrics>)
    ensures h.Some? <==> startHeap.Some? && withHeap
    ensures h.Some? ==>
      && h.value.startHeap == startHeap.value
      && h.value.endHeap == heapValue
      && h.value.totalHeap == SatSub(heapValue, startHeap.value)
      && h.value.remainingHeap == SatSub(HEAP_CAPACITY, startHeap.value)
      && h.value.netHeap == 0
  {
    match startHeap
    case None => None
    case Some(startValue) =>
      if withHeap then
        Some(HeapMetrics(
          startHeap := startValue,
          endHeap := heapValue,
          totalHeap := SatSub(heapValue, startValue),
          netHeap := 0,
          remainingHeap := SatSub(HEAP_CAPACITY, startValue)))
      else
        None
  }

  /** A completed entry with its post-processed fields reset; two entries with
      the same WithoutNet differ at most in netCu and netHeap. */
  function WithoutNet(e: CompletedEntry): CompletedEntry
  {
    e.(netCu := 0,
       heap := match e.heap
               case None => None
               case Some(h) => Some(h.(netHeap := 0)))
  }

  /** Entries with the same WithoutNet agree on every field but the net ones. */
  lemma SameExceptNet(x: CompletedEntry, y: CompletedEntry)
    requires WithoutNet(x) == WithoutNet(y)
    ensures x.id == y.id && x.startCu == y.startCu && x.endCu == y.endCu && x.totalCu == y.totalCu
    ensures x.startSequence == y.startSequence && x.endSequence == y.endSequence
    ensures x.remainingCu == y.remainingCu
    ensures x.heap.Some? <==> y.heap.Some?
    ensures x.heap.Some? ==>
      && x.heap.value.startHeap == y.heap.value.startHeap
      && x.heap.value.endHeap == y.heap.value.endHeap
      && x.heap.value.totalHeap == y.heap.value.totalHeap
      && x.heap.value.remainingHeap == y.heap.value.remainingHeap
  {
  }

  // ---------------------------------------------------------------------
  // Sequence numbers

  function Starts(active: seq<ActiveEntry>): (r: seq<nat>)
    ensures |r| == |active|
    ensures forall i :: 0 <= i < |active| ==> r[i] == active[i].startSequence
  {
    seq(|active|, i requires 0 <= i < |active| => active[i].startSequence)
  }

  function CompletedStarts(completed: seq<CompletedEntry>): (r: seq<nat>)
    ensures |r| == |completed|
    ensures forall i :: 0 <= i < |completed| ==> r[i] == completed[i].startSequence
  {
    seq(|completed|, i requires 0 <= i < |completed| => completed[i].startSequence)
  }

  function CompletedEnds(completed: seq<CompletedEntry>): (r: seq<nat>)
    ensures |r| == |completed|
    ensures forall i :: 0 <= i < |completed| ==> r[i] == completed[i].endSequence
  {
    seq(|completed|, i requires 0 <= i < |completed| => completed[i].endSequence)
  }

  /** Every sequence number the engine has handed out and still holds: one per
      open section, two per closed one. */
  ghost function Issued(active: seq<ActiveEntry>, completed: seq<CompletedEntry>): multiset<nat>
  {
    multiset(Starts(active)) + multiset(CompletedStarts(completed)) + multiset(CompletedEnds(completed))
  }

  /** The numbers 0, 1, ..., n - 1, each once. */
  ghost function Below(n: nat): multiset<nat>
  {
    if n == 0 then multiset{} else Below(n - 1) + multiset{n - 1}
  }

  lemma {:induction false} BelowSize(n: nat)
    ensures |Below(n)| == n
  {
    if n > 0 {
      BelowSize(n - 1);
    }
  }

  /** Below(n) holds each number under n once and nothing else. */
  lemma {:induction false} BelowCount(n: nat, x: nat)
    ensures Below(n)[x] == (if x < n then 1 else 0)
  {
    if n > 0 {
      BelowCount(n - 1, x);
      assert Below(n)[x] == Below(n - 1)[x] + multiset{n - 1}[x];
    }
  }

  ghost predicate StartsIncreasing(active: seq<ActiveEntry>)
  {
    forall i, j :: 0 <= i < j < |active| ==> active[i].startSequence < active[j].startSequence
  }

  ghost predicate EndsIncreasing(completed: seq<CompletedEntry>)
  {
    forall i, j :: 0 <= i < j < |completed| ==> completed[i].endSequence < completed[j].endSequence
  }

  /** The invariant of the engine's three fields: the stack is ordered by
      opening, the completed list by closing, every closed section opened
      before it closed, and the numbers held are 0 .. next - 1 without repeats. */
  ghost predicate Wellformed(active: seq<ActiveEntry>, completed: seq<CompletedEntry>, next: nat)
  {
    && StartsIncreasing(active)
    && EndsIncreasing(completed)
    && (forall i :: 0 <= i < |completed| ==> completed[i].startSequence < completed[i].endSequence)
    && Issued(active, completed) == Below(next)
  }

  lemma EmptyWellformed()
    ensures Wellformed([], [], 0)
  {
  }

  lemma StartsSplit(active: seq<ActiveEntry>, pos: nat)
    requires pos < |active|
    ensures multiset(Starts(active))
         == multiset(Starts(active[..pos] + active[pos + 1..])) + multiset{active[pos].startSequence}
  {
    var rest := active[..pos] + active[pos + 1..];
    assert Starts(active) == Starts(active[..pos]) + [active[pos].startSequence] + Starts(active[pos + 1..]);
    assert Starts(rest) == Starts(active[..pos]) + Starts(active[pos + 1..]);
  }

  /** Every number recorded in a state is one of the numbers held. */
  lemma RecordedAreIssued(active: seq<ActiveEntry>, completed: seq<CompletedEntry>)
    ensures forall i :: 0 <= i < |active| ==> active[i].startSequence in multiset(Starts(active))
    ensures forall j :: 0 <= j < |completed| ==> completed[j].startSequence in multiset(CompletedStarts(completed))
    ensures forall j :: 0 <= j < |completed| ==> completed[j].endSequence in multiset(CompletedEnds(completed))
  {
  }

  /** Under the invariant a number is held once if it is below next and
      not at all otherwise, counting all three places it can be held. */
  lemma HeldOnce(active: seq<ActiveEntry>, completed: seq<CompletedEntry>, next: nat, x: nat)
    requires Wellformed(active, completed, next)
    ensures multiset(Starts(active))[x] + multiset(CompletedStarts(completed))[x] + multiset(CompletedEnds(completed))[x]
         == (if x < next then 1 else 0)
  {
    BelowCount(next, x);
  }

  /** Under the invariant every recorded number is below next. */
  lemma {:induction false} RecordedBelowNext(active: seq<ActiveEntry>, completed: seq<CompletedEntry>, next: nat)
    requires Wellformed(active, completed, next)
    ensures forall i :: 0 <= i < |active| ==> active[i].startSequence < next
    ensures forall j :: 0 <= j < |completed| ==> completed[j].startSequence < next
    ensures forall j :: 0 <= j < |completed| ==> completed[j].endSequence < next
  {
    RecordedAreIssued(active, completed);
    forall i | 0 <= i < |active|
      ensures active[i].startSequence < next
    {
      HeldOnce(active, completed, next, active[i].startSequence);
    }
    forall j | 0 <= j < |completed|
      ensures completed[j].startSequence < next && completed[j].endSequence < next
    {
      HeldOnce(active, completed, next, completed[j].startSequence);
      HeldOnce(active, completed, next, completed[j].endSequence);
    }
  }

  /** Opening a section with the next number keeps the invariant
      (profiling_state.rs, start). */
  lemma {:induction false} StartKeepsWellformed(active: seq<ActiveEntry>, completed: seq<CompletedEntry>, next: nat, e: ActiveEntry)
    requires Wellformed(active, completed, next)
    requires e.startSequence == next
    ensures Wellformed(active + [e], completed, next + 1)
  {
    assert Starts(active + [e]) == Starts(active) + [next];
    assert Issued(active + [e], completed) == Issued(active, completed) + multiset{next};
    RecordedBelowNext(active, completed, next);
  }

  lemma IssuedAfterEnd(active: seq<ActiveEntry>, completed: seq<CompletedEntry>, pos: nat, c: CompletedEntry)
    requires pos < |active|
    requires c.startSequence == active[pos].startSequence
    ensures Issued(active[..pos] + active[pos + 1..], completed + [c])
         == Issued(active, completed) + multiset{c.endSequence}
  {
    StartsSplit(active, pos);
    assert CompletedStarts(completed + [c]) == CompletedStarts(completed) + [c.startSequence];
    assert CompletedEnds(completed + [c]) == CompletedEnds(completed) + [c.endSequence];
  }

  lemma RemoveKeepsStartsIncreasing(active: seq<ActiveEntry>, pos: nat)
    requires StartsIncreasing(active)
    requires pos < |active|
    ensures StartsIncreasing(active[..pos] + active[pos + 1..])
  {
  }

  /** Closing the open section at pos, stamping its end with the next number,
      keeps the invariant (profiling_state.rs, end). */
  lemma {:induction false} EndKeepsWellformed(
    active: seq<ActiveEntry>, completed: seq<CompletedEntry>, next: nat, pos: nat, c: CompletedEntry)
    requires Wellformed(active, completed, next)
    requires pos < |active|
    requires c.startSequence == active[pos].startSequence
    requires c.endSequence == next
    ensures Wellformed(active[..pos] + active[pos + 1..], completed + [c], next + 1)
  {
    IssuedAfterEnd(active, completed, pos, c);
    RecordedBelowNext(active, completed, next);
    RemoveKeepsStartsIncreasing(active, pos);
  }

  /** The invariant reads only the sequence numbers, so rewriting the net
      fields keeps it (profiling_state.rs, post_process). */
  lemma {:induction false} SameSkeletonKeepsWellformed(
    active: seq<ActiveEntry>, completed: seq<CompletedEntry>, updated: seq<CompletedEntry>, next: nat)
    requires Wellformed(active, completed, next)
    requires |updated| == |completed|
    requires forall i :: 0 <= i < |completed| ==> WithoutNet(updated[i]) == WithoutNet(completed[i])
    ensures Wellformed(active, updated, next)
  {
    forall i | 0 <= i < |completed|
      ensures updated[i].startSequence == completed[i].startSequence
      ensures updated[i].endSequence == completed[i].endSequence
    {
      assert WithoutNet(updated[i]).startSequence == WithoutNet(completed[i]).startSequence;
      assert WithoutNet(updated[i]).endSequence == WithoutNet(completed[i]).endSequence;
    }
    assert CompletedStarts(updated) == CompletedStarts(completed);
    assert CompletedEnds(updated) == CompletedEnds(completed);
  }

  lemma TwiceInPrefix(s: seq<nat>, i: nat, j: nat)
    requires i < j < |s|
    requires s[i] == s[j]
    ensures multiset(s)[s[j]] >= 2
  {
    assert s == s[..j] + [s[j]] + s[j + 1..];
    assert s[..j][i] == s[i];
    assert s[j] in multiset(s[..j]);
  }

  lemma NoRepeats(s: seq<nat>, next: nat)
    requires multiset(s) <= Below(next)
    ensures forall i, j :: 0 <= i < |s| && 0 <= j < |s| && i != j ==> s[i] != s[j]
  {
    forall i, j | 0 <= i < |s| && 0 <= j < |s| && i != j
      ensures s[i] != s[j]
    {
      if s[i] == s[j] {
        BelowCount(next, s[i]);
        if i < j { TwiceInPrefix(s, i, j); } else { TwiceInPrefix(s, j, i); }
      }
    }
  }

  /** Under the invariant a number held by an open section is not held by
      a closed one. */
  lemma {:induction false} OpenNumbersNotClosed(active: seq<ActiveEntry>, completed: seq<CompletedEntry>, next: nat)
    requires Wellformed(active, completed, next)
    ensures forall i, j :: 0 <= i < |active| && 0 <= j < |completed| ==>
      active[i].startSequence != completed[j].startSequence && active[i].startSequence != completed[j].endSequence
  {
    RecordedAreIssued(active, completed);
    forall i, j | 0 <= i < |active| && 0 <= j < |completed|
      ensures active[i].startSequence != completed[j].startSequence
      ensures active[i].startSequence != completed[j].endSequence
    {
      HeldOnce(active, completed, next, active[i].startSequence);
    }
  }

  /** Under the invariant two closed sections never share a start number. */
  lemma {:induction false} ClosedStartsDistinct(active: seq<ActiveEntry>, completed: seq<CompletedEntry>, next: nat)
    requires Wellformed(active, completed, next)
    ensures forall i, j :: 0 <= i < |completed| && 0 <= j < |completed| && i != j ==>
      completed[i].startSequence != completed[j].startSequence
  {
    var starts := CompletedStarts(completed);
    assert multiset(starts) <= Issued(active, completed);
    NoRepeats(starts, next);
    forall i, j | 0 <= i < |completed| && 0 <= j < |completed| && i != j
      ensures completed[i].startSequence != completed[j].startSequence
    {
      assert starts[i] != starts[j];
    }
  }

  /** Under the invariant no closed section starts at a number another (or
      the same) closed section ended at. */
  lemma {:induction false} ClosedStartsNotEnds(active: seq<ActiveEntry>, completed: seq<CompletedEntry>, next: nat)
    requires Wellformed(active, completed, next)
    ensures forall i, j :: 0 <= i < |completed| && 0 <= j < |completed| ==>
      completed[i].startSequence != completed[j].endSequence
  {
    RecordedAreIssued(active, completed);
    forall i, j | 0 <= i < |completed| && 0 <= j < |completed|
      ensures completed[i].startSequence != completed[j].endSequence
    {
      HeldOnce(active, completed, next, completed[i].startSequence);
    }
  }

  /** Under the invariant no number is used twice: not by two open sections,
      not by two closed ones, and not by an open and a closed one. */
  lemma SequenceNumbersDistinct(active: seq<ActiveEntry>, completed: seq<CompletedEntry>, next: nat)
    requires Wellformed(active, completed, next)
    ensures forall i, j :: 0 <= i < |active| && 0 <= j < |active| && i != j ==>
      active[i].startSequence != active[j].startSequence
    ensures forall i, j :: 0 <= i < |active| && 0 <= j < |completed| ==>
      active[i].startSequence != completed[j].startSequence && active[i].startSequence != completed[j].endSequence
    ensures forall i, j :: 0 <= i < |completed| && 0 <= j < |completed| && i != j ==>
      completed[i].startSequence != completed[j].startSequence
    ensures forall i, j :: 0 <= i < |completed| && 0 <= j < |completed| ==>
      completed[i].startSequence != completed[j].endSequence
    ensures forall i, j :: 0 <= i < |completed| && 0 <= j < |completed| && i != j ==>
      completed[i].endSequence != completed[j].endSequence
  {
    OpenNumbersNotClosed(active, completed, next);
    ClosedStartsDistinct(active, completed, next);
    ClosedStartsNotEnds(active, completed, next);
  }
}
