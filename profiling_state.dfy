/** The nested-section profiling engine: a stack of open sections, the list of
    closed ones, and the counter that numbers every start and end event. */
module Profiling {
  import opened ProfilingEntries
  import opened ProfilingNet

  /** The one error of the engine: end was called for an id with no open
      section. It carries the id. */
  datatype ProfilingError = NoActiveSection(id: string)

  datatype Outcome = Pass | Fail(error: ProfilingError)

  /** Index of the most recently pushed entry with the given id (Rust's
      rposition over the stack). */
  function LastIndexOf(stack: seq<ActiveEntry>, id: string): (r: Option<nat>)
    ensures r.Some? ==> r.value < |stack| && stack[r.value].id == id
    ensures r.Some? ==> forall j :: r.value < j < |stack| ==> stack[j].id != id
    ensures r.None? <==> forall j :: 0 <= j < |stack| ==> stack[j].id != id
    decreases |stack|
  {
    if stack == [] then None
    else if stack[|stack| - 1].id == id then Some(|stack| - 1)
    else LastIndexOf(stack[..|stack| - 1], id)
  }

  /** On a stack ordered by opening, the entry LastIndexOf finds is the one
      opened last among those with that id: re-entered sections close
      innermost first. */
  lemma LatestOpenedClosesFirst(stack: seq<ActiveEntry>, id: string)
    requires StartsIncreasing(stack)
    requires LastIndexOf(stack, id).Some?
    ensures forall j :: 0 <= j < |stack| && stack[j].id == id ==>
      stack[j].startSequence <= stack[LastIndexOf(stack, id).value].startSequence
  {
  }

  class ProfilingState {
    var activeStack: seq<ActiveEntry>
    var completed: seq<CompletedEntry>
    var nextSequence: nat

    /** The sequence-number invariant of the three fields. The methods need
        it nowhere; the lemmas EmptyWellformed, StartKeepsWellformed,
        EndKeepsWellformed and PostProcessKeepsWellformed show that every state
        the methods can produce from a fresh engine satisfies it. */
    ghost predicate Valid()
      reads this
    {
      Wellformed(activeStack, completed, nextSequence)
    }

    constructor ()
      ensures Valid()
      ensures activeStack == [] && completed == [] && nextSequence == 0
    {
      activeStack := [];
      completed := [];
      nextSequence := 0;
      EmptyWellformed();
    }

    /** Opens a section: pushes it, stamped with the current sequence number. */
    method Start(id: string, currentCu: u64, heapValue: u64, withHeap: bool)
      modifies this
      ensures activeStack == old(activeStack)
        + [ActiveEntry(id, currentCu, old(nextSequence), if withHeap then Some(heapValue) else None)]
      ensures completed == old(completed)
      ensures nextSequence == old(nextSequence) + 1
    {
      var entry := ActiveEntry(
        id := id,
        startCu := currentCu,
        startSequence := nextSequence,
        startHeap := if withHeap then Some(heapValue) else None);
      activeStack := activeStack + [entry];
      nextSequence := nextSequence + 1;
    }

    /** Closes the most recently opened section with this id. Fails, changing
        nothing, when there is none. */
    method End(id: string, currentCu: u64, heapValue: u64, withHeap: bool) returns (res: Outcome)
      modifies this
      ensures LastIndexOf(old(activeStack), id).None? ==>
        && res == Fail(NoActiveSection(id))
        && activeStack == old(activeStack)
        && completed == old(completed)
        && nextSequence == old(nextSequence)
      ensures LastIndexOf(old(activeStack), id).Some? ==>
        var pos := LastIndexOf(old(activeStack), id).value;
        var a := old(activeStack)[pos];
        && res == Pass
        && activeStack == old(activeStack)[..pos] + old(activeStack)[pos + 1..]
        && completed == old(completed) + [CompletedEntry(
             id := id,
             startCu := a.startCu,
             endCu := currentCu,
             startSequence := a.startSequence,
             endSequence := old(nextSequence),
             totalCu := SatSub(a.startCu, currentCu),
             netCu := 0,
             remainingCu := a.startCu,
             heap := HeapAtClose(a.startHeap, heapValue, withHeap))]
        && nextSequence == old(nextSequence) + 1
    {
      var found := LastIndexOf(activeStack, id);
      if found.None? {
        return Fail(NoActiveSection(id));
      }
      var pos := found.value;
      var activeEntry := activeStack[pos];
      var entry := CompletedEntry(
        id := activeEntry.id,
        startCu := activeEntry.startCu,
        endCu := currentCu,
        startSequence := activeEntry.startSequence,
        endSequence := nextSequence,
        totalCu := SatSub(activeEntry.startCu, currentCu),
        netCu := 0,
        remainingCu := activeEntry.startCu,
        heap := HeapAtClose(activeEntry.startHeap, heapValue, withHeap));
      activeStack := activeStack[..pos] + activeStack[pos + 1..];
      completed := completed + [entry];
      nextSequence := nextSequence + 1;
      res := Pass;
    }

    /** The inner loop of post_process: the totals of the completed entries
        inside (lo, hi). */
    method ContainedTotals(lo: nat, hi: nat) returns (childrenCu: nat, childrenHeap: nat)
      ensures childrenCu == ChildrenCu(completed, lo, hi)
      ensures childrenHeap == ChildrenHeap(completed, lo, hi)
    {
      childrenCu, childrenHeap := 0, 0;
      var j := 0;
      while j < |completed|
        invariant 0 <= j <= |completed|
        invariant childrenCu == ChildrenCu(completed[..j], lo, hi)
        invariant childrenHeap == ChildrenHeap(completed[..j], lo, hi)
      {
        var other := completed[j];
        assert completed[..j + 1][..j] == completed[..j];
        if other.startSequence > lo && other.endSequence < hi {
          childrenCu := childrenCu + other.totalCu;
          if other.heap.Some? {
            childrenHeap := childrenHeap + other.heap.value.totalHeap;
          }
        }
        j := j + 1;
      }
      assert completed[..j] == completed;
    }

    /** Fills in netCu and netHeap of every completed entry, in place. */
    method PostProcess()
      modifies this
      ensures completed == PostProcessed(old(completed))
      ensures activeStack == old(activeStack) && nextSequence == old(nextSequence)
    {
      ghost var original := completed;
      var i := 0;
      while i < |completed|
        invariant |completed| == |original|
        invariant 0 <= i <= |completed|
        invariant forall k :: 0 <= k < i ==> completed[k] == NetOf(original, original[k])
        invariant forall k :: i <= k < |completed| ==> completed[k] == original[k]
        invariant forall k :: 0 <= k < |completed| ==> WithoutNet(completed[k]) == WithoutNet(original[k])
        invariant activeStack == old(activeStack) && nextSequence == old(nextSequence)
      {
        var entry := completed[i];
        var childrenCu, childrenHeap := ContainedTotals(entry.startSequence, entry.endSequence);
        ChildrenIgnoreNet(completed, original, entry.startSequence, entry.endSequence);
        var updated := entry.(netCu := SatSub(entry.totalCu, childrenCu));
        if updated.heap.Some? {
          var heap := updated.heap.value;
          updated := updated.(heap := Some(heap.(netHeap := SatSub(heap.totalHeap, childrenHeap))));
        }
        completed := completed[i := updated];
        i := i + 1;
      }
    }

    /** The completed sections, in the order they closed. */
    function GetCompleted(): (r: seq<CompletedEntry>)
      reads this
      ensures r == completed
      ensures Valid() ==> forall i, j :: 0 <= i < j < |r| ==> r[i].endSequence < r[j].endSequence
    {
      completed
    }

    /** The open sections, in the order they opened (top of the stack last). */
    function GetActive(): (r: seq<ActiveEntry>)
      reads this
      ensures r == activeStack
      ensures Valid() ==> forall i, j :: 0 <= i < j < |r| ==> r[i].startSequence < r[j].startSequence
    {
      activeStack
    }

    /** Drops every entry and restarts numbering at zero. */
    method Clear()
      modifies this
      ensures Valid()
      ensures activeStack == [] && completed == [] && nextSequence == 0
      ensures !HasActive() && CompletedCount() == 0
    {
      activeStack := [];
      completed := [];
      nextSequence := 0;
      EmptyWellformed();
    }

    /** True when some section is open, that is, when some end call would
        succeed. */
    function HasActive(): (r: bool)
      reads this
      ensures r <==> exists id :: LastIndexOf(activeStack, id).Some?
    {
      assert activeStack != [] ==> LastIndexOf(activeStack, activeStack[|activeStack| - 1].id).Some?;
      activeStack != []
    }

    /** The number of completed sections; each used two sequence numbers and
        each open section one. */
    function CompletedCount(): (r: nat)
      reads this
      ensures r == |completed|
      ensures Valid() ==> 2 * r + |activeStack| == nextSequence
    {
      BelowSize(nextSequence);
      |completed|
    }
  }
}
