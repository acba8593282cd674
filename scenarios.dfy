/** The unit tests of profiling_state.rs written as clients of the engine:
    each drives a fresh engine through the test's calls and its postcondition
    states what the test asserts. */
module ProfilingScenarios {
  import opened ProfilingEntries
  import opened ProfilingNet
  import opened Profiling

  lemma ChildrenOfTwo(x: CompletedEntry, y: CompletedEntry, lo: nat, hi: nat)
    ensures ChildrenCu([x, y], lo, hi)
         == (if Inside(x, lo, hi) then x.totalCu else 0) + (if Inside(y, lo, hi) then y.totalCu else 0)
    ensures ChildrenHeap([x, y], lo, hi)
         == (if Inside(x, lo, hi) then HeapTotal(x) else 0) + (if Inside(y, lo, hi) then HeapTotal(y) else 0)
  {
    assert [x, y][..1] == [x];
    assert [x][..0] == [];
    assert ChildrenCu([x], lo, hi) == (if Inside(x, lo, hi) then x.totalCu else 0);
    assert ChildrenHeap([x], lo, hi) == (if Inside(x, lo, hi) then HeapTotal(x) else 0);
  }

  lemma ChildrenOfThree(x: CompletedEntry, y: CompletedEntry, z: CompletedEntry, lo: nat, hi: nat)
    ensures ChildrenCu([x, y, z], lo, hi)
         == (if Inside(x, lo, hi) then x.totalCu else 0) + (if Inside(y, lo, hi) then y.totalCu else 0)
          + (if Inside(z, lo, hi) then z.totalCu else 0)
  {
    assert [x, y, z][..2] == [x, y];
    ChildrenOfTwo(x, y, lo, hi);
  }

  /** Net values of a one-entry list. */
  lemma PostProcessedOne(s: seq<CompletedEntry>)
    requires |s| == 1
    ensures PostProcessed(s)[0].netCu == s[0].totalCu
    ensures s[0].heap.Some? ==>
      (PostProcessed(s)[0].heap.Some? && PostProcessed(s)[0].heap.value.netHeap == s[0].heap.value.totalHeap)
  {
    NothingInsideSumsToZero(s, s[0].startSequence, s[0].endSequence);
  }

  /** Net values of a two-entry list, each deducting the other if inside it. */
  lemma PostProcessedTwo(s: seq<CompletedEntry>)
    requires |s| == 2
    ensures PostProcessed(s)[0].netCu
      == SatSub(s[0].totalCu, if Inside(s[1], s[0].startSequence, s[0].endSequence) then s[1].totalCu else 0)
    ensures PostProcessed(s)[1].netCu
      == SatSub(s[1].totalCu, if Inside(s[0], s[1].startSequence, s[1].endSequence) then s[0].totalCu else 0)
    ensures s[0].heap.Some? ==>
      (PostProcessed(s)[0].heap.Some? && PostProcessed(s)[0].heap.value.netHeap
        == SatSub(s[0].heap.value.totalHeap,
                  if Inside(s[1], s[0].startSequence, s[0].endSequence) then HeapTotal(s[1]) else 0))
    ensures s[1].heap.Some? ==>
      (PostProcessed(s)[1].heap.Some? && PostProcessed(s)[1].heap.value.netHeap
        == SatSub(s[1].heap.value.totalHeap,
                  if Inside(s[0], s[1].startSequence, s[1].endSequence) then HeapTotal(s[0]) else 0))
  {
    assert s == [s[0], s[1]];
    ChildrenOfTwo(s[0], s[1], s[0].startSequence, s[0].endSequence);
    ChildrenOfTwo(s[0], s[1], s[1].startSequence, s[1].endSequence);
  }

  /** Net values of a three-entry list. */
  lemma PostProcessedThree(s: seq<CompletedEntry>, i: nat)
    requires |s| == 3 && i < 3
    ensures PostProcessed(s)[i].netCu == SatSub(s[i].totalCu,
      (if Inside(s[0], s[i].startSequence, s[i].endSequence) then s[0].totalCu else 0)
      + (if Inside(s[1], s[i].startSequence, s[i].endSequence) then s[1].totalCu else 0)
      + (if Inside(s[2], s[i].startSequence, s[i].endSequence) then s[2].totalCu else 0))
  {
    assert s == [s[0], s[1], s[2]];
    ChildrenOfThree(s[0], s[1], s[2], s[i].startSequence, s[i].endSequence);
  }

  /** start("test", 1000), end("test", 800), post_process. */
  method BasicScenario() returns (openAfterStart: nat, countAfterStart: nat,
                                  openAfterEnd: nat, count: nat, entry: CompletedEntry)
    ensures openAfterStart == 1 && countAfterStart == 0
    ensures openAfterEnd == 0 && count == 1
    ensures entry.id == "test" && entry.totalCu == 200 && entry.netCu == 200 && entry.heap.None?
  {
    var state := new ProfilingState();
    state.Start("test", 1000, 0, false);
    openAfterStart, countAfterStart := |state.GetActive()|, state.CompletedCount();
    assert state.activeStack == [ActiveEntry("test", 1000, 0, None)];
    assert LastIndexOf(state.activeStack, "test") == Some(0);
    var res := state.End("test", 800, 0, false);
    openAfterEnd, count := |state.GetActive()|, state.CompletedCount();
    ghost var before := state.completed;
    assert |before| == 1 && before[0].id == "test" && before[0].totalCu == 200 && before[0].heap.None?;
    PostProcessedOne(before);
    state.PostProcess();
    SameExceptNet(state.completed[0], before[0]);
    entry := state.completed[0];
  }

  /** outer opens, inner opens, inner closes, outer closes. */
  method NestedScenario() returns (count: nat, inner: CompletedEntry, outer: CompletedEntry)
    ensures count == 2
    ensures inner.id == "inner" && inner.totalCu == 100 && inner.netCu == 100
    ensures outer.id == "outer" && outer.totalCu == 300 && outer.netCu == 200
  {
    var state := new ProfilingState();
    state.Start("outer", 1000, 0, false);
    state.Start("inner", 900, 0, false);
    ghost var o := ActiveEntry("outer", 1000, 0, None);
    assert state.activeStack == [o, ActiveEntry("inner", 900, 1, None)];
    assert LastIndexOf(state.activeStack, "inner") == Some(1);
    var r1 := state.End("inner", 800, 0, false);
    assert state.activeStack == [o];
    assert LastIndexOf(state.activeStack, "outer") == Some(0);
    var r2 := state.End("outer", 700, 0, false);
    ghost var before := state.completed;
    assert |before| == 2;
    assert before[0].id == "inner" && before[0].totalCu == 100;
    assert before[0].startSequence == 1 && before[0].endSequence == 2;
    assert before[1].id == "outer" && before[1].totalCu == 300;
    assert before[1].startSequence == 0 && before[1].endSequence == 3;
    PostProcessedTwo(before);
    state.PostProcess();
    count := state.CompletedCount();
    SameExceptNet(state.completed[0], before[0]);
    SameExceptNet(state.completed[1], before[1]);
    inner := state.completed[0];
    outer := state.completed[1];
  }

  /** A opens, B opens, A closes, B closes: neither contains the other. */
  method InterleavedScenario() returns (count: nat, a: CompletedEntry, b: CompletedEntry)
    ensures count == 2
    ensures a.id == "A" && a.totalCu == 200 && a.netCu == 200
    ensures b.id == "B" && b.totalCu == 200 && b.netCu == 200
  {
    var state := new ProfilingState();
    state.Start("A", 1000, 0, false);
    state.Start("B", 900, 0, false);
    ghost var ob := ActiveEntry("B", 900, 1, None);
    assert state.activeStack == [ActiveEntry("A", 1000, 0, None), ob];
    assert LastIndexOf(state.activeStack, "A") == Some(0);
    var r1 := state.End("A", 800, 0, false);
    assert state.activeStack == [ob];
    assert LastIndexOf(state.activeStack, "B") == Some(0);
    var r2 := state.End("B", 700, 0, false);
    ghost var before := state.completed;
    assert |before| == 2;
    assert before[0].id == "A" && before[0].totalCu == 200;
    assert before[0].startSequence == 0 && before[0].endSequence == 2;
    assert before[1].id == "B" && before[1].totalCu == 200;
    assert before[1].startSequence == 1 && before[1].endSequence == 3;
    PostProcessedTwo(before);
    state.PostProcess();
    count := state.CompletedCount();
    SameExceptNet(state.completed[0], before[0]);
    SameExceptNet(state.completed[1], before[1]);
    a := state.completed[0];
    b := state.completed[1];
  }

  /** The same id opened twice: the first end closes the second open. */
  method SameIdScenario() returns (count: nat, inner: CompletedEntry, outer: CompletedEntry)
    ensures count == 2
    ensures inner.startSequence == 1 && inner.endSequence == 2
    ensures inner.totalCu == 100 && inner.netCu == 100
    ensures outer.startSequence == 0 && outer.endSequence == 3
    ensures outer.totalCu == 300 && outer.netCu == 200
  {
    var state := new ProfilingState();
    state.Start("test", 1000, 0, false);
    state.Start("test", 900, 0, false);
    ghost var o := ActiveEntry("test", 1000, 0, None);
    assert state.activeStack == [o, ActiveEntry("test", 900, 1, None)];
    assert LastIndexOf(state.activeStack, "test") == Some(1);
    var r1 := state.End("test", 800, 0, false);
    assert state.activeStack == [o];
    assert LastIndexOf(state.activeStack, "test") == Some(0);
    var r2 := state.End("test", 700, 0, false);
    ghost var before := state.completed;
    assert |before| == 2;
    assert before[0].totalCu == 100 && before[0].startSequence == 1 && before[0].endSequence == 2;
    assert before[1].totalCu == 300 && before[1].startSequence == 0 && before[1].endSequence == 3;
    PostProcessedTwo(before);
    state.PostProcess();
    count := state.CompletedCount();
    SameExceptNet(state.completed[0], before[0]);
    SameExceptNet(state.completed[1], before[1]);
    inner := state.completed[0];
    outer := state.completed[1];
  }

  /** Three levels: outer's net deducts both middle and inner. */
  method ComplexNestedScenario() returns (count: nat, inner: CompletedEntry, middle: CompletedEntry, outer: CompletedEntry)
    ensures count == 3
    ensures inner.id == "inner" && inner.totalCu == 100 && inner.netCu == 100
    ensures middle.id == "middle" && middle.totalCu == 300 && middle.netCu == 200
    ensures outer.id == "outer" && outer.totalCu == 500 && outer.netCu == 100
  {
    var state := new ProfilingState();
    state.Start("outer", 1000, 0, false);
    state.Start("middle", 900, 0, false);
    state.Start("inner", 800, 0, false);
    ghost var o := ActiveEntry("outer", 1000, 0, None);
    ghost var m := ActiveEntry("middle", 900, 1, None);
    assert state.activeStack == [o, m, ActiveEntry("inner", 800, 2, None)];
    assert LastIndexOf(state.activeStack, "inner") == Some(2);
    var r1 := state.End("inner", 700, 0, false);
    assert state.activeStack == [o, m];
    assert LastIndexOf(state.activeStack, "middle") == Some(1);
    var r2 := state.End("middle", 600, 0, false);
    assert state.activeStack == [o];
    assert LastIndexOf(state.activeStack, "outer") == Some(0);
    var r3 := state.End("outer", 500, 0, false);
    ghost var before := state.completed;
    assert |before| == 3;
    assert before[0].id == "inner" && before[0].totalCu == 100;
    assert before[0].startSequence == 2 && before[0].endSequence == 3;
    assert before[1].id == "middle" && before[1].totalCu == 300;
    assert before[1].startSequence == 1 && before[1].endSequence == 4;
    assert before[2].id == "outer" && before[2].totalCu == 500;
    assert before[2].startSequence == 0 && before[2].endSequence == 5;
    PostProcessedThree(before, 0);
    PostProcessedThree(before, 1);
    PostProcessedThree(before, 2);
    state.PostProcess();
    count := state.CompletedCount();
    SameExceptNet(state.completed[0], before[0]);
    SameExceptNet(state.completed[1], before[1]);
    SameExceptNet(state.completed[2], before[2]);
    inner := state.completed[0];
    middle := state.completed[1];
    outer := state.completed[2];
  }

  /** Ending an id that was never opened fails and leaves everything as it was. */
  method EndUnknownIdScenario() returns (res: Outcome, active: nat, count: nat)
    ensures res == Fail(NoActiveSection("nonexistent"))
    ensures active == 1 && count == 0
  {
    var state := new ProfilingState();
    state.Start("test", 1000, 0, false);
    assert state.activeStack == [ActiveEntry("test", 1000, 0, None)];
    assert LastIndexOf(state.activeStack, "nonexistent") == None;
    res := state.End("nonexistent", 800, 0, false);
    active := |state.GetActive()|;
    count := state.CompletedCount();
  }

  /** clear empties both lists and restarts numbering: the next section opens
      with sequence number 0 again. */
  method ClearScenario() returns (countBefore: nat, activeAfter: nat, countAfter: nat, nextAfter: nat,
                                  hasActive: bool, restarted: ActiveEntry)
    ensures countBefore == 1
    ensures activeAfter == 0 && countAfter == 0 && nextAfter == 0 && !hasActive
    ensures restarted.startSequence == 0
  {
    var state := new ProfilingState();
    state.Start("test", 1000, 0, false);
    assert state.activeStack == [ActiveEntry("test", 1000, 0, None)];
    assert LastIndexOf(state.activeStack, "test") == Some(0);
    var res := state.End("test", 800, 0, false);
    state.PostProcess();
    countBefore := state.CompletedCount();
    state.Clear();
    activeAfter, countAfter, nextAfter := |state.GetActive()|, state.CompletedCount(), state.nextSequence;
    hasActive := state.HasActive();
    state.Start("again", 700, 0, false);
    restarted := state.activeStack[0];
  }

  /** has_active and completed_count follow one start/end pair. */
  method HasActiveScenario() returns (a0: bool, c0: nat, a1: bool, c1: nat, a2: bool, c2: nat)
    ensures !a0 && c0 == 0
    ensures a1 && c1 == 0
    ensures !a2 && c2 == 1
  {
    var state := new ProfilingState();
    a0, c0 := state.HasActive(), state.CompletedCount();
    state.Start("test", 1000, 0, false);
    a1, c1 := state.HasActive(), state.CompletedCount();
    assert state.activeStack == [ActiveEntry("test", 1000, 0, None)];
    assert LastIndexOf(state.activeStack, "test") == Some(0);
    var res := state.End("test", 800, 0, false);
    a2, c2 := state.HasActive(), state.CompletedCount();
  }

  /** Heap tracking on at every call, nested. remainingHeap is 32000 minus the
      usage at open. */
  method HeapEnabledScenario() returns (count: nat, inner: CompletedEntry, outer: CompletedEntry)
    ensures count == 2
    ensures inner.id == "inner" && outer.id == "outer"
    ensures inner.totalCu == 500 && inner.netCu == 500
    ensures outer.totalCu == 1500 && outer.netCu == 1000
    ensures inner.heap.Some? && outer.heap.Some?
    ensures inner.heap.value.startHeap == 1200 && inner.heap.value.endHeap == 1400
    ensures inner.heap.value.totalHeap == 200 && inner.heap.value.netHeap == 200
    ensures inner.heap.value.remainingHeap == 30800
    ensures outer.heap.value.startHeap == 1000 && outer.heap.value.endHeap == 1600
    ensures outer.heap.value.totalHeap == 600 && outer.heap.value.netHeap == 400
    ensures outer.heap.value.remainingHeap == 31000
  {
    var state := new ProfilingState();
    state.Start("outer", 5000, 1000, true);
    state.Start("inner", 4500, 1200, true);
    ghost var o := ActiveEntry("outer", 5000, 0, Some(1000));
    assert state.activeStack == [o, ActiveEntry("inner", 4500, 1, Some(1200))];
    assert LastIndexOf(state.activeStack, "inner") == Some(1);
    var r1 := state.End("inner", 4000, 1400, true);
    assert state.activeStack == [o];
    assert LastIndexOf(state.activeStack, "outer") == Some(0);
    var r2 := state.End("outer", 3500, 1600, true);
    ghost var before := state.completed;
    assert |before| == 2;
    assert before[0].id == "inner" && before[1].id == "outer";
    assert before[0].totalCu == 500 && before[0].startSequence == 1 && before[0].endSequence == 2;
    assert before[0].heap == HeapAtClose(Some(1200), 1400, true);
    assert before[1].totalCu == 1500 && before[1].startSequence == 0 && before[1].endSequence == 3;
    assert before[1].heap == HeapAtClose(Some(1000), 1600, true);
    PostProcessedTwo(before);
    state.PostProcess();
    count := state.CompletedCount();
    SameExceptNet(state.completed[0], before[0]);
    SameExceptNet(state.completed[1], before[1]);
    inner := state.completed[0];
    outer := state.completed[1];
  }

  /** One section opened with heap tracking startFlag and closed with endFlag:
      heap metrics exist only when both are on. With one of them off this is
      each of the three cases of the heap-disabled test. */
  method HeapFlagsScenario(startFlag: bool, endFlag: bool) returns (entry: CompletedEntry, count: nat)
    ensures count == 1
    ensures entry.heap.Some? <==> startFlag && endFlag
    ensures entry.heap.Some? ==> entry.heap.value.totalHeap == 100 && entry.heap.value.netHeap == 100
  {
    var state := new ProfilingState();
    state.Start("section", 1000, 500, startFlag);
    assert state.activeStack == [ActiveEntry("section", 1000, 0, if startFlag then Some(500) else None)];
    assert LastIndexOf(state.activeStack, "section") == Some(0);
    var res := state.End("section", 800, 600, endFlag);
    ghost var before := state.completed;
    assert |before| == 1 && before[0].heap == HeapAtClose(if startFlag then Some(500) else None, 600, endFlag);
    PostProcessedOne(before);
    state.PostProcess();
    SameExceptNet(state.completed[0], before[0]);
    count := state.CompletedCount();
    entry := state.completed[0];
  }

  /** The heap test expects remainingHeap to be the end heap values 1400 and
      1600; the code computes 32000 minus the start heap for the same calls,
      so those expectations do not hold. */
  lemma RemainingHeapIsNotEndHeap()
    ensures HeapAtClose(Some(1200), 1400, true).value.remainingHeap != 1400
    ensures HeapAtClose(Some(1000), 1600, true).value.remainingHeap != 1600
  {
  }
}
