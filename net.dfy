/** The net computation of post_process: a section's net consumption is its
    total minus the totals of every section whose sequence interval lies
    strictly inside its own, grandchildren included, clamped at zero. */
module ProfilingNet {
  import opened ProfilingEntries

  /** e opened strictly after lo and closed strictly before hi. */
  predicate Inside(e: CompletedEntry, lo: nat, hi: nat)
  {
    e.startSequence > lo && e.endSequence < hi
  }

  function HeapTotal(e: CompletedEntry): nat
  {
    match e.heap
    case None => 0
    case Some(h) => h.totalHeap
  }

  /** Sum of totalCu over the entries of s inside (lo, hi). */
  function ChildrenCu(s: seq<CompletedEntry>, lo: nat, hi: nat): (r: nat)
    ensures forall k :: 0 <= k < |s| && Inside(s[k], lo, hi) ==> s[k].totalCu <= r
    decreases |s|
  {
    if s == [] then 0
    else
      var last := s[|s| - 1];
      ChildrenCu(s[..|s| - 1], lo, hi) + (if Inside(last, lo, hi) then last.totalCu else 0)
  }

  /** Sum of totalHeap over the entries of s inside (lo, hi); an entry without
      heap metrics adds nothing. */
  function ChildrenHeap(s: seq<CompletedEntry>, lo: nat, hi: nat): (r: nat)
    ensures forall k :: 0 <= k < |s| && Inside(s[k], lo, hi) ==> HeapTotal(s[k]) <= r
    decreases |s|
  {
    if s == [] then 0
    else
      var last := s[|s| - 1];
      ChildrenHeap(s[..|s| - 1], lo, hi) + (if Inside(last, lo, hi) then HeapTotal(last) else 0)
  }

  /** e with its net fields computed against the entries s. */
  function NetOf(s: seq<CompletedEntry>, e: CompletedEntry): (r: CompletedEntry)
    ensures WithoutNet(r) == WithoutNet(e)
    ensures r.heap.Some? <==> e.heap.Some?
    ensures r.netCu <= e.totalCu
    ensures r.heap.Some? ==> r.heap.value.netHeap <= r.heap.value.totalHeap
  {
    var lo, hi := e.startSequence, e.endSequence;
    e.(netCu := SatSub(e.totalCu, ChildrenCu(s, lo, hi)),
       heap := match e.heap
               case None => None
               case Some(h) => Some(h.(netHeap := SatSub(h.totalHeap, ChildrenHeap(s, lo, hi)))))
  }

  /** The completed list after post_process. */
  function PostProcessed(s: seq<CompletedEntry>): (r: seq<CompletedEntry>)
    ensures |r| == |s|
    ensures forall i :: 0 <= i < |s| ==> WithoutNet(r[i]) == WithoutNet(s[i])
  {
    seq(|s|, i requires 0 <= i < |s| => NetOf(s, s[i]))
  }

  /** What post_process leaves in each entry: the net fields are the totals
      minus the contained totals, saturating; nothing else changes. */
  lemma PostProcessedEntry(s: seq<CompletedEntry>, i: nat)
    requires i < |s|
    ensures var r := PostProcessed(s)[i]; var lo, hi := s[i].startSequence, s[i].endSequence;
      && WithoutNet(r) == WithoutNet(s[i])
      && r.netCu == SatSub(s[i].totalCu, ChildrenCu(s, lo, hi))
      && (r.heap.Some? <==> s[i].heap.Some?)
      && (r.heap.Some? ==> r.heap.value.netHeap == SatSub(s[i].heap.value.totalHeap, ChildrenHeap(s, lo, hi)))
  {
  }

  /** The sums read only sequence numbers and totals, never the net fields. */
  lemma {:induction false} ChildrenIgnoreNet(s: seq<CompletedEntry>, t: seq<CompletedEntry>, lo: nat, hi: nat)
    requires |s| == |t|
    requires forall k :: 0 <= k < |s| ==> WithoutNet(s[k]) == WithoutNet(t[k])
    ensures ChildrenCu(s, lo, hi) == ChildrenCu(t, lo, hi)
    ensures ChildrenHeap(s, lo, hi) == ChildrenHeap(t, lo, hi)
    decreases |s|
  {
    if s != [] {
      var n := |s| - 1;
      ChildrenIgnoreNet(s[..n], t[..n], lo, hi);
      assert WithoutNet(s[n]) == WithoutNet(t[n]);
      assert s[n].startSequence == WithoutNet(s[n]).startSequence;
      assert t[n].startSequence == WithoutNet(t[n]).startSequence;
      assert s[n].totalCu == t[n].totalCu && s[n].endSequence == t[n].endSequence;
      assert HeapTotal(s[n]) == HeapTotal(t[n]);
    }
  }

  /** NetOf overwrites the net fields, so it does not see their old values. */
  lemma NetOfIgnoresNet(s: seq<CompletedEntry>, e: CompletedEntry, f: CompletedEntry)
    requires WithoutNet(e) == WithoutNet(f)
    ensures NetOf(s, e) == NetOf(s, f)
  {
  }

  /** Running post_process twice gives the same entries as running it once. */
  lemma {:induction false} PostProcessIdempotent(s: seq<CompletedEntry>)
    ensures PostProcessed(PostProcessed(s)) == PostProcessed(s)
  {
    var t := PostProcessed(s);
    forall i | 0 <= i < |s|
      ensures PostProcessed(t)[i] == t[i]
    {
      ChildrenIgnoreNet(t, s, s[i].startSequence, s[i].endSequence);
      NetOfIgnoresNet(t, t[i], s[i]);
      NetOfIgnoresNet(s, t[i], s[i]);
      assert t[i].startSequence == s[i].startSequence by {
        assert WithoutNet(t[i]).startSequence == WithoutNet(s[i]).startSequence;
      }
      assert t[i].endSequence == s[i].endSequence by {
        assert WithoutNet(t[i]).endSequence == WithoutNet(s[i]).endSequence;
      }
    }
  }

  /** With no entry of s inside (lo, hi) there is nothing to deduct. */
  lemma {:induction false} NothingInsideSumsToZero(s: seq<CompletedEntry>, lo: nat, hi: nat)
    requires forall k :: 0 <= k < |s| ==> !Inside(s[k], lo, hi)
    ensures ChildrenCu(s, lo, hi) == 0
    ensures ChildrenHeap(s, lo, hi) == 0
    decreases |s|
  {
    if s != [] {
      NothingInsideSumsToZero(s[..|s| - 1], lo, hi);
    }
  }

  /** A section with no section strictly inside it, such as one of two
      interleaved sections, keeps net equal to total. */
  lemma SiblingNetIsTotal(s: seq<CompletedEntry>, i: nat)
    requires i < |s|
    requires forall k :: 0 <= k < |s| ==> !Inside(s[k], s[i].startSequence, s[i].endSequence)
    ensures PostProcessed(s)[i].netCu == s[i].totalCu
    ensures s[i].heap.Some? ==>
      (PostProcessed(s)[i].heap.Some? && PostProcessed(s)[i].heap.value.netHeap == s[i].heap.value.totalHeap)
  {
    NothingInsideSumsToZero(s, s[i].startSequence, s[i].endSequence);
  }

  /** Sum over a concatenation. */
  lemma {:induction false} ChildrenAppend(s: seq<CompletedEntry>, t: seq<CompletedEntry>, lo: nat, hi: nat)
    ensures ChildrenCu(s + t, lo, hi) == ChildrenCu(s, lo, hi) + ChildrenCu(t, lo, hi)
    ensures ChildrenHeap(s + t, lo, hi) == ChildrenHeap(s, lo, hi) + ChildrenHeap(t, lo, hi)
    decreases |t|
  {
    if t == [] {
      assert s + t == s;
    } else {
      var n := |t| - 1;
      assert (s + t)[..|s + t| - 1] == s + t[..n];
      ChildrenAppend(s, t[..n], lo, hi);
    }
  }

  /** Two different entries inside (lo, hi) are both deducted. */
  lemma {:induction false} TwoInsideBothCounted(s: seq<CompletedEntry>, lo: nat, hi: nat, j: nat, k: nat)
    requires j < k < |s|
    requires Inside(s[j], lo, hi) && Inside(s[k], lo, hi)
    ensures ChildrenCu(s, lo, hi) >= s[j].totalCu + s[k].totalCu
    ensures ChildrenHeap(s, lo, hi) >= HeapTotal(s[j]) + HeapTotal(s[k])
  {
    assert s == s[..k] + s[k..];
    ChildrenAppend(s[..k], s[k..], lo, hi);
    assert s[..k][j] == s[j];
    assert s[k..][0] == s[k];
  }

  /** Deduction is not limited to direct children: when k is nested in j and
      j in i, the net of i is at most its total minus both of theirs. */
  lemma GrandchildDeducted(s: seq<CompletedEntry>, i: nat, j: nat, k: nat)
    requires i < |s| && j < |s| && k < |s|
    requires Inside(s[j], s[i].startSequence, s[i].endSequence)
    requires Inside(s[k], s[j].startSequence, s[j].endSequence)
    ensures PostProcessed(s)[i].netCu <= SatSub(s[i].totalCu, s[j].totalCu + s[k].totalCu)
  {
    var lo, hi := s[i].startSequence, s[i].endSequence;
    assert Inside(s[k], lo, hi);
    if j < k {
      TwoInsideBothCounted(s, lo, hi, j, k);
    } else {
      TwoInsideBothCounted(s, lo, hi, k, j);
    }
  }

  /** When the contained totals do not exceed the total, net plus contained
      is exactly the total: post_process only splits the total, nothing is
      lost. */
  lemma NetPlusChildrenIsTotal(s: seq<CompletedEntry>, i: nat)
    requires i < |s|
    requires ChildrenCu(s, s[i].startSequence, s[i].endSequence) <= s[i].totalCu
    ensures PostProcessed(s)[i].netCu + ChildrenCu(s, s[i].startSequence, s[i].endSequence) == s[i].totalCu
  {
  }

  /** post_process keeps the engine's invariant. */
  lemma PostProcessKeepsWellformed(active: seq<ActiveEntry>, completed: seq<CompletedEntry>, next: nat)
    requires Wellformed(active, completed, next)
    ensures Wellformed(active, PostProcessed(completed), next)
  {
    SameSkeletonKeepsWellformed(active, completed, PostProcessed(completed), next);
  }
}
