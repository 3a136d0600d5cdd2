/** The doom-loop guard's bounded repeat counter (core/agentgraph/doomloop.go).
    The hash of a call's arguments is taken as the call itself, so a key below is
    the (tool, normalised arguments) pair. */
module DoomLoop {
  import opened Wrappers
  import opened Lru

  type Counts = Table<string, nat>

  const HISTORY_CAPACITY: nat := 128

  /** One touch: the new table and the reported repeat count. */
  function TouchTable(t: Counts, key: string, cap: nat): (Counts, nat) {
    var n := match Find(t, key) case Some(c) => c + 1 case None => 1;
    (Upsert(t, key, n, cap), n)
  }

  /** The table after a history of touches, oldest first. */
  function Run(h: seq<string>, cap: nat): Counts {
    if |h| == 0 then [] else TouchTable(Run(h[..|h| - 1], cap), h[|h| - 1], cap).0
  }

  class ToolCallHistory {
    const table: LinkedTable<string, nat>

    constructor (capacity: int)
      ensures table.Valid() && table.Contents() == [] && fresh(table) && table.order == []
      ensures table.capacity == if capacity <= 0 then HISTORY_CAPACITY else capacity
    {
      table := new LinkedTable(capacity, HISTORY_CAPACITY);
    }

    method Touch(key: string) returns (count: nat)
      requires table.Valid()
      modifies table, table.order
      ensures table.Valid() && (forall c :: c in table.order ==> c in old(table.order) || fresh(c))
      ensures table.Contents() == TouchTable(old(table.Contents()), key, table.capacity).0
      ensures count == TouchTable(old(table.Contents()), key, table.capacity).1
    {
      table.EntryFacts(key);
      ghost var before := table.Contents();
      if key in table.elems {
        var entry := table.elems[key];
        count := entry.val + 1;
        table.Refresh(entry, count);
        assert Find(before, key).Some?;
      } else {
        count := 1;
        table.Insert(key, count);
      }
    }
  }

  // ---- what the counts mean ----

  /** The tracked keys are the `cap` most recently touched distinct ones. */
  lemma {:induction false} RunKeys(h: seq<string>, cap: nat)
    requires cap >= 1
    ensures Keys(Run(h, cap)) == Tracked(h, cap) && NoDup(Keys(Run(h, cap)))
    ensures |Run(h, cap)| <= cap
  {
    if |h| > 0 {
      var g, k := h[..|h| - 1], h[|h| - 1];
      RunKeys(g, cap);
      UpsertKeys(Run(g, cap), k, TouchTable(Run(g, cap), k, cap).1, cap);
      TrackedStep(g, k, cap);
      assert g + [k] == h;
    }
  }

  /** How much of the history had passed when `k` was last absent. */
  function LastAbsent(h: seq<string>, k: string, cap: nat): (p: nat)
    ensures p <= |h| && k !in Tracked(h[..p], cap)
    ensures forall q :: p < q <= |h| ==> k in Tracked(h[..q], cap)
  {
    assert h[..|h|] == h;
    if k !in Tracked(h, cap) then |h|
    else
      var g := h[..|h| - 1];
      var p := LastAbsent(g, k, cap);
      assert forall q :: 0 <= q <= |g| ==> g[..q] == h[..q];
      p
  }

  lemma RunStep(g: seq<string>, x: string, cap: nat)
    ensures Run(g + [x], cap) == TouchTable(Run(g, cap), x, cap).0
  {
    assert (g + [x])[..|g|] == g;
  }

  lemma LastAbsentStep(g: seq<string>, x: string, k: string, cap: nat)
    ensures LastAbsent(g + [x], k, cap) == if k in Tracked(g + [x], cap) then LastAbsent(g, k, cap) else |g| + 1
  {
    assert (g + [x])[..|g|] == g;
  }

  lemma CountStep(g: seq<string>, x: string, k: string, p: nat)
    requires p <= |g|
    ensures Occurrences((g + [x])[p..], k) == Occurrences(g[p..], k) + if x == k then 1 else 0
  {
    assert (g + [x])[p..] == g[p..] + [x];
    assert (g[p..] + [x])[..|g[p..]|] == g[p..];
  }

  /** What CountSinceAbsent says of one history. */
  ghost predicate Counted(h: seq<string>, k: string, cap: nat) {
    Find(Run(h, cap), k) == if k in Tracked(h, cap) then Some(Occurrences(h[LastAbsent(h, k, cap)..], k)) else None
  }

  lemma CountedOwn(g: seq<string>, k: string, cap: nat)
    requires cap >= 1 && Counted(g, k, cap)
    ensures Counted(g + [k], k, cap)
  {
    var t := Run(g, cap);
    RunKeys(g, cap);
    RunStep(g, k, cap);
    TrackedStep(g, k, cap);
    UpsertKeys(t, k, TouchTable(t, k, cap).1, cap);
    LastAbsentStep(g, k, k, cap);
    CountStep(g, k, k, LastAbsent(g, k, cap));
    if k !in Tracked(g, cap) {
      assert LastAbsent(g, k, cap) == |g| && g[|g|..] == [];
    }
  }

  lemma CountedOther(g: seq<string>, x: string, k: string, cap: nat)
    requires cap >= 1 && x != k && Counted(g, k, cap)
    ensures Counted(g + [x], k, cap)
  {
    var t := Run(g, cap);
    RunKeys(g, cap);
    RunStep(g, x, cap);
    TrackedStep(g, x, cap);
    UpsertOthers(t, x, TouchTable(t, x, cap).1, cap, k);
    if k in Tracked(g, cap) {
      LastAbsentStep(g, x, k, cap);
      CountStep(g, x, k, LastAbsent(g, k, cap));
    } else {
      AbsentStays(g, x, k, cap);
    }
  }

  /** The stored count of a tracked key is the number of touches since it was last
      absent; an untracked key has none. */
  lemma {:induction false} CountSinceAbsent(h: seq<string>, k: string, cap: nat)
    requires cap >= 1
    ensures Find(Run(h, cap), k) ==
      if k in Tracked(h, cap) then Some(Occurrences(h[LastAbsent(h, k, cap)..], k)) else None
  {
    if |h| > 0 {
      var g, x := h[..|h| - 1], h[|h| - 1];
      CountSinceAbsent(g, k, cap);
      assert g + [x] == h;
      if x == k {
        CountedOwn(g, k, cap);
      } else {
        CountedOther(g, x, k, cap);
      }
      assert Counted(h, k, cap);
    }
  }

  /** Only its own touch makes a key tracked. */
  lemma AbsentStays(g: seq<string>, x: string, k: string, cap: nat)
    requires cap >= 1 && x != k && k !in Tracked(g, cap)
    ensures k !in Tracked(g + [x], cap)
  {
    TrackedStep(g, x, cap);
    if x in Tracked(g, cap) {
      TakeNoDup(Recent(g), cap);
      RemoveNoDup(Tracked(g, cap), x);
    }
  }

  lemma TakeNoDup<T>(s: seq<T>, n: nat)
    requires NoDup(s)
    ensures NoDup(Take(s, n))
  {
  }

  /** The reported count is the number of touches since the key was last absent,
      this one included. */
  lemma TouchReports(h: seq<string>, k: string, cap: nat)
    requires cap >= 1
    ensures TouchTable(Run(h, cap), k, cap).1 == Occurrences((h + [k])[LastAbsent(h + [k], k, cap)..], k)
    ensures LastAbsent(h + [k], k, cap) <= |h|
  {
    var g := h + [k];
    assert g[..|g| - 1] == h && g[|g| - 1] == k;
    RunKeys(h, cap);
    TrackedStep(h, k, cap);
    assert k in Tracked(g, cap);
    CountSinceAbsent(g, k, cap);
    UpsertKeys(Run(h, cap), k, TouchTable(Run(h, cap), k, cap).1, cap);
  }

  /** Fewer than `cap` distinct keys separate any two consecutive touches of `k`. */
  ghost predicate NoLongGap(h: seq<string>, k: string, cap: nat) {
    forall i, j :: 0 <= i < j < |h| && h[i] == k && h[j] == k && k !in h[i + 1..j]
      ==> |SetOf(h[i + 1..j])| < cap
  }

  /** Nothing of `k` lies before `p` exactly when all its uses lie after. */
  lemma AllAfter(g: seq<string>, k: string, p: nat)
    requires p <= |g|
    ensures Occurrences(g[p..], k) == Occurrences(g, k) <==> k !in g[..p]
  {
    assert g == g[..p] + g[p..];
    OccurrencesSplit(g[..p], g[p..], k);
    OccurrencesPositive(g[..p], k);
  }

  /** `k` has a long gap exactly when it was used before the last time it was absent. */
  lemma GapIffBefore(g: seq<string>, k: string, cap: nat, p: nat)
    requires p < |g| && g[|g| - 1] == k && k !in Tracked(g[..p], cap)
    requires forall q :: p < q <= |g| ==> k in Tracked(g[..q], cap)
    ensures NoLongGap(g, k, cap) <==> k !in g[..p]
  {
    if k in g[..p] {
      GapBeforeAbsence(g, k, cap, p);
    } else {
      NoGapAfter(g, k, cap, p);
    }
  }

  /** The reported count is the true total over the whole run exactly when no two
      consecutive touches of the key are `cap` or more other keys apart. */
  lemma TrueTotalIff(h: seq<string>, k: string, cap: nat)
    requires cap >= 1
    ensures TouchTable(Run(h, cap), k, cap).1 == Occurrences(h + [k], k) <==> NoLongGap(h + [k], k, cap)
  {
    var g := h + [k];
    var p := LastAbsent(g, k, cap);
    TouchReports(h, k, cap);
    AllAfter(g, k, p);
    GapIffBefore(g, k, cap, p);
  }

  lemma NoGapAfter(g: seq<string>, k: string, cap: nat, p: nat)
    requires p <= |g| && k !in g[..p]
    requires forall q :: p < q <= |g| ==> k in Tracked(g[..q], cap)
    ensures NoLongGap(g, k, cap)
  {
    forall i, j | 0 <= i < j < |g| && g[i] == k && g[j] == k && k !in g[i + 1..j]
      ensures |SetOf(g[i + 1..j])| < cap
    {
      assert i >= p;
      TrackedGap(g, k, cap, i, j);
    }
  }

  /** A key touched, later absent and touched again has a long gap in between. */
  lemma GapBeforeAbsence(g: seq<string>, k: string, cap: nat, p: nat)
    requires p < |g| && k in g[..p] && k !in Tracked(g[..p], cap) && g[|g| - 1] == k
    ensures !NoLongGap(g, k, cap)
  {
    var i := LastUse(g[..p], k);
    var j := NextUse(g, k, p);
    assert g[..p][i + 1..] == g[i + 1..p];
    assert g[i + 1..j] == g[i + 1..p] + g[p..j];
    TrackedIff(g[..p], k, cap);
    assert !FreshUse(g[..p], k, cap, i);
    assert SetOf(g[i + 1..p]) <= SetOf(g[i + 1..j]);
    SubsetSize(SetOf(g[i + 1..p]), SetOf(g[i + 1..j]));
  }

  lemma NextUse(g: seq<string>, k: string, p: nat) returns (j: nat)
    requires p < |g| && g[|g| - 1] == k
    ensures p <= j < |g| && g[j] == k && k !in g[p..j]
  {
    j := p;
    while g[j] != k
      invariant p <= j < |g| && k !in g[p..j]
      decreases |g| - j
    {
      assert g[p..j + 1] == g[p..j] + [g[j]];
      j := j + 1;
    }
  }
}
