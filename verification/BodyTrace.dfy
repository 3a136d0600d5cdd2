/** What the batch and the stored outputs of a Loop or a Retry say about the executor
    calls behind them (core/agentgraph/exec_control.go). */
module BodyTrace {
  import opened Wrappers
  import opened BranchValues
  import opened BodyFires

  /** Call `k` came back well; a container that heeds pauses does not count one that
      asked for a pause. */
  predicate Landed(w: World, heed: bool, k: nat) {
    w.fire(k).Returned? && !(heed && w.fire(k).pause)
  }

  /** The body's own events of a completed fire stand right before its close, in their
      order, and nothing of a fire that paused is kept. */
  predicate OwnBefore(w: World, heed: bool, es: seq<Event>, p: nat, c: nat, node: string)
    requires p < |es|
  {
    if Landed(w, heed, c) then
      var own := w.fire(c).own;
      |own| <= p && forall i :: 0 <= i < |own| ==> es[p - |own| + i] == Own(node, own[i])
    else p > 0 && !es[p - 1].Own?
  }

  /** The event at `p` tells the truth about the call it belongs to: a start announces
      the next call, a retry mark stands between a failed call and its repetition, and
      every other event belongs to the latest call. */
  predicate EventTrue(w: World, heed: bool, calls: seq<Call>, es: seq<Event>, p: nat)
    requires p < |es|
  {
    var c := CallsIn(es[..p]);
    match es[p]
    case Start(node, _) => c < |calls| && calls[c].node == node
    case Retried(node, err) =>
      0 < c < |calls| && calls[c - 1].node == node && w.fire(c - 1) == Failed(err) && calls[c] == calls[c - 1]
    case Complete(node, _, n) =>
      && 0 < c <= |calls| && calls[c - 1].node == node && w.fire(c - 1).Returned? && n == |w.fire(c - 1).outputs|
      && OwnBefore(w, heed, es, p, c - 1, node)
    case Terminal(node, _, err) => 0 < c <= |calls| && calls[c - 1].node == node && w.fire(c - 1) == Failed(err)
    case Adapted(node, err) => 0 < c <= |calls| && calls[c - 1].node == node && w.fire(c - 1) == Failed(err)
    case Own(node, text) =>
      0 < c <= |calls| && calls[c - 1].node == node && Landed(w, heed, c - 1) && text in w.fire(c - 1).own
    case Attempt(_, _) => true
  }

  ghost predicate Tells(w: World, heed: bool, st: Run) {
    && |st.calls| == CallsIn(st.events)
    && forall p :: 0 <= p < |st.events| ==> EventTrue(w, heed, st.calls, st.events, p)
  }

  lemma TruthKept(w: World, heed: bool, st: Run, s: Run, p: nat)
    requires p < |st.events| && EventTrue(w, heed, st.calls, st.events, p)
    requires st.calls <= s.calls && st.events <= s.events
    ensures EventTrue(w, heed, s.calls, s.events, p)
  {
    assert s.events[..p] == st.events[..p];
    assert s.events[p] == st.events[p];
    assert forall k :: 0 <= k < |st.calls| ==> s.calls[k] == st.calls[k];
    assert forall k :: 0 <= k < p ==> s.events[k] == st.events[k];
  }

  lemma TellsNext(w: World, heed: bool, st: Run, s: Run, e: Event)
    requires Tells(w, heed, st) && st.calls <= s.calls && s.events == st.events + [e]
    requires |s.calls| == |st.calls| + if e.Start? || e.Retried? then 1 else 0
    requires EventTrue(w, heed, s.calls, s.events, |st.events|)
    ensures Tells(w, heed, s)
  {
    ScanNext(st.events, e);
    forall p | 0 <= p < |s.events|
      ensures EventTrue(w, heed, s.calls, s.events, p)
    {
      if p < |st.events| {
        TruthKept(w, heed, st, s, p);
      }
    }
  }

  lemma StartTells(w: World, heed: bool, st: Run, id: string, iter: nat)
    requires Tells(w, heed, st)
    ensures Tells(w, heed, st.Emit(Start(id, iter)).Called(id))
  {
    var s := st.Emit(Start(id, iter)).Called(id);
    assert s.events[..|st.events|] == st.events;
    TellsNext(w, heed, st, s, Start(id, iter));
  }

  /** The latest call was of this node. */
  predicate Latest(st: Run, id: string) {
    |st.calls| > 0 && st.calls[|st.calls| - 1] == Call(id, st.current)
  }

  lemma RetryTells(w: World, heed: bool, st: Run, id: string, err: Failure)
    requires Tells(w, heed, st) && Latest(st, id) && w.fire(|st.calls| - 1) == Failed(err)
    ensures Tells(w, heed, st.Emit(Retried(id, err)).Called(id))
  {
    var s := st.Emit(Retried(id, err)).Called(id);
    assert s.events[..|st.events|] == st.events;
    TellsNext(w, heed, st, s, Retried(id, err));
  }

  lemma FailureTells(w: World, heed: bool, st: Run, id: string, e: Event, err: Failure)
    requires Tells(w, heed, st) && Latest(st, id) && w.fire(|st.calls| - 1) == Failed(err)
    requires e == Adapted(id, err) || (e.Terminal? && e.node == id && e.err == err)
    ensures Tells(w, heed, st.Emit(e))
  {
    var s := st.Emit(e);
    assert s.events[..|st.events|] == st.events;
    TellsNext(w, heed, st, s, e);
  }

  lemma MarkTells(w: World, heed: bool, st: Run, phase: Phase, n: nat)
    requires Tells(w, heed, st)
    ensures Tells(w, heed, st.Emit(Attempt(phase, n)))
  {
    TellsNext(w, heed, st, st.Emit(Attempt(phase, n)), Attempt(phase, n));
  }

  /** A pause closes the fire and keeps nothing of it. */
  lemma PauseTells(w: World, st: Run, id: string, iter: nat)
    requires Tells(w, true, st) && Latest(st, id) && |st.events| > 0 && !st.events[|st.events| - 1].Own?
    requires w.fire(|st.calls| - 1).Returned? && w.fire(|st.calls| - 1).pause
    ensures Tells(w, true, st.Emit(Complete(id, iter, |w.fire(|st.calls| - 1).outputs|)))
  {
    var e := Complete(id, iter, |w.fire(|st.calls| - 1).outputs|);
    var s := st.Emit(e);
    assert s.events[..|st.events|] == st.events;
    TellsNext(w, true, st, s, e);
  }

  lemma {:induction false} OwnTells(w: World, heed: bool, st: Run, id: string, n: nat)
    requires Tells(w, heed, st) && Latest(st, id) && Landed(w, heed, |st.calls| - 1)
    requires n <= |w.fire(|st.calls| - 1).own|
    ensures Tells(w, heed, st.(events := st.events + OwnEvents(id, w.fire(|st.calls| - 1).own[..n])))
  {
    var own := w.fire(|st.calls| - 1).own;
    if n == 0 {
      assert st.events + OwnEvents(id, own[..0]) == st.events;
    } else {
      OwnTells(w, heed, st, id, n - 1);
      var mid := st.(events := st.events + OwnEvents(id, own[..n - 1]));
      var e := Own(id, own[n - 1]);
      var s := mid.Emit(e);
      assert s.events[..|mid.events|] == mid.events;
      TellsNext(w, heed, mid, s, e);
      assert s.events == st.events + OwnEvents(id, own[..n]);
    }
  }

  lemma CompletedTells(w: World, heed: bool, st: Run, id: string, iter: nat)
    requires Tells(w, heed, st) && Latest(st, id) && Landed(w, heed, |st.calls| - 1)
    ensures Tells(w, heed, Completed(st, id, iter, w.fire(|st.calls| - 1)))
  {
    var o := w.fire(|st.calls| - 1);
    var own := o.own;
    assert own[..|own|] == own;
    OwnTells(w, heed, st, id, |own|);
    var mid := st.(events := st.events + OwnEvents(id, own));
    var s := Completed(st, id, iter, o);
    assert s.events[..|mid.events|] == mid.events;
    TellsNext(w, heed, mid, s, Complete(id, iter, |o.outputs|));
  }

  // ---- what the run state holds afterwards ----

  /** Each node's stored outputs are those of its last call that landed; a node none
      of whose calls landed keeps what was stored before. */
  ghost predicate StoredRight(w: World, heed: bool, was: map<string, PortValues>, calls: seq<Call>, now: map<string, PortValues>) {
    && (forall k :: 0 <= k < |calls| && Landed(w, heed, k) && LastOf(w, heed, calls, k) ==>
          Holds(now, calls[k].node, w.fire(k).outputs))
    && (forall id :: NeverOf(w, heed, calls, id) ==> Alike(was, now, id))
  }

  predicate Holds(now: map<string, PortValues>, id: string, outs: PortValues) {
    id in now && now[id] == outs
  }

  predicate Alike(was: map<string, PortValues>, now: map<string, PortValues>, id: string) {
    (id in now <==> id in was) && (id in was ==> now[id] == was[id])
  }

  ghost predicate LastOf(w: World, heed: bool, calls: seq<Call>, k: nat)
    requires k < |calls|
  {
    forall j :: k < j < |calls| && Landed(w, heed, j) ==> calls[j].node != calls[k].node
  }

  ghost predicate NeverOf(w: World, heed: bool, calls: seq<Call>, id: string) {
    forall j :: 0 <= j < |calls| && Landed(w, heed, j) ==> calls[j].node != id
  }

  lemma NeverOfNext(w: World, heed: bool, calls: seq<Call>, c: Call, id: string)
    ensures NeverOf(w, heed, calls + [c], id) <==>
      NeverOf(w, heed, calls, id) && (Landed(w, heed, |calls|) ==> c.node != id)
  {
    var longer := calls + [c];
    assert longer[|calls|] == c;
    assert forall j :: 0 <= j < |calls| ==> longer[j] == calls[j];
  }

  lemma LastOfNext(w: World, heed: bool, calls: seq<Call>, c: Call, k: nat)
    requires k < |calls| && LastOf(w, heed, calls + [c], k)
    ensures LastOf(w, heed, calls, k) && (Landed(w, heed, |calls|) ==> c.node != calls[k].node)
  {
    var longer := calls + [c];
    assert longer[|calls|] == c && longer[k] == calls[k];
    assert forall j :: 0 <= j < |calls| ==> longer[j] == calls[j];
  }

  /** What the next call makes of the stored outputs. */
  function Storing(w: World, heed: bool, n: nat, now: map<string, PortValues>, c: Call): map<string, PortValues> {
    if Landed(w, heed, n) then now[c.node := w.fire(n).outputs] else now
  }

  lemma LastStored(w: World, heed: bool, was: map<string, PortValues>, calls: seq<Call>, now: map<string, PortValues>,
                   c: Call, k: nat)
    requires StoredRight(w, heed, was, calls, now)
    requires k <= |calls| && Landed(w, heed, k) && LastOf(w, heed, calls + [c], k)
    ensures Holds(Storing(w, heed, |calls|, now, c), (calls + [c])[k].node, w.fire(k).outputs)
  {
    if k < |calls| {
      LastOfNext(w, heed, calls, c, k);
      assert Holds(now, calls[k].node, w.fire(k).outputs);
    }
  }

  /** The next call stores its outputs under its node if it lands, and nothing if not. */
  lemma StoredNext(w: World, heed: bool, was: map<string, PortValues>, calls: seq<Call>, now: map<string, PortValues>, c: Call)
    requires StoredRight(w, heed, was, calls, now)
    ensures StoredRight(w, heed, was, calls + [c], Storing(w, heed, |calls|, now, c))
  {
    var longer, next := calls + [c], Storing(w, heed, |calls|, now, c);
    forall k | 0 <= k < |longer| && Landed(w, heed, k) && LastOf(w, heed, longer, k)
      ensures Holds(next, longer[k].node, w.fire(k).outputs)
    {
      LastStored(w, heed, was, calls, now, c, k);
    }
    forall id | NeverOf(w, heed, longer, id)
      ensures Alike(was, next, id)
    {
      NeverOfNext(w, heed, calls, c, id);
      assert Alike(was, now, id);
    }
  }

  // ---- the starts of an iteration ----

  predicate NoStarts(es: seq<Event>) {
    forall k :: 0 <= k < |es| ==> !es[k].Start?
  }

  /** The nodes started in iteration `i`, in order. */
  function StartsOf(es: seq<Event>, i: nat): seq<string> {
    if |es| == 0 then []
    else
      var e := es[|es| - 1];
      StartsOf(es[..|es| - 1], i) + if e.Start? && e.iter == i then [e.node] else []
  }

  lemma {:induction false} StartsOfMore(es: seq<Event>, more: seq<Event>, i: nat)
    requires NoStarts(more)
    ensures StartsOf(es + more, i) == StartsOf(es, i)
    decreases |more|
  {
    if |more| == 0 {
      assert es + more == es;
    } else {
      var n := |more| - 1;
      StartsOfMore(es, more[..n], i);
      assert (es + more)[..|es + more| - 1] == es + more[..n];
    }
  }
}
