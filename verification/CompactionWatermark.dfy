/** The watermark that gates automatic compaction
    (core/agentgraph/compaction_watermark.go). */
module CompactionWatermark {

  /** Zero means the default, a negative value disables the term.  The fraction is a
      real: float rounding is not modelled. */
  datatype Policy = Policy(marginTokens: int, marginFraction: real)

  const DEFAULT_TOKENS := 8192
  const DEFAULT_FRACTION := 0.5

  function Resolved(p: Policy): Policy {
    Policy(if p.marginTokens == 0 then DEFAULT_TOKENS else p.marginTokens,
           if p.marginFraction == 0.0 then DEFAULT_FRACTION else p.marginFraction)
  }

  function Max(a: int, b: int): int {
    if a >= b then a else b
  }

  function Margin(p: Policy, baseline: int): int {
    var r := Resolved(p);
    var tokens := if r.marginTokens < 0 then 0 else r.marginTokens;
    var margin :=
      if baseline > 0 && r.marginFraction > 0.0 then
        var scaled := (baseline as real * r.marginFraction).Floor;
        if scaled > tokens then scaled else tokens
      else tokens;
    if margin < 1 then 1 else margin
  }

  function Threshold(p: Policy, baseline: int): int {
    baseline + Margin(p, baseline)
  }

  predicate Exceeds(p: Policy, baseline: int, live: int) {
    live > Threshold(p, baseline)
  }

  /** The absolute term with its floor: no margin is smaller. */
  function LeastMargin(p: Policy): nat {
    Max(1, Resolved(p).marginTokens)
  }

  lemma MarginBounds(p: Policy, baseline: int)
    ensures Margin(p, baseline) >= LeastMargin(p) >= 1
    ensures baseline <= 0 || Resolved(p).marginFraction <= 0.0 ==> Margin(p, baseline) == LeastMargin(p)
  {
  }

  /** Resolving twice changes nothing, so a disabled term stays disabled. */
  lemma ResolvedOnce(p: Policy, b: int)
    ensures Resolved(Resolved(p)) == Resolved(p)
    ensures Margin(Resolved(p), b) == Margin(p, b)
  {
  }

  /** The relative term, nothing when disabled or when the start is empty. */
  function Scaled(p: Policy, baseline: int): int {
    var f := Resolved(p).marginFraction;
    if baseline > 0 && f > 0.0 then (baseline as real * f).Floor else 0
  }

  /** The two terms compose by maximum. */
  lemma MarginIsMax(p: Policy, baseline: int)
    ensures Margin(p, baseline) == Max(LeastMargin(p), Scaled(p, baseline))
  {
  }

  /** A bigger start never needs less growth. */
  lemma MarginGrows(p: Policy, b: int, c: int)
    requires b <= c
    ensures Margin(p, b) <= Margin(p, c)
  {
    MarginIsMax(p, b);
    MarginIsMax(p, c);
    ScaledGrows(p, b, c);
  }

  lemma ScaledGrows(p: Policy, b: int, c: int)
    requires b <= c
    ensures Scaled(p, b) <= Scaled(p, c)
  {
    var f := Resolved(p).marginFraction;
    if c > 0 && f > 0.0 {
      var least := if b > 0 then b else 0;
      TimesGrows(least as real, c as real, f);
      FloorGrows(least as real * f, c as real * f);
    }
  }

  lemma TimesGrows(x: real, y: real, f: real)
    requires 0.0 <= x <= y && f > 0.0
    ensures 0.0 <= x * f <= y * f && (x == 0.0 ==> x * f == 0.0)
  {
  }

  lemma FloorGrows(x: real, y: real)
    requires x <= y
    ensures x.Floor <= y.Floor
  {
  }

  // ---- the gate ----

  datatype Gate = Gate(baseline: int, latched: bool, crossed: bool)

  const ARMED := Gate(0, false, false)

  function Observed(p: Policy, g: Gate, live: int): Gate {
    if !g.latched then g.(baseline := live, latched := true)
    else g.(crossed := g.crossed || Exceeds(p, g.baseline, live))
  }

  predicate Admits(p: Policy, g: Gate, live: int) {
    g.latched && Exceeds(p, g.baseline, live)
  }

  class Watermark {
    const policy: Policy
    var baseline: int
    var latched: bool
    var crossed: bool

    constructor (p: Policy)
      ensures Value() == ARMED && policy == Resolved(p)
    {
      policy := Resolved(p);
      baseline, latched, crossed := 0, false, false;
    }

    ghost function Value(): Gate
      reads this
    {
      Gate(baseline, latched, crossed)
    }

    method Admit(live: int) returns (ok: bool)
      modifies this
      ensures Value() == Observed(policy, old(Value()), live)
      ensures ok == Admits(policy, old(Value()), live)
    {
      if !latched {
        baseline := live;
        latched := true;
        return false;
      }
      if Exceeds(policy, baseline, live) {
        crossed := true;
        return true;
      }
      return false;
    }

    method Rearm()
      modifies this
      ensures Value() == ARMED
    {
      latched := false;
      baseline := 0;
      crossed := false;
    }
  }

  /** The two environment gates; no watermark means no gate, no compactor means no
      compaction. */
  method AdmitAutomaticCompaction(hasCompactor: bool, w: Watermark?, live: int) returns (ok: bool)
    modifies w
    ensures ok == (hasCompactor && (w != null ==> Admits(w.policy, old(w.Value()), live)))
    ensures w != null ==> w.Value() == if hasCompactor then Observed(w.policy, old(w.Value()), live) else old(w.Value())
  {
    if !hasCompactor {
      return false;
    }
    if w == null {
      return true;
    }
    ok := w.Admit(live);
  }

  method AutomaticCompactionCrossed(hasCompactor: bool, w: Watermark?) returns (ok: bool)
    ensures ok == (hasCompactor && (w != null ==> w.Value().crossed))
  {
    if !hasCompactor {
      return false;
    }
    if w == null {
      return true;
    }
    ok := w.crossed;
  }

  // ---- over any sequence of calls ----

  datatype Op = Admit(live: int) | Rearm

  function Next(p: Policy, g: Gate, op: Op): Gate {
    match op
    case Admit(live) => Observed(p, g, live)
    case Rearm => ARMED
  }

  function After(p: Policy, ops: seq<Op>): Gate {
    if |ops| == 0 then ARMED else Next(p, After(p, ops[..|ops| - 1]), ops[|ops| - 1])
  }

  /** The position just after the last Rearm: where the current cycle begins. */
  function CycleStart(ops: seq<Op>): (s: nat)
    ensures s <= |ops|
    ensures forall i :: s <= i < |ops| ==> ops[i].Admit?
  {
    if |ops| == 0 || ops[|ops| - 1].Rearm? then |ops| else CycleStart(ops[..|ops| - 1])
  }

  predicate Admitted(p: Policy, ops: seq<Op>, i: nat)
    requires i < |ops|
  {
    ops[i].Admit? && Admits(p, After(p, ops[..i]), ops[i].live)
  }

  /** A cycle latches exactly when it has an observation, and at its first one. */
  lemma {:induction false} BaselineIsFirst(p: Policy, ops: seq<Op>)
    ensures var g := After(p, ops); var s := CycleStart(ops);
      (g.latched <==> s < |ops|) && (g.latched ==> g.baseline == ops[s].live)
  {
    if |ops| > 0 {
      BaselineIsFirst(p, ops[..|ops| - 1]);
    }
  }

  /** A call is admitted exactly when it is not its cycle's first and its context
      exceeds the one first seen in the cycle by more than the margin. */
  lemma AdmittedIff(p: Policy, ops: seq<Op>, i: nat)
    requires i < |ops| && ops[i].Admit?
    ensures var s := CycleStart(ops[..i]);
      Admitted(p, ops, i) <==> s < i && ops[i].live - ops[s].live > Margin(p, ops[s].live)
  {
    BaselineIsFirst(p, ops[..i]);
  }

  /** Crossed holds exactly when some call since the last Rearm was admitted. */
  lemma {:induction false} CrossedIff(p: Policy, ops: seq<Op>)
    ensures After(p, ops).crossed <==> exists i :: CycleStart(ops) <= i < |ops| && Admitted(p, ops, i)
  {
    if |ops| > 0 {
      var n := |ops| - 1;
      var g := ops[..n];
      CrossedIff(p, g);
      assert forall i :: 0 <= i < n ==> g[..i] == ops[..i];
      assert forall i :: 0 <= i < n ==> (Admitted(p, ops, i) <==> Admitted(p, g, i));
      if ops[n].Admit? {
        assert Admitted(p, ops, n) <==> Admits(p, After(p, g), ops[n].live);
      }
    }
  }

  // ---- what k compactions cost ----

  /** What was observed, in order. */
  function Observations(ops: seq<Op>): seq<int> {
    if |ops| == 0 then []
    else
      var last := ops[|ops| - 1];
      Observations(ops[..|ops| - 1]) + if last.Admit? then [last.live] else []
  }

  /** The total upward movement between successive observations. */
  function Climb(obs: seq<int>): nat {
    if |obs| <= 1 then 0
    else Climb(obs[..|obs| - 1]) + Max(0, obs[|obs| - 1] - obs[|obs| - 2])
  }

  /** The Rearms that follow an admitted call: the compactions. */
  function Compactions(p: Policy, ops: seq<Op>): nat {
    if |ops| == 0 then 0
    else
      var g := ops[..|ops| - 1];
      Compactions(p, g) + if ops[|ops| - 1].Rearm? && After(p, g).crossed then 1 else 0
  }

  /** What the invariant says of the cycle under way. */
  ghost predicate Paid(p: Policy, g: Gate, obs: seq<int>, k: nat) {
    var unit := LeastMargin(p) + 1;
    && |obs| >= 2 * k + (if g.latched then 1 else 0) + (if g.crossed then 1 else 0)
    && (g.crossed ==> g.latched && Climb(obs) >= unit * k + unit)
    && (g.latched ==> Climb(obs) >= unit * k + Max(0, obs[|obs| - 1] - g.baseline))
    && Climb(obs) >= unit * k
  }

  lemma ObserveKeepsPaid(p: Policy, g: Gate, obs: seq<int>, k: nat, live: int)
    requires Paid(p, g, obs, k)
    ensures Paid(p, Observed(p, g, live), obs + [live], k)
  {
    var more := obs + [live];
    assert more[..|obs|] == obs;
    MarginBounds(p, g.baseline);
  }

  lemma RearmKeepsPaid(p: Policy, g: Gate, obs: seq<int>, k: nat)
    requires Paid(p, g, obs, k)
    ensures Paid(p, ARMED, obs, if g.crossed then k + 1 else k)
  {
    var unit := LeastMargin(p) + 1;
    assert unit * (k + 1) == unit * k + unit;
  }

  lemma {:induction false} AlwaysPaid(p: Policy, ops: seq<Op>)
    ensures Paid(p, After(p, ops), Observations(ops), Compactions(p, ops))
  {
    if |ops| > 0 {
      var g, op := ops[..|ops| - 1], ops[|ops| - 1];
      AlwaysPaid(p, g);
      match op {
        case Admit(live) => ObserveKeepsPaid(p, After(p, g), Observations(g), Compactions(p, g), live);
        case Rearm =>
          RearmKeepsPaid(p, After(p, g), Observations(g), Compactions(p, g));
          assert Observations(g) + [] == Observations(g);
      }
    }
  }

  lemma AtLeastTwice(k: nat, least: nat)
    requires least >= 1
    ensures 2 * k <= (least + 1) * k
  {
    assert (least + 1) * k == 2 * k + (least - 1) * k;
  }

  /** A run cannot thrash: k compactions take at least 2k observations and an upward
      movement of at least one token over the least margin each, so at least 2k. */
  lemma CompactionsCost(p: Policy, ops: seq<Op>)
    ensures 2 * Compactions(p, ops) <= |Observations(ops)|
    ensures (LeastMargin(p) + 1) * Compactions(p, ops) <= Climb(Observations(ops))
    ensures 2 * Compactions(p, ops) <= Climb(Observations(ops))
  {
    AlwaysPaid(p, ops);
    AtLeastTwice(Compactions(p, ops), LeastMargin(p));
  }

  // ---- the margin in numbers ----

  /** The margin is the least whole number of tokens, at least one, that is no less than
      the absolute term, 8192 by default, and than the floor of the start times the
      fraction, a half by default; a negative term does not count, nor does the relative
      one for an empty start. */
  lemma MarginInNumbers(p: Policy, baseline: int)
    ensures var m := Margin(p, baseline);
      var tokens := if p.marginTokens == 0 then 8192 else p.marginTokens;
      var fraction := if p.marginFraction == 0.0 then 0.5 else p.marginFraction;
      var relative := baseline as real * fraction;
      var counts := baseline > 0 && fraction > 0.0;
      && m >= 1 && m >= tokens && (counts ==> m as real > relative - 1.0)
      && (m == 1 || m == tokens || (counts && m as real <= relative < m as real + 1.0))
  {
    MarginIsMax(p, baseline);
  }

  /** With nothing configured a start of 4000 tokens needs 8192 more, and one of 100000
      half as much again. */
  lemma DefaultMargins()
    ensures Margin(Policy(0, 0.0), 4000) == 8192 && Margin(Policy(0, 0.0), 100000) == 50000
    ensures Margin(Policy(-1, -1.0), 100000) == 1
  {
    assert 4000.0 * 0.5 == 2000.0 && 100000.0 * 0.5 == 50000.0;
  }
}
