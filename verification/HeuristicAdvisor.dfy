/** The memoising heuristic advisor (core/advice/heuristic.go) and what its cache
    may and may not change about its answers. */
module HeuristicAdvisor {
  import opened Wrappers
  import opened Lru
  import opened AdviceCache

  /** Extracted features: what they marshal to, or a value that does not marshal. */
  datatype Features = Json(text: string) | Unmarshalable(tag: nat)

  datatype Kind = Kind(id: string, promptVersion: string)

  datatype Session = Session(id: string, moot: bool)

  datatype Verdict = Verdict(decision: bool, confidence: int, modelID: string)

  /** A backend is a pure function of its features; `None` is its error return. */
  type HeuristicFunc = string -> Option<Verdict>

  datatype Reason = Moot | Disabled | Unhashable | WasDismissed | NoBackend | BackendFailed | BadConfidence

  datatype Answer = Advice(rec: Recommendation) | NoAdvice(why: Reason)

  datatype State = State(fns: map<string, HeuristicFunc>, gates: set<string>, store: Store)

  /** One call.  `gateSays` is what the kind's gate, if wired, returns just then. */
  datatype Op =
    | Recommend(sess: Session, kind: Kind, features: Features, gateSays: bool)
    | Dismiss(sess: Session, kind: Kind, features: Features)
    | Register(kindID: string, fn: HeuristicFunc)
    | SetGate(kindID: string, wired: bool)

  function KeyOf(sess: Session, kind: Kind, text: string): CacheKey {
    CacheKey(sess.id, kind.id, text, kind.promptVersion)
  }

  predicate Enabled(st: State, kindID: string, gateSays: bool) {
    kindID in st.gates ==> gateSays
  }

  /** What the backend alone says about a key. */
  function Fresh(fns: map<string, HeuristicFunc>, k: CacheKey): Answer {
    if k.kindID !in fns then NoAdvice(NoBackend)
    else
      match fns[k.kindID](k.features)
      case None => NoAdvice(BackendFailed)
      case Some(v) =>
        if v.confidence < 0 || v.confidence > 100 then NoAdvice(BadConfidence)
        else Advice(Recommendation(v.decision, v.confidence, k.kindID, k.promptVersion, v.modelID, "heuristic", true, false))
  }

  /** The skips that come before any cache access. */
  function Skipped(st: State, op: Op): Option<Reason>
    requires op.Recommend?
  {
    if op.sess.moot then Some(Moot)
    else if !Enabled(st, op.kind.id, op.gateSays) then Some(Disabled)
    else if op.features.Unmarshalable? then Some(Unhashable)
    else None
  }

  /** The advisor without its cache. */
  function Uncached(st: State, op: Op): Answer
    requires op.Recommend?
  {
    match Skipped(st, op)
    case Some(why) => NoAdvice(why)
    case None => Fresh(st.fns, KeyOf(op.sess, op.kind, op.features.text))
  }

  /** Past the skips: consult the cache, then the backend. */
  function ConsultStore(fns: map<string, HeuristicFunc>, t: Store, k: CacheKey, cap: nat): (Answer, Store) {
    match Find(t, k)
    case Some(e) =>
      (if e.dismissed then NoAdvice(WasDismissed) else Advice(e.rec.(cacheHit := true)), Got(t, k, cap))
    case None =>
      var a := Fresh(fns, k);
      (a, if a.Advice? then Stored(t, k, a.rec, cap) else t)
  }

  function Consult(st: State, k: CacheKey, cap: nat): (Answer, State) {
    var (a, t) := ConsultStore(st.fns, st.store, k, cap);
    (a, st.(store := t))
  }

  /** The advisor as written. */
  function RecommendStep(st: State, op: Op, cap: nat): (Answer, State)
    requires op.Recommend?
  {
    match Skipped(st, op)
    case Some(why) => (NoAdvice(why), st)
    case None => Consult(st, KeyOf(op.sess, op.kind, op.features.text), cap)
  }

  function Step(st: State, op: Op, cap: nat): State {
    match op
    case Recommend(_, _, _, _) => RecommendStep(st, op, cap).1
    case Dismiss(sess, kind, f) =>
      if f.Unmarshalable? then st else st.(store := Dismissed(st.store, KeyOf(sess, kind, f.text), cap))
    case Register(id, fn) => if id in st.fns then st else st.(fns := st.fns[id := fn])
    case SetGate(id, wired) => st.(gates := if wired then st.gates + {id} else st.gates - {id})
  }

  const INITIAL := State(map[], {}, [])

  function After(ops: seq<Op>, cap: nat): State {
    if |ops| == 0 then INITIAL else Step(After(ops[..|ops| - 1], cap), ops[|ops| - 1], cap)
  }

  // ---- the object ----

  class Advisor {
    var fns: map<string, HeuristicFunc>
    var gates: set<string>
    const cache: AdviceCache

    constructor (capacity: int)
      ensures Valid() && Value() == INITIAL
    {
      fns, gates := map[], {};
      cache := new AdviceCache(capacity);
    }

    ghost predicate Valid()
      reads this, cache.table
    {
      cache.table.Valid()
    }

    ghost function Value(): State
      reads this, cache.table, cache.table.order
    {
      State(fns, gates, cache.table.Contents())
    }

    /** A duplicate registration panics in the source: `ok` is false then. */
    method RegisterHeuristic(kindID: string, fn: HeuristicFunc) returns (ok: bool)
      requires Valid()
      modifies this
      ensures Valid() && Value() == Step(old(Value()), Register(kindID, fn), cache.table.capacity)
      ensures ok == (kindID !in old(fns))
    {
      if kindID in fns {
        return false;
      }
      fns := fns[kindID := fn];
      return true;
    }

    method SetKindGate(kindID: string, wired: bool)
      requires Valid()
      modifies this
      ensures Valid() && Value() == Step(old(Value()), SetGate(kindID, wired), cache.table.capacity)
    {
      if !wired {
        gates := gates - {kindID};
        return;
      }
      gates := gates + {kindID};
    }

    method RecommendFor(sess: Session, kind: Kind, features: Features, gateSays: bool) returns (a: Answer)
      requires Valid()
      modifies cache.table, cache.table.order
      ensures Valid() && (forall c :: c in cache.table.order ==> c in old(cache.table.order) || fresh(c))
      ensures a == RecommendStep(old(Value()), Recommend(sess, kind, features, gateSays), cache.table.capacity).0
      ensures Value() == RecommendStep(old(Value()), Recommend(sess, kind, features, gateSays), cache.table.capacity).1
    {
      if sess.moot {
        return NoAdvice(Moot);
      }
      if kind.id in gates && !gateSays {
        return NoAdvice(Disabled);
      }
      if features.Unmarshalable? {
        return NoAdvice(Unhashable);
      }
      a := Lookup(KeyOf(sess, kind, features.text));
    }

    method Lookup(key: CacheKey) returns (a: Answer)
      requires Valid()
      modifies cache.table, cache.table.order
      ensures Valid() && (forall c :: c in cache.table.order ==> c in old(cache.table.order) || fresh(c))
      ensures (a, cache.table.Contents()) == ConsultStore(fns, old(cache.table.Contents()), key, cache.table.capacity)
    {
      var entry := cache.Get(key);
      if entry.Some? {
        if entry.value.dismissed {
          return NoAdvice(WasDismissed);
        }
        return Advice(entry.value.rec.(cacheHit := true));
      }
      a := Refill(key);
    }

    /** The miss half: compute the answer, and store it unless it failed. */
    method Refill(key: CacheKey) returns (a: Answer)
      requires Valid()
      modifies cache.table, cache.table.order
      ensures Valid() && (forall c :: c in cache.table.order ==> c in old(cache.table.order) || fresh(c))
      ensures a == Fresh(fns, key)
      ensures cache.table.Contents() ==
        if a.Advice? then Stored(old(cache.table.Contents()), key, a.rec, cache.table.capacity)
        else old(cache.table.Contents())
    {
      a := Compute(key);
      if a.Advice? {
        cache.Put(key, a.rec);
      }
    }

    /** The uncached half: look up the backend, run it, check its confidence. */
    method Compute(key: CacheKey) returns (a: Answer)
      ensures a == Fresh(fns, key)
    {
      if key.kindID !in fns {
        return NoAdvice(NoBackend);
      }
      var v := fns[key.kindID](key.features);
      if v.None? {
        return NoAdvice(BackendFailed);
      }
      if v.value.confidence < 0 || v.value.confidence > 100 {
        return NoAdvice(BadConfidence);
      }
      return Advice(Recommendation(v.value.decision, v.value.confidence, key.kindID, key.promptVersion,
                                   v.value.modelID, "heuristic", true, false));
    }

    method DismissFor(sess: Session, kind: Kind, features: Features)
      requires Valid()
      modifies cache.table, cache.table.order
      ensures Valid() && (forall c :: c in cache.table.order ==> c in old(cache.table.order) || fresh(c))
      ensures Value() == Step(old(Value()), Dismiss(sess, kind, features), cache.table.capacity)
    {
      if features.Unmarshalable? {
        return;
      }
      cache.Dismiss(KeyOf(sess, kind, features.text));
    }
  }

  // ---- what a run of calls shows ----

  /** The cache key an operation uses, if it reaches the cache at all: a hit, a
      stored answer, or a dismissal. */
  function UsedBy(st: State, op: Op): Option<CacheKey> {
    match op
    case Recommend(sess, kind, f, _) =>
      if Skipped(st, op).Some? then None
      else
        var k := KeyOf(sess, kind, f.text);
        if Find(st.store, k).Some? || Fresh(st.fns, k).Advice? then Some(k) else None
    case Dismiss(sess, kind, f) => if f.Unmarshalable? then None else Some(KeyOf(sess, kind, f.text))
    case _ => None
  }

  /** The keys used by a run, in order. */
  function Uses(ops: seq<Op>, cap: nat): seq<CacheKey> {
    if |ops| == 0 then []
    else
      var g := ops[..|ops| - 1];
      match UsedBy(After(g, cap), ops[|ops| - 1])
      case None => Uses(g, cap)
      case Some(k) => Uses(g, cap) + [k]
  }

  predicate DismissesKey(op: Op, k: CacheKey) {
    op.Dismiss? && op.features.Json? && KeyOf(op.sess, op.kind, op.features.text) == k
  }

  /** `k` was dismissed at step `d` and has been tracked ever since. */
  ghost predicate HeldSince(ops: seq<Op>, k: CacheKey, cap: nat, d: nat) {
    && d < |ops| && DismissesKey(ops[d], k)
    && (forall j :: d < j <= |ops| ==> k in Tracked(Uses(ops[..j], cap), cap))
  }

  ghost predicate Suppressed(ops: seq<Op>, k: CacheKey, cap: nat) {
    exists d :: HeldSince(ops, k, cap, d)
  }

  /** What holds of the table after any run. */
  ghost predicate Faithful(ops: seq<Op>, cap: nat) {
    var st := After(ops, cap);
    && Keys(st.store) == Tracked(Uses(ops, cap), cap)
    && NoDup(Keys(st.store))
    && (forall k :: Find(st.store, k).Some? ==>
          (Find(st.store, k).value.dismissed <==> Suppressed(ops, k, cap)))
    && (forall k :: Find(st.store, k).Some? && !Find(st.store, k).value.dismissed ==>
          Fresh(st.fns, k) == Advice(Find(st.store, k).value.rec))
  }

  lemma HeldPrefix(g: seq<Op>, op: Op, k: CacheKey, cap: nat, d: nat)
    requires d < |g| && k in Tracked(Uses(g + [op], cap), cap)
    ensures HeldSince(g + [op], k, cap, d) <==> HeldSince(g, k, cap, d)
  {
    var ops := g + [op];
    assert ops[..|ops|] == ops;
    forall j | d < j <= |g|
      ensures ops[..j] == g[..j]
    {
    }
    if HeldSince(ops, k, cap, d) {
      forall j | d < j <= |g|
        ensures k in Tracked(Uses(g[..j], cap), cap)
      {
        assert k in Tracked(Uses(ops[..j], cap), cap);
      }
    }
  }

  lemma SuppressedStep(g: seq<Op>, op: Op, k: CacheKey, cap: nat)
    requires k in Tracked(Uses(g + [op], cap), cap)
    ensures Suppressed(g + [op], k, cap) <==> DismissesKey(op, k) || Suppressed(g, k, cap)
  {
    var ops := g + [op];
    if DismissesKey(op, k) {
      assert ops[..|ops|] == ops;
      assert HeldSince(ops, k, cap, |g|);
    } else if Suppressed(g, k, cap) {
      var d :| HeldSince(g, k, cap, d);
      HeldPrefix(g, op, k, cap, d);
    } else if Suppressed(ops, k, cap) {
      var d :| HeldSince(ops, k, cap, d);
      HeldPrefix(g, op, k, cap, d);
    }
  }

  lemma UsesStep(g: seq<Op>, op: Op, cap: nat)
    ensures After(g + [op], cap) == Step(After(g, cap), op, cap)
    ensures Uses(g + [op], cap) ==
      match UsedBy(After(g, cap), op) case None => Uses(g, cap) case Some(k) => Uses(g, cap) + [k]
  {
    assert (g + [op])[..|g|] == g;
  }

  /** The value an operation leaves under the key it uses. */
  function EntryAfter(st: State, op: Op): CacheEntry
    requires UsedBy(st, op).Some?
  {
    var k := UsedBy(st, op).value;
    if op.Dismiss? then CacheEntry(match Find(st.store, k) case Some(e) => e.rec case None => ZERO, true)
    else
      match Find(st.store, k)
      case Some(e) => e
      case None => CacheEntry(Fresh(st.fns, k).rec, false)
  }

  /** Every operation either leaves the table alone or upserts the key it uses; in
      particular a stored answer never overwrites an entry, so `put` never clears a
      dismissal. */
  lemma StepShape(st: State, op: Op, cap: nat)
    ensures var st' := Step(st, op, cap); var u := UsedBy(st, op);
      st'.store == if u.None? then st.store else Upsert(st.store, u.value, EntryAfter(st, op), cap)
    ensures forall k :: Fresh(st.fns, k).Advice? ==> Fresh(Step(st, op, cap).fns, k) == Fresh(st.fns, k)
  {
  }

  lemma EntryStep(g: seq<Op>, op: Op, k: CacheKey, cap: nat)
    requires cap >= 1 && Faithful(g, cap)
    requires Keys(After(g + [op], cap).store) == Tracked(Uses(g + [op], cap), cap)
    requires Find(After(g + [op], cap).store, k).Some?
    ensures var st := After(g + [op], cap); var e := Find(st.store, k).value;
      && (e.dismissed <==> Suppressed(g + [op], k, cap))
      && (!e.dismissed ==> Fresh(st.fns, k) == Advice(e.rec))
  {
    var st := After(g, cap);
    var u := UsedBy(st, op);
    UsesStep(g, op, cap);
    StepShape(st, op, cap);
    FindIffKey(After(g + [op], cap).store, k);
    SuppressedStep(g, op, k, cap);
    if u.Some? {
      UpsertKeys(st.store, u.value, EntryAfter(st, op), cap);
      if k != u.value {
        UpsertOthers(st.store, u.value, EntryAfter(st, op), cap, k);
      } else if Find(st.store, k).None? {
        UntrackedNotSuppressed(g, k, cap);
      }
    }
  }

  lemma UntrackedNotSuppressed(g: seq<Op>, k: CacheKey, cap: nat)
    requires Faithful(g, cap) && Find(After(g, cap).store, k).None?
    ensures !Suppressed(g, k, cap)
  {
    FindIffKey(After(g, cap).store, k);
    assert g[..|g|] == g;
  }

  /** Map and history agree after every run. */
  lemma {:induction false} AlwaysFaithful(ops: seq<Op>, cap: nat)
    requires cap >= 1
    ensures Faithful(ops, cap)
  {
    if |ops| > 0 {
      var g, op := ops[..|ops| - 1], ops[|ops| - 1];
      assert g + [op] == ops;
      AlwaysFaithful(g, cap);
      var st := After(g, cap);
      UsesStep(g, op, cap);
      StepShape(st, op, cap);
      var u := UsedBy(st, op);
      if u.Some? {
        UpsertKeys(st.store, u.value, EntryAfter(st, op), cap);
        TrackedStep(Uses(g, cap), u.value, cap);
      }
      forall k | Find(After(ops, cap).store, k).Some?
        ensures var e := Find(After(ops, cap).store, k).value;
          && (e.dismissed <==> Suppressed(ops, k, cap))
          && (!e.dismissed ==> Fresh(After(ops, cap).fns, k) == Advice(e.rec))
      {
        EntryStep(g, op, k, cap);
      }
    }
  }

  /** Forget whether an answer came from the cache. */
  function Bare(a: Answer): Answer {
    match a
    case Advice(r) => Advice(r.(cacheHit := false))
    case NoAdvice(_) => a
  }

  /** After any run, a request is answered as the uncached advisor would answer it,
      up to the cache-hit mark, unless its key was dismissed and has been tracked
      ever since, in which case (and only then) it is suppressed. */
  lemma CacheIsTransparent(ops: seq<Op>, op: Op, cap: nat)
    requires cap >= 1 && op.Recommend?
    ensures var st := After(ops, cap); var a := RecommendStep(st, op, cap).0;
      if Skipped(st, op).None? && Suppressed(ops, KeyOf(op.sess, op.kind, op.features.text), cap)
      then a == NoAdvice(WasDismissed)
      else Bare(a) == Bare(Uncached(st, op)) && a != NoAdvice(WasDismissed)
    ensures var st := After(ops, cap);
      Skipped(st, op).Some? ==> RecommendStep(st, op, cap).1 == st && Uses(ops + [op], cap) == Uses(ops, cap)
  {
    var st := After(ops, cap);
    AlwaysFaithful(ops, cap);
    UsesStep(ops, op, cap);
    if Skipped(st, op).None? {
      var k := KeyOf(op.sess, op.kind, op.features.text);
      if Find(st.store, k).None? {
        UntrackedNotSuppressed(ops, k, cap);
      }
    }
  }

  // ---- how long a dismissal lasts ----

  /** Earlier uses are a prefix of later ones. */
  lemma {:induction false} UsesGrow(ops: seq<Op>, i: nat, cap: nat)
    requires i <= |ops|
    ensures Uses(ops[..i], cap) <= Uses(ops, cap)
    decreases |ops| - i
  {
    if i == |ops| {
      assert ops[..i] == ops;
    } else {
      UsesGrow(ops, i + 1, cap);
      assert ops[..i + 1] == ops[..i] + [ops[i]];
      OneUseGrows(ops[..i], ops[i], cap);
      PrefixOfPrefix(Uses(ops[..i], cap), Uses(ops[..i + 1], cap), Uses(ops, cap));
    }
  }

  lemma OneUseGrows(g: seq<Op>, op: Op, cap: nat)
    ensures Uses(g, cap) <= Uses(g + [op], cap)
  {
    UsesStep(g, op, cap);
  }

  lemma AtMostOneUse(g: seq<Op>, op: Op, cap: nat)
    ensures |Uses(g + [op], cap)| <= |Uses(g, cap)| + 1
  {
    UsesStep(g, op, cap);
  }

  lemma PrefixOfPrefix<T>(a: seq<T>, b: seq<T>, c: seq<T>)
    requires a <= b <= c
    ensures a <= c
  {
    assert a == b[..|a|] == c[..|b|][..|a|] == c[..|a|];
  }

  function UsesSince(ops: seq<Op>, d: nat, cap: nat): seq<CacheKey>
    requires d <= |ops|
  {
    UsesGrow(ops, d, cap);
    Uses(ops, cap)[|Uses(ops[..d], cap)|..]
  }

  lemma DismissUses(g: seq<Op>, op: Op, k: CacheKey, cap: nat)
    requires DismissesKey(op, k)
    ensures Uses(g + [op], cap) == Uses(g, cap) + [k]
  {
    UsesStep(g, op, cap);
  }

  /** The uses after the first `i` operations. */
  function UsesAt(ops: seq<Op>, i: nat, cap: nat): seq<CacheKey>
    requires i <= |ops|
  {
    Uses(ops[..i], cap)
  }

  lemma UsesAtStep(ops: seq<Op>, i: nat, cap: nat)
    requires i < |ops|
    ensures |UsesAt(ops, i + 1, cap)| <= |UsesAt(ops, i, cap)| + 1
    ensures UsesAt(ops, i + 1, cap) <= Uses(ops, cap)
  {
    assert ops[..i + 1] == ops[..i] + [ops[i]];
    AtMostOneUse(ops[..i], ops[i], cap);
    UsesGrow(ops, i + 1, cap);
  }

  lemma {:induction false} UsesReach(ops: seq<Op>, d: nat, n: nat, cap: nat) returns (j: nat)
    requires d <= |ops| && |UsesAt(ops, d, cap)| <= n <= |UsesAt(ops, |ops|, cap)|
    ensures d <= j <= |ops| && |UsesAt(ops, j, cap)| == n
    decreases |ops| - d
  {
    if n == |UsesAt(ops, d, cap)| || d == |ops| {
      j := d;
    } else {
      UsesAtStep(ops, d, cap);
      j := UsesReach(ops, d + 1, n, cap);
    }
  }

  /** Every prefix of the uses from the dismissal on is the uses after some operation. */
  lemma PrefixReached(ops: seq<Op>, d: nat, n: nat, cap: nat) returns (j: nat)
    requires d <= |ops| && |Uses(ops[..d], cap)| <= n <= |Uses(ops, cap)|
    ensures d <= j <= |ops| && Uses(ops[..j], cap) == Uses(ops, cap)[..n]
  {
    assert ops[..|ops|] == ops;
    j := UsesReach(ops, d, n, cap);
    UsesGrow(ops, j, cap);
  }

  /** `k` is used at `m` and not again in the uses before `n`. */
  predicate IdleFor(u: seq<CacheKey>, k: CacheKey, m: int, n: int) {
    0 <= m < n <= |u| && u[m] == k && k !in u[m + 1..n]
  }

  /** From position `from` on, `k` is never left behind by `cap` distinct other keys
      before it is used again or the uses end. */
  ghost predicate NeverLeftBehind(u: seq<CacheKey>, k: CacheKey, cap: nat, from: nat) {
    forall m, n :: from <= m && IdleFor(u, k, m, n) ==> |SetOf(u[m + 1..n])| < cap
  }

  lemma DismissedUse(ops: seq<Op>, d: nat, k: CacheKey, cap: nat)
    requires d < |ops| && DismissesKey(ops[d], k)
    ensures var from := |Uses(ops[..d], cap)|;
      |Uses(ops[..d + 1], cap)| == from + 1 <= |Uses(ops, cap)| && Uses(ops, cap)[from] == k
  {
    var from, upTo := |Uses(ops[..d], cap)|, Uses(ops[..d + 1], cap);
    assert ops[..d + 1] == ops[..d] + [ops[d]];
    DismissUses(ops[..d], ops[d], k, cap);
    UsesGrow(ops, d + 1, cap);
    assert upTo[from] == k;
  }

  lemma HeldNeverBehind(ops: seq<Op>, d: nat, k: CacheKey, cap: nat)
    requires HeldSince(ops, k, cap, d)
    ensures NeverLeftBehind(Uses(ops, cap), k, cap, |Uses(ops[..d], cap)|)
  {
    var u, from := Uses(ops, cap), |Uses(ops[..d], cap)|;
    DismissedUse(ops, d, k, cap);
    forall m, n | from <= m && IdleFor(u, k, m, n)
      ensures |SetOf(u[m + 1..n])| < cap
    {
      var j := PrefixReached(ops, d + 1, n, cap);
      TrackedGap(u, k, cap, m, n);
    }
  }

  lemma LostLeftBehind(ops: seq<Op>, d: nat, k: CacheKey, cap: nat, j: nat)
    requires d < j <= |ops| && DismissesKey(ops[d], k) && k !in Tracked(Uses(ops[..j], cap), cap)
    ensures !NeverLeftBehind(Uses(ops, cap), k, cap, |Uses(ops[..d], cap)|)
  {
    var u, n := Uses(ops, cap), |Uses(ops[..j], cap)|;
    DismissedUse(ops, d, k, cap);
    UsesGrow(ops, j, cap);
    UsesGrow(ops[..j], d + 1, cap);
    assert ops[..j][..d + 1] == ops[..d + 1];
    assert u[..n] == Uses(ops[..j], cap);
    LeftBehind(u, n, k, cap, |Uses(ops[..d], cap)|);
  }

  /** A dismissal holds exactly as long as no `cap` distinct other keys are used in a
      row, without a use of its own key in between; each use of the key starts the count
      afresh. */
  lemma DismissalHoldsIff(ops: seq<Op>, d: nat, k: CacheKey, cap: nat)
    requires d < |ops| && DismissesKey(ops[d], k)
    ensures HeldSince(ops, k, cap, d) <==> NeverLeftBehind(Uses(ops, cap), k, cap, |Uses(ops[..d], cap)|)
  {
    if HeldSince(ops, k, cap, d) {
      HeldNeverBehind(ops, d, k, cap);
    } else {
      var j :| d < j <= |ops| && k !in Tracked(Uses(ops[..j], cap), cap);
      LostLeftBehind(ops, d, k, cap, j);
    }
  }

  lemma LeftBehind(u: seq<CacheKey>, n: nat, k: CacheKey, cap: nat, from: nat)
    requires from < n <= |u| && u[from] == k && k !in Tracked(u[..n], cap)
    ensures !NeverLeftBehind(u, k, cap, from)
  {
    assert u[from..n][0] == k;
    var i := LastUse(u[from..n], k);
    var m := from + i;
    assert u[from..n][i + 1..] == u[m + 1..n] == u[..n][m + 1..];
    TrackedIff(u[..n], k, cap);
    assert !FreshUse(u[..n], k, cap, m);
    assert IdleFor(u, k, m, n);
  }

  /** In particular it holds as long as fewer than `cap` distinct other keys have been
      used after it at all. */
  lemma DismissalLasts(ops: seq<Op>, d: nat, k: CacheKey, cap: nat)
    requires cap >= 1 && d < |ops| && DismissesKey(ops[d], k)
    requires |SetOf(UsesSince(ops, d, cap)) - {k}| < cap
    ensures Suppressed(ops, k, cap)
  {
    var u, from := Uses(ops, cap), |Uses(ops[..d], cap)|;
    DismissalHoldsIff(ops, d, k, cap);
    UsesGrow(ops, d, cap);
    forall m, n | from <= m && IdleFor(u, k, m, n)
      ensures |SetOf(u[m + 1..n])| < cap
    {
      GapWithin(u, k, from, m, n);
    }
    assert HeldSince(ops, k, cap, d);
  }

  lemma GapWithin(u: seq<CacheKey>, k: CacheKey, from: nat, m: nat, n: nat)
    requires from <= m && IdleFor(u, k, m, n)
    ensures |SetOf(u[m + 1..n])| <= |SetOf(u[from..]) - {k}|
  {
    forall x | x in u[m + 1..n]
      ensures x in SetOf(u[from..]) - {k}
    {
      var i :| m + 1 <= i < n && u[i] == x;
      assert u[from..][i - from] == x;
    }
    SubsetSize(SetOf(u[m + 1..n]), SetOf(u[from..]) - {k});
  }
}
