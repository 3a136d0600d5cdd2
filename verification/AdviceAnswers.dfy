/** What a client of the heuristic advisor is told, in the terms of the calls made and
    nothing else (core/advice/heuristic.go, core/advice/cache.go): whose dismissal
    suppresses whose question, whose backend answers, and what an answer carries. */
module AdviceAnswers {
  import opened Wrappers
  import opened Lru
  import opened AdviceCache
  import opened HeuristicAdvisor

  function AnswerTo(ops: seq<Op>, op: Op, cap: nat): Answer
    requires op.Recommend?
  {
    RecommendStep(After(ops, cap), op, cap).0
  }

  predicate Asks(op: Op) {
    op.Recommend? || op.Dismiss?
  }

  /** The same question: session id, kind id, prompt version and marshalled features. */
  predicate SameQuestion(a: Op, b: Op) {
    && Asks(a) && Asks(b) && a.features.Json? && b.features.Json?
    && a.sess.id == b.sess.id
    && a.kind.id == b.kind.id
    && a.kind.promptVersion == b.kind.promptVersion
    && a.features.text == b.features.text
  }

  function QuestionKey(op: Op): CacheKey
    requires Asks(op) && op.features.Json?
  {
    KeyOf(op.sess, op.kind, op.features.text)
  }

  lemma SameQuestionSameKey(a: Op, b: Op)
    requires Asks(a) && Asks(b) && a.features.Json? && b.features.Json?
    ensures SameQuestion(a, b) <==> QuestionKey(a) == QuestionKey(b)
  {
  }

  // ---- the registry and the gates ----

  /** Operation `i` is the first registration for the kind. */
  predicate FirstRegistration(ops: seq<Op>, i: int, kindID: string) {
    && 0 <= i < |ops| && ops[i].Register? && ops[i].kindID == kindID
    && forall j :: 0 <= j < i && ops[j].Register? ==> ops[j].kindID != kindID
  }

  ghost predicate Registers(ops: seq<Op>, kindID: string) {
    exists i :: FirstRegistration(ops, i, kindID)
  }

  lemma FirstRegistrationStays(g: seq<Op>, op: Op, i: int, kindID: string)
    requires i < |g|
    ensures FirstRegistration(g + [op], i, kindID) <==> FirstRegistration(g, i, kindID)
  {
    assert forall j :: 0 <= j < |g| ==> (g + [op])[j] == g[j];
  }

  /** The first registration of a kind is its backend for good. */
  lemma {:induction false} BackendIsFirst(ops: seq<Op>, cap: nat, kindID: string)
    ensures kindID in After(ops, cap).fns <==> Registers(ops, kindID)
    ensures forall i :: FirstRegistration(ops, i, kindID) ==>
      kindID in After(ops, cap).fns && After(ops, cap).fns[kindID] == ops[i].fn
  {
    if |ops| > 0 {
      var g, op := ops[..|ops| - 1], ops[|ops| - 1];
      assert g + [op] == ops;
      BackendIsFirst(g, cap, kindID);
      forall i | 0 <= i < |g|
        ensures FirstRegistration(ops, i, kindID) <==> FirstRegistration(g, i, kindID)
      {
        FirstRegistrationStays(g, op, i, kindID);
      }
      if Registers(g, kindID) {
        var i :| FirstRegistration(g, i, kindID);
        assert FirstRegistration(ops, i, kindID);
      } else if op.Register? && op.kindID == kindID {
        FirstOne(g, kindID);
        assert FirstRegistration(ops, |g|, kindID);
      }
    }
  }

  /** Some registration, then a first one. */
  lemma {:induction false} FirstOne(ops: seq<Op>, kindID: string)
    requires !Registers(ops, kindID)
    ensures forall j :: 0 <= j < |ops| && ops[j].Register? ==> ops[j].kindID != kindID
  {
    if |ops| > 0 {
      var g, op := ops[..|ops| - 1], ops[|ops| - 1];
      assert g + [op] == ops;
      forall i | FirstRegistration(g, i, kindID)
        ensures false
      {
        FirstRegistrationStays(g, op, i, kindID);
      }
      FirstOne(g, kindID);
      if op.Register? && op.kindID == kindID {
        assert FirstRegistration(ops, |g|, kindID);
      }
    }
  }

  /** A kind is gated if the latest gate set for it was not nil. */
  predicate Gated(ops: seq<Op>, kindID: string) {
    if |ops| == 0 then false
    else
      var op := ops[|ops| - 1];
      if op.SetGate? && op.kindID == kindID then op.wired else Gated(ops[..|ops| - 1], kindID)
  }

  lemma {:induction false} GateIsLast(ops: seq<Op>, cap: nat, kindID: string)
    ensures kindID in After(ops, cap).gates <==> Gated(ops, kindID)
  {
    if |ops| > 0 {
      GateIsLast(ops[..|ops| - 1], cap, kindID);
    }
  }

  // ---- what the answer is ----

  /** The answer a backend's verdict makes for a question of this kind. */
  predicate Conveys(a: Answer, kind: Kind, v: Option<Verdict>) {
    match v
    case None => a == NoAdvice(BackendFailed)
    case Some(v) =>
      if v.confidence < 0 || v.confidence > 100 then a == NoAdvice(BadConfidence)
      else
        && a.Advice?
        && a.rec.decision == v.decision && a.rec.confidence == v.confidence && a.rec.model == v.modelID
        && a.rec.kindID == kind.id && a.rec.promptVersion == kind.promptVersion
        && a.rec.rung == "heuristic" && a.rec.unbenchmarked
  }

  /** After any calls, a question that is not suppressed is turned away for the first of
      five reasons that applies, and otherwise answered with the verdict of its own kind's
      first backend on its own features. */
  lemma AnswersMean(ops: seq<Op>, op: Op, cap: nat)
    requires cap >= 1 && op.Recommend?
    ensures var a := AnswerTo(ops, op, cap);
      if op.sess.moot then a == NoAdvice(Moot)
      else if Gated(ops, op.kind.id) && !op.gateSays then a == NoAdvice(Disabled)
      else if op.features.Unmarshalable? then a == NoAdvice(Unhashable)
      else if a == NoAdvice(WasDismissed) then true
      else if !Registers(ops, op.kind.id) then a == NoAdvice(NoBackend)
      else forall i :: FirstRegistration(ops, i, op.kind.id) ==> Conveys(a, op.kind, ops[i].fn(op.features.text))
  {
    GateIsLast(ops, cap, op.kind.id);
    BackendIsFirst(ops, cap, op.kind.id);
    CacheIsTransparent(ops, op, cap);
  }

  // ---- whose dismissal it is ----

  /** Only a dismissal of the very same question suppresses an answer: no other session,
      kind, prompt version or features ever does. */
  lemma SuppressedByOwnDismissal(ops: seq<Op>, op: Op, cap: nat)
    requires cap >= 1 && op.Recommend?
    ensures AnswerTo(ops, op, cap) == NoAdvice(WasDismissed) ==>
      exists d :: 0 <= d < |ops| && ops[d].Dismiss? && SameQuestion(ops[d], op)
  {
    CacheIsTransparent(ops, op, cap);
    if AnswerTo(ops, op, cap) == NoAdvice(WasDismissed) {
      var k := QuestionKey(op);
      var d: nat :| HeldSince(ops, k, cap, d);
      SameQuestionSameKey(ops[d], op);
      assert ops[d].Dismiss? && SameQuestion(ops[d], op);
    }
  }

  /** In particular sessions never collide. */
  lemma SessionsApart(ops: seq<Op>, op: Op, cap: nat)
    requires cap >= 1 && op.Recommend?
    requires forall d :: 0 <= d < |ops| && ops[d].Dismiss? ==> ops[d].sess.id != op.sess.id
    ensures AnswerTo(ops, op, cap) != NoAdvice(WasDismissed)
  {
    SuppressedByOwnDismissal(ops, op, cap);
  }

  /** A dismissal suppresses its question at once, whoever asks it under that session. */
  lemma DismissedAtOnce(ops: seq<Op>, d: Op, op: Op, cap: nat)
    requires cap >= 1 && d.Dismiss? && op.Recommend? && SameQuestion(d, op)
    requires !op.sess.moot && (Gated(ops, op.kind.id) ==> op.gateSays)
    ensures AnswerTo(ops + [d], op, cap) == NoAdvice(WasDismissed)
  {
    var run := ops + [d];
    assert run[..|run| - 1] == ops && run[..|run|] == run;
    GateIsLast(run, cap, op.kind.id);
    SameQuestionSameKey(d, op);
    var k := QuestionKey(op);
    AlwaysFaithful(ops, cap);
    AlwaysFaithful(run, cap);
    DismissUses(ops, d, k, cap);
    TrackedStep(Uses(ops, cap), k, cap);
    assert HeldSince(run, k, cap, |ops|);
    CacheIsTransparent(run, op, cap);
  }

  // ---- the cache-hit mark ----

  lemma {:induction false} UsedFrom(ops: seq<Op>, k: CacheKey, cap: nat) returns (i: nat)
    requires k in Uses(ops, cap)
    ensures i < |ops| && Asks(ops[i]) && ops[i].features.Json? && QuestionKey(ops[i]) == k
  {
    var g, op := ops[..|ops| - 1], ops[|ops| - 1];
    if UsedBy(After(g, cap), op) == Some(k) {
      i := |g|;
    } else {
      i := UsedFrom(g, k, cap);
    }
  }

  /** Only a question that was put before, in the same words, is answered from the cache. */
  lemma HitsWereAsked(ops: seq<Op>, op: Op, cap: nat)
    requires cap >= 1 && op.Recommend?
    ensures var a := AnswerTo(ops, op, cap);
      a.Advice? && a.rec.cacheHit ==> exists i :: 0 <= i < |ops| && SameQuestion(ops[i], op)
  {
    var a, k := AnswerTo(ops, op, cap), KeyOf(op.sess, op.kind, if op.features.Json? then op.features.text else "");
    if a.Advice? && a.rec.cacheHit {
      AlwaysFaithful(ops, cap);
      FindIffKey(After(ops, cap).store, k);
      TrackedIff(Uses(ops, cap), k, cap);
      var i := UsedFrom(ops, k, cap);
      SameQuestionSameKey(ops[i], op);
    }
  }

  /** A question put twice in a row gets the same answer, marked as a hit. */
  lemma RepeatHits(ops: seq<Op>, op: Op, again: Op, cap: nat)
    requires cap >= 1 && op.Recommend? && again.Recommend? && SameQuestion(op, again)
    requires !again.sess.moot && (Gated(ops, again.kind.id) ==> again.gateSays)
    requires AnswerTo(ops, op, cap).Advice?
    ensures AnswerTo(ops + [op], again, cap) == Advice(AnswerTo(ops, op, cap).rec.(cacheHit := true))
  {
    var run := ops + [op];
    assert run[..|run| - 1] == ops;
    GateIsLast(ops, cap, again.kind.id);
    SameQuestionSameKey(op, again);
    var st, k := After(ops, cap), QuestionKey(op);
    var e := EntryAfter(st, op);
    StepShape(st, op, cap);
    assert UsedBy(st, op) == Some(k);
    UpsertFinds(st.store, k, e, cap);
  }

  lemma UpsertFinds(t: Store, k: CacheKey, e: CacheEntry, cap: nat)
    requires cap >= 1
    ensures Find(Upsert(t, k, e, cap), k) == Some(e)
  {
  }
}
