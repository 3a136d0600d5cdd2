/** Finding the brace-balanced spans of a model's reply
    (`jsonObjectCandidates`, core/agentgraph/exec_router.go).  The source indexes
    by rune; an element of the sequence below is one rune. */
module JsonSpans {

  /** Where the scan stands relative to string literals. */
  datatype Mode = Plain | InString | Escaped

  function NextMode(m: Mode, c: char): Mode {
    match m
    case Escaped => InString
    case InString => if c == '\\' then Escaped else if c == '"' then Plain else InString
    case Plain => if c == '"' then InString else Plain
  }

  /** The mode before reading position `i`, starting in plain text. */
  function ModeAt(s: string, i: nat): Mode
    requires i <= |s|
  {
    if i == 0 then Plain else NextMode(ModeAt(s, i - 1), s[i - 1])
  }

  predicate Opens(s: string, i: nat) {
    i < |s| && s[i] == '{' && ModeAt(s, i) == Plain
  }

  predicate Closes(s: string, i: nat) {
    i < |s| && s[i] == '}' && ModeAt(s, i) == Plain
  }

  /** Structural openers minus closers in `s[a..b]`. */
  function Height(s: string, a: nat, b: nat): int
    requires a <= b <= |s|
    decreases b
  {
    if a == b then 0
    else Height(s, a, b - 1) + (if Opens(s, b - 1) then 1 else if Closes(s, b - 1) then -1 else 0)
  }

  /** A span `s[lo..hi]` given by its ends. */
  datatype Span = Span(lo: nat, hi: nat)

  /** `lo` opens and nothing before `n` has closed it yet. */
  ghost predicate OpenUntil(s: string, lo: nat, n: nat) {
    Opens(s, lo) && lo < n <= |s| && forall m :: lo < m <= n ==> Height(s, lo, m) > 0
  }

  /** The independent definition of a candidate: it opens, and its last rune is the
      first point at which the nesting height comes back to zero. */
  ghost predicate Balanced(s: string, p: Span) {
    && p.lo + 1 < p.hi <= |s|
    && OpenUntil(s, p.lo, p.hi - 1)
    && Height(s, p.lo, p.hi) == 0
  }

  // ---- the scan ----

  /** The scan's variables: open positions, flags, and the spans found so far. */
  datatype Scan = Scan(starts: seq<nat>, mode: Mode, found: seq<Span>)

  function Advance(s: string, i: nat, st: Scan): Scan
    requires i < |s|
  {
    var st1 := st.(mode := NextMode(st.mode, s[i]));
    if st.mode != Plain then st1
    else if s[i] == '{' then st1.(starts := st.starts + [i])
    else if s[i] == '}' && |st.starts| > 0 then
      var top := st.starts[|st.starts| - 1];
      st1.(starts := st.starts[..|st.starts| - 1], found := st.found + [Span(top, i + 1)])
    else st1
  }

  function ScanTo(s: string, i: nat): Scan
    requires i <= |s|
  {
    if i == 0 then Scan([], Plain, []) else Advance(s, i - 1, ScanTo(s, i - 1))
  }

  function Reversed<T>(xs: seq<T>): (r: seq<T>)
    ensures |r| == |xs| && forall k :: 0 <= k < |xs| ==> r[k] == xs[|xs| - 1 - k]
  {
    seq(|xs|, k requires 0 <= k < |xs| => xs[|xs| - 1 - k])
  }

  /** The candidates, as spans, in the order they are tried. */
  function Candidates(s: string): seq<Span> {
    Reversed(ScanTo(s, |s|).found)
  }

  /** `jsonObjectCandidates` as written, returning spans; the caller slices. */
  method JsonObjectCandidates(s: string) returns (out: seq<Span>)
    ensures out == Candidates(s)
  {
    out := [];
    var starts: seq<nat> := [];
    var inString, escaped := false, false;
    for i := 0 to |s|
      invariant escaped ==> inString
      invariant ScanTo(s, i) == Scan(starts, if escaped then Escaped else if inString then InString else Plain, out)
    {
      var r := s[i];
      if escaped {
        escaped := false;
      } else if r == '\\' && inString {
        escaped := true;
      } else if r == '"' {
        inString := !inString;
      } else if inString {
      } else if r == '{' {
        starts := starts + [i];
      } else if r == '}' {
        var n := |starts|;
        if n > 0 {
          out := out + [Span(starts[n - 1], i + 1)];
          starts := starts[..n - 1];
        }
      }
    }
    ghost var scanned := out;
    var i, j := 0, |out| - 1;
    while i < j
      invariant 0 <= i && j < |out| && i + j == |out| - 1 && |out| == |scanned|
      invariant forall k :: i <= k <= j ==> out[k] == scanned[k]
      invariant forall k :: 0 <= k < |out| && (k < i || j < k) ==> out[k] == Reversed(scanned)[k]
    {
      assert Reversed(scanned)[i] == scanned[j] && Reversed(scanned)[j] == scanned[i];
      out := out[i := out[j]][j := out[i]];
      i, j := i + 1, j - 1;
    }
    assert out == Reversed(scanned);
  }

  // ---- the scan finds exactly the balanced spans ----

  lemma {:induction false} HeightSplit(s: string, a: nat, m: nat, b: nat)
    requires a <= m <= b <= |s|
    ensures Height(s, a, b) == Height(s, a, m) + Height(s, m, b)
    decreases b - m
  {
    if m < b {
      HeightSplit(s, a, m, b - 1);
    }
  }

  /** The stack holds exactly the openers still open, in order; each one's height
      is the number of openers above and including it. */
  ghost predicate StackOk(s: string, i: nat, st: Scan)
    requires i <= |s|
  {
    && st.mode == ModeAt(s, i)
    && (forall a, b :: 0 <= a < b < |st.starts| ==> st.starts[a] < st.starts[b])
    && (forall k :: 0 <= k < |st.starts| ==> OpenUntil(s, st.starts[k], i) && Height(s, st.starts[k], i) == |st.starts| - k)
    && (forall lo :: OpenUntil(s, lo, i) ==> lo in st.starts)
  }

  ghost predicate FoundOk(s: string, i: nat, st: Scan)
    requires i <= |s|
  {
    && (forall p :: p in st.found <==> p.hi <= i && Balanced(s, p))
    && (forall a, b :: 0 <= a < b < |st.found| ==> st.found[a].hi < st.found[b].hi)
  }

  lemma OpenUntilStep(s: string, lo: nat, i: nat)
    requires i < |s|
    ensures OpenUntil(s, lo, i + 1) <==>
      (lo == i && Opens(s, i)) || (OpenUntil(s, lo, i) && Height(s, lo, i + 1) > 0)
  {
    if lo == i && Opens(s, i) {
      assert Height(s, i, i + 1) == 1;
    }
  }

  lemma StackStep(s: string, i: nat, st: Scan)
    requires i < |s| && StackOk(s, i, st)
    ensures StackOk(s, i + 1, Advance(s, i, st))
  {
    var st' := Advance(s, i, st);
    forall lo: nat
      ensures OpenUntil(s, lo, i + 1) <==> (lo == i && Opens(s, i)) || (OpenUntil(s, lo, i) && Height(s, lo, i + 1) > 0)
    {
      OpenUntilStep(s, lo, i);
    }
    forall k | 0 <= k < |st'.starts|
      ensures OpenUntil(s, st'.starts[k], i + 1) && Height(s, st'.starts[k], i + 1) == |st'.starts| - k
    {
      if k < |st.starts| {
        assert st'.starts[k] == st.starts[k];
      }
    }
    forall lo | OpenUntil(s, lo, i + 1)
      ensures lo in st'.starts
    {
      if lo == i {
        assert st'.starts[|st'.starts| - 1] == i;
      } else {
        assert lo in st.starts;
        var k :| 0 <= k < |st.starts| && st.starts[k] == lo;
        assert st'.starts[k] == lo;
      }
    }
  }

  /** What position `i` adds to the spans found: the span it closes, if any. */
  lemma FoundStep(s: string, i: nat, st: Scan)
    requires i < |s| && StackOk(s, i, st) && FoundOk(s, i, st)
    ensures FoundOk(s, i + 1, Advance(s, i, st))
  {
    var st' := Advance(s, i, st);
    forall p: Span | p.hi == i + 1
      ensures Balanced(s, p) <==> Closes(s, i) && |st.starts| > 0 && p.lo == st.starts[|st.starts| - 1]
    {
      ClosedSpan(s, i, st, p);
    }
    forall p: Span
      ensures p in st'.found <==> p.hi <= i + 1 && Balanced(s, p)
    {
      if |st'.found| > |st.found| {
        assert p in st'.found <==> p in st.found || p == st'.found[|st.found|];
      }
    }
  }

  lemma ClosedSpan(s: string, i: nat, st: Scan, p: Span)
    requires i < |s| && StackOk(s, i, st) && p.hi == i + 1
    ensures Balanced(s, p) <==> Closes(s, i) && |st.starts| > 0 && p.lo == st.starts[|st.starts| - 1]
  {
    if OpenUntil(s, p.lo, i) {
      var k :| 0 <= k < |st.starts| && st.starts[k] == p.lo;
      assert Height(s, p.lo, i) == |st.starts| - k;
      assert k < |st.starts| - 1 ==> st.starts[k] < st.starts[|st.starts| - 1];
    }
  }

  lemma {:induction false} ScanOk(s: string, i: nat)
    requires i <= |s|
    ensures StackOk(s, i, ScanTo(s, i)) && FoundOk(s, i, ScanTo(s, i))
  {
    if i > 0 {
      ScanOk(s, i - 1);
      StackStep(s, i - 1, ScanTo(s, i - 1));
      FoundStep(s, i - 1, ScanTo(s, i - 1));
    }
  }

  /** The candidates are exactly the balanced spans, later-closing ones first. */
  lemma CandidatesExact(s: string)
    ensures forall p :: p in Candidates(s) <==> Balanced(s, p)
    ensures forall a, b :: 0 <= a < b < |Candidates(s)| ==> Candidates(s)[a].hi > Candidates(s)[b].hi
  {
    ScanOk(s, |s|);
    var found := ScanTo(s, |s|).found;
    forall p
      ensures p in Candidates(s) <==> p in found
    {
      if p in found {
        var k :| 0 <= k < |found| && found[k] == p;
        assert Candidates(s)[|found| - 1 - k] == p;
      }
    }
  }

  predicate Nested(outer: Span, inner: Span) {
    outer.lo < inner.lo && inner.hi < outer.hi
  }

  predicate Disjoint(p: Span, q: Span) {
    p.hi <= q.lo || q.hi <= p.lo
  }

  lemma BalancedLaminar(s: string, p: Span, q: Span)
    requires Balanced(s, p) && Balanced(s, q) && q.hi < p.hi
    ensures Nested(p, q) || Disjoint(p, q)
  {
    if p.lo < q.hi && q.lo < p.lo {
      HeightSplit(s, q.lo, p.lo, q.hi);
    }
  }

  /** Any two candidates are disjoint or nested, and of a nested pair the outer is
      listed first; a longer span comes after a shorter one only when it lies
      wholly before it. */
  lemma CandidatesLaminar(s: string, a: nat, b: nat)
    requires a < b < |Candidates(s)|
    ensures var p, q := Candidates(s)[a], Candidates(s)[b];
      && (Nested(p, q) || Disjoint(p, q))
      && (q.hi - q.lo > p.hi - p.lo ==> q.hi <= p.lo)
  {
    CandidatesExact(s);
    assert Candidates(s)[a] in Candidates(s) && Candidates(s)[b] in Candidates(s);
    BalancedLaminar(s, Candidates(s)[a], Candidates(s)[b]);
  }

  ghost predicate LongestFirst(s: string) {
    forall a, b :: 0 <= a < b < |Candidates(s)| ==>
      Candidates(s)[b].hi - Candidates(s)[b].lo <= Candidates(s)[a].hi - Candidates(s)[a].lo
  }

  /** The order is the documented "longest first" exactly when no balanced object is
      longer than one that comes after it in the text. */
  lemma LongestFirstIff(s: string)
    ensures LongestFirst(s) <==>
      forall p, q :: Balanced(s, p) && Balanced(s, q) && q.hi <= p.lo ==> q.hi - q.lo <= p.hi - p.lo
  {
    CandidatesExact(s);
    var cs := Candidates(s);
    if LongestFirst(s) {
      forall p, q | Balanced(s, p) && Balanced(s, q) && q.hi <= p.lo
        ensures q.hi - q.lo <= p.hi - p.lo
      {
        assert p in cs && q in cs;
        var a :| 0 <= a < |cs| && cs[a] == p;
        var b :| 0 <= b < |cs| && cs[b] == q;
        assert q.hi < p.hi;
        assert a < b;
      }
    } else {
      var a, b :| 0 <= a < b < |cs| && cs[b].hi - cs[b].lo > cs[a].hi - cs[a].lo;
      CandidatesLaminar(s, a, b);
      assert cs[a] in cs && cs[b] in cs;
    }
  }

  /** A text that breaks it: the shorter, later span is listed before the longer,
      earlier one. */
  lemma NotLongestFirst()
    ensures Candidates("{1}{}") == [Span(3, 5), Span(0, 3)]
  {
    var s := "{1}{}";
    assert ScanTo(s, 1) == Scan([0], Plain, []);
    assert ScanTo(s, 2) == Scan([0], Plain, []);
    assert ScanTo(s, 3) == Scan([], Plain, [Span(0, 3)]);
    assert ScanTo(s, 4) == Scan([3], Plain, [Span(0, 3)]);
    assert ScanTo(s, 5) == Scan([], Plain, [Span(0, 3), Span(3, 5)]);
  }

  // ---- a candidate scanned by itself ----

  /** Inside a candidate the scan sees what it saw in the whole text. */
  lemma {:induction false} ModeWithin(s: string, p: Span, i: nat)
    requires Balanced(s, p) && i <= p.hi - p.lo
    ensures ModeAt(s[p.lo..p.hi], i) == ModeAt(s, p.lo + i)
  {
    if i > 0 {
      ModeWithin(s, p, i - 1);
    }
  }

  lemma {:induction false} HeightWithin(s: string, p: Span, a: nat, b: nat)
    requires Balanced(s, p) && a <= b <= p.hi - p.lo
    ensures Height(s[p.lo..p.hi], a, b) == Height(s, p.lo + a, p.lo + b)
    decreases b
  {
    if a < b {
      HeightWithin(s, p, a, b - 1);
      ModeWithin(s, p, b - 1);
    }
  }

  /** Every candidate starts with an opening and ends with a closing brace, and,
      re-scanned alone, comes back as the first candidate. */
  lemma CandidateRescans(s: string, k: nat)
    requires k < |Candidates(s)|
    ensures var p := Candidates(s)[k];
      && p.lo < p.hi <= |s| && s[p.lo] == '{' && s[p.hi - 1] == '}'
      && (var t := s[p.lo..p.hi]; |Candidates(t)| > 0 && Candidates(t)[0] == Span(0, |t|))
  {
    CandidatesExact(s);
    var p := Candidates(s)[k];
    assert p in Candidates(s);
    assert Height(s, p.lo, p.hi) == 0 && Height(s, p.lo, p.hi - 1) > 0;
    var t := s[p.lo..p.hi];
    var whole := Span(0, |t|);
    ModeWithin(s, p, 0);
    HeightWithin(s, p, 0, |t|);
    forall m | 0 < m <= |t| - 1
      ensures Height(t, 0, m) > 0
    {
      HeightWithin(s, p, 0, m);
    }
    assert Balanced(t, whole);
    CandidatesExact(t);
    assert whole in Candidates(t);
    assert Candidates(t)[0] in Candidates(t);
  }

  // ---- what is structural, in terms of the text ----

  /** The inside of a complete string literal: no bare quote, and every backslash takes
      the rune after it along. */
  predicate LiteralBody(t: string)
    decreases |t|
  {
    if |t| == 0 then true
    else if t[0] == '\\' then |t| >= 2 && LiteralBody(t[2..])
    else t[0] != '"' && LiteralBody(t[1..])
  }

  /** Inside a literal nothing counts, up to its closing quote. */
  lemma {:induction false} BodyInString(s: string, a: nat, b: nat, k: nat)
    requires a <= k <= b <= |s| && ModeAt(s, a) == InString && LiteralBody(s[a..b])
    ensures ModeAt(s, k) != Plain && ModeAt(s, b) == InString
    decreases b - a
  {
    if a < b {
      assert s[a..b][0] == s[a];
      if s[a] == '\\' {
        assert s[a..b][2..] == s[a + 2..b];
        assert ModeAt(s, a + 1) == Escaped && ModeAt(s, a + 2) == InString;
        BodyInString(s, a + 2, b, if k < a + 2 then a + 2 else k);
      } else {
        assert s[a..b][1..] == s[a + 1..b];
        BodyInString(s, a + 1, b, if k < a + 1 then a + 1 else k);
      }
    }
  }

  /** A complete string literal in plain text is opaque: after it the text is plain again
      at the same height, and no brace inside it is structural. */
  lemma LiteralOpaque(s: string, a: nat, b: nat, k: nat)
    requires a + 1 < b <= |s| && ModeAt(s, a) == Plain
    requires s[a] == '"' && s[b - 1] == '"' && LiteralBody(s[a + 1..b - 1])
    ensures ModeAt(s, b) == Plain
    ensures a <= k < b ==> !Opens(s, k) && !Closes(s, k)
    ensures Height(s, a, b) == 0
  {
    assert ModeAt(s, a + 1) == InString;
    BodyInString(s, a + 1, b - 1, b - 1);
    forall m | a <= m < b
      ensures !Opens(s, m) && !Closes(s, m)
    {
      if m > a {
        BodyInString(s, a + 1, b - 1, m);
      }
    }
    FlatHeight(s, a, b);
  }

  lemma {:induction false} FlatHeight(s: string, a: nat, b: nat)
    requires a <= b <= |s| && forall m :: a <= m < b ==> !Opens(s, m) && !Closes(s, m)
    ensures Height(s, a, b) == 0
    decreases b
  {
    if a < b {
      FlatHeight(s, a, b - 1);
    }
  }

  /** Outside literals every brace is structural: while no quote is met, plain text stays
      plain, a backslash included. */
  lemma {:induction false} PlainStays(s: string, a: nat, b: nat, k: nat)
    requires a <= k <= b <= |s| && ModeAt(s, a) == Plain && '"' !in s[a..b]
    ensures ModeAt(s, k) == Plain
    ensures k < b ==> (Opens(s, k) <==> s[k] == '{') && (Closes(s, k) <==> s[k] == '}')
    decreases k
  {
    if a < k {
      PlainStays(s, a, b, k - 1);
      assert s[k - 1] == s[a..b][k - 1 - a];
    }
  }

  /** A literal that is never closed hides everything after its quote. */
  lemma UnclosedHides(s: string, a: nat, k: nat)
    requires a < k < |s| && ModeAt(s, a) == Plain && s[a] == '"' && LiteralBody(s[a + 1..])
    ensures !Opens(s, k) && !Closes(s, k)
  {
    assert s[a + 1..] == s[a + 1..|s|];
    assert ModeAt(s, a + 1) == InString;
    BodyInString(s, a + 1, |s|, k);
  }
}
