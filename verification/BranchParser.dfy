/** The recursive-descent parser that evaluates as it parses
    (core/agentgraph/exec_control.go), and its agreement with the grammar. */
module BranchParser {
  import opened Wrappers
  import opened BranchTokens
  import opened BranchValues
  import opened BranchGrammar

  /** What one parse function returns together with where it leaves the cursor. */
  datatype Outcome = Outcome(res: Result<bool, BranchError>, pos: nat)

  /** What every parse function works on. */
  datatype Setting = Setting(host: Host, inputs: PortValues, tokens: seq<Token>)

  predicate At(c: Setting, pos: nat, t: Token) {
    pos < |c.tokens| && c.tokens[pos] == t
  }

  function OrFrom(c: Setting, pos: nat): (o: Outcome)
    requires pos <= |c.tokens|
    ensures pos <= o.pos <= |c.tokens|
    decreases |c.tokens| - pos, 3
  {
    var l := AndFrom(c, pos);
    if l.res.Err? then l else OrRest(c, l.pos, l.res.value)
  }

  /** The loop of `parseOr` once its left operand is known. */
  function OrRest(c: Setting, pos: nat, left: bool): (o: Outcome)
    requires pos <= |c.tokens|
    ensures pos <= o.pos <= |c.tokens|
    decreases |c.tokens| - pos, 0
  {
    if !At(c, pos, Or) then Outcome(Ok(left), pos)
    else
      var r := AndFrom(c, pos + 1);
      if r.res.Err? then r else OrRest(c, r.pos, left || r.res.value)
  }

  function AndFrom(c: Setting, pos: nat): (o: Outcome)
    requires pos <= |c.tokens|
    ensures pos <= o.pos <= |c.tokens|
    decreases |c.tokens| - pos, 2
  {
    var l := NotFrom(c, pos);
    if l.res.Err? then l else AndRest(c, l.pos, l.res.value)
  }

  function AndRest(c: Setting, pos: nat, left: bool): (o: Outcome)
    requires pos <= |c.tokens|
    ensures pos <= o.pos <= |c.tokens|
    decreases |c.tokens| - pos, 0
  {
    if !At(c, pos, And) then Outcome(Ok(left), pos)
    else
      var r := NotFrom(c, pos + 1);
      if r.res.Err? then r else AndRest(c, r.pos, left && r.res.value)
  }

  function NotFrom(c: Setting, pos: nat): (o: Outcome)
    requires pos <= |c.tokens|
    ensures pos <= o.pos <= |c.tokens|
    decreases |c.tokens| - pos, 1
  {
    if At(c, pos, Not) then
      var b := NotFrom(c, pos + 1);
      if b.res.Err? then b else Outcome(Ok(!b.res.value), b.pos)
    else AtomFrom(c, pos)
  }

  function AtomFrom(c: Setting, pos: nat): (o: Outcome)
    requires pos <= |c.tokens|
    ensures pos <= o.pos <= |c.tokens|
    decreases |c.tokens| - pos, 0
  {
    if pos == |c.tokens| then Outcome(Err(UnexpectedEnd), pos)
    else
      match c.tokens[pos]
      case LParen =>
        var b := OrFrom(c, pos + 1);
        if b.res.Err? then b
        else if At(c, b.pos, RParen) then Outcome(b.res, b.pos + 1)
        else Outcome(Err(ExpectedRParen(b.pos)), b.pos)
      case Bool(w) => Outcome(Ok(w == "true"), pos + 1)
      case Ident(n) =>
        var v := Lookup(c.inputs, n);
        if pos + 1 == |c.tokens| || !c.tokens[pos + 1].Op? then Outcome(Ok(Truthy(v)), pos + 1)
        else if pos + 2 == |c.tokens| then Outcome(Err(ExpectedRhs(c.tokens[pos + 1].symbol)), pos + 2)
        else Outcome(CompareValues(c.host, v, c.tokens[pos + 1].symbol, c.tokens[pos + 2]), pos + 3)
      case _ => Outcome(Err(UnexpectedToken(pos)), pos)
  }

  /** `evalBranchExpr` after tokenizing. */
  function EvalTokens(h: Host, inputs: PortValues, ts: seq<Token>): Result<bool, BranchError> {
    var o := OrFrom(Setting(h, inputs, ts), 0);
    if o.res.Err? then o.res
    else if o.pos < |ts| then Err(TrailingTokens(o.pos))
    else o.res
  }

  function EvalBranch(h: Host, inputs: PortValues, expr: string): Result<bool, BranchError> {
    match Lex(expr, 0)
    case Err(e) => Err(e)
    case Ok(ts) => EvalTokens(h, inputs, ts)
  }

  // ---- the imperative parser ----

  class Parser {
    const setting: Setting
    var pos: nat

    constructor (s: Setting)
      ensures setting == s && pos == 0
    {
      setting := s;
      pos := 0;
    }

    ghost predicate Valid()
      reads this
    {
      pos <= |setting.tokens|
    }

    function Peek(): Option<Token>
      reads this
    {
      if pos >= |setting.tokens| then None else Some(setting.tokens[pos])
    }

    method Advance() returns (t: Token)
      requires pos < |setting.tokens|
      modifies this
      ensures t == setting.tokens[old(pos)] && pos == old(pos) + 1
    {
      t := setting.tokens[pos];
      pos := pos + 1;
    }

    method ParseOr() returns (r: Result<bool, BranchError>)
      requires Valid()
      modifies this
      ensures Valid() && Outcome(r, pos) == OrFrom(setting, old(pos))
      decreases |setting.tokens| - pos, 3
    {
      r := ParseAnd();
      if r.Err? {
        return;
      }
      var left := r.value;
      ghost var goal := OrFrom(setting, old(pos));
      while true
        invariant Valid() && pos >= old(pos)
        invariant goal == OrRest(setting, pos, left)
        decreases |setting.tokens| - pos
      {
        var t := Peek();
        if t != Some(Or) {
          return Ok(left);
        }
        var _ := Advance();
        var right := ParseAnd();
        if right.Err? {
          return right;
        }
        left := left || right.value;
      }
    }

    method ParseAnd() returns (r: Result<bool, BranchError>)
      requires Valid()
      modifies this
      ensures Valid() && Outcome(r, pos) == AndFrom(setting, old(pos))
      decreases |setting.tokens| - pos, 2
    {
      r := ParseNot();
      if r.Err? {
        return;
      }
      var left := r.value;
      ghost var goal := AndFrom(setting, old(pos));
      while true
        invariant Valid() && pos >= old(pos)
        invariant goal == AndRest(setting, pos, left)
        decreases |setting.tokens| - pos
      {
        var t := Peek();
        if t != Some(And) {
          return Ok(left);
        }
        var _ := Advance();
        var right := ParseNot();
        if right.Err? {
          return right;
        }
        left := left && right.value;
      }
    }

    method ParseNot() returns (r: Result<bool, BranchError>)
      requires Valid()
      modifies this
      ensures Valid() && Outcome(r, pos) == NotFrom(setting, old(pos))
      decreases |setting.tokens| - pos, 1
    {
      if Peek() == Some(Not) {
        var _ := Advance();
        var v := ParseNot();
        return if v.Err? then v else Ok(!v.value);
      }
      r := ParseAtom();
    }

    method ParseAtom() returns (r: Result<bool, BranchError>)
      requires Valid()
      modifies this
      ensures Valid() && Outcome(r, pos) == AtomFrom(setting, old(pos))
      decreases |setting.tokens| - pos, 0
    {
      var t := Peek();
      if t.None? {
        return Err(UnexpectedEnd);
      }
      if t.value == LParen {
        var _ := Advance();
        var v := ParseOr();
        if v.Err? {
          return v;
        }
        if Peek() != Some(RParen) {
          return Err(ExpectedRParen(pos));
        }
        var _ := Advance();
        return v;
      }
      if t.value.Bool? {
        var _ := Advance();
        return Ok(t.value.word == "true");
      }
      if t.value.Ident? {
        var left := Advance();
        var op := Peek();
        if op.None? || !op.value.Op? {
          return Ok(Truthy(Lookup(setting.inputs, left.name)));
        }
        var _ := Advance();
        var rhs := Peek();
        if rhs.None? {
          return Err(ExpectedRhs(op.value.symbol));
        }
        var _ := Advance();
        return CompareValues(setting.host, Lookup(setting.inputs, left.name), op.value.symbol, rhs.value);
      }
      return Err(UnexpectedToken(pos));
    }
  }

  method EvalBranchExpr(h: Host, inputs: PortValues, expr: string) returns (r: Result<bool, BranchError>)
    ensures r == EvalBranch(h, inputs, expr)
  {
    var tokens := Tokenize(expr);
    if tokens.Err? {
      return Err(tokens.error);
    }
    var p := new Parser(Setting(h, inputs, tokens.value));
    var v := p.ParseOr();
    if v.Err? {
      return v;
    }
    if p.pos < |p.setting.tokens| {
      return Err(TrailingTokens(p.pos));
    }
    return v;
  }

  // ---- completeness: a derivable list evaluates to its tree's meaning ----

  /** The tokens of `e` stand at `pos`. */
  ghost predicate Spans(c: Setting, pos: nat, e: Expr) {
    Stands(c, pos, Yield(e))
  }

  ghost predicate Stands(c: Setting, pos: nat, ts: seq<Token>) {
    pos + |ts| <= |c.tokens| && c.tokens[pos..pos + |ts|] == ts
  }

  ghost predicate NoOpAt(c: Setting, pos: nat) {
    pos < |c.tokens| ==> !c.tokens[pos].Op?
  }

  /** Splitting a span at a connective. */
  lemma SpanParts(ts: seq<Token>, pos: nat, whole: seq<Token>, l: seq<Token>, t: Token, r: seq<Token>)
    requires pos + |whole| <= |ts| && ts[pos..pos + |whole|] == whole && whole == l + [t] + r
    ensures |whole| == |l| + 1 + |r|
    ensures ts[pos..pos + |l|] == l
    ensures ts[pos + |l|] == t
    ensures ts[pos + |l| + 1..pos + |l| + 1 + |r|] == r
  {
    var w := ts[pos..pos + |whole|];
    assert |w| == |l| + 1 + |r|;
    assert ts[pos..pos + |l|] == w[..|l|];
    assert ts[pos + |l|] == w[|l|];
    assert ts[pos + |l| + 1..pos + |l| + 1 + |r|] == w[|l| + 1..];
  }

  lemma ParenParts(c: Setting, pos: nat, b: seq<Token>)
    requires pos + |b| + 2 <= |c.tokens|
    requires c.tokens[pos..pos + |b| + 2] == [LParen] + b + [RParen]
    ensures c.tokens[pos] == LParen && c.tokens[pos + 1..pos + 1 + |b|] == b
    ensures c.tokens[pos + 1 + |b|] == RParen
  {
    var w := c.tokens[pos..pos + |b| + 2];
    assert c.tokens[pos] == w[0];
    assert c.tokens[pos + 1..pos + 1 + |b|] == w[1..1 + |b|];
    assert c.tokens[pos + 1 + |b|] == w[1 + |b|];
  }

  /** What a parse function of the level of `not` or an atom does on its span: all of it,
      value or error. */
  ghost predicate Reads(c: Setting, pos: nat, e: Expr, o: Outcome) {
    var m := Meaning(c.host, c.inputs, e);
    o.res == m && (m.Ok? ==> o.pos == pos + |Yield(e)|)
  }

  /** Parsing a chain amounts to resuming its loop after the span. */
  ghost predicate ResumesAnd(c: Setting, pos: nat, e: Expr, o: Outcome)
    requires pos + |Yield(e)| <= |c.tokens|
  {
    var m := Meaning(c.host, c.inputs, e);
    if m.Ok? then o == AndRest(c, pos + |Yield(e)|, m.value) else o.res == m
  }

  ghost predicate ResumesOr(c: Setting, pos: nat, e: Expr, o: Outcome)
    requires pos + |Yield(e)| <= |c.tokens|
  {
    var m := Meaning(c.host, c.inputs, e);
    if m.Ok? then o == OrRest(c, pos + |Yield(e)|, m.value) else o.res == m
  }

  lemma {:induction false} AtomComplete(c: Setting, pos: nat, e: Expr)
    requires Legal(e) && Level(e) >= 3 && Spans(c, pos, e) && NoOpAt(c, pos + |Yield(e)|)
    ensures Reads(c, pos, e, AtomFrom(c, pos))
    decreases e, 0
  {
    var w := c.tokens[pos..pos + |Yield(e)|];
    assert c.tokens[pos] == w[0];
    match e {
      case EParen(b) =>
        ParenParts(c, pos, Yield(b));
        OrComplete(c, pos + 1, b);
      case EBool(_) =>
      case EName(_) =>
      case ECompare(_, _, _) =>
        assert c.tokens[pos + 1] == w[1] && c.tokens[pos + 2] == w[2];
    }
  }

  lemma {:induction false} NotComplete(c: Setting, pos: nat, e: Expr)
    requires Legal(e) && Level(e) >= 2 && Spans(c, pos, e) && NoOpAt(c, pos + |Yield(e)|)
    ensures Reads(c, pos, e, NotFrom(c, pos))
    decreases e, 1
  {
    assert c.tokens[pos] == c.tokens[pos..pos + |Yield(e)|][0];
    if e.ENot? {
      assert Yield(e) == [] + [Not] + Yield(e.body);
      SpanParts(c.tokens, pos, Yield(e), [], Not, Yield(e.body));
      NotComplete(c, pos + 1, e.body);
    } else {
      AtomComplete(c, pos, e);
    }
  }

  /** Both operands of a binary node stand in its span, around the connective. */
  lemma BinaryParts(c: Setting, pos: nat, whole: seq<Token>, l: seq<Token>, t: Token, r: seq<Token>)
    requires Stands(c, pos, whole) && whole == l + [t] + r && !t.Op?
    ensures var mid := pos + |l|;
      && Stands(c, pos, l) && Stands(c, mid + 1, r) && mid + 1 + |r| == pos + |whole|
      && At(c, mid, t) && NoOpAt(c, mid)
  {
    SpanParts(c.tokens, pos, whole, l, t, r);
  }

  /** From a chain's left part to the whole: one turn of the loop of `parseAnd`. */
  lemma AndJoin(c: Setting, pos: nat, e: Expr, o: Outcome)
    requires e.EAnd? && pos + |Yield(e)| <= |c.tokens| && At(c, pos + |Yield(e.left)|, And)
    requires ResumesAnd(c, pos, e.left, o)
    requires Reads(c, pos + |Yield(e.left)| + 1, e.right, NotFrom(c, pos + |Yield(e.left)| + 1))
    ensures ResumesAnd(c, pos, e, o)
  {
  }

  lemma OrJoin(c: Setting, pos: nat, e: Expr, o: Outcome)
    requires e.EOr? && pos + |Yield(e)| <= |c.tokens| && At(c, pos + |Yield(e.left)|, Or)
    requires ResumesOr(c, pos, e.left, o)
    requires Reads(c, pos + |Yield(e.left)| + 1, e.right, AndFrom(c, pos + |Yield(e.left)| + 1))
    ensures ResumesOr(c, pos, e, o)
  {
  }

  /** A chain of one. */
  lemma AndStart(c: Setting, pos: nat, e: Expr)
    requires pos + |Yield(e)| <= |c.tokens| && Reads(c, pos, e, NotFrom(c, pos))
    ensures ResumesAnd(c, pos, e, AndFrom(c, pos))
  {
  }

  lemma OrStart(c: Setting, pos: nat, e: Expr)
    requires pos + |Yield(e)| <= |c.tokens| && Reads(c, pos, e, AndFrom(c, pos))
    ensures ResumesOr(c, pos, e, OrFrom(c, pos))
  {
  }

  lemma {:induction false} AndComplete(c: Setting, pos: nat, e: Expr)
    requires Legal(e) && Level(e) >= 1 && Spans(c, pos, e) && NoOpAt(c, pos + |Yield(e)|)
    ensures ResumesAnd(c, pos, e, AndFrom(c, pos))
    decreases e, 2
  {
    if e.EAnd? {
      BinaryParts(c, pos, Yield(e), Yield(e.left), And, Yield(e.right));
      AndComplete(c, pos, e.left);
      NotComplete(c, pos + |Yield(e.left)| + 1, e.right);
      AndJoin(c, pos, e, AndFrom(c, pos));
    } else {
      NotComplete(c, pos, e);
      AndStart(c, pos, e);
    }
  }

  /** With no `and` following, the chain is the whole of what `parseAnd` reads. */
  lemma {:induction false} AndStops(c: Setting, pos: nat, e: Expr)
    requires Legal(e) && Level(e) >= 1 && Spans(c, pos, e)
    requires NoOpAt(c, pos + |Yield(e)|) && !At(c, pos + |Yield(e)|, And)
    ensures Reads(c, pos, e, AndFrom(c, pos))
    decreases e, 3
  {
    AndComplete(c, pos, e);
  }

  lemma {:induction false} OrComplete(c: Setting, pos: nat, e: Expr)
    requires Legal(e) && Spans(c, pos, e)
    requires NoOpAt(c, pos + |Yield(e)|) && !At(c, pos + |Yield(e)|, And)
    ensures ResumesOr(c, pos, e, OrFrom(c, pos))
    decreases e, 5
  {
    if e.EOr? {
      BinaryParts(c, pos, Yield(e), Yield(e.left), Or, Yield(e.right));
      OrComplete(c, pos, e.left);
      AndStops(c, pos + |Yield(e.left)| + 1, e.right);
      OrJoin(c, pos, e, OrFrom(c, pos));
    } else {
      AndStops(c, pos, e);
      OrStart(c, pos, e);
    }
  }

  /** Value or error, with every token consumed. */
  lemma DerivedMeansMeaning(h: Host, inputs: PortValues, ts: seq<Token>, e: Expr)
    requires Derives(ts, e)
    ensures EvalTokens(h, inputs, ts) == Meaning(h, inputs, e)
  {
    var c := Setting(h, inputs, ts);
    assert ts[0..|ts|] == ts;
    OrComplete(c, 0, e);
  }

  // ---- soundness: a value comes from a tree ----

  lemma ParenYield(c: Setting, pos: nat, q: nat, b: Expr)
    requires pos < q && At(c, pos, LParen) && At(c, q, RParen) && c.tokens[pos + 1..q] == Yield(b)
    ensures c.tokens[pos..q + 1] == Yield(EParen(b))
  {
    assert c.tokens[pos..q + 1] == [c.tokens[pos]] + c.tokens[pos + 1..q] + [c.tokens[q]];
  }

  /** Building the tree a successful parse has walked. */
  lemma {:induction false} AtomSound(c: Setting, pos: nat) returns (e: Expr)
    requires pos <= |c.tokens| && AtomFrom(c, pos).res.Ok?
    ensures Legal(e) && Level(e) >= 3 && c.tokens[pos..AtomFrom(c, pos).pos] == Yield(e)
    ensures Meaning(c.host, c.inputs, e) == AtomFrom(c, pos).res
    decreases |c.tokens| - pos, 0
  {
    match c.tokens[pos] {
      case LParen =>
        var b := OrSound(c, pos + 1);
        e := EParen(b);
        ParenYield(c, pos, OrFrom(c, pos + 1).pos, b);
      case Bool(w) =>
        e := EBool(w);
      case Ident(n) =>
        if pos + 1 == |c.tokens| || !c.tokens[pos + 1].Op? {
          e := EName(n);
        } else {
          e := ECompare(n, c.tokens[pos + 1].symbol, c.tokens[pos + 2]);
        }
    }
  }

  lemma {:induction false} NotSound(c: Setting, pos: nat) returns (e: Expr)
    requires pos <= |c.tokens| && NotFrom(c, pos).res.Ok?
    ensures Legal(e) && Level(e) >= 2 && c.tokens[pos..NotFrom(c, pos).pos] == Yield(e)
    ensures Meaning(c.host, c.inputs, e) == NotFrom(c, pos).res
    decreases |c.tokens| - pos, 1
  {
    if At(c, pos, Not) {
      var b := NotSound(c, pos + 1);
      e := ENot(b);
      assert c.tokens[pos..NotFrom(c, pos).pos] == [Not] + c.tokens[pos + 1..NotFrom(c, pos).pos];
    } else {
      e := AtomSound(c, pos);
    }
  }

  lemma SpansJoin(ts: seq<Token>, start: nat, mid: nat, end: nat)
    requires start <= mid < end <= |ts|
    ensures ts[start..end] == ts[start..mid] + [ts[mid]] + ts[mid + 1..end]
  {
  }

  lemma {:induction false} AndRestSound(c: Setting, start: nat, pos: nat, l: Expr) returns (e: Expr)
    requires start <= pos <= |c.tokens| && Legal(l) && Level(l) >= 1 && c.tokens[start..pos] == Yield(l)
    requires var m := Meaning(c.host, c.inputs, l); m.Ok? && AndRest(c, pos, m.value).res.Ok?
    ensures var o := AndRest(c, pos, Meaning(c.host, c.inputs, l).value);
      Legal(e) && Level(e) >= 1 && c.tokens[start..o.pos] == Yield(e) && Meaning(c.host, c.inputs, e) == o.res
    decreases |c.tokens| - pos, 0
  {
    if At(c, pos, And) {
      var r := NotSound(c, pos + 1);
      var q := NotFrom(c, pos + 1).pos;
      SpansJoin(c.tokens, start, pos, q);
      e := AndRestSound(c, start, q, EAnd(l, r));
    } else {
      e := l;
    }
  }

  lemma {:induction false} AndSound(c: Setting, pos: nat) returns (e: Expr)
    requires pos <= |c.tokens| && AndFrom(c, pos).res.Ok?
    ensures Legal(e) && Level(e) >= 1 && c.tokens[pos..AndFrom(c, pos).pos] == Yield(e)
    ensures Meaning(c.host, c.inputs, e) == AndFrom(c, pos).res
    decreases |c.tokens| - pos, 2
  {
    var l := NotSound(c, pos);
    e := AndRestSound(c, pos, NotFrom(c, pos).pos, l);
  }

  lemma {:induction false} OrRestSound(c: Setting, start: nat, pos: nat, l: Expr) returns (e: Expr)
    requires start <= pos <= |c.tokens| && Legal(l) && c.tokens[start..pos] == Yield(l)
    requires var m := Meaning(c.host, c.inputs, l); m.Ok? && OrRest(c, pos, m.value).res.Ok?
    ensures var o := OrRest(c, pos, Meaning(c.host, c.inputs, l).value);
      Legal(e) && c.tokens[start..o.pos] == Yield(e) && Meaning(c.host, c.inputs, e) == o.res
    decreases |c.tokens| - pos, 0
  {
    if At(c, pos, Or) {
      var r := AndSound(c, pos + 1);
      var q := AndFrom(c, pos + 1).pos;
      SpansJoin(c.tokens, start, pos, q);
      e := OrRestSound(c, start, q, EOr(l, r));
    } else {
      e := l;
    }
  }

  lemma {:induction false} OrSound(c: Setting, pos: nat) returns (e: Expr)
    requires pos <= |c.tokens| && OrFrom(c, pos).res.Ok?
    ensures Legal(e) && c.tokens[pos..OrFrom(c, pos).pos] == Yield(e)
    ensures Meaning(c.host, c.inputs, e) == OrFrom(c, pos).res
    decreases |c.tokens| - pos, 3
  {
    var l := AndSound(c, pos);
    e := OrRestSound(c, pos, AndFrom(c, pos).pos, l);
  }

  // ---- the main results ----

  /** The parser returns a value on a token list exactly when the grammar derives
      the list as a tree with that value. */
  lemma EvaluatesExactlyDerivations(h: Host, inputs: PortValues, ts: seq<Token>, v: bool)
    ensures EvalTokens(h, inputs, ts) == Ok(v) <==> exists e :: Derives(ts, e) && Meaning(h, inputs, e) == Ok(v)
  {
    if EvalTokens(h, inputs, ts) == Ok(v) {
      var e := OrSound(Setting(h, inputs, ts), 0);
      assert ts[0..|ts|] == ts;
      assert Derives(ts, e);
    }
    forall e | Derives(ts, e)
      ensures EvalTokens(h, inputs, ts) == Meaning(h, inputs, e)
    {
      DerivedMeansMeaning(h, inputs, ts, e);
    }
  }

  /** Writing out any legal tree, in any layout, evaluates to the tree's meaning,
      value or error. */
  lemma WrittenMeansMeaning(h: Host, inputs: PortValues, expr: string, e: Expr)
    requires Legal(e) && WritesAs(expr, Yield(e))
    ensures EvalBranch(h, inputs, expr) == Meaning(h, inputs, e)
  {
    LexExactly(expr, Yield(e));
    DerivedMeansMeaning(h, inputs, Yield(e), e);
  }

  /** For whole strings: a value is returned just when the string is a legal
      layout of a derivable token list with that value. */
  lemma BranchLanguage(h: Host, inputs: PortValues, expr: string, v: bool)
    ensures EvalBranch(h, inputs, expr) == Ok(v) <==>
      exists e :: Legal(e) && WritesAs(expr, Yield(e)) && Meaning(h, inputs, e) == Ok(v)
  {
    if EvalBranch(h, inputs, expr) == Ok(v) {
      var ts := Lex(expr, 0).value;
      EvaluatesExactlyDerivations(h, inputs, ts, v);
      var e :| Derives(ts, e) && Meaning(h, inputs, e) == Ok(v);
      LexExactly(expr, ts);
      assert Legal(e) && WritesAs(expr, Yield(e)) && Meaning(h, inputs, e) == Ok(v);
    }
    forall e | Legal(e) && WritesAs(expr, Yield(e))
      ensures EvalBranch(h, inputs, expr) == Meaning(h, inputs, e)
    {
      WrittenMeansMeaning(h, inputs, expr, e);
    }
  }
}
