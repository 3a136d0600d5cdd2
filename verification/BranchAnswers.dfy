/** What branch expressions answer, stated on the written string: the order of
    numbers, equality of printed forms, the truth of a bare name, dotted lookups,
    and the connectives (core/agentgraph/exec_control.go). */
module BranchAnswers {
  import opened Wrappers
  import opened BranchTokens
  import opened BranchValues
  import opened BranchGrammar
  import opened BranchParser
  import opened BranchPrinter

  /** The right-hand side of a comparison as an author writes it. */
  datatype Operand = Numeral(digits: string) | Quoted(text: string) | Word(name: string) | Truth(b: bool) {
    function Written(): string {
      match this
      case Numeral(d) => d
      case Quoted(t) => "\"" + t + "\""
      case Word(w) => w
      case Truth(b) => if b then "true" else "false"
    }

    /** What an ordering comparison hands to the number parser. */
    function Bare(): string {
      match this
      case Quoted(t) => t
      case _ => Written()
    }

    predicate Valid() {
      match this
      case Numeral(d) => |d| > 0 && '0' <= d[0] <= '9' && forall k :: 0 <= k < |d| ==> '0' <= d[k] <= '9' || d[k] == '.'
      case Quoted(t) => '"' !in t
      case Word(w) => IsName(w)
      case Truth(_) => true
    }
  }

  predicate NameStart(c: char) {
    'a' <= c <= 'z' || 'A' <= c <= 'Z' || c == '_'
  }

  predicate NameByte(c: char) {
    NameStart(c) || '0' <= c <= '9' || c == '.'
  }

  /** `w` is `word`, given in lower case, in any mixture of cases. */
  predicate SameFolded(w: string, word: string) {
    |w| == |word| && forall k :: 0 <= k < |w| ==> w[k] == word[k] || ('A' <= w[k] <= 'Z' && w[k] + 32 as char == word[k])
  }

  predicate Keyword(w: string) {
    || SameFolded(w, "and")
    || SameFolded(w, "or")
    || SameFolded(w, "not")
    || SameFolded(w, "true")
    || SameFolded(w, "false")
  }

  predicate IsName(n: string) {
    |n| > 0 && NameStart(n[0]) && (forall k :: 0 <= k < |n| ==> NameByte(n[k])) && !Keyword(n)
  }

  lemma FoldedIff(w: string, word: string)
    requires forall k :: 0 <= k < |word| ==> 'a' <= word[k] <= 'z'
    ensures Lower(w) == word <==> SameFolded(w, word)
  {
    if Lower(w) == word {
      forall k | 0 <= k < |w|
        ensures w[k] == word[k] || ('A' <= w[k] <= 'Z' && w[k] + 32 as char == word[k])
      {
        assert Lower(w)[k] == LowerByte(w[k]);
      }
    }
    if SameFolded(w, word) {
      forall k | 0 <= k < |w|
        ensures Lower(w)[k] == word[k]
      {
        assert Lower(w)[k] == LowerByte(w[k]);
      }
      assert Lower(w) == word;
    }
  }

  /** A word is a keyword in any mixture of letter cases, and otherwise a name. */
  lemma WordsFold(w: string)
    ensures SameFolded(w, "and") ==> WordToken(w) == And
    ensures SameFolded(w, "or") ==> WordToken(w) == Or
    ensures SameFolded(w, "not") ==> WordToken(w) == Not
    ensures SameFolded(w, "true") ==> WordToken(w) == Bool("true")
    ensures SameFolded(w, "false") ==> WordToken(w) == Bool("false")
    ensures !Keyword(w) ==> WordToken(w) == Ident(w)
  {
    FoldedIff(w, "and");
    FoldedIff(w, "or");
    FoldedIff(w, "not");
    FoldedIff(w, "true");
    FoldedIff(w, "false");
    assert "and"[0] == 'a' && "not"[0] == 'n' && "true"[0] == 't' && "false"[0] == 'f';
  }

  lemma NameWritable(n: string)
    requires IsName(n)
    ensures Writable(Ident(n))
  {
    WordsFold(n);
    assert AllBytes(n, WordByte);
  }

  function OperandToken(o: Operand): Token {
    match o
    case Numeral(d) => Number(d)
    case Quoted(t) => Str(t)
    case Word(w) => Ident(w)
    case Truth(b) => Bool(if b then "true" else "false")
  }

  lemma OperandWritable(o: Operand)
    requires o.Valid()
    ensures Writable(OperandToken(o)) && Spelling(OperandToken(o)) == o.Written()
    ensures OperandToken(o).Text() == o.Bare()
  {
    match o {
      case Numeral(d) => assert AllBytes(d, NumberByte);
      case Quoted(t) => assert AllBytes(t, NotQuote);
      case Word(w) => NameWritable(w);
      case Truth(_) => KeywordsWritable();
    }
  }

  /** A writable tree, written with single spaces, evaluates to its meaning. */
  lemma SpokenMeans(h: Host, inputs: PortValues, e: Expr)
    requires Legal(e) && AllWritable(Yield(e))
    ensures EvalBranch(h, inputs, Join(Yield(e))) == Meaning(h, inputs, e)
  {
    var ls := JoinWrites(Yield(e));
    var lead := "";
    assert Join(Yield(e)) == lead + Render(ls);
    assert AllBytes(lead, Space);
    WrittenMeansMeaning(h, inputs, Join(Yield(e)), e);
  }

  lemma JoinThree(a: Token, b: Token, c: Token)
    ensures Join([a, b, c]) == Spelling(a) + " " + Spelling(b) + " " + Spelling(c)
  {
    assert [a, b, c][1..] == [b, c] && [b, c][1..] == [c];
    assert Join([c]) == Spelling(c);
    assert Join([b, c]) == Spelling(b) + " " + Spelling(c);
    assert Join([a, b, c]) == Spelling(a) + " " + Join([b, c]);
    var u, v, w := Spelling(a), Spelling(b), Spelling(c);
    assert u + " " + (v + " " + w) == u + " " + v + " " + w;
  }

  predicate Operator(op: string) {
    op == "==" || op == "!=" || op == "<" || op == ">" || op == "<=" || op == ">="
  }

  /** A comparison as an author writes it. */
  function Compared(n: string, op: string, o: Operand): string {
    n + " " + op + " " + o.Written()
  }

  lemma ComparisonReads(h: Host, inputs: PortValues, n: string, op: string, o: Operand)
    requires IsName(n) && Operator(op) && o.Valid()
    ensures EvalBranch(h, inputs, Compared(n, op, o)) == CompareValues(h, Lookup(inputs, n), op, OperandToken(o))
  {
    NameWritable(n);
    OperandWritable(o);
    var e := ECompare(n, op, OperandToken(o));
    assert Writable(Op(op));
    JoinThree(Ident(n), Op(op), OperandToken(o));
    SpokenMeans(h, inputs, e);
  }

  // ---- the order of numbers ----

  /** The port value stands for the number `x`. */
  predicate Numbers(h: Host, v: Value, x: Float) {
    match v
    case VInt(i) => x == Finite(i as real)
    case VInt64(i) => x == Finite(i as real)
    case VFloat32(f) => x == f
    case VFloat64(f) => x == f
    case VString(s) => h.parseFloat(s) == Some(x)
    case _ => false
  }

  /** The order of the extended reals; NaN is below and above nothing. */
  predicate Below(x: Float, y: Float) {
    match x
    case NaN => false
    case NegInf => y == PosInf || y.Finite?
    case Finite(a) => y == PosInf || (y.Finite? && a < y.r)
    case PosInf => false
  }

  predicate SameNumber(x: Float, y: Float) {
    x == y && x != NaN
  }

  lemma Ordering(h: Host, inputs: PortValues, n: string, o: Operand)
    requires IsName(n) && o.Valid()
    ensures EvalBranch(h, inputs, Compared(n, "<", o)) == CompareValues(h, Lookup(inputs, n), "<", OperandToken(o))
    ensures EvalBranch(h, inputs, Compared(n, ">", o)) == CompareValues(h, Lookup(inputs, n), ">", OperandToken(o))
    ensures EvalBranch(h, inputs, Compared(n, "<=", o)) == CompareValues(h, Lookup(inputs, n), "<=", OperandToken(o))
    ensures EvalBranch(h, inputs, Compared(n, ">=", o)) == CompareValues(h, Lookup(inputs, n), ">=", OperandToken(o))
  {
    ComparisonReads(h, inputs, n, "<", o);
    ComparisonReads(h, inputs, n, ">", o);
    ComparisonReads(h, inputs, n, "<=", o);
    ComparisonReads(h, inputs, n, ">=", o);
  }

  lemma LessIsBelow(x: Float, y: Float)
    ensures x.Less(y) == Below(x, y) && x.AtMost(y) == (Below(x, y) || SameNumber(x, y))
  {
  }

  lemma CompareOrders(h: Host, v: Value, rhs: Token, x: Float, y: Float)
    requires Numbers(h, v, x) && h.parseFloat(rhs.Text()) == Some(y)
    ensures CompareValues(h, v, "<", rhs) == Ok(x.Less(y)) && CompareValues(h, v, ">", rhs) == Ok(y.Less(x))
    ensures CompareValues(h, v, "<=", rhs) == Ok(x.AtMost(y)) && CompareValues(h, v, ">=", rhs) == Ok(y.AtMost(x))
  {
    assert ToFloat(h, v) == Ok(x);
  }

  lemma CompareFails(h: Host, v: Value, rhs: Token, e: BranchError)
    requires ToFloat(h, v) == Err(e) || (ToFloat(h, v).Ok? && ParseFloat(h, rhs.Text()) == Err(e))
    ensures CompareValues(h, v, "<", rhs) == Err(e) && CompareValues(h, v, ">", rhs) == Err(e)
    ensures CompareValues(h, v, "<=", rhs) == Err(e) && CompareValues(h, v, ">=", rhs) == Err(e)
  {
  }

  /** `name op operand` on two numbers is their order on the extended reals. */
  lemma OrdersFloats(h: Host, inputs: PortValues, n: string, o: Operand, x: Float, y: Float)
    requires IsName(n) && o.Valid()
    requires Numbers(h, Lookup(inputs, n), x) && h.parseFloat(o.Bare()) == Some(y)
    ensures EvalBranch(h, inputs, Compared(n, "<", o)) == Ok(Below(x, y))
    ensures EvalBranch(h, inputs, Compared(n, ">", o)) == Ok(Below(y, x))
    ensures EvalBranch(h, inputs, Compared(n, "<=", o)) == Ok(Below(x, y) || SameNumber(x, y))
    ensures EvalBranch(h, inputs, Compared(n, ">=", o)) == Ok(Below(y, x) || SameNumber(x, y))
  {
    OperandWritable(o);
    Ordering(h, inputs, n, o);
    CompareOrders(h, Lookup(inputs, n), OperandToken(o), x, y);
    LessIsBelow(x, y);
    LessIsBelow(y, x);
  }

  /** On finite numbers the four operators are `<`, `>`, `<=` and `>=`. */
  lemma OrdersNumbers(h: Host, inputs: PortValues, n: string, o: Operand, x: real, y: real)
    requires IsName(n) && o.Valid()
    requires Numbers(h, Lookup(inputs, n), Finite(x)) && h.parseFloat(o.Bare()) == Some(Finite(y))
    ensures EvalBranch(h, inputs, Compared(n, "<", o)) == Ok(x < y)
    ensures EvalBranch(h, inputs, Compared(n, ">", o)) == Ok(x > y)
    ensures EvalBranch(h, inputs, Compared(n, "<=", o)) == Ok(x <= y)
    ensures EvalBranch(h, inputs, Compared(n, ">=", o)) == Ok(x >= y)
  {
    OrdersFloats(h, inputs, n, o, Finite(x), Finite(y));
  }

  /** All four spellings fail alike, and the left operand is looked at first. */
  ghost predicate OrderFails(h: Host, inputs: PortValues, n: string, o: Operand, e: BranchError) {
    && EvalBranch(h, inputs, Compared(n, "<", o)) == Err(e)
    && EvalBranch(h, inputs, Compared(n, ">", o)) == Err(e)
    && EvalBranch(h, inputs, Compared(n, "<=", o)) == Err(e)
    && EvalBranch(h, inputs, Compared(n, ">=", o)) == Err(e)
  }

  /** What is no number fails as such, a text that does not parse by its content,
      and only then the right side is looked at. */
  lemma OrderErrors(h: Host, inputs: PortValues, n: string, o: Operand)
    requires IsName(n) && o.Valid()
    ensures var v := Lookup(inputs, n);
      v.Nil? || v.VBool? || v.VMap? || v.VPorts? || v.Other? ==> OrderFails(h, inputs, n, o, NotNumeric)
    ensures var v := Lookup(inputs, n);
      v.VString? && h.parseFloat(v.s) == None ==> OrderFails(h, inputs, n, o, BadNumber(v.s))
    ensures var v := Lookup(inputs, n);
      v.VInt? || v.VInt64? || v.VFloat32? || v.VFloat64? || (v.VString? && h.parseFloat(v.s) != None) ==>
        h.parseFloat(o.Bare()) == None ==> OrderFails(h, inputs, n, o, BadNumber(o.Bare()))
  {
    OperandWritable(o);
    Ordering(h, inputs, n, o);
    var v, rhs := Lookup(inputs, n), OperandToken(o);
    if ToFloat(h, v).Err? {
      CompareFails(h, v, rhs, ToFloat(h, v).error);
    } else if h.parseFloat(o.Bare()) == None {
      CompareFails(h, v, rhs, BadNumber(o.Bare()));
    }
  }

  // ---- equality ----

  /** `==` compares printed forms: a numeral as the float it parses to, a quoted
      text and a bare word both as that text.  `!=` is its negation, and a numeral
      that does not parse fails both. */
  lemma EqualityPrints(h: Host, inputs: PortValues, n: string, o: Operand)
    requires IsName(n) && o.Valid()
    ensures var eq := EvalBranch(h, inputs, Compared(n, "==", o));
      var v := h.sprint(Lookup(inputs, n));
      match o
      case Numeral(d) =>
        if h.parseFloat(d) == None then eq == Err(BadNumber(d))
        else eq == Ok(v == h.sprint(VFloat64(h.parseFloat(d).value)))
      case Quoted(t) => eq == Ok(v == h.sprint(VString(t)))
      case Word(w) => eq == Ok(v == h.sprint(VString(w)))
      case Truth(b) => eq == Ok(v == h.sprint(VBool(b)))
    ensures var eq := EvalBranch(h, inputs, Compared(n, "==", o));
      EvalBranch(h, inputs, Compared(n, "!=", o)) == if eq.Ok? then Ok(!eq.value) else eq
  {
    ComparisonReads(h, inputs, n, "==", o);
    ComparisonReads(h, inputs, n, "!=", o);
  }

  // ---- bare names and lookups ----

  /** Exactly five values are false: absent or nil, `false`, the empty string, the
      `int` zero and the `float64` zero.  An `int64` zero is true. */
  lemma BareNameTruth(h: Host, inputs: PortValues, n: string)
    requires IsName(n)
    ensures var v := Lookup(inputs, n);
      EvalBranch(h, inputs, n) ==
        Ok(v != Nil && v != VBool(false) && v != VString("") && v != VInt(0) && v != VFloat64(Finite(0.0)))
  {
    NameWritable(n);
    SpokenMeans(h, inputs, EName(n));
    assert Join([Ident(n)]) == n;
  }

  lemma LiteralTruth(h: Host, inputs: PortValues)
    ensures EvalBranch(h, inputs, "true") == Ok(true) && EvalBranch(h, inputs, "false") == Ok(false)
  {
    KeywordsWritable();
    SpokenMeans(h, inputs, EBool("true"));
    SpokenMeans(h, inputs, EBool("false"));
    assert Join([Bool("true")]) == "true" && Join([Bool("false")]) == "false";
  }

  lemma {:induction false} SplitHead(head: string, rest: string)
    requires '.' !in head
    ensures SplitDots(head) == [head]
    ensures SplitDots(head + "." + rest) == [head] + SplitDots(rest)
  {
    var name := head + "." + rest;
    if |head| == 0 {
      assert name[1..] == rest;
    } else {
      SplitHead(head[1..], rest);
      assert name[1..] == head[1..] + "." + rest;
      assert name[0] == head[0];
      assert [head[0]] + head[1..] == head;
    }
  }

  /** A name without a dot is the input of that name, nil if there is none. */
  lemma PlainLookup(inputs: PortValues, head: string)
    requires '.' !in head
    ensures Lookup(inputs, head) == if head in inputs then inputs[head] else Nil
  {
    SplitHead(head, "");
  }

  /** A dotted name goes on inside the map its head holds; anything that is not a
      map, a `PortValues` included, ends in nil. */
  lemma DottedLookup(inputs: PortValues, head: string, rest: string)
    requires '.' !in head
    ensures Lookup(inputs, head + "." + rest) ==
      if head in inputs && inputs[head].VMap? then Lookup(inputs[head].fields, rest) else Nil
  {
    SplitHead(head, rest);
    var parts := SplitDots(rest);
    assert ([head] + parts)[1..] == parts;
    assert Walk(Nil, parts[1..]) == Nil;
  }

  // ---- the connectives, on any strings that answer ----

  lemma Regroup(a: string, b: string, c: string)
    ensures a + (b + c) == a + b + c
  {
  }

  lemma {:induction false} JoinedText(a: seq<Lexeme>, b: seq<Lexeme>)
    ensures Render(a + b) == Render(a) + Render(b)
  {
    if |a| == 0 {
      assert a + b == b;
    } else {
      JoinedText(a[1..], b);
      assert (a + b)[1..] == a[1..] + b && (a + b)[0] == a[0];
      Regroup(a[0].text + a[0].gap, Render(a[1..]), Render(b));
    }
  }

  lemma {:induction false} JoinedTokens(a: seq<Lexeme>, b: seq<Lexeme>)
    ensures Tokens(a + b) == Tokens(a) + Tokens(b)
  {
    if |a| == 0 {
      assert a + b == b;
    } else {
      JoinedTokens(a[1..], b);
      assert (a + b)[1..] == a[1..] + b && (a + b)[0] == a[0];
    }
  }

  predicate HeadFits(l: Lexeme, rest: seq<Lexeme>) {
    l.gap == "" && |rest| > 0 && |rest[0].text| > 0 ==> !Extends(l.token, rest[0].text[0])
  }

  lemma LayoutSplit(ls: seq<Lexeme>)
    requires |ls| > 0 && LayoutOk(ls)
    ensures Spells(ls[0].text, ls[0].token) && AllBytes(ls[0].gap, Space)
    ensures LayoutOk(ls[1..]) && HeadFits(ls[0], ls[1..])
  {
    if |ls| > 1 {
      assert ls[1..][0] == ls[1];
    }
  }

  lemma LayoutCons(l: Lexeme, rest: seq<Lexeme>)
    requires Spells(l.text, l.token) && AllBytes(l.gap, Space) && LayoutOk(rest) && HeadFits(l, rest)
    ensures LayoutOk([l] + rest)
  {
    var ls := [l] + rest;
    assert ls[1..] == rest;
    if |ls| > 1 {
      assert ls[1] == rest[0];
    }
  }

  /** Lexemes `a` followed by lexemes `b` are a layout when white space ends `a` or
      `b` starts with something nothing can swallow. */
  lemma {:induction false} LayoutsJoin(a: seq<Lexeme>, b: seq<Lexeme>)
    requires LayoutOk(a) && LayoutOk(b) && |a| > 0 && |b| > 0
    requires a[|a| - 1].gap != "" || b[0].text == ")"
    ensures LayoutOk(a + b)
  {
    LayoutSplit(a);
    if |a| == 1 {
      assert a == [a[0]];
      LayoutCons(a[0], b);
    } else {
      LayoutsJoin(a[1..], b);
      assert (a[1..] + b)[0] == a[1..][0];
      LayoutCons(a[0], a[1..] + b);
      assert a + b == [a[0]] + (a[1..] + b);
    }
  }

  lemma OneLexeme(l: Lexeme)
    requires Spells(l.text, l.token) && AllBytes(l.gap, Space)
    ensures LayoutOk([l]) && Tokens([l]) == [l.token] && Render([l]) == l.text + l.gap
  {
    assert [l][1..] == [];
    assert Render([l]) == l.text + l.gap + "";
  }

  lemma Enclose(lead: string, body: string, gap: string)
    ensures "(" + lead + (body + (")" + gap)) == "(" + (lead + body) + ")" + gap
  {
  }

  /** A written string in parentheses is a layout again, with any gap after it. */
  lemma GroupLayout(x: string, ts: seq<Token>, gap: string) returns (ls: seq<Lexeme>)
    requires WritesAs(x, ts) && |ts| > 0 && AllBytes(gap, Space)
    ensures LayoutOk(ls) && Tokens(ls) == [LParen] + ts + [RParen] && Render(ls) == "(" + x + ")" + gap
    ensures |ls| > 0 && ls[|ls| - 1].gap == gap
  {
    var lead: string, inner: seq<Lexeme> :|
      AllBytes(lead, Space) && LayoutOk(inner) && Tokens(inner) == ts && x == lead + Render(inner);
    var open, close := Lexeme("(", LParen, lead), Lexeme(")", RParen, gap);
    OneLexeme(open);
    OneLexeme(close);
    LayoutsJoin(inner, [close]);
    JoinedText(inner, [close]);
    JoinedTokens(inner, [close]);
    var tail := inner + [close];
    LayoutCons(open, tail);
    JoinedText([open], tail);
    JoinedTokens([open], tail);
    ls := [open] + tail;
    assert [LParen] + (ts + [RParen]) == [LParen] + ts + [RParen];
    Enclose(lead, Render(inner), gap);
  }

  /** `ls` lays out `ts` as exactly `text`, ending in the white space `gap`. */
  predicate Lays(ls: seq<Lexeme>, text: string, ts: seq<Token>, gap: string) {
    |ls| > 0 && LayoutOk(ls) && Render(ls) == text && Tokens(ls) == ts && ls[|ls| - 1].gap == gap
  }

  lemma LaysJoin(a: seq<Lexeme>, s: string, ts: seq<Token>, b: seq<Lexeme>, t: string, us: seq<Token>, gap: string)
    requires Lays(a, s, ts, " ") && Lays(b, t, us, gap)
    ensures Lays(a + b, s + t, ts + us, gap)
  {
    LayoutsJoin(a, b);
    JoinedText(a, b);
    JoinedTokens(a, b);
  }

  lemma LaysWrites(ls: seq<Lexeme>, text: string, ts: seq<Token>, gap: string)
    requires Lays(ls, text, ts, gap)
    ensures WritesAs(text, ts)
  {
    var lead := "";
    assert AllBytes(lead, Space) && text == lead + Render(ls);
  }

  lemma LaysWord(word: string, tok: Token)
    requires (word == "and" && tok == And) || (word == "or" && tok == Or) || (word == "not" && tok == Not)
    ensures Lays([Lexeme(word, tok, " ")], word + " ", [tok], " ")
  {
    KeywordsWritable();
    OneLexeme(Lexeme(word, tok, " "));
  }

  function Paren(x: string): string {
    "(" + x + ")"
  }

  /** A tree with a way of writing it down and the answer it gives. */
  datatype Phrase = Phrase(e: Expr, ls: seq<Lexeme>, text: string, gap: string, v: bool)

  predicate Says(h: Host, inputs: PortValues, p: Phrase) {
    Legal(p.e) && Meaning(h, inputs, p.e) == Ok(p.v) && Lays(p.ls, p.text + p.gap, Yield(p.e), p.gap)
  }

  /** A string that answers, put in parentheses, is a tree of its own. */
  lemma Grouped(h: Host, inputs: PortValues, x: string, v: bool, gap: string) returns (p: Phrase)
    requires EvalBranch(h, inputs, x) == Ok(v) && AllBytes(gap, Space)
    ensures Says(h, inputs, p) && p.text == Paren(x) && p.gap == gap && p.v == v && Level(p.e) == 3
  {
    BranchLanguage(h, inputs, x, v);
    var b :| Legal(b) && WritesAs(x, Yield(b)) && Meaning(h, inputs, b) == Ok(v);
    var ls := GroupLayout(x, Yield(b), gap);
    p := Phrase(EParen(b), ls, Paren(x), gap, v);
  }

  lemma Negated(h: Host, inputs: PortValues, p: Phrase) returns (q: Phrase)
    requires Says(h, inputs, p) && Level(p.e) >= 2
    ensures Says(h, inputs, q) && q.text == "not " + p.text && q.gap == p.gap && q.v == !p.v && q.e.ENot?
  {
    var w := Lexeme("not", Not, " ");
    LaysWord("not", Not);
    assert "not" + " " == "not ";
    LaysJoin([w], "not ", [Not], p.ls, p.text + p.gap, Yield(p.e), p.gap);
    Regroup("not ", p.text, p.gap);
    q := Phrase(ENot(p.e), [w] + p.ls, "not " + p.text, p.gap, !p.v);
  }

  lemma Infix(h: Host, inputs: PortValues, p: Phrase, word: string, tok: Token, q: Phrase) returns (ls: seq<Lexeme>)
    requires Says(h, inputs, p) && Says(h, inputs, q) && p.gap == " "
    requires (word == "and" && tok == And) || (word == "or" && tok == Or)
    ensures Lays(ls, p.text + " " + word + " " + q.text + q.gap, Yield(p.e) + [tok] + Yield(q.e), q.gap)
  {
    var w := [Lexeme(word, tok, " ")];
    LaysWord(word, tok);
    LaysJoin(p.ls, p.text + " ", Yield(p.e), w, word + " ", [tok], " ");
    Regroup(p.text + " ", word, " ");
    var head := p.text + " " + word + " ";
    LaysJoin(p.ls + w, head, Yield(p.e) + [tok], q.ls, q.text + q.gap, Yield(q.e), q.gap);
    Regroup(head, q.text, q.gap);
    ls := p.ls + w + q.ls;
  }

  lemma Both(h: Host, inputs: PortValues, p: Phrase, q: Phrase) returns (r: Phrase)
    requires Says(h, inputs, p) && Says(h, inputs, q) && p.gap == " " && Level(p.e) >= 1 && Level(q.e) >= 2
    ensures Says(h, inputs, r) && r.text == p.text + " and " + q.text && r.gap == q.gap && r.v == (p.v && q.v) && r.e.EAnd?
  {
    var ls := Infix(h, inputs, p, "and", And, q);
    Spaced(p.text, "and");
    r := Phrase(EAnd(p.e, q.e), ls, p.text + " and " + q.text, q.gap, p.v && q.v);
  }

  lemma Either(h: Host, inputs: PortValues, p: Phrase, q: Phrase) returns (r: Phrase)
    requires Says(h, inputs, p) && Says(h, inputs, q) && p.gap == " " && Level(q.e) >= 1
    ensures Says(h, inputs, r) && r.text == p.text + " or " + q.text && r.gap == q.gap && r.v == (p.v || q.v) && r.e.EOr?
  {
    var ls := Infix(h, inputs, p, "or", Or, q);
    Spaced(p.text, "or");
    r := Phrase(EOr(p.e, q.e), ls, p.text + " or " + q.text, q.gap, p.v || q.v);
  }

  lemma Spaced(text: string, word: string)
    requires word == "and" || word == "or"
    ensures text + " " + word + " " == text + (if word == "and" then " and " else " or ")
  {
  }

  lemma Answers(h: Host, inputs: PortValues, p: Phrase)
    requires Says(h, inputs, p) && p.gap == ""
    ensures EvalBranch(h, inputs, p.text) == Ok(p.v)
  {
    assert p.text + "" == p.text;
    LaysWrites(p.ls, p.text, Yield(p.e), "");
    WrittenMeansMeaning(h, inputs, p.text, p.e);
  }

  /** Whatever strings `x` and `y` answer, the connectives combine the answers. */
  lemma ConnectivesCombine(h: Host, inputs: PortValues, x: string, y: string, a: bool, b: bool)
    requires EvalBranch(h, inputs, x) == Ok(a) && EvalBranch(h, inputs, y) == Ok(b)
    ensures EvalBranch(h, inputs, Paren(x)) == Ok(a)
    ensures EvalBranch(h, inputs, "not " + Paren(x)) == Ok(!a)
    ensures EvalBranch(h, inputs, Paren(x) + " or " + Paren(y)) == Ok(a || b)
    ensures EvalBranch(h, inputs, Paren(x) + " and " + Paren(y)) == Ok(a && b)
  {
    var x0 := Grouped(h, inputs, x, a, "");
    var x1 := Grouped(h, inputs, x, a, " ");
    var y0 := Grouped(h, inputs, y, b, "");
    Answers(h, inputs, x0);
    var n := Negated(h, inputs, x0);
    Answers(h, inputs, n);
    var o := Either(h, inputs, x1, y0);
    Answers(h, inputs, o);
    var c := Both(h, inputs, x1, y0);
    Answers(h, inputs, c);
  }

  /** `not` binds tighter than `and`, and `and` tighter than `or`, on both sides. */
  lemma PrecedenceHolds(h: Host, inputs: PortValues, x: string, y: string, z: string, a: bool, b: bool, c: bool)
    requires EvalBranch(h, inputs, x) == Ok(a) && EvalBranch(h, inputs, y) == Ok(b) && EvalBranch(h, inputs, z) == Ok(c)
    ensures EvalBranch(h, inputs, "not " + Paren(x) + " and " + Paren(y)) == Ok(!a && b)
    ensures EvalBranch(h, inputs, "not " + Paren(x) + " or " + Paren(y)) == Ok(!a || b)
    ensures EvalBranch(h, inputs, Paren(x) + " or " + (Paren(y) + " and " + Paren(z))) == Ok(a || (b && c))
    ensures EvalBranch(h, inputs, Paren(x) + " and " + Paren(y) + " or " + Paren(z)) == Ok((a && b) || c)
  {
    var x1 := Grouped(h, inputs, x, a, " ");
    var y1 := Grouped(h, inputs, y, b, " ");
    var y0 := Grouped(h, inputs, y, b, "");
    var z0 := Grouped(h, inputs, z, c, "");
    var n := Negated(h, inputs, x1);
    var p := Both(h, inputs, n, y0);
    Answers(h, inputs, p);
    var q := Either(h, inputs, n, y0);
    Answers(h, inputs, q);
    var yz := Both(h, inputs, y1, z0);
    var r := Either(h, inputs, x1, yz);
    Answers(h, inputs, r);
    var xy := Both(h, inputs, x1, y1);
    var s := Either(h, inputs, xy, z0);
    Answers(h, inputs, s);
  }

  /** On printed trees: both operands are always evaluated, the left one first, and
      the first error met is the answer. */
  lemma FirstErrorWins(h: Host, inputs: PortValues, l: Tree, r: Tree)
    requires WellNamed(l) && WellNamed(r)
    ensures var x, y := EvalBranch(h, inputs, Print(l)), EvalBranch(h, inputs, Print(r));
      var o, c := EvalBranch(h, inputs, Print(TOr(l, r))), EvalBranch(h, inputs, Print(TAnd(l, r)));
      && (x.Err? ==> o == x && c == x && EvalBranch(h, inputs, Print(TNot(l))) == x)
      && (x.Ok? && y.Err? ==> o == y && c == y)
      && (x.Ok? && y.Ok? ==> o == Ok(x.value || y.value) && c == Ok(x.value && y.value))
  {
    PrintEvaluates(h, inputs, l);
    PrintEvaluates(h, inputs, r);
    PrintEvaluates(h, inputs, TOr(l, r));
    PrintEvaluates(h, inputs, TAnd(l, r));
    PrintEvaluates(h, inputs, TNot(l));
  }

  // ---- the errors, by the token at which they are met ----

  /** No atom, and no negated atom, starts with this token. */
  predicate StartsNothing(t: Token) {
    t == RParen || t == And || t == Or || t.Op? || t.Str? || t.Number?
  }

  lemma TreeFirst(c: Setting, pos: nat, e: Expr)
    requires Legal(e) && Spans(c, pos, e)
    requires NoOpAt(c, pos + |Yield(e)|) && !At(c, pos + |Yield(e)|, And) && !At(c, pos + |Yield(e)|, Or)
    ensures Reads(c, pos, e, OrFrom(c, pos))
  {
    OrComplete(c, pos, e);
  }

  lemma NoStart(c: Setting, pos: nat)
    requires pos <= |c.tokens| && (pos < |c.tokens| ==> StartsNothing(c.tokens[pos]))
    ensures var err := if pos == |c.tokens| then UnexpectedEnd else UnexpectedToken(pos);
      NotFrom(c, pos) == Outcome(Err(err), pos) && AndFrom(c, pos).res == Err(err) && OrFrom(c, pos).res == Err(err)
  {
  }

  lemma ErrorRises(c: Setting)
    requires NotFrom(c, 0) == AtomFrom(c, 0) && AtomFrom(c, 0).res.Err?
    ensures OrFrom(c, 0).res == AtomFrom(c, 0).res
  {
    assert AndFrom(c, 0) == NotFrom(c, 0);
  }

  /** The error of an operand that is not there. */
  function Missing(at: nat, tail: seq<Token>): BranchError {
    if |tail| == 0 then UnexpectedEnd else UnexpectedToken(at)
  }

  lemma TailAt(body: seq<Token>, t: Token, tail: seq<Token>)
    ensures var ts := body + [t] + tail;
      ts[0..|body|] == body && ts[|body|] == t && (|tail| > 0 ==> ts[|body| + 1] == tail[0])
  {
  }

  /** An expression that is not there: at the very start, or after a connective. */
  lemma MissingAtStart(h: Host, inputs: PortValues, tail: seq<Token>)
    requires |tail| > 0 ==> StartsNothing(tail[0])
    ensures EvalTokens(h, inputs, tail) == Err(Missing(0, tail))
  {
    NoStart(Setting(h, inputs, tail), 0);
  }

  lemma MissingAfterOr(h: Host, inputs: PortValues, e: Expr, v: bool, tail: seq<Token>)
    requires Legal(e) && Meaning(h, inputs, e) == Ok(v) && (|tail| > 0 ==> StartsNothing(tail[0]))
    ensures EvalTokens(h, inputs, Yield(e) + [Or] + tail) == Err(Missing(|Yield(e)| + 1, tail))
  {
    var c := Setting(h, inputs, Yield(e) + [Or] + tail);
    TailAt(Yield(e), Or, tail);
    OrComplete(c, 0, e);
    NoStart(c, |Yield(e)| + 1);
  }

  lemma MissingAfterAnd(h: Host, inputs: PortValues, e: Expr, v: bool, tail: seq<Token>)
    requires Legal(e) && Level(e) >= 1 && Meaning(h, inputs, e) == Ok(v) && (|tail| > 0 ==> StartsNothing(tail[0]))
    ensures EvalTokens(h, inputs, Yield(e) + [And] + tail) == Err(Missing(|Yield(e)| + 1, tail))
  {
    var c := Setting(h, inputs, Yield(e) + [And] + tail);
    TailAt(Yield(e), And, tail);
    AndComplete(c, 0, e);
    NoStart(c, |Yield(e)| + 1);
  }

  /** A whole expression followed by what cannot continue it: at top level the rest
      is trailing, after an open parenthesis the closing one is missing. */
  lemma LeftOver(h: Host, inputs: PortValues, e: Expr, v: bool, tail: seq<Token>)
    requires Legal(e) && Meaning(h, inputs, e) == Ok(v)
    requires |tail| > 0 ==> !tail[0].Op? && tail[0] != And && tail[0] != Or
    ensures |tail| > 0 ==> EvalTokens(h, inputs, Yield(e) + tail) == Err(TrailingTokens(|Yield(e)|))
    ensures |tail| == 0 || tail[0] != RParen ==>
      EvalTokens(h, inputs, [LParen] + Yield(e) + tail) == Err(ExpectedRParen(|Yield(e)| + 1))
  {
    var n := |Yield(e)|;
    if |tail| > 0 {
      var c := Setting(h, inputs, Yield(e) + tail);
      assert c.tokens[0..n] == Yield(e) && c.tokens[n] == tail[0];
      TreeFirst(c, 0, e);
    }
    if |tail| == 0 || tail[0] != RParen {
      var c := Setting(h, inputs, [LParen] + Yield(e) + tail);
      assert c.tokens[1..1 + n] == Yield(e) && c.tokens[0] == LParen;
      assert |tail| > 0 ==> c.tokens[1 + n] == tail[0];
      TreeFirst(c, 1, e);
      assert AtomFrom(c, 0) == Outcome(Err(ExpectedRParen(n + 1)), n + 1);
      ErrorRises(c);
    }
  }

  lemma MissingRhs(h: Host, inputs: PortValues, n: string, op: string)
    ensures EvalTokens(h, inputs, [Ident(n), Op(op)]) == Err(ExpectedRhs(op))
  {
    var c := Setting(h, inputs, [Ident(n), Op(op)]);
    assert AtomFrom(c, 0) == Outcome(Err(ExpectedRhs(op)), 2);
    ErrorRises(c);
  }

  /** The byte starts no token, whatever follows it. */
  predicate StrayByte(c: char) {
    c !in " \t\n()\"=!<>_" && !('0' <= c <= '9') && !('a' <= c <= 'z') && !('A' <= c <= 'Z')
  }

  /** At `at` the byte is stray, or half of an operator, or a quote never closed. */
  predicate BadAt(s: string, at: nat, e: BranchError) {
    && at < |s|
    && (|| (e == UnterminatedString(at) && s[at] == '"' && '"' !in s[at + 1..])
        || (e == UnexpectedChar(at) && StrayByte(s[at]))
        || (e == UnexpectedChar(at) && (s[at] == '=' || s[at] == '!') && (at + 1 == |s| || s[at + 1] != '=')))
  }

  lemma RunEndPrefix(s: string, i: nat, at: nat, p: char -> bool)
    requires i <= |s| && RunEnd(s, i, p) <= at <= |s|
    ensures i <= at && RunEnd(s[..at], i, p) == RunEnd(s, i, p)
  {
    var j := RunEnd(s, i, p);
    assert s[..at][i..j] == s[i..j];
    RunEndUnique(s[..at], i, j, p);
  }

  lemma LexOnePrefix(s: string, i: nat, at: nat)
    requires i < |s| && !LexOne(s, i).Fail? && LexOne(s, i).next <= at <= |s|
    ensures LexOne(s[..at], i) == LexOne(s, i)
  {
    var t := s[..at];
    var next := LexOne(s, i).next;
    assert t[i] == s[i];
    if s[i] == '"' {
      RunEndPrefix(s, i + 1, at, NotQuote);
      assert t[i + 1..next - 1] == s[i + 1..next - 1];
    } else if Digit(s[i]) {
      RunEndPrefix(s, i, at, NumberByte);
      assert t[i..next] == s[i..next];
    } else if Letter(s[i]) {
      RunEndPrefix(s, i, at, WordByte);
      assert t[i..next] == s[i..next];
    }
  }

  /** A lexical error names the first byte that cannot be read: everything before it
      lexes, and the byte is stray, half an operator or an unclosed quote. */
  lemma {:induction false} LexErrorMeans(s: string, i: nat) returns (at: nat)
    requires i <= |s| && Lex(s, i).Err?
    ensures i <= at && BadAt(s, at, Lex(s, i).error) && Lex(s[..at], i).Ok?
    decreases |s| - i
  {
    match LexOne(s, i) {
      case Fail(_) =>
        at := i;
        if s[i] == '"' {
          var j := RunEnd(s, i + 1, NotQuote);
          assert s[i + 1..j] == s[i + 1..];
        }
      case Skip(next) =>
        at := LexErrorMeans(s, next);
        LexOnePrefix(s, i, at);
      case Emit(_, next) =>
        at := LexErrorMeans(s, next);
        LexOnePrefix(s, i, at);
    }
  }
}
