/** Printing branch expressions with as few parentheses as precedence allows, and
    the round trip through the lexer and parser of
    core/agentgraph/exec_control.go. */
module BranchPrinter {
  import opened Wrappers
  import opened BranchTokens
  import opened BranchValues
  import opened BranchGrammar
  import opened BranchParser

  /** An expression tree as an author thinks of it: no parentheses. */
  datatype Tree =
    | TOr(left: Tree, right: Tree)
    | TAnd(left: Tree, right: Tree)
    | TNot(body: Tree)
    | TBool(b: bool)
    | TName(name: string)
    | TCompare(name: string, op: string, rhs: Token)

  function TreeMeaning(h: Host, inputs: PortValues, t: Tree): Result<bool, BranchError> {
    match t
    case TOr(l, r) =>
      var a :- TreeMeaning(h, inputs, l);
      var b :- TreeMeaning(h, inputs, r);
      Ok(a || b)
    case TAnd(l, r) =>
      var a :- TreeMeaning(h, inputs, l);
      var b :- TreeMeaning(h, inputs, r);
      Ok(a && b)
    case TNot(b) =>
      var v :- TreeMeaning(h, inputs, b);
      Ok(!v)
    case TBool(b) => Ok(b)
    case TName(n) => Ok(Truthy(Lookup(inputs, n)))
    case TCompare(n, op, rhs) => CompareValues(h, Lookup(inputs, n), op, rhs)
  }

  /** Parenthesise `e` if it binds looser than `level`. */
  function Wrap(e: Expr, level: nat): Expr {
    if Level(e) >= level then e else EParen(e)
  }

  function Elaborate(t: Tree): Expr {
    match t
    case TOr(l, r) => EOr(Elaborate(l), Wrap(Elaborate(r), 1))
    case TAnd(l, r) => EAnd(Wrap(Elaborate(l), 1), Wrap(Elaborate(r), 2))
    case TNot(b) => ENot(Wrap(Elaborate(b), 2))
    case TBool(b) => EBool(if b then "true" else "false")
    case TName(n) => EName(n)
    case TCompare(n, op, rhs) => ECompare(n, op, rhs)
  }

  function Spelling(t: Token): string {
    match t
    case LParen => "("
    case RParen => ")"
    case Str(b) => "\"" + b + "\""
    case And => "and"
    case Or => "or"
    case Not => "not"
    case _ => t.Text()
  }

  function Join(ts: seq<Token>): string {
    if |ts| == 0 then ""
    else if |ts| == 1 then Spelling(ts[0])
    else Spelling(ts[0]) + " " + Join(ts[1..])
  }

  function Print(t: Tree): string {
    Join(Yield(Elaborate(t)))
  }

  /** Names are identifiers, literals can be written down, operators are known. */
  predicate WellNamed(t: Tree) {
    match t
    case TOr(l, r) => WellNamed(l) && WellNamed(r)
    case TAnd(l, r) => WellNamed(l) && WellNamed(r)
    case TNot(b) => WellNamed(b)
    case TBool(_) => true
    case TName(n) => Writable(Ident(n))
    case TCompare(n, op, rhs) => Writable(Ident(n)) && Writable(Op(op)) && Writable(rhs)
  }

  predicate Writable(t: Token) {
    Spells(Spelling(t), t)
  }

  predicate AllWritable(ts: seq<Token>) {
    forall k :: 0 <= k < |ts| ==> Writable(ts[k])
  }

  lemma KeywordsWritable()
    ensures Writable(And) && Writable(Or) && Writable(Not) && Writable(Bool("true")) && Writable(Bool("false"))
  {
    assert Lower("and") == "and" && Lower("or") == "or" && Lower("not") == "not";
    assert Lower("true") == "true" && Lower("false") == "false";
    assert "and" != "or" && "and" != "not";
    assert "or"[0] == 'o' && "not"[0] == 'n' && "and"[0] == 'a' && "true"[0] == 't' && "false"[0] == 'f';
  }

  lemma {:induction false} ElaborateLegal(t: Tree)
    ensures Legal(Elaborate(t))
  {
    match t {
      case TOr(l, r) => ElaborateLegal(l); ElaborateLegal(r);
      case TAnd(l, r) => ElaborateLegal(l); ElaborateLegal(r);
      case TNot(b) => ElaborateLegal(b);
      case _ =>
    }
  }

  lemma WrapWritable(e: Expr, level: nat)
    requires AllWritable(Yield(e))
    ensures AllWritable(Yield(Wrap(e, level)))
  {
  }

  lemma JoinedWritable(l: seq<Token>, t: Token, r: seq<Token>)
    requires AllWritable(l) && (t == Or || t == And || t == Not) && AllWritable(r)
    ensures AllWritable(l + [t] + r)
  {
    KeywordsWritable();
  }

  lemma WordWritable(word: string)
    requires word == "true" || word == "false"
    ensures AllWritable([Bool(word)])
  {
    KeywordsWritable();
  }

  lemma {:induction false} ElaborateWritable(t: Tree)
    requires WellNamed(t)
    ensures AllWritable(Yield(Elaborate(t)))
  {
    var e := Elaborate(t);
    match t {
      case TOr(l, r) =>
        ElaborateWritable(l); ElaborateWritable(r);
        WrapWritable(Elaborate(r), 1);
        JoinedWritable(Yield(e.left), Or, Yield(e.right));
      case TAnd(l, r) =>
        ElaborateWritable(l); ElaborateWritable(r);
        WrapWritable(Elaborate(l), 1); WrapWritable(Elaborate(r), 2);
        JoinedWritable(Yield(e.left), And, Yield(e.right));
      case TNot(b) =>
        ElaborateWritable(b);
        WrapWritable(Elaborate(b), 2);
        JoinedWritable([], Not, Yield(e.body));
        assert [] + [Not] + Yield(e.body) == Yield(e);
      case TBool(_) => WordWritable(e.word);
      case TName(_) =>
      case TCompare(_, _, _) =>
    }
  }

  lemma {:induction false} ElaborateMeans(h: Host, inputs: PortValues, t: Tree)
    ensures Meaning(h, inputs, Elaborate(t)) == TreeMeaning(h, inputs, t)
  {
    match t {
      case TOr(l, r) => ElaborateMeans(h, inputs, l); ElaborateMeans(h, inputs, r);
      case TAnd(l, r) => ElaborateMeans(h, inputs, l); ElaborateMeans(h, inputs, r);
      case TNot(b) => ElaborateMeans(h, inputs, b);
      case _ =>
    }
  }

  /** Joining writable tokens with single spaces is a legal layout of them. */
  lemma {:induction false} JoinWrites(ts: seq<Token>) returns (ls: seq<Lexeme>)
    requires AllWritable(ts)
    ensures LayoutOk(ls) && Tokens(ls) == ts && Join(ts) == Render(ls)
  {
    if |ts| == 0 {
      ls := [];
    } else {
      var tail := JoinWrites(ts[1..]);
      var gap := if |ts| == 1 then "" else " ";
      ls := [Lexeme(Spelling(ts[0]), ts[0], gap)] + tail;
      assert ls[1..] == tail;
      if |ts| == 1 {
        assert Spelling(ts[0]) + "" + "" == Spelling(ts[0]);
      }
    }
  }

  lemma PrintWrites(t: Tree)
    requires WellNamed(t)
    ensures WritesAs(Print(t), Yield(Elaborate(t)))
  {
    ElaborateWritable(t);
    var ls := JoinWrites(Yield(Elaborate(t)));
    var lead := "";
    assert Print(t) == lead + Render(ls);
    assert AllBytes(lead, Space);
  }

  /** Printing, lexing and evaluating gives exactly the tree's own meaning, value
      or error, and the printed text lexes to precisely the printed tokens. */
  lemma PrintEvaluates(h: Host, inputs: PortValues, t: Tree)
    requires WellNamed(t)
    ensures Lex(Print(t), 0) == Ok(Yield(Elaborate(t)))
    ensures EvalBranch(h, inputs, Print(t)) == TreeMeaning(h, inputs, t)
  {
    ElaborateLegal(t);
    PrintWrites(t);
    LexExactly(Print(t), Yield(Elaborate(t)));
    WrittenMeansMeaning(h, inputs, Print(t), Elaborate(t));
    ElaborateMeans(h, inputs, t);
  }

  // ---- the parentheses are the necessary ones ----

  /** Forget the parentheses. */
  function Strip(e: Expr): Tree {
    match e
    case EOr(l, r) => TOr(Strip(l), Strip(r))
    case EAnd(l, r) => TAnd(Strip(l), Strip(r))
    case ENot(b) => TNot(Strip(b))
    case EParen(b) => Strip(b)
    case EBool(w) => TBool(w == "true")
    case EName(n) => TName(n)
    case ECompare(n, op, rhs) => TCompare(n, op, rhs)
  }

  function Parens(e: Expr): nat {
    match e
    case EOr(l, r) => Parens(l) + Parens(r)
    case EAnd(l, r) => Parens(l) + Parens(r)
    case ENot(b) => Parens(b)
    case EParen(b) => 1 + Parens(b)
    case _ => 0
  }

  /** Parenthesising never loosens, and dropping an outer pair is the only way to
      get back below what the tree's own shape dictates. */
  lemma {:induction false} ParensNeeded(e: Expr)
    requires Legal(e)
    ensures Parens(Elaborate(Strip(e))) + (if Level(e) > Level(Elaborate(Strip(e))) then 1 else 0) <= Parens(e)
    ensures !e.EParen? ==> Level(e) == Level(Elaborate(Strip(e)))
  {
    match e {
      case EOr(l, r) => ParensNeeded(l); ParensNeeded(r);
      case EAnd(l, r) => ParensNeeded(l); ParensNeeded(r);
      case ENot(b) => ParensNeeded(b);
      case EParen(b) => ParensNeeded(b);
      case _ =>
    }
  }

  /** The printed form keeps the tree and, among all the ways of parenthesising
      that tree so that it parses, has the fewest parentheses. */
  lemma {:induction false} PrintMinimal(t: Tree, e: Expr)
    ensures Strip(Elaborate(t)) == t
    ensures Legal(e) && Strip(e) == t ==> Parens(Elaborate(t)) <= Parens(e)
  {
    match t {
      case TOr(l, r) => PrintMinimal(l, e); PrintMinimal(r, e);
      case TAnd(l, r) => PrintMinimal(l, e); PrintMinimal(r, e);
      case TNot(b) => PrintMinimal(b, e);
      case _ =>
    }
    if Legal(e) && Strip(e) == t {
      ParensNeeded(e);
    }
  }
}
