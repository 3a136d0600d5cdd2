/** The grammar of branch expressions as trees, with their strict left-to-right
    meaning.  It knows nothing of cursors: it is what the parser is judged by. */
module BranchGrammar {
  import opened Wrappers
  import opened BranchTokens
  import opened BranchValues

  /** Concrete syntax: parentheses are nodes, the right side of a comparison is
      any one token. */
  datatype Expr =
    | EOr(left: Expr, right: Expr)
    | EAnd(left: Expr, right: Expr)
    | ENot(body: Expr)
    | EParen(body: Expr)
    | EBool(word: string)
    | EName(name: string)
    | ECompare(name: string, op: string, rhs: Token)

  /** How tightly the outermost construct binds: `or`, `and`, `not`, atom. */
  function Level(e: Expr): nat {
    match e
    case EOr(_, _) => 0
    case EAnd(_, _) => 1
    case ENot(_) => 2
    case _ => 3
  }

  /** The tree respects precedence and left associativity: nothing looser stands
      under something tighter except inside parentheses. */
  predicate Legal(e: Expr) {
    match e
    case EOr(l, r) => Legal(l) && Legal(r) && Level(r) >= 1
    case EAnd(l, r) => Legal(l) && Legal(r) && Level(l) >= 1 && Level(r) >= 2
    case ENot(b) => Legal(b) && Level(b) >= 2
    case EParen(b) => Legal(b)
    case _ => true
  }

  /** The token list a tree stands for. */
  function Yield(e: Expr): (ts: seq<Token>)
    ensures |ts| > 0
  {
    match e
    case EOr(l, r) => Yield(l) + [Or] + Yield(r)
    case EAnd(l, r) => Yield(l) + [And] + Yield(r)
    case ENot(b) => [Not] + Yield(b)
    case EParen(b) => [LParen] + Yield(b) + [RParen]
    case EBool(w) => [Bool(w)]
    case EName(n) => [Ident(n)]
    case ECompare(n, op, rhs) => [Ident(n), Op(op), rhs]
  }

  /** `ts` parses, in principle, as the tree `e`. */
  predicate Derives(ts: seq<Token>, e: Expr) {
    Legal(e) && Yield(e) == ts
  }

  /** Both operands of `and` and `or` are always evaluated, the left one first,
      and the first error met is the answer. */
  function Meaning(h: Host, inputs: PortValues, e: Expr): Result<bool, BranchError> {
    match e
    case EOr(l, r) =>
      var a :- Meaning(h, inputs, l);
      var b :- Meaning(h, inputs, r);
      Ok(a || b)
    case EAnd(l, r) =>
      var a :- Meaning(h, inputs, l);
      var b :- Meaning(h, inputs, r);
      Ok(a && b)
    case ENot(b) =>
      var v :- Meaning(h, inputs, b);
      Ok(!v)
    case EParen(b) => Meaning(h, inputs, b)
    case EBool(w) => Ok(w == "true")
    case EName(n) => Ok(Truthy(Lookup(inputs, n)))
    case ECompare(n, op, rhs) => CompareValues(h, Lookup(inputs, n), op, rhs)
  }
}
