/** Port values and the comparisons a branch expression makes on them
    (core/agentgraph/exec_control.go). */
module BranchValues {
  import opened Wrappers
  import opened BranchTokens

  /** A float64 without its rounding: NaN is unordered, the infinities are ends. */
  datatype Float = NaN | NegInf | Finite(r: real) | PosInf {
    predicate Less(that: Float) {
      match (this, that)
      case (NaN, _) => false
      case (_, NaN) => false
      case (Finite(a), Finite(b)) => a < b
      case (NegInf, _) => that != NegInf
      case (_, PosInf) => this != PosInf
      case _ => false
    }

    predicate AtMost(that: Float) {
      Less(that) || (this == that && this != NaN)
    }
  }

  /** The dynamic types the source distinguishes; `Other` is any further one.  A
      `PortValues` is a type of its own there, and a dotted lookup does not enter it. */
  datatype Value =
    | Nil
    | VBool(b: bool)
    | VString(s: string)
    | VInt(i: int)
    | VInt64(i64: int)
    | VFloat32(f32: Float)
    | VFloat64(f: Float)
    | VMap(fields: map<string, Value>)
    | VPorts(ports: map<string, Value>)
    | Other(tag: nat)

  type PortValues = map<string, Value>

  /** The Go library calls the evaluator leans on, left uninterpreted. */
  datatype Host = Host(sprint: Value -> string, parseFloat: string -> Option<Float>)

  function Truthy(v: Value): bool {
    match v
    case Nil => false
    case VBool(b) => b
    case VString(s) => s != ""
    case VInt(i) => i != 0
    case VFloat64(f) => f != Finite(0.0)
    case _ => true
  }

  function ParseFloat(h: Host, s: string): Result<Float, BranchError> {
    match h.parseFloat(s)
    case Some(f) => Ok(f)
    case None => Err(BadNumber(s))
  }

  function ToFloat(h: Host, v: Value): Result<Float, BranchError> {
    match v
    case VInt(i) => Ok(Finite(i as real))
    case VInt64(i) => Ok(Finite(i as real))
    case VFloat32(f) => Ok(f)
    case VFloat64(f) => Ok(f)
    case VString(s) => ParseFloat(h, s)
    case _ => Err(NotNumeric)
  }

  predicate EqualsLoose(h: Host, a: Value, b: Value) {
    h.sprint(a) == h.sprint(b)
  }

  /** The right-hand side of `==` as a value.  An identifier stands for its own
      text; an operator, parenthesis or keyword leaves the value nil. */
  function RhsValue(h: Host, rhs: Token): Result<Value, BranchError> {
    match rhs
    case Str(t) => Ok(VString(t))
    case Bool(t) => Ok(VBool(t == "true"))
    case Number(t) =>
      var n :- ParseFloat(h, t);
      Ok(VFloat64(n))
    case Ident(t) => Ok(VString(t))
    case _ => Ok(Nil)
  }

  function CompareValues(h: Host, left: Value, op: string, rhs: Token): Result<bool, BranchError> {
    if op == "==" || op == "!=" then
      var rv :- RhsValue(h, rhs);
      var eq := EqualsLoose(h, left, rv);
      Ok(if op == "==" then eq else !eq)
    else if op == "<" || op == ">" || op == "<=" || op == ">=" then
      var ln :- ToFloat(h, left);
      var rn :- ParseFloat(h, rhs.Text());
      Ok(if op == "<" then ln.Less(rn)
         else if op == ">" then rn.Less(ln)
         else if op == "<=" then ln.AtMost(rn)
         else rn.AtMost(ln))
    else Err(UnsupportedOperator(op))
  }

  /** `strings.Split(name, ".")`. */
  function SplitDots(name: string): (parts: seq<string>)
    ensures |parts| > 0
    decreases |name|
  {
    if |name| == 0 then [""]
    else
      var rest := SplitDots(name[1..]);
      if name[0] == '.' then [""] + rest else [[name[0]] + rest[0]] + rest[1..]
  }

  function Walk(cur: Value, segs: seq<string>): Value
    decreases |segs|
  {
    if |segs| == 0 then cur
    else if !cur.VMap? then Nil
    else Walk(if segs[0] in cur.fields then cur.fields[segs[0]] else Nil, segs[1..])
  }

  function Lookup(inputs: PortValues, name: string): Value {
    var parts := SplitDots(name);
    if parts[0] in inputs then Walk(inputs[parts[0]], parts[1..]) else Nil
  }
}
