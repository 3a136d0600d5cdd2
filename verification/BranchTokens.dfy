/** The lexer of the branch expression language
    (core/agentgraph/exec_control.go).  A Go string is a sequence of bytes, so a
    `char` below stands for one byte. */
module BranchTokens {
  import opened Wrappers

  datatype BranchError =
    | UnterminatedString(at: nat)
    | UnexpectedChar(at: nat)
    | TrailingTokens(at: nat)
    | UnexpectedEnd
    | ExpectedRParen(at: nat)
    | ExpectedRhs(op: string)
    | UnexpectedToken(at: nat)
    | BadNumber(text: string)
    | NotNumeric
    | UnsupportedOperator(op: string)

  /** Parentheses and the three keywords carry no text in the source either. */
  datatype Token =
    | Ident(name: string)
    | Str(body: string)
    | Number(digits: string)
    | Bool(word: string)
    | Op(symbol: string)
    | LParen
    | RParen
    | And
    | Or
    | Not
  {
    function Text(): string {
      match this
      case Ident(t) => t
      case Str(t) => t
      case Number(t) => t
      case Bool(t) => t
      case Op(t) => t
      case _ => ""
    }
  }

  predicate Space(c: char) {
    c == ' ' || c == '\t' || c == '\n'
  }

  predicate Digit(c: char) {
    '0' <= c <= '9'
  }

  predicate Letter(c: char) {
    'a' <= c <= 'z' || 'A' <= c <= 'Z' || c == '_'
  }

  predicate WordByte(c: char) {
    Letter(c) || Digit(c) || c == '.'
  }

  predicate NumberByte(c: char) {
    Digit(c) || c == '.'
  }

  predicate NotQuote(c: char) {
    c != '"'
  }

  predicate AllBytes(s: string, p: char -> bool) {
    forall k :: 0 <= k < |s| ==> p(s[k])
  }

  function LowerByte(c: char): char {
    if 'A' <= c <= 'Z' then c + 32 as char else c
  }

  function Lower(s: string): string {
    seq(|s|, i requires 0 <= i < |s| => LowerByte(s[i]))
  }

  /** The end of the longest run of bytes satisfying `p` that starts at `i`. */
  function RunEnd(s: string, i: nat, p: char -> bool): (j: nat)
    requires i <= |s|
    ensures i <= j <= |s|
    ensures AllBytes(s[i..j], p)
    ensures j < |s| ==> !p(s[j])
    decreases |s| - i
  {
    if i < |s| && p(s[i]) then
      var j := RunEnd(s, i + 1, p);
      assert s[i..j] == [s[i]] + s[i + 1..j];
      j
    else i
  }

  lemma RunEndUnique(s: string, i: nat, j: nat, p: char -> bool)
    requires i <= j <= |s|
    requires AllBytes(s[i..j], p)
    requires j < |s| ==> !p(s[j])
    ensures RunEnd(s, i, p) == j
    decreases j - i
  {
    if i < j {
      assert s[i] == s[i..j][0];
      assert s[i + 1..j] == s[i..j][1..];
      RunEndUnique(s, i + 1, j, p);
    }
  }

  /** The token an identifier-shaped word stands for. */
  function WordToken(word: string): Token {
    var low := Lower(word);
    if low == "and" then And
    else if low == "or" then Or
    else if low == "not" then Not
    else if low == "true" then Bool("true")
    else if low == "false" then Bool("false")
    else Ident(word)
  }

  datatype Step = Skip(next: nat) | Emit(token: Token, next: nat) | Fail(error: BranchError)

  /** One turn of the scanning loop at position `i`. */
  function LexOne(s: string, i: nat): (step: Step)
    requires i < |s|
    ensures !step.Fail? ==> i < step.next <= |s|
  {
    var c := s[i];
    if Space(c) then Skip(i + 1)
    else if c == '(' then Emit(LParen, i + 1)
    else if c == ')' then Emit(RParen, i + 1)
    else if c == '"' then
      var j := RunEnd(s, i + 1, NotQuote);
      if j < |s| then Emit(Str(s[i + 1..j]), j + 1) else Fail(UnterminatedString(i))
    else if c == '=' && i + 1 < |s| && s[i + 1] == '=' then Emit(Op("=="), i + 2)
    else if c == '!' && i + 1 < |s| && s[i + 1] == '=' then Emit(Op("!="), i + 2)
    else if c == '<' || c == '>' then
      if i + 1 < |s| && s[i + 1] == '=' then Emit(Op([c, '=']), i + 2) else Emit(Op([c]), i + 1)
    else if Digit(c) then
      var j := RunEnd(s, i, NumberByte);
      Emit(Number(s[i..j]), j)
    else if Letter(c) then
      var j := RunEnd(s, i, WordByte);
      Emit(WordToken(s[i..j]), j)
    else Fail(UnexpectedChar(i))
  }

  /** The tokens of `s[i..]`, or the first lexical error met. */
  function Lex(s: string, i: nat): Result<seq<Token>, BranchError>
    requires i <= |s|
    decreases |s| - i
  {
    if i == |s| then Ok([])
    else
      match LexOne(s, i)
      case Skip(next) => Lex(s, next)
      case Emit(t, next) => Prefixed([t], Lex(s, next))
      case Fail(e) => Err(e)
  }

  function Prefixed(out: seq<Token>, rest: Result<seq<Token>, BranchError>): Result<seq<Token>, BranchError> {
    match rest
    case Ok(ts) => Ok(out + ts)
    case Err(e) => Err(e)
  }

  lemma PrefixedAssoc(out: seq<Token>, t: Token, rest: Result<seq<Token>, BranchError>)
    ensures Prefixed(out, Prefixed([t], rest)) == Prefixed(out + [t], rest)
  {
    if rest.Ok? {
      assert out + ([t] + rest.value) == out + [t] + rest.value;
    }
  }

  /** `tokenizeBranch`: the byte loop, with the nested run loops of the source. */
  method Tokenize(s: string) returns (r: Result<seq<Token>, BranchError>)
    ensures r == Lex(s, 0)
  {
    var out: seq<Token> := [];
    var i := 0;
    assert forall ts: seq<Token> :: [] + ts == ts;
    while i < |s|
      invariant 0 <= i <= |s|
      invariant Lex(s, 0) == Prefixed(out, Lex(s, i))
    {
      var c := s[i];
      ghost var step := LexOne(s, i);
      if step.Emit? {
        PrefixedAssoc(out, step.token, Lex(s, step.next));
      }
      if c == ' ' || c == '\t' || c == '\n' {
        i := i + 1;
      } else if c == '(' {
        out, i := out + [LParen], i + 1;
      } else if c == ')' {
        out, i := out + [RParen], i + 1;
      } else if c == '"' {
        var j := ScanRun(s, i + 1, NotQuote);
        if j >= |s| {
          return Err(UnterminatedString(i));
        }
        out, i := out + [Str(s[i + 1..j])], j + 1;
      } else if c == '=' && i + 1 < |s| && s[i + 1] == '=' {
        out, i := out + [Op("==")], i + 2;
      } else if c == '!' && i + 1 < |s| && s[i + 1] == '=' {
        out, i := out + [Op("!=")], i + 2;
      } else if c == '<' || c == '>' {
        if i + 1 < |s| && s[i + 1] == '=' {
          out, i := out + [Op([c, '='])], i + 2;
        } else {
          out, i := out + [Op([c])], i + 1;
        }
      } else if '0' <= c <= '9' {
        var j := ScanRun(s, i, NumberByte);
        out, i := out + [Number(s[i..j])], j;
      } else if Letter(c) {
        var j := ScanRun(s, i, WordByte);
        out, i := out + [WordToken(s[i..j])], j;
      } else {
        return Err(UnexpectedChar(i));
      }
    }
    assert out + [] == out;
    return Ok(out);
  }

  /** The inner `for j < len(s) && ...` loops of the source. */
  method ScanRun(s: string, i: nat, p: char -> bool) returns (j: nat)
    requires i <= |s|
    ensures j == RunEnd(s, i, p)
  {
    j := i;
    while j < |s| && p(s[j])
      invariant i <= j <= |s|
      invariant RunEnd(s, i, p) == RunEnd(s, j, p)
    {
      j := j + 1;
    }
  }

  // ---- what a string must look like to lex to a given token list ----

  /** `text` is a spelling of `token`: keywords in any letter case, quoted
      strings without an inner quote, numbers as digits and dots. */
  predicate Spells(text: string, token: Token) {
    match token
    case LParen => text == "("
    case RParen => text == ")"
    case Str(body) => AllBytes(body, NotQuote) && text == "\"" + body + "\""
    case Op(sym) => text == sym && (sym == "==" || sym == "!=" || sym == "<" || sym == ">" || sym == "<=" || sym == ">=")
    case Number(digits) => text == digits && |text| > 0 && Digit(text[0]) && AllBytes(text, NumberByte)
    case _ => |text| > 0 && Letter(text[0]) && AllBytes(text, WordByte) && WordToken(text) == token
  }

  /** Written directly after `token`, the byte `c` would be read as part of it. */
  predicate Extends(token: Token, c: char) {
    match token
    case LParen => false
    case RParen => false
    case Str(_) => false
    case Op(sym) => (sym == "<" || sym == ">") && c == '='
    case Number(_) => NumberByte(c)
    case _ => WordByte(c)
  }

  /** One token as written, with the white space that follows it. */
  datatype Lexeme = Lexeme(text: string, token: Token, gap: string)

  predicate LayoutOk(ls: seq<Lexeme>) {
    |ls| == 0 ||
    (&& Spells(ls[0].text, ls[0].token)
     && AllBytes(ls[0].gap, Space)
     && LayoutOk(ls[1..])
     && (ls[0].gap == "" && |ls| > 1 && |ls[1].text| > 0 ==> !Extends(ls[0].token, ls[1].text[0])))
  }

  function Render(ls: seq<Lexeme>): string {
    if |ls| == 0 then "" else ls[0].text + ls[0].gap + Render(ls[1..])
  }

  function Tokens(ls: seq<Lexeme>): (ts: seq<Token>)
    ensures |ts| == |ls|
  {
    if |ls| == 0 then [] else [ls[0].token] + Tokens(ls[1..])
  }

  /** `s` is leading white space followed by a legal layout of `ts`. */
  ghost predicate WritesAs(s: string, ts: seq<Token>) {
    exists lead: string, ls: seq<Lexeme> ::
      AllBytes(lead, Space) && LayoutOk(ls) && Tokens(ls) == ts && s == lead + Render(ls)
  }

  lemma {:induction false} LexSkipsSpace(s: string, i: nat, j: nat)
    requires i <= j <= |s|
    requires AllBytes(s[i..j], Space)
    ensures Lex(s, i) == Lex(s, j)
    decreases j - i
  {
    if i < j {
      assert s[i] == s[i..j][0];
      assert s[i + 1..j] == s[i..j][1..];
      LexSkipsSpace(s, i + 1, j);
    }
  }

  lemma QuotedParts(s: string, i: nat, body: string)
    requires i + |body| + 2 <= |s| && s[i..i + |body| + 2] == "\"" + body + "\""
    ensures s[i] == '"' && s[i + 1..i + 1 + |body|] == body && s[i + 1 + |body|] == '"'
  {
    var j := i + |body| + 2;
    var t := s[..j];
    assert t[i..] == "\"" + body + "\"";
    SplitThree(t, i, "\"", body, "\"");
    assert t[i] == t[i..i + 1][0] && t[i + 1 + |body|] == t[i + 1 + |body|..][0];
    assert s[i + 1..i + 1 + |body|] == t[i + 1..i + 1 + |body|];
  }

  lemma OpReads(s: string, i: nat, sym: string)
    requires i + |sym| <= |s| && s[i..i + |sym|] == sym && Spells(sym, Op(sym))
    requires i + |sym| < |s| ==> !Extends(Op(sym), s[i + |sym|])
    ensures |sym| > 0 && LexOne(s, i) == Emit(Op(sym), i + |sym|)
  {
    assert s[i] == s[i..i + |sym|][0];
    if |sym| == 2 {
      assert s[i + 1] == s[i..i + |sym|][1];
      assert sym == [sym[0], '='];
    } else {
      assert sym == [sym[0]];
    }
  }

  /** A spelled token that nothing extends is read back as exactly that token. */
  lemma LexOneReads(s: string, i: nat, text: string, token: Token)
    requires i + |text| <= |s| && s[i..i + |text|] == text
    requires Spells(text, token)
    requires i + |text| < |s| ==> !Extends(token, s[i + |text|])
    ensures |text| > 0 && LexOne(s, i) == Emit(token, i + |text|)
  {
    var j := i + |text|;
    assert |text| > 0;
    assert s[i] == s[i..j][0] == text[0];
    match token {
      case LParen =>
      case RParen =>
      case Str(body) =>
        QuotedParts(s, i, body);
        RunEndUnique(s, i + 1, i + 1 + |body|, NotQuote);
      case Op(sym) =>
        OpReads(s, i, sym);
      case Number(digits) =>
        RunEndUnique(s, i, j, NumberByte);
      case _ =>
        RunEndUnique(s, i, j, WordByte);
    }
  }

  lemma SplitThree(s: string, i: nat, a: string, b: string, c: string)
    requires i <= |s| && s[i..] == a + b + c
    ensures i + |a| + |b| + |c| == |s|
    ensures s[i..i + |a|] == a
    ensures s[i + |a|..i + |a| + |b|] == b
    ensures s[i + |a| + |b|..] == c
  {
    var u := s[i..];
    assert s[i..i + |a|] == u[..|a|];
    assert s[i + |a|..i + |a| + |b|] == u[|a|..|a| + |b|];
    assert s[i + |a| + |b|..] == u[|a| + |b|..];
  }

  /** Where the lexemes of a layout part. */
  lemma HeadParts(s: string, i: nat, ls: seq<Lexeme>) returns (j: nat, next: nat)
    requires i <= |s| && s[i..] == Render(ls) && LayoutOk(ls) && |ls| > 0
    ensures j == i + |ls[0].text| && next == j + |ls[0].gap| && next <= |s|
    ensures s[i..j] == ls[0].text && s[j..next] == ls[0].gap && s[next..] == Render(ls[1..])
    ensures j < |s| ==> !Extends(ls[0].token, s[j])
  {
    var l := ls[0];
    SplitThree(s, i, l.text, l.gap, Render(ls[1..]));
    j, next := i + |l.text|, i + |l.text| + |l.gap|;
    if j < |s| {
      NextByte(ls);
      assert s[j] == s[i..][|l.text|];
    }
  }

  lemma LexStep(s: string, i: nat, token: Token, j: nat, rest: seq<Token>)
    requires i < j <= |s| && LexOne(s, i) == Emit(token, j) && Lex(s, j) == Ok(rest)
    ensures Lex(s, i) == Ok([token] + rest)
  {
  }

  lemma {:induction false} LexLayout(s: string, i: nat, ls: seq<Lexeme>)
    requires i <= |s| && s[i..] == Render(ls) && LayoutOk(ls)
    ensures Lex(s, i) == Ok(Tokens(ls))
    decreases |ls|
  {
    if |ls| > 0 {
      var j, next := HeadParts(s, i, ls);
      LexLayout(s, next, ls[1..]);
      LexOneReads(s, i, ls[0].text, ls[0].token);
      LexSkipsSpace(s, j, next);
      LexStep(s, i, ls[0].token, j, Tokens(ls[1..]));
    }
  }

  /** The byte after the first lexeme never extends it. */
  lemma NextByte(ls: seq<Lexeme>)
    requires |ls| > 0 && LayoutOk(ls) && |Render(ls)| > |ls[0].text|
    ensures !Extends(ls[0].token, Render(ls)[|ls[0].text|])
  {
    var l := ls[0];
    var tail := Render(ls[1..]);
    assert Render(ls) == l.text + (l.gap + tail);
    assert Render(ls)[|l.text|] == (l.gap + tail)[0];
    if l.gap != "" {
      assert Space(l.gap[0]);
    } else {
      assert tail != "";
      assert ls[1..][0] == ls[1];
      assert LayoutOk(ls[1..]) && Spells(ls[1].text, ls[1].token);
      assert tail[0] == ls[1].text[0];
    }
  }

  /** What `LexOne` emitted is a spelling of the emitted token, and the byte
      that stopped it does not extend the token. */
  lemma EmitSpells(s: string, i: nat)
    requires i < |s| && LexOne(s, i).Emit?
    ensures var e := LexOne(s, i);
      Spells(s[i..e.next], e.token) && (e.next < |s| ==> !Extends(e.token, s[e.next]))
  {
    var e := LexOne(s, i);
    var text := s[i..e.next];
    assert text[0] == s[i];
    if s[i] == '"' {
      var j := RunEnd(s, i + 1, NotQuote);
      assert text == [s[i]] + s[i + 1..j] + [s[j]];
    } else if s[i] == '=' || s[i] == '!' || s[i] == '<' || s[i] == '>' {
      assert |text| == 2 ==> text == [s[i], s[i + 1]];
      assert |text| == 1 ==> text == [s[i]];
    } else if Digit(s[i]) {
      assert text == s[i..RunEnd(s, i, NumberByte)];
      assert RunEnd(s, i, NumberByte) > i;
    } else if Letter(s[i]) {
      assert text == s[i..RunEnd(s, i, WordByte)];
      assert RunEnd(s, i, WordByte) > i;
    }
  }

  /** Every successful lexing comes from a legal layout, found here. */
  lemma {:induction false} LayoutOfLex(s: string, i: nat) returns (lead: string, ls: seq<Lexeme>)
    requires i <= |s| && Lex(s, i).Ok?
    ensures AllBytes(lead, Space) && LayoutOk(ls)
    ensures Tokens(ls) == Lex(s, i).value && s[i..] == lead + Render(ls)
    decreases |s| - i
  {
    if i == |s| {
      lead, ls := "", [];
    } else {
      match LexOne(s, i) {
        case Skip(next) =>
          var gap, tail := LayoutOfLex(s, next);
          lead, ls := [s[i]] + gap, tail;
          ConsLead(s, i, gap, Render(tail));
        case Emit(t, next) =>
          var gap, tail := LayoutOfLex(s, next);
          EmitSpells(s, i);
          lead := "";
          ls := ConsLexeme(s, i, next, t, gap, tail);
      }
    }
  }

  lemma ConsLead(s: string, i: nat, gap: string, text: string)
    requires i < |s| && Space(s[i]) && AllBytes(gap, Space) && s[i + 1..] == gap + text
    ensures AllBytes([s[i]] + gap, Space) && s[i..] == [s[i]] + gap + text
  {
    assert s[i..] == [s[i]] + s[i + 1..];
  }

  lemma ConsLexeme(s: string, i: nat, next: nat, t: Token, gap: string, tail: seq<Lexeme>) returns (ls: seq<Lexeme>)
    requires i < next <= |s| && Spells(s[i..next], t) && AllBytes(gap, Space) && LayoutOk(tail)
    requires s[next..] == gap + Render(tail)
    requires next < |s| ==> !Extends(t, s[next])
    ensures LayoutOk(ls) && Tokens(ls) == [t] + Tokens(tail) && s[i..] == "" + Render(ls)
  {
    ls := [Lexeme(s[i..next], t, gap)] + tail;
    assert ls[1..] == tail;
    calc {
      s[i..];
      s[i..next] + s[next..];
      s[i..next] + (gap + Render(tail));
      s[i..next] + gap + Render(tail);
      "" + Render(ls);
    }
    if gap == "" && |tail| > 0 && |tail[0].text| > 0 {
      assert s[next] == s[next..][0] == (gap + Render(tail))[0] == tail[0].text[0];
    }
  }

  /** The lexer accepts exactly the layouts: `s` lexes to `ts` just when `s`
      spells out `ts` with white space wherever two tokens would run together. */
  lemma LexExactly(s: string, ts: seq<Token>)
    ensures Lex(s, 0) == Ok(ts) <==> WritesAs(s, ts)
  {
    if Lex(s, 0) == Ok(ts) {
      var lead, ls := LayoutOfLex(s, 0);
      assert s[0..] == s;
      assert AllBytes(lead, Space) && LayoutOk(ls) && Tokens(ls) == ts && s == lead + Render(ls);
    }
    if WritesAs(s, ts) {
      var lead: string, ls: seq<Lexeme> :|
        AllBytes(lead, Space) && LayoutOk(ls) && Tokens(ls) == ts && s == lead + Render(ls);
      assert s[0..|lead|] == lead;
      assert s[|lead|..] == Render(ls);
      LexSkipsSpace(s, 0, |lead|);
      LexLayout(s, |lead|, ls);
    }
  }
}
