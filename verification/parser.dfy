/** The recursive-descent parser: a cursor `current` into a fixed token
    list, the last consumed token, a success flag and the list of error
    nodes produced so far.  The functions `ExprAt`, `GroupAt`, ... say what
    each parsing method computes from the parser's state; the class
    `Parser` holds that state and its methods are proved to compute it. */
module Parser {
  import opened Ast
  import Lexer

  predicate IsDigitString(s: string) {
    |s| > 0 && forall i | 0 <= i < |s| :: '0' <= s[i] <= '9'
  }

  /** What the parser needs of its input to finish without a panic or an
      endless descent: at least one token (`peek` computes `len - 1` on an
      unsigned length), numbers whose lexemes parse, and a last token that
      does not start a sub-expression or a binding list, since `peek`
      repeats the last token once `current` has run past it. */
  predicate Parsable(tokens: seq<Token>) {
    && |tokens| > 0
    && tokens[|tokens| - 1].ttype !in {Lparen, Add, Negate, Lbracket}
    && forall i | 0 <= i < |tokens| :: tokens[i].ttype == Number ==> IsDigitString(tokens[i].lexeme)
  }

  /** Operator tokens spell their operator, as the lexer makes them. */
  predicate OperatorLexemes(tokens: seq<Token>) {
    forall i | 0 <= i < |tokens| ::
      && (tokens[i].ttype == Add ==> tokens[i].lexeme == "+")
      && (tokens[i].ttype == Negate ==> tokens[i].lexeme == "-")
  }

  /** The index `peek(n)` reads: `current + n` clamped into the list. */
  function Clamp(offset: int, len: nat): (k: nat)
    requires len > 0
    ensures k < len
    ensures 0 <= offset < len ==> k == offset
    ensures offset >= len ==> k == len - 1
    ensures offset < 0 ==> k == 0
  {
    if offset > len - 1 then len - 1 else if offset < 0 then 0 else offset
  }

  /** The index `rewind(n)` moves to: `current - n` clamped into
      `[0, current]`. */
  function Clamp0(idx: int, current: nat): (k: nat)
    ensures k <= current
    ensures 0 <= idx <= current ==> k == idx
    ensures idx < 0 ==> k == 0
  {
    if idx < 0 then 0 else if idx > current then current else idx
  }

  // ---------------------------------------------------------------------
  // The parser's state and what each parsing method makes of it

  /** The fields of a parser other than its tokens. */
  datatype PState = PState(current: nat, previous: Token, errors: seq<AstNode>, success: bool)

  /** The state of a new parser. */
  const Start: PState := PState(0, NoToken, [], true)

  function PeekAt(ts: seq<Token>, st: PState, n: int): Token
    requires |ts| > 0
  {
    ts[Clamp(st.current + n, |ts|)]
  }

  /** Tokens still ahead of the cursor; the measure of the descent. */
  function Rest(ts: seq<Token>, st: PState): nat {
    if st.current < |ts| then |ts| - st.current else 0
  }

  /** `next`: the current token becomes the previous one. */
  function Step(ts: seq<Token>, st: PState): PState
    requires |ts| > 0
  {
    st.(previous := PeekAt(ts, st, 0), current := st.current + 1)
  }

  /** `make_error_node`: an error node for the token at `offset`, recorded
      in the error list, with the success flag cleared. */
  function Fail(ts: seq<Token>, st: PState, msg: string, offset: int): (AstNode, PState)
    requires |ts| > 0
  {
    var e := AstNode.Error(msg, PeekAt(ts, st, offset));
    (e, st.(errors := st.errors + [e], success := false))
  }

  /** `parse_expr`: one expression at the cursor. */
  function ExprAt(ts: seq<Token>, st: PState): (r: (AstNode, PState))
    requires Parsable(ts)
    ensures r.1.current >= st.current
    ensures r.1.current == st.current ==> r.0.Error?
    ensures ErrorsFrom(r.0, st.errors, st.success, r.1.errors, r.1.success)
    ensures PeekAt(ts, st, 0).ttype == Lparen ==> r.0.Error? || r.1.previous.ttype == Rparen
    ensures OperatorLexemes(ts) ==> WellFormed(r.0)
    decreases Rest(ts, st), 2
  {
    match PeekAt(ts, st, 0).ttype
    case Lparen => GroupAt(ts, st)
    case Number => NumberAt(ts, st)
    case Add => OperatorAt(ts, st)
    case Negate => OperatorAt(ts, st)
    case Identifier => IdentifierAt(ts, st)
    case _ => Fail(ts, st, "Unknown token in parse_expr: ", 0)
  }

  /** `parse_number`: the value of the digit lexeme; one token consumed. */
  function NumberAt(ts: seq<Token>, st: PState): (AstNode, PState)
    requires Parsable(ts) && PeekAt(ts, st, 0).ttype == Number
  {
    (Int(DecimalValue(PeekAt(ts, st, 0).lexeme)), Step(ts, st))
  }

  /** The `(` case of `parse_expr`: the expression inside, which must be
      followed by `)`; the token after it is consumed either way. */
  function GroupAt(ts: seq<Token>, st: PState): (r: (AstNode, PState))
    requires Parsable(ts) && PeekAt(ts, st, 0).ttype == Lparen
    ensures r.1.current > st.current
    ensures ErrorsFrom(r.0, st.errors, st.success, r.1.errors, r.1.success)
    ensures r.0.Error? || r.1.previous.ttype == Rparen
    ensures OperatorLexemes(ts) ==> WellFormed(r.0)
    decreases Rest(ts, st), 1
  {
    var (node, st1) := ExprAt(ts, Step(ts, st));
    var (node', st2) :=
      if PeekAt(ts, st1, 0).ttype != Rparen && !node.Error?
      then Fail(ts, st1, "Expected a closing ')', found: ", 0)
      else (node, st1);
    (node', Step(ts, st2))
  }

  /** `parse_operator`: `+` with two operands parsed left to right, `-`
      with one, both spelled by the operator token's lexeme. */
  function OperatorAt(ts: seq<Token>, st: PState): (r: (AstNode, PState))
    requires Parsable(ts)
    ensures r.1.current > st.current
    ensures ErrorsFrom(r.0, st.errors, st.success, r.1.errors, r.1.success)
    ensures OperatorLexemes(ts) ==> WellFormed(r.0)
    decreases Rest(ts, st), 1
  {
    var tok := PeekAt(ts, st, 0);
    var st0 := Step(ts, st);
    if tok.ttype == Add then
      var (left, st1) := ExprAt(ts, st0);
      var (right, st2) := ExprAt(ts, st1);
      ErrorsFromPrim2(tok.lexeme, left, right, st0.errors, st0.success,
                      st1.errors, st1.success, st2.errors, st2.success);
      (Prim(tok.lexeme, [left, right]), st2)
    else if tok.ttype == Negate then
      var (arg, st1) := ExprAt(ts, st0);
      ErrorsFromPrim1(tok.lexeme, arg, st0.errors, st0.success, st1.errors, st1.success);
      (Prim(tok.lexeme, [arg]), st1)
    else
      Fail(ts, st0, "Unknown operator in parse_operator: ", -1)
  }

  /** `parse_identifier`: `read`, a `let` form, or a variable. */
  function IdentifierAt(ts: seq<Token>, st: PState): (r: (AstNode, PState))
    requires Parsable(ts)
    ensures r.1.current > st.current
    ensures ErrorsFrom(r.0, st.errors, st.success, r.1.errors, r.1.success)
    ensures OperatorLexemes(ts) ==> WellFormed(r.0)
    decreases Rest(ts, st), 1
  {
    var tok := PeekAt(ts, st, 0);
    var st0 := Step(ts, st);
    if tok.lexeme == "read" then (Prim(tok.lexeme, []), st0)
    else if tok.lexeme == "let" then LetAt(ts, st0)
    else (Var(tok.lexeme), st0)
  }

  /** The `let` arm of `parse_identifier` after the keyword:
      `( [x e] [y e] ... ) body`, with at least one binding. */
  function LetAt(ts: seq<Token>, st: PState): (r: (AstNode, PState))
    requires Parsable(ts)
    ensures r.1.current >= st.current
    ensures ErrorsFrom(r.0, st.errors, st.success, r.1.errors, r.1.success)
    ensures r.0.Let? || r.0.Error?
    ensures OperatorLexemes(ts) ==> WellFormed(r.0)
    decreases Rest(ts, st), 0
  {
    if PeekAt(ts, st, 0).ttype != Lparen then Fail(ts, st, "Expected a '('", 0)
    else
      var st1 := Step(ts, st);
      if PeekAt(ts, st1, 0).ttype != Lbracket then Fail(ts, st1, "Expected a '['", 0)
      else
        var (bs, st2) := BindingsAt(ts, Step(ts, st1));
        if PeekAt(ts, st2, 0).ttype != Rparen then Fail(ts, st2, "Expected a ')'", 0)
        else
          var (body, st3) := ExprAt(ts, Step(ts, st2));
          ErrorsFromLet(bs, body, st.errors, st.success, st2.errors, st2.success, st3.errors, st3.success);
          (Let(bs, body), st3)
  }

  /** The binding loop of `parse_identifier`: a binding, then the rest of
      the list while a `[` follows its `]`. */
  function BindingsAt(ts: seq<Token>, st: PState): (r: (seq<LetBinding>, PState))
    requires Parsable(ts)
    ensures |r.0| > 0
    ensures r.1.current > st.current
    ensures ErrorsFrom(Let(r.0, Int(0)), st.errors, st.success, r.1.errors, r.1.success)
    ensures OperatorLexemes(ts) ==> WellFormedBindings(r.0)
    decreases Rest(ts, st) + 1, 0
  {
    var (b, more, st1) := BindingAt(ts, st);
    if more then
      var (bs, st2) := BindingsAt(ts, st1);
      ErrorsFromCons(b, bs, st.errors, st.success, st1.errors, st1.success, st2.errors, st2.success);
      ([b] + bs, st2)
    else
      ErrorsFromOne(b, st.errors, st.success, st1.errors, st1.success);
      ([b], st1)
  }

  /** One `x e]` of a binding list: the name, the bound expression and the
      closing `]`; when a `[` follows, it is consumed too and `more` holds. */
  function BindingAt(ts: seq<Token>, st: PState): (r: (LetBinding, bool, PState))
    requires Parsable(ts)
    ensures r.2.current > st.current
    ensures r.1 ==> Rest(ts, r.2) < Rest(ts, st)
    ensures ErrorsFrom(r.0.expr, st.errors, st.success, r.2.errors, r.2.success)
    ensures OperatorLexemes(ts) ==> WellFormed(r.0.expr)
    decreases Rest(ts, st), 3
  {
    var name := PeekAt(ts, st, 0).lexeme;
    var (value, st1) := ExprAt(ts, Step(ts, st));
    if PeekAt(ts, st1, 1).ttype == Lbracket then
      (LetBinding(name, value), true, Step(ts, Step(ts, st1)))
    else
      (LetBinding(name, value), false, Step(ts, st1))
  }

  /** `parse_program`: a parenthesised expression; the closing `)` is
      checked but not consumed. */
  function ProgramAt(ts: seq<Token>, st: PState): (r: (AstNode, PState))
    requires Parsable(ts)
    ensures ErrorsFrom(r.0, st.errors, st.success, r.1.errors, r.1.success)
    ensures PeekAt(ts, st, 0).ttype != Lparen ==> r.0.Error?
    ensures !r.0.Error? ==> PeekAt(ts, r.1, 0).ttype == Rparen
    ensures OperatorLexemes(ts) ==> WellFormed(r.0)
  {
    if PeekAt(ts, st, 0).ttype != Lparen then Fail(ts, st, "Expected a '(', found: ", 0)
    else
      var (node, st1) := ExprAt(ts, Step(ts, st));
      if PeekAt(ts, st1, 0).ttype != Rparen && !node.Error?
      then Fail(ts, st1, "Expected a ')', found: ", 0)
      else (node, st1)
  }

  // ---------------------------------------------------------------------
  // The parser object

  class Parser {
    const tokens: seq<Token>
    var current: nat
    var parseSuccess: bool
    var errors: seq<AstNode>
    var previous: Token

    constructor (tokens: seq<Token>)
      ensures this.tokens == tokens
      ensures State() == Start
    {
      this.tokens := tokens;
      current := 0;
      parseSuccess := true;
      errors := [];
      previous := NoToken;
    }

    function State(): PState
      reads this
    {
      PState(current, previous, errors, parseSuccess)
    }

    function Remaining(): nat
      reads this
    {
      Rest(tokens, State())
    }

    function Peek(n: int): (t: Token)
      reads this
      requires |tokens| > 0
      ensures t == tokens[Clamp(current + n, |tokens|)]
    {
      tokens[Clamp(current + n, |tokens|)]
    }

    function Is(t: TokenType): bool
      reads this
      requires |tokens| > 0
    {
      Peek(0).ttype == t
    }

    function NextIs(t: TokenType): bool
      reads this
      requires |tokens| > 0
    {
      Peek(1).ttype == t
    }

    /** Moves the cursor back `n` tokens, never before the start and
        never forward. */
    method Rewind(n: int) returns (token: Token)
      requires Clamp0(current - n, current) < |tokens|
      modifies this
      ensures current == Clamp0(old(current) - n, old(current)) && current <= old(current)
      ensures token == tokens[current]
      ensures parseSuccess == old(parseSuccess) && errors == old(errors) && previous == old(previous)
    {
      var idx := current - n;
      if idx < 0 {
        idx := 0;
      } else if idx > current {
        idx := current;
      }
      token := tokens[idx];
      current := idx;
    }

    method Next() returns (token: Token)
      requires |tokens| > 0
      modifies this
      ensures previous == old(Peek(0))
      ensures current == old(current) + 1
      ensures token == Peek(0)
      ensures parseSuccess == old(parseSuccess) && errors == old(errors)
      ensures State() == Step(tokens, old(State()))
    {
      previous := Peek(0);
      current := current + 1;
      token := Peek(0);
    }

    /** Consumes the current token when it has type `t`, and says whether
        it did. */
    method Expect(t: TokenType) returns (b: bool)
      requires |tokens| > 0
      modifies this
      ensures b == (old(Peek(0)).ttype == t)
      ensures b ==> current == old(current) + 1 && previous == old(Peek(0))
      ensures !b ==> current == old(current) && previous == old(previous)
      ensures parseSuccess == old(parseSuccess) && errors == old(errors)
      ensures State() == if b then Step(tokens, old(State())) else old(State())
    {
      if Peek(0).ttype == t {
        var _ := Next();
        b := true;
      } else {
        b := false;
      }
    }

    method MakeErrorNode(msg: string, offset: int) returns (r: AstNode)
      requires |tokens| > 0
      modifies this
      ensures r == AstNode.Error(msg, Peek(offset))
      ensures errors == old(errors) + [r] && !parseSuccess
      ensures current == old(current) && previous == old(previous)
      ensures (r, State()) == Fail(tokens, old(State()), msg, offset)
    {
      parseSuccess := false;
      r := AstNode.Error(msg, Peek(offset));
      errors := errors + [r];
    }

    /** A number literal; its lexeme is a digit string by `Parsable`. */
    method ParseNumber() returns (r: AstNode)
      requires Parsable(tokens) && Peek(0).ttype == Number
      modifies this
      ensures r == Int(DecimalValue(old(Peek(0)).lexeme))
      ensures (r, State()) == NumberAt(tokens, old(State()))
    {
      var token := Peek(0);
      r := Int(DecimalValue(token.lexeme));
      var _ := Next();
    }

    method ParseIdentifier() returns (r: AstNode)
      requires Parsable(tokens)
      modifies this
      ensures (r, State()) == IdentifierAt(tokens, old(State()))
      decreases Remaining(), 1
    {
      var token := Peek(0);
      var _ := Next();
      if token.lexeme == "read" {
        r := Prim(token.lexeme, []);
      } else if token.lexeme == "let" {
        r := ParseLet();
      } else {
        r := Var(token.lexeme);
      }
    }

    method ParseLet() returns (r: AstNode)
      requires Parsable(tokens)
      modifies this
      ensures (r, State()) == LetAt(tokens, old(State()))
      decreases Remaining(), 0
    {
      ghost var st := State();
      var ok := Expect(Lparen);
      if !ok {
        r := MakeErrorNode("Expected a '('", 0);
        return;
      }
      ghost var st1 := State();
      assert st1 == Step(tokens, st);
      ok := Expect(Lbracket);
      if !ok {
        r := MakeErrorNode("Expected a '['", 0);
        return;
      }
      assert State() == Step(tokens, st1);
      var bindings := ParseBindings();
      ghost var st2 := State();
      ok := Expect(Rparen);
      if !ok {
        r := MakeErrorNode("Expected a ')'", 0);
        return;
      }
      assert State() == Step(tokens, st2);
      var body := ParseExpr();
      r := Let(bindings, body);
    }

    method ParseBindings() returns (bindings: seq<LetBinding>)
      requires Parsable(tokens)
      modifies this
      ensures (bindings, State()) == BindingsAt(tokens, old(State()))
      decreases Remaining() + 1, 0
    {
      ghost var all := BindingsAt(tokens, State());
      bindings := [];
      assert [] + all.0 == all.0;
      assert all == (bindings + all.0, all.1);
      var keepParsing := true;
      while keepParsing
        invariant keepParsing ==>
          all == (bindings + BindingsAt(tokens, State()).0, BindingsAt(tokens, State()).1)
        invariant !keepParsing ==> all == (bindings, State())
        decreases keepParsing, Remaining()
      {
        ghost var before := bindings;
        var binding, more := ParseBinding();
        keepParsing := more;
        bindings := bindings + [binding];
        if more {
          assert before + ([binding] + BindingsAt(tokens, State()).0)
              == bindings + BindingsAt(tokens, State()).0;
        }
      }
    }

    method ParseBinding() returns (b: LetBinding, more: bool)
      requires Parsable(tokens)
      modifies this
      ensures (b, more, State()) == BindingAt(tokens, old(State()))
      decreases Remaining(), 3
    {
      ghost var st := State();
      var varToken := Peek(0);
      var name := varToken.lexeme;
      var _ := Next();
      var value := ParseExpr();
      ghost var st1 := State();
      assert (value, st1) == ExprAt(tokens, Step(tokens, st));
      if NextIs(Lbracket) {
        var _ := Next();
        var _ := Next();
        more := true;
      } else {
        var _ := Next();
        more := false;
      }
      b := LetBinding(name, value);
    }

    method ParseOperator() returns (r: AstNode)
      requires Parsable(tokens)
      modifies this
      ensures (r, State()) == OperatorAt(tokens, old(State()))
      decreases Remaining(), 1
    {
      ghost var st := State();
      var token := Peek(0);
      var _ := Next();
      if token.ttype == Add {
        var left := ParseExpr();
        ghost var st1 := State();
        assert (left, st1) == ExprAt(tokens, Step(tokens, st));
        var right := ParseExpr();
        assert (right, State()) == ExprAt(tokens, st1);
        r := Prim(token.lexeme, [left, right]);
      } else if token.ttype == Negate {
        var arg := ParseExpr();
        r := Prim(token.lexeme, [arg]);
      } else {
        r := MakeErrorNode("Unknown operator in parse_operator: ", -1);
      }
    }

    method ParseExpr() returns (r: AstNode)
      requires Parsable(tokens)
      modifies this
      ensures (r, State()) == ExprAt(tokens, old(State()))
      decreases Remaining(), 2
    {
      var token := Peek(0);
      match token.ttype {
        case Lparen =>
          r := ParseGroup();
        case Number =>
          r := ParseNumber();
        case Add =>
          r := ParseOperator();
        case Negate =>
          r := ParseOperator();
        case Identifier =>
          r := ParseIdentifier();
        case _ =>
          r := MakeErrorNode("Unknown token in parse_expr: ", 0);
      }
    }

    method ParseGroup() returns (r: AstNode)
      requires Parsable(tokens) && Peek(0).ttype == Lparen
      modifies this
      ensures (r, State()) == GroupAt(tokens, old(State()))
      decreases Remaining(), 1
    {
      var _ := Next();
      var node := ParseExpr();
      if !Is(Rparen) {
        if !node.Error? {
          node := MakeErrorNode("Expected a closing ')', found: ", 0);
        }
      }
      var _ := Next();
      r := node;
    }

    method ParseProgram() returns (r: AstNode)
      requires Parsable(tokens)
      modifies this
      ensures (r, State()) == ProgramAt(tokens, old(State()))
    {
      if !Is(Lparen) {
        r := MakeErrorNode("Expected a '(', found: ", 0);
      } else {
        var _ := Next();
        r := ParseExpr();
        if !Is(Rparen) {
          if !r.Error? {
            r := MakeErrorNode("Expected a ')', found: ", 0);
          }
        }
      }
    }
  }

  // ---------------------------------------------------------------------
  // The error list

  /** Errors `e` extend `e0` with error nodes only; the result `r` holds an
      error node exactly when some were added, and the success flag `s` is
      cleared exactly then. */
  ghost predicate ErrorsFrom(r: AstNode, e0: seq<AstNode>, s0: bool, e: seq<AstNode>, s: bool) {
    && e0 <= e
    && (forall i | |e0| <= i < |e| :: e[i].Error?)
    && (ContainsError(r) <==> |e| > |e0|)
    && s == (s0 && |e| == |e0|)
  }

  lemma {:induction false} ErrorsFromPrim2(op: string, a: AstNode, b: AstNode, e0: seq<AstNode>, s0: bool,
                        e1: seq<AstNode>, s1: bool, e2: seq<AstNode>, s2: bool)
    requires ErrorsFrom(a, e0, s0, e1, s1) && ErrorsFrom(b, e1, s1, e2, s2)
    ensures ErrorsFrom(Prim(op, [a, b]), e0, s0, e2, s2)
  {
    var r := Prim(op, [a, b]);
    assert r.args[0] == a && r.args[1] == b;
    forall i | |e0| <= i < |e2| ensures e2[i].Error? {
      if i < |e1| {
        assert e1[i] == e2[i];
      }
    }
  }

  lemma {:induction false} ErrorsFromPrim1(op: string, a: AstNode, e0: seq<AstNode>, s0: bool, e1: seq<AstNode>, s1: bool)
    requires ErrorsFrom(a, e0, s0, e1, s1)
    ensures ErrorsFrom(Prim(op, [a]), e0, s0, e1, s1)
  {
    assert Prim(op, [a]).args[0] == a;
  }

  lemma {:induction false} ErrorsFromOne(b: LetBinding, e0: seq<AstNode>, s0: bool, e1: seq<AstNode>, s1: bool)
    requires ErrorsFrom(b.expr, e0, s0, e1, s1)
    ensures ErrorsFrom(Let([b], Int(0)), e0, s0, e1, s1)
  {
    assert [b][0] == b;
  }

  lemma {:induction false} ErrorsFromCons(b: LetBinding, bs: seq<LetBinding>, e0: seq<AstNode>, s0: bool,
                       e1: seq<AstNode>, s1: bool, e2: seq<AstNode>, s2: bool)
    requires ErrorsFrom(b.expr, e0, s0, e1, s1) && ErrorsFrom(Let(bs, Int(0)), e1, s1, e2, s2)
    ensures ErrorsFrom(Let([b] + bs, Int(0)), e0, s0, e2, s2)
  {
    var bs' := [b] + bs;
    assert bs'[0] == b;
    assert forall i | 0 <= i < |bs| :: bs'[i + 1] == bs[i];
    assert !ContainsError(Int(0));
    assert ContainsError(Let(bs', Int(0))) <==> ContainsError(b.expr) || ContainsError(Let(bs, Int(0))) by {
      if ContainsError(Let(bs', Int(0))) {
        var i :| 0 <= i < |bs'| && ContainsError(bs'[i].expr);
        if i > 0 {
          assert ContainsError(bs[i - 1].expr);
        }
      }
    }
    forall i | |e0| <= i < |e2| ensures e2[i].Error? {
      if i < |e1| {
        assert e1[i] == e2[i];
      }
    }
  }

  lemma {:induction false} ErrorsFromLet(bs: seq<LetBinding>, body: AstNode, e0: seq<AstNode>, s0: bool,
                      e1: seq<AstNode>, s1: bool, e2: seq<AstNode>, s2: bool)
    requires ErrorsFrom(Let(bs, Int(0)), e0, s0, e1, s1) && ErrorsFrom(body, e1, s1, e2, s2)
    ensures ErrorsFrom(Let(bs, body), e0, s0, e2, s2)
  {
    assert !ContainsError(Int(0));
    assert ContainsError(Let(bs, Int(0))) <==> exists i | 0 <= i < |bs| :: ContainsError(bs[i].expr);
    forall i | |e0| <= i < |e2| ensures e2[i].Error? {
      if i < |e1| {
        assert e1[i] == e2[i];
      }
    }
  }

  // ---------------------------------------------------------------------
  // Printing a tree back to tokens, and parsing it again

  /** A token's type and lexeme, without its position. */
  datatype Spelling = Spelling(ttype: TokenType, lexeme: string)

  /** Trees the parser builds from error-free input: the operators with
      their arities, literals as the lexer reads them (no sign), and
      variables other than the keywords. */
  predicate Printable(e: AstNode) {
    match e
    case Int(n) => n >= 0
    case Var(x) => x != "read" && x != "let"
    case Error(_, _) => false
    case Prim(op, args) =>
      && ((op == "+" && |args| == 2) || (op == "-" && |args| == 1) || (op == "read" && |args| == 0))
      && forall i | 0 <= i < |args| :: Printable(args[i])
    case Let(bs, body) =>
      |bs| > 0 && (forall i | 0 <= i < |bs| :: Printable(bs[i].expr)) && Printable(body)
  }

  /** The tokens of `e` as an operand: literals and names bare, every
      other form in parentheses. */
  function Spell(e: AstNode): (sp: seq<Spelling>)
    requires Printable(e)
    ensures |sp| > 0
    decreases e, 2, 0, 0
  {
    if e.Int? || e.Var? then Inner(e)
    else [Spelling(Lparen, "(")] + Inner(e) + [Spelling(Rparen, ")")]
  }

  /** The tokens of `e` inside its parentheses. */
  function Inner(e: AstNode): (sp: seq<Spelling>)
    requires Printable(e)
    ensures |sp| > 0
    decreases e, 1, 0
  {
    match e
    case Int(n) => [Spelling(Number, NatToString(n))]
    case Var(x) => [Spelling(Identifier, x)]
    case Prim(op, args) =>
      if op == "+" then [Spelling(Add, "+")] + Spell(args[0]) + Spell(args[1])
      else if op == "-" then [Spelling(Negate, "-")] + Spell(args[0])
      else [Spelling(Identifier, "read")]
    case Let(bs, body) =>
      [Spelling(Identifier, "let"), Spelling(Lparen, "("), Spelling(Lbracket, "[")]
        + (BindingsSpell(e, 0) + [Spelling(Rparen, ")")]) + Spell(body)
    case Error(_, _) => [Spelling(TokenType.Error, "")]
  }

  /** The bindings of the `let` form `e` from the `k`-th on: `x e]`,
      separated by `[`. */
  function BindingsSpell(e: AstNode, k: nat): (sp: seq<Spelling>)
    requires e.Let? && Printable(e) && k < |e.bindings|
    ensures |sp| > 0
    decreases e, 0, |e.bindings| - k
  {
    var b := e.bindings[k];
    [Spelling(Identifier, b.identifier)] + Spell(b.expr) + [Spelling(Rbracket, "]")]
      + (if k + 1 < |e.bindings| then [Spelling(Lbracket, "[")] + BindingsSpell(e, k + 1) else [])
  }

  /** The tokens of a whole program whose expression is `e`. */
  function ProgramSpell(e: AstNode): seq<Spelling>
    requires Printable(e)
  {
    [Spelling(Lparen, "(")] + Inner(e) + [Spelling(Rparen, ")")]
  }

  /** `ts` holds the spelling `sp` from index `i` on. */
  predicate SpelledAt(ts: seq<Token>, i: nat, sp: seq<Spelling>) {
    && i + |sp| <= |ts|
    && forall j | 0 <= j < |sp| :: ts[i + j].ttype == sp[j].ttype && ts[i + j].lexeme == sp[j].lexeme
  }

  /** The state after `n > 0` tokens from `st.current` on were consumed. */
  function Over(ts: seq<Token>, st: PState, n: nat): PState
    requires 0 < n && st.current + n <= |ts|
  {
    st.(current := st.current + n, previous := ts[st.current + n - 1])
  }

  lemma {:induction false} SpelledPrefix(ts: seq<Token>, i: nat, a: seq<Spelling>, b: seq<Spelling>)
    requires SpelledAt(ts, i, a + b)
    ensures SpelledAt(ts, i, a)
  {
    assert forall j | 0 <= j < |a| :: (a + b)[j] == a[j];
  }

  lemma {:induction false} SpelledSuffix(ts: seq<Token>, i: nat, a: seq<Spelling>, b: seq<Spelling>)
    requires SpelledAt(ts, i, a + b)
    ensures SpelledAt(ts, i + |a|, b)
  {
    assert forall j | 0 <= j < |b| :: (a + b)[|a| + j] == b[j];
  }

  /** The first token of a spelling. */
  lemma {:induction false} SpelledFirst(ts: seq<Token>, i: nat, sp: seq<Spelling>)
    requires SpelledAt(ts, i, sp) && |sp| > 0
    ensures i < |ts| && ts[i].ttype == sp[0].ttype && ts[i].lexeme == sp[0].lexeme
  {
    assert ts[i + 0] == ts[i];
  }

  /** The first three tokens of a spelling. */
  lemma {:induction false} SpelledThree(ts: seq<Token>, i: nat, sp: seq<Spelling>)
    requires SpelledAt(ts, i, sp) && |sp| == 3
    ensures i + 3 <= |ts|
    ensures ts[i].ttype == sp[0].ttype && ts[i].lexeme == sp[0].lexeme
    ensures ts[i + 1].ttype == sp[1].ttype && ts[i + 2].ttype == sp[2].ttype
  {
    assert ts[i + 0] == ts[i];
  }

  /** Inside the list, `next` moves the cursor over one token. */
  lemma {:induction false} StepIsOver(ts: seq<Token>, st: PState)
    requires st.current < |ts|
    ensures Step(ts, st) == Over(ts, st, 1)
  {
  }

  /** Looking at a token inside the list. */
  lemma {:induction false} PeekIs(ts: seq<Token>, st: PState, k: nat)
    requires st.current + k < |ts|
    ensures PeekAt(ts, st, k) == ts[st.current + k]
  {
  }

  lemma {:induction false} OverOver(ts: seq<Token>, st: PState, m: nat, n: nat)
    requires 0 < m && 0 < n && st.current + m + n <= |ts|
    ensures Over(ts, Over(ts, st, m), n) == Over(ts, st, m + n)
  {
  }

  lemma {:induction false} OverThree(ts: seq<Token>, st: PState, a: nat, b: nat, c: nat)
    requires 0 < a && 0 < b && 0 < c && st.current + a + b + c <= |ts|
    ensures Over(ts, Over(ts, Over(ts, st, a), b), c) == Over(ts, st, a + b + c)
  {
  }

  /** The cursor after a `let` form with bindings of `nb` tokens and a body
      of `nt` tokens. */
  lemma {:induction false} LetOver(ts: seq<Token>, st: PState, nb: nat, nt: nat)
    requires 0 < nb && 0 < nt && st.current + 4 + nb + nt <= |ts|
    ensures Over(ts, Over(ts, Over(ts, Over(ts, Over(ts, Over(ts, st, 1), 1), 1), nb), 1), nt)
      == Over(ts, st, 4 + nb + nt)
  {
  }

  /** The cursor after a binding whose expression has `n` tokens. */
  lemma {:induction false} BindingOver(ts: seq<Token>, st: PState, n: nat)
    requires 0 < n && st.current + n + 3 <= |ts|
    ensures Over(ts, Over(ts, Over(ts, st, 1), n), 1) == Over(ts, st, n + 2)
    ensures Over(ts, Over(ts, Over(ts, Over(ts, st, 1), n), 1), 1) == Over(ts, st, n + 3)
  {
  }

  // Where the pieces of a spelling lie in the token list

  /** The parentheses around a compound operand. */
  lemma {:induction false} GroupLayout(ts: seq<Token>, i: nat, e: AstNode)
    requires Printable(e) && !e.Int? && !e.Var? && SpelledAt(ts, i, Spell(e))
    ensures |Spell(e)| == 1 + |Inner(e)| + 1 && i + |Spell(e)| <= |ts|
    ensures ts[i].ttype == Lparen && ts[i + 1 + |Inner(e)|].ttype == Rparen
    ensures SpelledAt(ts, i + 1, Inner(e))
  {
    var open, inner, close := [Spelling(Lparen, "(")], Inner(e), [Spelling(Rparen, ")")];
    assert Spell(e) == open + inner + close;
    SpelledPrefix(ts, i, open + inner, close);
    SpelledSuffix(ts, i, open + inner, close);
    SpelledFirst(ts, i + |open + inner|, close);
    SpelledFirst(ts, i, open + inner);
    SpelledSuffix(ts, i, open, inner);
    assert i + |open| == i + 1 && i + |open + inner| == i + 1 + |inner|;
  }

  /** The operator and the two operands of an addition. */
  lemma {:induction false} AddLayout(ts: seq<Token>, i: nat, e: AstNode)
    requires Printable(e) && e.Prim? && e.op == "+" && SpelledAt(ts, i, Inner(e))
    ensures |e.args| == 2 && e == Prim("+", [e.args[0], e.args[1]])
    ensures |Inner(e)| == 1 + |Spell(e.args[0])| + |Spell(e.args[1])| && i + |Inner(e)| <= |ts|
    ensures ts[i].ttype == Add && ts[i].lexeme == "+"
    ensures SpelledAt(ts, i + 1, Spell(e.args[0]))
    ensures SpelledAt(ts, i + 1 + |Spell(e.args[0])|, Spell(e.args[1]))
  {
    var op, a, b := [Spelling(Add, "+")], Spell(e.args[0]), Spell(e.args[1]);
    assert Inner(e) == op + a + b;
    SpelledPrefix(ts, i, op + a, b);
    SpelledSuffix(ts, i, op + a, b);
    SpelledFirst(ts, i, op + a);
    SpelledSuffix(ts, i, op, a);
    assert i + |op| == i + 1 && i + |op + a| == i + 1 + |a|;
  }

  /** The operator and the operand of a negation. */
  lemma {:induction false} NegateLayout(ts: seq<Token>, i: nat, e: AstNode)
    requires Printable(e) && e.Prim? && e.op == "-" && SpelledAt(ts, i, Inner(e))
    ensures |e.args| == 1 && e == Prim("-", [e.args[0]])
    ensures |Inner(e)| == 1 + |Spell(e.args[0])| && i + |Inner(e)| <= |ts|
    ensures ts[i].ttype == Negate && ts[i].lexeme == "-"
    ensures SpelledAt(ts, i + 1, Spell(e.args[0]))
  {
    var op, a := [Spelling(Negate, "-")], Spell(e.args[0]);
    assert Inner(e) == op + a;
    SpelledFirst(ts, i, op + a);
    SpelledSuffix(ts, i, op, a);
    assert i + |op| == i + 1;
  }

  /** The keyword and the two delimiters that open a `let` form, and its
      bindings with the `)` after them. */
  lemma {:induction false} LetHeadLayout(ts: seq<Token>, i: nat, e: AstNode)
    requires Printable(e) && e.Let? && SpelledAt(ts, i, Inner(e))
    ensures i + 3 <= |ts|
    ensures ts[i].ttype == Identifier && ts[i].lexeme == "let"
    ensures ts[i + 1].ttype == Lparen && ts[i + 2].ttype == Lbracket
    ensures SpelledAt(ts, i + 3, BindingsSpell(e, 0) + [Spelling(Rparen, ")")])
  {
    var head := [Spelling(Identifier, "let"), Spelling(Lparen, "("), Spelling(Lbracket, "[")];
    var rest := BindingsSpell(e, 0) + [Spelling(Rparen, ")")];
    assert Inner(e) == head + rest + Spell(e.body);
    SpelledPrefix(ts, i, head + rest, Spell(e.body));
    SpelledSuffix(ts, i, head, rest);
    SpelledPrefix(ts, i, head, rest);
    SpelledThree(ts, i, head);
    assert i + |head| == i + 3;
  }

  /** The `)` that closes the bindings of a `let` form, and its body. */
  lemma {:induction false} LetTailLayout(ts: seq<Token>, i: nat, e: AstNode)
    requires Printable(e) && e.Let? && SpelledAt(ts, i, Inner(e))
    ensures |Inner(e)| == 4 + |BindingsSpell(e, 0)| + |Spell(e.body)| && i + |Inner(e)| <= |ts|
    ensures ts[i + 3 + |BindingsSpell(e, 0)|].ttype == Rparen
    ensures SpelledAt(ts, i + 4 + |BindingsSpell(e, 0)|, Spell(e.body))
  {
    var head := [Spelling(Identifier, "let"), Spelling(Lparen, "("), Spelling(Lbracket, "[")];
    var binds, close, tail := BindingsSpell(e, 0), [Spelling(Rparen, ")")], Spell(e.body);
    assert Inner(e) == head + (binds + close) + tail;
    SpelledSuffix(ts, i, head + (binds + close), tail);
    SpelledPrefix(ts, i, head + (binds + close), tail);
    SpelledSuffix(ts, i, head, binds + close);
    SpelledSuffix(ts, i + |head|, binds, close);
    SpelledFirst(ts, i + |head| + |binds|, close);
    assert i + |head + (binds + close)| == i + 4 + |binds| && i + |head| + |binds| == i + 3 + |binds|;
  }

  /** Where the pieces of the `k`-th binding `x e]` of a `let` form lie,
      and what follows it: `[` and the next binding, or the final `)`. */
  lemma {:induction false} BindingLayout(ts: seq<Token>, i: nat, e: AstNode, k: nat)
    requires e.Let? && Printable(e) && k < |e.bindings|
    requires SpelledAt(ts, i, BindingsSpell(e, k) + [Spelling(Rparen, ")")])
    ensures i + |Spell(e.bindings[k].expr)| + 3 <= |ts|
    ensures ts[i].lexeme == e.bindings[k].identifier
    ensures SpelledAt(ts, i + 1, Spell(e.bindings[k].expr))
    ensures ts[i + 2 + |Spell(e.bindings[k].expr)|].ttype == Lbracket <==> k + 1 < |e.bindings|
    ensures k + 1 < |e.bindings| ==>
      && |BindingsSpell(e, k)| == |Spell(e.bindings[k].expr)| + 3 + |BindingsSpell(e, k + 1)|
      && SpelledAt(ts, i + |Spell(e.bindings[k].expr)| + 3, BindingsSpell(e, k + 1) + [Spelling(Rparen, ")")])
    ensures k + 1 == |e.bindings| ==> |BindingsSpell(e, k)| == |Spell(e.bindings[k].expr)| + 2
  {
    var b := e.bindings[k];
    var name, value := [Spelling(Identifier, b.identifier)], Spell(b.expr);
    var rest := [Spelling(Rbracket, "]")]
      + (if k + 1 < |e.bindings| then [Spelling(Lbracket, "[")] + BindingsSpell(e, k + 1) else [])
      + [Spelling(Rparen, ")")];
    assert BindingsSpell(e, k) + [Spelling(Rparen, ")")] == name + value + rest;
    SpelledPrefix(ts, i, name + value, rest);
    SpelledSuffix(ts, i, name + value, rest);
    SpelledFirst(ts, i, name + value);
    SpelledSuffix(ts, i, name, value);
    assert i + |name| == i + 1 && i + |name + value| == i + 1 + |value|;
    BindingRestLayout(ts, i + 1 + |value|, e, k);
    assert i + 1 + |value| + 1 == i + 2 + |value| && i + 1 + |value| + 2 == i + |value| + 3;
  }

  /** What follows the bound expression of the `k`-th binding. */
  lemma {:induction false} BindingRestLayout(ts: seq<Token>, j: nat, e: AstNode, k: nat)
    requires e.Let? && Printable(e) && k < |e.bindings|
    requires SpelledAt(ts, j, [Spelling(Rbracket, "]")]
      + (if k + 1 < |e.bindings| then [Spelling(Lbracket, "[")] + BindingsSpell(e, k + 1) else [])
      + [Spelling(Rparen, ")")])
    ensures j + 2 <= |ts|
    ensures ts[j + 1].ttype == Lbracket <==> k + 1 < |e.bindings|
    ensures k + 1 < |e.bindings| ==> SpelledAt(ts, j + 2, BindingsSpell(e, k + 1) + [Spelling(Rparen, ")")])
  {
    var close, rparen := [Spelling(Rbracket, "]")], [Spelling(Rparen, ")")];
    if k + 1 < |e.bindings| {
      var open, next := [Spelling(Lbracket, "[")], BindingsSpell(e, k + 1);
      assert close + (open + next) + rparen == close + open + (next + rparen);
      SpelledSuffix(ts, j, close + open, next + rparen);
      SpelledPrefix(ts, j, close + open, next + rparen);
      SpelledSuffix(ts, j, close, open);
      SpelledFirst(ts, j + |close|, open);
      assert j + |close| == j + 1 && j + |close + open| == j + 2;
    } else {
      assert close + [] + rparen == close + rparen;
      SpelledSuffix(ts, j, close, rparen);
      SpelledFirst(ts, j + |close|, rparen);
      assert j + |close| == j + 1;
    }
  }

  lemma {:induction false} SliceCons(bs: seq<LetBinding>, k: nat)
    requires k < |bs|
    ensures bs[k..] == [bs[k]] + bs[k + 1..]
  {
  }

  // What the parsing functions make of well-placed tokens

  /** `parse_expr` on a `(`, an operand of `n` tokens that parses without
      an error node, and a `)`. */
  lemma {:induction false} GroupSteps(ts: seq<Token>, st: PState, e: AstNode, n: nat)
    requires Parsable(ts) && !e.Error? && 0 < n && st.current + n + 2 <= |ts|
    requires ts[st.current].ttype == Lparen && ts[st.current + 1 + n].ttype == Rparen
    requires ExprAt(ts, Over(ts, st, 1)) == (e, Over(ts, Over(ts, st, 1), n))
    ensures ExprAt(ts, st) == (e, Over(ts, st, n + 2))
  {
    StepIsOver(ts, st);
    StepIsOver(ts, Over(ts, Over(ts, st, 1), n));
    OverThree(ts, st, 1, n, 1);
  }

  /** `parse_expr` on a `+` token and two operands of `n1` and `n2` tokens. */
  lemma {:induction false} AddSteps(ts: seq<Token>, st: PState, a: AstNode, b: AstNode, n1: nat, n2: nat)
    requires Parsable(ts) && 0 < n1 && 0 < n2 && st.current + 1 + n1 + n2 <= |ts|
    requires ts[st.current].ttype == Add
    requires ExprAt(ts, Over(ts, st, 1)) == (a, Over(ts, Over(ts, st, 1), n1))
    requires ExprAt(ts, Over(ts, Over(ts, st, 1), n1))
      == (b, Over(ts, Over(ts, Over(ts, st, 1), n1), n2))
    ensures ExprAt(ts, st) == (Prim(ts[st.current].lexeme, [a, b]), Over(ts, st, 1 + n1 + n2))
  {
    StepIsOver(ts, st);
    OverThree(ts, st, 1, n1, n2);
  }

  /** `parse_expr` on a `-` token and an operand of `n` tokens. */
  lemma {:induction false} NegateSteps(ts: seq<Token>, st: PState, a: AstNode, n: nat)
    requires Parsable(ts) && 0 < n && st.current + 1 + n <= |ts|
    requires ts[st.current].ttype == Negate
    requires ExprAt(ts, Over(ts, st, 1)) == (a, Over(ts, Over(ts, st, 1), n))
    ensures ExprAt(ts, st) == (Prim(ts[st.current].lexeme, [a]), Over(ts, st, 1 + n))
  {
    StepIsOver(ts, st);
    OverOver(ts, st, 1, n);
  }

  /** `parse_expr` on the keyword `let` hands the rest to `LetAt`. */
  lemma {:induction false} KeywordSteps(ts: seq<Token>, st: PState)
    requires Parsable(ts) && st.current < |ts|
    requires ts[st.current].ttype == Identifier && ts[st.current].lexeme == "let"
    ensures ExprAt(ts, st) == LetAt(ts, Step(ts, st))
  {
  }

  /** `LetAt` when all three delimiters are where they belong. */
  lemma {:induction false} LetSteps(ts: seq<Token>, st0: PState, bs: seq<LetBinding>, st2: PState, body: AstNode, st3: PState)
    requires Parsable(ts)
    requires PeekAt(ts, st0, 0).ttype == Lparen && PeekAt(ts, Step(ts, st0), 0).ttype == Lbracket
    requires BindingsAt(ts, Step(ts, Step(ts, st0))) == (bs, st2) && PeekAt(ts, st2, 0).ttype == Rparen
    requires ExprAt(ts, Step(ts, st2)) == (body, st3)
    ensures LetAt(ts, st0) == (Let(bs, body), st3)
  {
  }

  /** `parse_expr` on `let ( [`, bindings that end on a `)`, and a body. */
  lemma {:induction false} LetFormSteps(ts: seq<Token>, st: PState, bs: seq<LetBinding>, body: AstNode, s4: PState, s6: PState)
    requires Parsable(ts) && st.current + 3 <= |ts|
    requires ts[st.current].ttype == Identifier && ts[st.current].lexeme == "let"
    requires ts[st.current + 1].ttype == Lparen && ts[st.current + 2].ttype == Lbracket
    requires BindingsAt(ts, Over(ts, Over(ts, Over(ts, st, 1), 1), 1)) == (bs, s4)
    requires s4.current < |ts| && ts[s4.current].ttype == Rparen
    requires ExprAt(ts, Over(ts, s4, 1)) == (body, s6)
    ensures ExprAt(ts, st) == (Let(bs, body), s6)
  {
    var s1 := Over(ts, st, 1);
    var s2 := Over(ts, s1, 1);
    StepIsOver(ts, st);
    StepIsOver(ts, s1);
    StepIsOver(ts, s2);
    StepIsOver(ts, s4);
    PeekIs(ts, s1, 0);
    PeekIs(ts, s2, 0);
    PeekIs(ts, s4, 0);
    LetSteps(ts, s1, bs, s4, body, s6);
    KeywordSteps(ts, st);
  }

  /** `parse_expr` on a `let` form whose bindings take `nb` tokens and
      whose body takes `nt`. */
  lemma {:induction false} LetForm(ts: seq<Token>, st: PState, bs: seq<LetBinding>, body: AstNode, nb: nat, nt: nat)
    requires Parsable(ts) && 0 < nb && 0 < nt && st.current + 4 + nb + nt <= |ts|
    requires ts[st.current].ttype == Identifier && ts[st.current].lexeme == "let"
    requires ts[st.current + 1].ttype == Lparen && ts[st.current + 2].ttype == Lbracket
    requires ts[st.current + 3 + nb].ttype == Rparen
    requires BindingsAt(ts, Over(ts, Over(ts, Over(ts, st, 1), 1), 1))
      == (bs, Over(ts, Over(ts, Over(ts, Over(ts, st, 1), 1), 1), nb))
    requires
      var s5 := Over(ts, Over(ts, Over(ts, Over(ts, Over(ts, st, 1), 1), 1), nb), 1);
      ExprAt(ts, s5) == (body, Over(ts, s5, nt))
    ensures ExprAt(ts, st) == (Let(bs, body), Over(ts, st, 4 + nb + nt))
  {
    var s4 := Over(ts, Over(ts, Over(ts, Over(ts, st, 1), 1), 1), nb);
    assert s4.current == st.current + 3 + nb;
    LetFormSteps(ts, st, bs, body, s4, Over(ts, Over(ts, s4, 1), nt));
    LetOver(ts, st, nb, nt);
  }

  /** `BindingAt` on a name followed by a bound expression of `n` tokens,
      its `]`, and either a `[` or not. */
  lemma {:induction false} BindingForm(ts: seq<Token>, st: PState, b: LetBinding, n: nat)
    requires Parsable(ts) && 0 < n && st.current + n + 3 <= |ts|
    requires ts[st.current].lexeme == b.identifier
    requires ExprAt(ts, Over(ts, st, 1)) == (b.expr, Over(ts, Over(ts, st, 1), n))
    ensures ts[st.current + n + 2].ttype == Lbracket ==> BindingAt(ts, st) == (b, true, Over(ts, st, n + 3))
    ensures ts[st.current + n + 2].ttype != Lbracket ==> BindingAt(ts, st) == (b, false, Over(ts, st, n + 2))
  {
    var s1 := Over(ts, Over(ts, st, 1), n);
    StepIsOver(ts, st);
    PeekIs(ts, st, 0);
    BindingSteps(ts, st, b, s1);
    PeekIs(ts, s1, 1);
    StepIsOver(ts, s1);
    StepIsOver(ts, Over(ts, s1, 1));
    BindingOver(ts, st, n);
  }

  /** `BindingAt` on a name and a bound expression that ends at `s1`; a
      `[` after the `]` there says that more bindings follow. */
  lemma {:induction false} BindingSteps(ts: seq<Token>, st: PState, b: LetBinding, s1: PState)
    requires Parsable(ts)
    requires PeekAt(ts, st, 0).lexeme == b.identifier
    requires ExprAt(ts, Step(ts, st)) == (b.expr, s1)
    ensures PeekAt(ts, s1, 1).ttype == Lbracket ==> BindingAt(ts, st) == (b, true, Step(ts, Step(ts, s1)))
    ensures PeekAt(ts, s1, 1).ttype != Lbracket ==> BindingAt(ts, st) == (b, false, Step(ts, s1))
  {
  }

  /** `BindingsAt` over a binding followed by `[` and more bindings. */
  lemma {:induction false} ConsSteps(ts: seq<Token>, st: PState, b: LetBinding, bs: seq<LetBinding>, n: nat, m: nat)
    requires Parsable(ts) && 0 < n && 0 < m && st.current + n + m <= |ts|
    requires BindingAt(ts, st) == (b, true, Over(ts, st, n))
    requires BindingsAt(ts, Over(ts, st, n)) == (bs, Over(ts, Over(ts, st, n), m))
    ensures BindingsAt(ts, st) == ([b] + bs, Over(ts, st, n + m))
  {
    OverOver(ts, st, n, m);
  }

  /** `BindingsAt` over a last binding. */
  lemma {:induction false} LastSteps(ts: seq<Token>, st: PState, b: LetBinding, s1: PState)
    requires Parsable(ts)
    requires BindingAt(ts, st) == (b, false, s1)
    ensures BindingsAt(ts, st) == ([b], s1)
  {
  }

  /** `parse_program` on `(`, an expression of `n` tokens with no error
      node, and `)`. */
  lemma {:induction false} ProgramSteps(ts: seq<Token>, st: PState, e: AstNode, n: nat)
    requires Parsable(ts) && !e.Error? && 0 < n && st.current + 1 + n < |ts|
    requires ts[st.current].ttype == Lparen && ts[st.current + 1 + n].ttype == Rparen
    requires ExprAt(ts, Over(ts, st, 1)) == (e, Over(ts, Over(ts, st, 1), n))
    ensures ProgramAt(ts, st) == (e, Over(ts, Over(ts, st, 1), n))
  {
    StepIsOver(ts, st);
  }

  // Parsing a printed tree

  /** An operand's spelling parses back to the operand, with no error,
      and the cursor just past it. */
  lemma {:induction false} ExprRoundTrip(ts: seq<Token>, st: PState, e: AstNode)
    requires Parsable(ts) && Printable(e) && SpelledAt(ts, st.current, Spell(e))
    ensures ExprAt(ts, st) == (e, Over(ts, st, |Spell(e)|))
    decreases e, 3
  {
    if e.Int? || e.Var? {
      assert Spell(e) == Inner(e);
      InnerRoundTrip(ts, st, e);
    } else {
      var i := st.current;
      GroupLayout(ts, i, e);
      var st1 := Over(ts, st, 1);
      assert st1.current == i + 1;
      InnerRoundTrip(ts, st1, e);
      GroupSteps(ts, st, e, |Inner(e)|);
    }
  }

  /** The spelling inside the parentheses parses back to the tree. */
  lemma {:induction false} InnerRoundTrip(ts: seq<Token>, st: PState, e: AstNode)
    requires Parsable(ts) && Printable(e) && SpelledAt(ts, st.current, Inner(e))
    ensures ExprAt(ts, st) == (e, Over(ts, st, |Inner(e)|))
    decreases e, 2
  {
    if e.Prim? && e.op == "+" {
      AddRoundTrip(ts, st, e);
    } else if e.Prim? && e.op == "-" {
      NegateRoundTrip(ts, st, e);
    } else if e.Let? {
      LetRoundTrip(ts, st, e);
    } else {
      AtomRoundTrip(ts, st, e);
    }
  }

  /** A number, a variable or `read`: one token. */
  lemma {:induction false} AtomRoundTrip(ts: seq<Token>, st: PState, e: AstNode)
    requires Parsable(ts) && Printable(e) && (e.Int? || e.Var? || (e.Prim? && e.op == "read"))
    requires SpelledAt(ts, st.current, Inner(e))
    ensures ExprAt(ts, st) == (e, Over(ts, st, |Inner(e)|))
  {
    SpelledFirst(ts, st.current, Inner(e));
    StepIsOver(ts, st);
    if e.Int? {
      DecimalValueOfNatToString(e.n);
    } else if e.Prim? {
      assert e.args == [];
    }
  }

  lemma {:induction false} AddRoundTrip(ts: seq<Token>, st: PState, e: AstNode)
    requires Parsable(ts) && Printable(e) && e.Prim? && e.op == "+"
    requires SpelledAt(ts, st.current, Inner(e))
    ensures ExprAt(ts, st) == (e, Over(ts, st, |Inner(e)|))
    decreases e, 1
  {
    var i := st.current;
    AddLayout(ts, i, e);
    var a, b := e.args[0], e.args[1];
    var st1 := Over(ts, st, 1);
    assert st1.current == i + 1;
    ExprRoundTrip(ts, st1, a);
    var st2 := Over(ts, st1, |Spell(a)|);
    assert st2.current == i + 1 + |Spell(a)|;
    ExprRoundTrip(ts, st2, b);
    AddSteps(ts, st, a, b, |Spell(a)|, |Spell(b)|);
  }

  lemma {:induction false} NegateRoundTrip(ts: seq<Token>, st: PState, e: AstNode)
    requires Parsable(ts) && Printable(e) && e.Prim? && e.op == "-"
    requires SpelledAt(ts, st.current, Inner(e))
    ensures ExprAt(ts, st) == (e, Over(ts, st, |Inner(e)|))
    decreases e, 1
  {
    var i := st.current;
    NegateLayout(ts, i, e);
    var st1 := Over(ts, st, 1);
    assert st1.current == i + 1;
    ExprRoundTrip(ts, st1, e.args[0]);
    NegateSteps(ts, st, e.args[0], |Spell(e.args[0])|);
  }

  /** A `let` form: its bindings and its body parse back, and the
      keyword and the delimiters around them take `parse_identifier` down
      the `let` path. */
  lemma {:induction false} LetRoundTrip(ts: seq<Token>, st: PState, e: AstNode)
    requires Parsable(ts) && Printable(e) && e.Let?
    requires SpelledAt(ts, st.current, Inner(e))
    ensures ExprAt(ts, st) == (e, Over(ts, st, |Inner(e)|))
    decreases e, 1
  {
    var nb, nt := |BindingsSpell(e, 0)|, |Spell(e.body)|;
    LetBindingsRoundTrip(ts, st, e);
    LetBodyRoundTrip(ts, st, e);
    LetForm(ts, st, e.bindings, e.body, nb, nt);
  }

  /** The bindings of a `let` form parse back to its bindings. */
  lemma {:induction false} LetBindingsRoundTrip(ts: seq<Token>, st: PState, e: AstNode)
    requires Parsable(ts) && Printable(e) && e.Let?
    requires SpelledAt(ts, st.current, Inner(e))
    ensures st.current + 4 + |BindingsSpell(e, 0)| <= |ts|
    ensures ts[st.current].ttype == Identifier && ts[st.current].lexeme == "let"
    ensures ts[st.current + 1].ttype == Lparen && ts[st.current + 2].ttype == Lbracket
    ensures BindingsAt(ts, Over(ts, Over(ts, Over(ts, st, 1), 1), 1))
      == (e.bindings, Over(ts, Over(ts, Over(ts, Over(ts, st, 1), 1), 1), |BindingsSpell(e, 0)|))
    decreases e, 0
  {
    var i := st.current;
    LetHeadLayout(ts, i, e);
    var s3 := Over(ts, Over(ts, Over(ts, st, 1), 1), 1);
    assert s3.current == i + 3;
    BindingsRoundTrip(ts, s3, e, 0);
    assert e.bindings[0..] == e.bindings;
  }

  /** The body of a `let` form parses back to its body. */
  lemma {:induction false} LetBodyRoundTrip(ts: seq<Token>, st: PState, e: AstNode)
    requires Parsable(ts) && Printable(e) && e.Let?
    requires SpelledAt(ts, st.current, Inner(e))
    ensures |Inner(e)| == 4 + |BindingsSpell(e, 0)| + |Spell(e.body)| && st.current + |Inner(e)| <= |ts|
    ensures ts[st.current + 3 + |BindingsSpell(e, 0)|].ttype == Rparen
    ensures
      var s5 := Over(ts, Over(ts, Over(ts, Over(ts, Over(ts, st, 1), 1), 1), |BindingsSpell(e, 0)|), 1);
      ExprAt(ts, s5) == (e.body, Over(ts, s5, |Spell(e.body)|))
    decreases e, 0
  {
    var i := st.current;
    LetTailLayout(ts, i, e);
    var s5 := Over(ts, Over(ts, Over(ts, Over(ts, Over(ts, st, 1), 1), 1), |BindingsSpell(e, 0)|), 1);
    assert s5.current == i + 4 + |BindingsSpell(e, 0)|;
    ExprRoundTrip(ts, s5, e.body);
  }

  /** One binding `x e]` followed by `[` (when more follow) or `)`. */
  lemma {:induction false} BindingRoundTrip(ts: seq<Token>, st: PState, e: AstNode, k: nat)
    requires Parsable(ts) && e.Let? && Printable(e) && k < |e.bindings|
    requires SpelledAt(ts, st.current, BindingsSpell(e, k) + [Spelling(Rparen, ")")])
    ensures st.current + |Spell(e.bindings[k].expr)| + 3 <= |ts|
    ensures k + 1 < |e.bindings| ==>
      BindingAt(ts, st) == (e.bindings[k], true, Over(ts, st, |Spell(e.bindings[k].expr)| + 3))
    ensures k + 1 == |e.bindings| ==>
      BindingAt(ts, st) == (e.bindings[k], false, Over(ts, st, |Spell(e.bindings[k].expr)| + 2))
    decreases e, 0, |e.bindings| - k, 0
  {
    var i := st.current;
    var b := e.bindings[k];
    var n := |Spell(b.expr)|;
    BindingLayout(ts, i, e, k);
    var st1 := Over(ts, st, 1);
    assert st1.current == i + 1;
    ExprRoundTrip(ts, st1, b.expr);
    BindingForm(ts, st, b, n);
  }

  /** The spelling of the bindings from the `k`-th on, followed by `)`,
      parses back to those bindings, leaving the cursor on the `)`. */
  lemma {:induction false} BindingsRoundTrip(ts: seq<Token>, st: PState, e: AstNode, k: nat)
    requires Parsable(ts) && e.Let? && Printable(e) && k < |e.bindings|
    requires SpelledAt(ts, st.current, BindingsSpell(e, k) + [Spelling(Rparen, ")")])
    ensures BindingsAt(ts, st) == (e.bindings[k..], Over(ts, st, |BindingsSpell(e, k)|))
    decreases e, 0, |e.bindings| - k, 3
  {
    if k + 1 < |e.bindings| {
      BindingsConsRoundTrip(ts, st, e, k);
    } else {
      BindingsLastRoundTrip(ts, st, e, k);
    }
  }

  /** A binding followed by more bindings parses back to the list. */
  lemma {:induction false} BindingsConsRoundTrip(ts: seq<Token>, st: PState, e: AstNode, k: nat)
    requires Parsable(ts) && e.Let? && Printable(e) && k + 1 < |e.bindings|
    requires SpelledAt(ts, st.current, BindingsSpell(e, k) + [Spelling(Rparen, ")")])
    ensures BindingsAt(ts, st) == (e.bindings[k..], Over(ts, st, |BindingsSpell(e, k)|))
    decreases e, 0, |e.bindings| - k, 2
  {
    var b := e.bindings[k];
    var n := |Spell(b.expr)|;
    BindingRoundTrip(ts, st, e, k);
    BindingsTailRoundTrip(ts, st, e, k);
    ConsSteps(ts, st, b, e.bindings[k + 1..], n + 3, |BindingsSpell(e, k + 1)|);
    SliceCons(e.bindings, k);
  }

  /** The last binding parses back to a one-element list. */
  lemma {:induction false} BindingsLastRoundTrip(ts: seq<Token>, st: PState, e: AstNode, k: nat)
    requires Parsable(ts) && e.Let? && Printable(e) && k + 1 == |e.bindings|
    requires SpelledAt(ts, st.current, BindingsSpell(e, k) + [Spelling(Rparen, ")")])
    ensures BindingsAt(ts, st) == (e.bindings[k..], Over(ts, st, |BindingsSpell(e, k)|))
    decreases e, 0, |e.bindings| - k, 2
  {
    var b := e.bindings[k];
    BindingRoundTrip(ts, st, e, k);
    BindingLastLength(ts, st.current, e, k);
    LastSteps(ts, st, b, Over(ts, st, |Spell(b.expr)| + 2));
    assert e.bindings[k..] == [b];
  }

  /** The bindings after the `k`-th parse back to themselves. */
  lemma {:induction false} BindingsTailRoundTrip(ts: seq<Token>, st: PState, e: AstNode, k: nat)
    requires Parsable(ts) && e.Let? && Printable(e) && k + 1 < |e.bindings|
    requires SpelledAt(ts, st.current, BindingsSpell(e, k) + [Spelling(Rparen, ")")])
    ensures |BindingsSpell(e, k)| == |Spell(e.bindings[k].expr)| + 3 + |BindingsSpell(e, k + 1)|
    ensures st.current + |BindingsSpell(e, k)| <= |ts|
    ensures
      var st1 := Over(ts, st, |Spell(e.bindings[k].expr)| + 3);
      BindingsAt(ts, st1) == (e.bindings[k + 1..], Over(ts, st1, |BindingsSpell(e, k + 1)|))
    decreases e, 0, |e.bindings| - k, 1
  {
    var i := st.current;
    var n := |Spell(e.bindings[k].expr)|;
    BindingLayout(ts, i, e, k);
    var st1 := Over(ts, st, n + 3);
    assert st1.current == i + n + 3;
    BindingsRoundTrip(ts, st1, e, k + 1);
  }

  /** The length of the spelling of the last binding. */
  lemma {:induction false} BindingLastLength(ts: seq<Token>, i: nat, e: AstNode, k: nat)
    requires e.Let? && Printable(e) && k + 1 == |e.bindings|
    requires SpelledAt(ts, i, BindingsSpell(e, k) + [Spelling(Rparen, ")")])
    ensures |BindingsSpell(e, k)| == |Spell(e.bindings[k].expr)| + 2
  {
    BindingLayout(ts, i, e, k);
  }

  /** A printed program parses back to its expression with no error; the
      cursor rests on the closing `)`. */
  lemma {:induction false} ProgramRoundTrip(ts: seq<Token>, st: PState, e: AstNode)
    requires Parsable(ts) && Printable(e) && SpelledAt(ts, st.current, ProgramSpell(e))
    ensures ProgramAt(ts, st) == (e, Over(ts, st, 1 + |Inner(e)|))
  {
    var i := st.current;
    var open, inner, close := [Spelling(Lparen, "(")], Inner(e), [Spelling(Rparen, ")")];
    SpelledPrefix(ts, i, open + inner, close);
    SpelledSuffix(ts, i, open + inner, close);
    SpelledFirst(ts, i + |open + inner|, close);
    SpelledFirst(ts, i, open + inner);
    SpelledSuffix(ts, i, open, inner);
    assert i + |open| == i + 1 && i + |open + inner| == i + 1 + |inner|;
    var st1 := Over(ts, st, 1);
    assert st1.current == i + 1;
    InnerRoundTrip(ts, st1, e);
    ProgramSteps(ts, st, e, |inner|);
    OverOver(ts, st, 1, |inner|);
  }

  /** The tokens the lexer makes of `(+ 2 (-1))`. */
  const AddWithNegateTokens: seq<Token> := [
    Token(Lparen, "(", 1, 1), Token(Add, "+", 1, 2), Token(Number, "2", 1, 4),
    Token(Lparen, "(", 1, 6), Token(Negate, "-", 1, 7), Token(Number, "1", 1, 8),
    Token(Rparen, ")", 1, 9), Token(Rparen, ")", 1, 10)]

  /** The tree of `(+ 2 (-1))`. */
  const AddWithNegateTree: AstNode := Prim("+", [Int(2), Prim("-", [Int(1)])])

  /** The tokens of `(+ 2 (-1))` spell that tree. */
  lemma AddWithNegateSpelled()
    ensures Printable(AddWithNegateTree)
    ensures SpelledAt(AddWithNegateTokens, 0, ProgramSpell(AddWithNegateTree))
  {
    var e := AddWithNegateTree;
    assert NatToString(2) == "2" && NatToString(1) == "1";
    assert Spell(e.args[1]) == [
      Spelling(Lparen, "("), Spelling(Negate, "-"), Spelling(Number, "1"), Spelling(Rparen, ")")];
    assert ProgramSpell(e) == [
      Spelling(Lparen, "("), Spelling(Add, "+"), Spelling(Number, "2"),
      Spelling(Lparen, "("), Spelling(Negate, "-"), Spelling(Number, "1"),
      Spelling(Rparen, ")"), Spelling(Rparen, ")")];
  }

  /** `(+ 2 (-1))` parses to `2` plus the negation of `1`. */
  lemma ParseAddWithNegate()
    ensures Parsable(AddWithNegateTokens)
    ensures ProgramAt(AddWithNegateTokens, Start).0 == Prim("+", [Int(2), Prim("-", [Int(1)])])
    ensures ProgramAt(AddWithNegateTokens, Start).1.success
  {
    AddWithNegateSpelled();
    ProgramRoundTrip(AddWithNegateTokens, Start, AddWithNegateTree);
  }

  /** The tokens the lexer makes of `(let ([x 10]) x)`. */
  const LetTokens: seq<Token> := [
    Token(Lparen, "(", 1, 1), Token(Identifier, "let", 1, 2), Token(Lparen, "(", 1, 6),
    Token(Lbracket, "[", 1, 7), Token(Identifier, "x", 1, 8), Token(Number, "10", 1, 10),
    Token(Rbracket, "]", 1, 12), Token(Rparen, ")", 1, 13), Token(Identifier, "x", 1, 15),
    Token(Rparen, ")", 1, 16)]

  /** The tree of `(let ([x 10]) x)`. */
  const LetTree: AstNode := Let([LetBinding("x", Int(10))], Var("x"))

  /** The bindings of that tree spell `x 10]`. */
  lemma LetTreeBindingsSpelled()
    ensures Printable(LetTree)
    ensures BindingsSpell(LetTree, 0) == [Spelling(Identifier, "x"), Spelling(Number, "10"), Spelling(Rbracket, "]")]
  {
    assert NatToString(10) == NatToString(1) + [DigitChar(0)];
    assert NatToString(10) == "10";
    assert Spell(Int(10)) == [Spelling(Number, "10")];
  }

  /** The tokens of `(let ([x 10]) x)` spell that tree. */
  lemma LetSpelled()
    ensures Printable(LetTree)
    ensures SpelledAt(LetTokens, 0, ProgramSpell(LetTree))
  {
    LetTreeBindingsSpelled();
    assert ProgramSpell(LetTree) == [
      Spelling(Lparen, "("), Spelling(Identifier, "let"), Spelling(Lparen, "("),
      Spelling(Lbracket, "["), Spelling(Identifier, "x"), Spelling(Number, "10"),
      Spelling(Rbracket, "]"), Spelling(Rparen, ")"), Spelling(Identifier, "x"),
      Spelling(Rparen, ")")];
  }

  /** `(let ([x 10]) x)` parses to a `let` binding `x` to 10 with body `x`. */
  lemma ParseLetExample()
    ensures Parsable(LetTokens)
    ensures ProgramAt(LetTokens, Start).0 == Let([LetBinding("x", Int(10))], Var("x"))
    ensures ProgramAt(LetTokens, Start).1.success
  {
    LetSpelled();
    ProgramRoundTrip(LetTokens, Start, LetTree);
  }

  /** Tokens the lexer produces meet the parser's demands on lexemes, so
      they are parsable as soon as there is one and the last one does not
      open a sub-expression. */
  lemma {:induction false} LexedTokensParsable(src: seq<char>)
    ensures var ts := Lexer.LexFrom(src, Lexer.Cursor(0, 1, 1));
      && OperatorLexemes(ts)
      && (|ts| > 0 && ts[|ts| - 1].ttype !in {Lparen, Add, Negate} ==> Parsable(ts))
  {
    var ts := Lexer.LexFrom(src, Lexer.Cursor(0, 1, 1));
    Lexer.LexedTokensFit(src, Lexer.Cursor(0, 1, 1));
    assert forall i | 0 <= i < |ts| :: Lexer.LexemeFits(ts[i]) && ts[i].ttype != Lbracket;
  }
}
