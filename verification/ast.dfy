/** Shared syntax of the integer language: tokens, the abstract syntax tree,
    programs as maps from function names to bodies, and the decimal
    rendering of integers used for generated names and assembly text. */
module Ast {

  datatype Option<T> = None | Some(value: T)

  /** The kinds of token the parser distinguishes.  `Lbracket` and
      `Rbracket` are used by the parser for `let` binding lists; the lexer
      modelled in module Lexer never produces them. */
  datatype TokenType =
    | Number | Add | Negate | Identifier | EndOfFile
    | Lparen | Rparen | Lbracket | Rbracket | Error

  datatype Token = Token(ttype: TokenType, lexeme: string, line: int, col: int)

  /** The placeholder token a fresh parser holds as its `previous` token. */
  const NoToken: Token := Token(TokenType.Error, "", -1, -1)

  datatype AstNode =
    | Int(n: int)
    | Prim(op: string, args: seq<AstNode>)
    | Let(bindings: seq<LetBinding>, body: AstNode)
    | Var(name: string)
    | Error(msg: string, token: Token)

  datatype LetBinding = LetBinding(identifier: string, expr: AstNode)

  /** A program of the compiler passes: function name to function body. */
  type Program = map<string, AstNode>

  predicate IsAtom(e: AstNode) {
    e.Int? || e.Var?
  }

  /** The shape the parser gives to primitives: `+` with two operands,
      `-` with one, `read` with none; every `let` binds at least one name. */
  predicate WellFormed(e: AstNode) {
    match e
    case Int(_) => true
    case Var(_) => true
    case Error(_, _) => true
    case Prim(op, args) =>
      ((op == "+" && |args| == 2) || (op == "-" && |args| == 1) || (op == "read" && |args| == 0))
      && WellFormedArgs(args)
    case Let(bs, body) => |bs| > 0 && WellFormedBindings(bs) && WellFormed(body)
  }

  predicate WellFormedArgs(args: seq<AstNode>) {
    forall i | 0 <= i < |args| :: WellFormed(args[i])
  }

  predicate WellFormedBindings(bs: seq<LetBinding>) {
    forall i | 0 <= i < |bs| :: WellFormed(bs[i].expr)
  }

  /** True when an `Error` node occurs anywhere in the tree. */
  predicate ContainsError(e: AstNode) {
    match e
    case Int(_) => false
    case Var(_) => false
    case Error(_, _) => true
    case Prim(_, args) => exists i | 0 <= i < |args| :: ContainsError(args[i])
    case Let(bs, body) => (exists i | 0 <= i < |bs| :: ContainsError(bs[i].expr)) || ContainsError(body)
  }

  // ---------------------------------------------------------------------
  // Decimal rendering (Rust's `to_string` on integers)

  function DigitChar(d: nat): (c: char)
    requires d < 10
    ensures '0' <= c <= '9'
  {
    ('0' as int + d) as char
  }

  /** Decimal digits of `n`, most significant first, no leading zeros. */
  function NatToString(n: nat): (s: string)
    ensures |s| > 0
    ensures forall i | 0 <= i < |s| :: '0' <= s[i] <= '9'
  {
    if n < 10 then [DigitChar(n)] else NatToString(n / 10) + [DigitChar(n % 10)]
  }

  /** Decimal rendering of a signed integer: a leading '-' for negatives. */
  function IntToString(i: int): (s: string)
    ensures |s| > 0
    ensures (s[0] == '-') <==> i < 0
  {
    if i < 0 then "-" + NatToString(-i) else NatToString(i)
  }

  /** Distinct numbers have distinct decimal renderings. */
  lemma NatToStringInjective(n: nat, m: nat)
    requires NatToString(n) == NatToString(m)
    ensures n == m
  {
    DecimalValueOfNatToString(n);
    DecimalValueOfNatToString(m);
  }

  /** Value of a non-empty string of decimal digits (Rust's `parse::<i64>`
      on such a string, without the 64-bit range check). */
  function DecimalValue(s: string): (v: nat)
    requires |s| > 0 && forall i | 0 <= i < |s| :: '0' <= s[i] <= '9'
  {
    if |s| == 1 then (s[0] as int - '0' as int)
    else 10 * DecimalValue(s[..|s| - 1]) + (s[|s| - 1] as int - '0' as int)
  }

  /** Parsing the rendering of a number gives the number back. */
  lemma {:induction false} DecimalValueOfNatToString(n: nat)
    ensures DecimalValue(NatToString(n)) == n
  {
    if n >= 10 {
      var s := NatToString(n);
      assert s[..|s| - 1] == NatToString(n / 10);
      DecimalValueOfNatToString(n / 10);
    }
  }
}
