/** The character-level lexer: a cursor over the source text that turns
    it into tokens carrying their lexeme, line and column. */
module Lexer {
  import opened Ast

  predicate IsAlpha(c: char) {
    ('a' <= c <= 'z') || ('A' <= c <= 'Z')
  }

  predicate IsDigit(c: char) {
    '0' <= c <= '9'
  }

  predicate IsIdStart(c: char) {
    IsAlpha(c)
  }

  predicate IsId(c: char) {
    IsIdStart(c) || IsDigit(c) || c == '-'
  }

  /** The characters `skip_whitespace` steps over. */
  predicate IsSkipped(c: char) {
    c == '\n' || c == ' ' || c == '\r' || c == '\t'
  }

  /** Where the lexer stands: an index into the source and the line and
      column reported for the character there. */
  datatype Cursor = Cursor(position: nat, line: int, column: int)

  function Min(a: nat, b: nat): nat {
    if a <= b then a else b
  }

  /** The character under the cursor, or NUL past the end. */
  function PeekAt(src: seq<char>, pos: nat): char {
    if pos >= |src| then '\0' else src[pos]
  }

  /** One step forward; nothing moves at the end of the source. */
  function Advanced(src: seq<char>, c: Cursor): Cursor {
    if c.position >= |src| then c
    else c.(position := c.position + 1, column := c.column + 1)
  }

  /** `n` steps forward, stopping at the end of the source. */
  function AdvancedBy(src: seq<char>, c: Cursor, n: nat): Cursor
    requires c.position <= |src|
  {
    var p := Min(c.position + n, |src|);
    c.(position := p, column := c.column + (p - c.position))
  }

  /** The end of the longest run of characters satisfying `p` that starts
      at `pos`. */
  function ScanEnd(src: seq<char>, pos: nat, p: char -> bool): (e: nat)
    requires pos <= |src|
    ensures pos <= e <= |src|
    ensures forall i | pos <= i < e :: p(src[i])
    ensures e == |src| || !p(src[e])
    decreases |src| - pos
  {
    if pos < |src| && p(src[pos]) then ScanEnd(src, pos + 1, p) else pos
  }

  /** The cursor after `skip_whitespace`: a newline adds one to the line
      and sets the column to 1 before the step over it. */
  function SkipWs(src: seq<char>, c: Cursor): (r: Cursor)
    requires c.position <= |src|
    ensures c.position <= r.position <= |src|
    ensures !IsSkipped(PeekAt(src, r.position))
    ensures forall i | c.position <= i < r.position :: IsSkipped(src[i])
    decreases |src| - c.position
  {
    var ch := PeekAt(src, c.position);
    if ch == '\n' then SkipWs(src, Advanced(src, c.(line := c.line + 1, column := 1)))
    else if ch == ' ' || ch == '\r' || ch == '\t' then SkipWs(src, Advanced(src, c))
    else c
  }

  /** `make_token`: a token of `len` characters (cut at the end of the
      source) at the cursor, which then moves past it. */
  function MakeTok(src: seq<char>, c: Cursor, t: TokenType, len: nat): (Token, Cursor)
    requires c.position <= |src|
  {
    var stop := Min(c.position + len, |src|);
    (Token(t, src[c.position..stop], c.line, c.column), AdvancedBy(src, c, len))
  }

  /** A token made of the first character and the run after it that
      satisfies `p` (`number` and `identifier`). */
  function RunTok(src: seq<char>, c: Cursor, t: TokenType, p: char -> bool): (Token, Cursor)
    requires c.position < |src|
  {
    var e := ScanEnd(src, c.position + 1, p);
    (Token(t, src[c.position..e], c.line, c.column),
     c.(position := e, column := c.column + (e - c.position)))
  }

  /** `next_token`: skip whitespace, then dispatch on the next character. */
  function NextTok(src: seq<char>, c: Cursor): (r: (Token, Cursor))
    requires c.position <= |src|
    ensures r.1.position <= |src|
    ensures r.0.ttype != EndOfFile ==> c.position < r.1.position
  {
    var c1 := SkipWs(src, c);
    var ch := PeekAt(src, c1.position);
    if ch == '+' then MakeTok(src, c1, Add, 1)
    else if ch == '-' then MakeTok(src, c1, Negate, 1)
    else if ch == '(' then MakeTok(src, c1, Lparen, 1)
    else if ch == ')' then MakeTok(src, c1, Rparen, 1)
    else if IsDigit(ch) then RunTok(src, c1, Number, IsDigit)
    else if ch == '\0' then MakeTok(src, c1, EndOfFile, 1)
    else if IsIdStart(ch) then RunTok(src, c1, Identifier, IsId)
    else MakeTok(src, c1, TokenType.Error, 1)
  }

  /** `lex`: the tokens up to, and without, the first end-of-file token.
      Every token takes at least one character, so there are never more
      tokens than characters left. */
  function LexFrom(src: seq<char>, c: Cursor): (r: seq<Token>)
    requires c.position <= |src|
    ensures |r| <= |src| - c.position
    ensures forall k | 0 <= k < |r| :: r[k].ttype != EndOfFile
    decreases |src| - c.position
  {
    var (t, c') := NextTok(src, c);
    if t.ttype == EndOfFile then [] else [t] + LexFrom(src, c')
  }

  /** What the lexeme of each kind of token looks like. */
  predicate LexemeFits(t: Token) {
    match t.ttype
    case Number => |t.lexeme| > 0 && forall i | 0 <= i < |t.lexeme| :: IsDigit(t.lexeme[i])
    case Identifier =>
      |t.lexeme| > 0 && IsIdStart(t.lexeme[0]) && forall i | 0 <= i < |t.lexeme| :: IsId(t.lexeme[i])
    case Add => t.lexeme == "+"
    case Negate => t.lexeme == "-"
    case Lparen => t.lexeme == "("
    case Rparen => t.lexeme == ")"
    case Error => |t.lexeme| == 1 && !IsDigit(t.lexeme[0]) && !IsIdStart(t.lexeme[0])
    case _ => false
  }

  class Lexer {
    const sourceCode: seq<char>
    const end: nat
    var position: nat
    var line: int
    var column: int

    ghost predicate Valid()
      reads this
    {
      end == |sourceCode| && position <= end
    }

    /** The lexer's position, line and column as one value. */
    function At(): Cursor
      reads this
    {
      Cursor(position, line, column)
    }

    constructor (source: seq<char>)
      ensures Valid() && sourceCode == source
      ensures At() == Cursor(0, 1, 1)
    {
      sourceCode := source;
      end := |source|;
      position := 0;
      line := 1;
      column := 1;
    }

    function IsAtEnd(): (b: bool)
      reads this
      ensures b <==> position >= end
    {
      position >= end
    }

    function Peek(): (c: char)
      reads this
      requires Valid()
      ensures IsAtEnd() ==> c == '\0'
      ensures !IsAtEnd() ==> c == sourceCode[position]
    {
      if IsAtEnd() then '\0' else sourceCode[position]
    }

    function PeekNext(): (c: char)
      reads this
      requires Valid()
      ensures position + 1 >= end ==> c == '\0'
      ensures position + 1 < end ==> c == sourceCode[position + 1]
    {
      if position + 1 >= end then '\0' else sourceCode[position + 1]
    }

    /** Steps over one character and returns the character now under the
        cursor; at the end nothing changes and NUL is returned. */
    method Advance() returns (c: char)
      requires Valid()
      modifies this
      ensures Valid()
      ensures old(IsAtEnd()) ==> At() == old(At()) && c == '\0'
      ensures !old(IsAtEnd()) ==>
        position == old(position) + 1 && column == old(column) + 1 && line == old(line)
      ensures At() == Advanced(sourceCode, old(At()))
      ensures c == PeekAt(sourceCode, position)
    {
      if !IsAtEnd() {
        position := position + 1;
        column := column + 1;
        c := Peek();
      } else {
        c := '\0';
      }
    }

    method AdvanceN(n: nat)
      requires Valid()
      modifies this
      ensures Valid()
      ensures At() == AdvancedBy(sourceCode, old(At()), n)
    {
      ghost var start := At();
      for k := 0 to n
        invariant Valid()
        invariant At() == AdvancedBy(sourceCode, start, k)
      {
        var _ := Advance();
      }
    }

    method MakeToken(t: TokenType, len: nat) returns (token: Token)
      requires Valid()
      modifies this
      ensures Valid()
      ensures (token, At()) == MakeTok(sourceCode, old(At()), t, len)
    {
      var startPos := position;
      var endPos := if position + len >= end then end else position + len;
      token := Token(t, sourceCode[startPos..endPos], line, column);
      AdvanceN(len);
    }

    method SkipWhitespace()
      requires Valid()
      modifies this
      ensures Valid()
      ensures At() == SkipWs(sourceCode, old(At()))
    {
      ghost var start := At();
      var c := Peek();
      while true
        invariant Valid()
        invariant c == PeekAt(sourceCode, position)
        invariant SkipWs(sourceCode, At()) == SkipWs(sourceCode, start)
        decreases end - position
      {
        if c == '\n' {
          line := line + 1;
          column := 1;
        } else if c == ' ' || c == '\r' || c == '\t' {
        } else {
          break;
        }
        c := Advance();
      }
    }

    /** Scans a number whose first digit is under the cursor. */
    method Number() returns (token: Token)
      requires Valid() && !IsAtEnd()
      modifies this
      ensures Valid()
      ensures (token, At()) == RunTok(sourceCode, old(At()), TokenType.Number, IsDigit)
    {
      var start := position;
      var col := column;
      var ln := line;
      var c := Advance();
      while IsDigit(c)
        invariant Valid() && start < position
        invariant line == ln && column == col + (position - start)
        invariant c == PeekAt(sourceCode, position)
        invariant ScanEnd(sourceCode, position, IsDigit) == ScanEnd(sourceCode, start + 1, IsDigit)
        decreases end - position
      {
        c := Advance();
      }
      token := Token(TokenType.Number, sourceCode[start..position], ln, col);
    }

    /** Scans an identifier whose first letter is under the cursor. */
    method Identifier() returns (token: Token)
      requires Valid() && !IsAtEnd()
      modifies this
      ensures Valid()
      ensures (token, At()) == RunTok(sourceCode, old(At()), TokenType.Identifier, IsId)
    {
      var start := position;
      var col := column;
      var ln := line;
      var c := Advance();
      while IsId(c)
        invariant Valid() && start < position
        invariant line == ln && column == col + (position - start)
        invariant c == PeekAt(sourceCode, position)
        invariant ScanEnd(sourceCode, position, IsId) == ScanEnd(sourceCode, start + 1, IsId)
        decreases end - position
      {
        c := Advance();
      }
      token := Token(TokenType.Identifier, sourceCode[start..position], ln, col);
    }

    method NextToken() returns (token: Token)
      requires Valid()
      modifies this
      ensures Valid()
      ensures (token, At()) == NextTok(sourceCode, old(At()))
    {
      SkipWhitespace();
      var c := Peek();
      if c == '+' {
        token := MakeToken(Add, 1);
      } else if c == '-' {
        token := MakeToken(Negate, 1);
      } else if c == '(' {
        token := MakeToken(Lparen, 1);
      } else if c == ')' {
        token := MakeToken(Rparen, 1);
      } else if '0' <= c <= '9' {
        token := Number();
      } else if c == '\0' {
        token := MakeToken(EndOfFile, 1);
      } else if IsIdStart(c) {
        token := Identifier();
      } else {
        token := MakeToken(TokenType.Error, 1);
      }
    }

    /** Collects tokens until the end-of-file token, which is dropped. */
    method Lex() returns (tokens: seq<Token>)
      requires Valid()
      modifies this
      ensures Valid()
      ensures tokens == LexFrom(sourceCode, old(At()))
      ensures forall i | 0 <= i < |tokens| :: tokens[i].ttype != EndOfFile && LexemeFits(tokens[i])
    {
      ghost var start := At();
      ghost var before := At();
      var t := NextToken();
      tokens := [];
      while t.ttype != EndOfFile
        invariant Valid() && before.position <= |sourceCode|
        invariant (t, At()) == NextTok(sourceCode, before)
        invariant tokens + LexFrom(sourceCode, before) == LexFrom(sourceCode, start)
        decreases end - before.position
      {
        tokens := tokens + [t];
        before := At();
        t := NextToken();
      }
      LexedTokensFit(sourceCode, start);
    }
  }

  // -----------------------------------------------------------------------
  // Properties of the lexer

  /** Every token `next_token` makes has a lexeme of its kind. */
  lemma NextTokFits(src: seq<char>, c: Cursor)
    requires c.position <= |src|
    requires NextTok(src, c).0.ttype != EndOfFile
    ensures LexemeFits(NextTok(src, c).0)
  {
    var c1 := SkipWs(src, c);
    var ch := PeekAt(src, c1.position);
    if IsDigit(ch) || IsIdStart(ch) {
      var p := if IsDigit(ch) then IsDigit else IsId;
      var e := ScanEnd(src, c1.position + 1, p);
      var lexeme := src[c1.position..e];
      assert lexeme[0] == ch;
      forall i | 1 <= i < |lexeme| ensures p(lexeme[i]) {
        assert lexeme[i] == src[c1.position + i];
      }
    }
  }

  /** `lex` never returns the end-of-file token, and every token it
      returns has a lexeme of its kind: numbers are non-empty digit runs,
      identifiers start with a letter and go on over letters, digits and
      '-', and `+ - ( )` and unknown characters give one-character tokens. */
  lemma {:induction false} LexedTokensFit(src: seq<char>, c: Cursor)
    requires c.position <= |src|
    ensures forall t | t in LexFrom(src, c) :: t.ttype != EndOfFile && LexemeFits(t)
    decreases |src| - c.position
  {
    var (t, c') := NextTok(src, c);
    if t.ttype != EndOfFile {
      NextTokFits(src, c);
      LexedTokensFit(src, c');
    }
  }

  /** A number token's lexeme is the longest run of digits at the token's
      start, and the token carries the line and column of its first digit. */
  lemma NumberIsMaximalDigitRun(src: seq<char>, c: Cursor)
    requires c.position <= |src|
    requires NextTok(src, c).0.ttype == Number
    ensures var c1 := SkipWs(src, c);
            var t := NextTok(src, c).0;
            && c1.position < |src|
            && t.lexeme == src[c1.position..c1.position + |t.lexeme|]
            && (forall i | c1.position <= i < c1.position + |t.lexeme| :: IsDigit(src[i]))
            && (c1.position + |t.lexeme| == |src| || !IsDigit(src[c1.position + |t.lexeme|]))
            && t.line == c1.line && t.col == c1.column
  {
  }

  /** A character that is not whitespace, a digit, a letter, NUL or one of
      `+ - ( )` lexes as a one-character `Error` token. */
  lemma UnknownCharacterIsError(src: seq<char>, c: Cursor)
    requires c.position < |src|
    requires var ch := src[c.position];
      !IsSkipped(ch) && !IsDigit(ch) && !IsIdStart(ch) && ch != '\0'
      && ch != '+' && ch != '-' && ch != '(' && ch != ')'
    ensures NextTok(src, c).0 == Token(TokenType.Error, [src[c.position]], c.line, c.column)
    ensures NextTok(src, c).1 == Cursor(c.position + 1, c.line, c.column + 1)
  {
  }

  /** The newline rule as written: a newline adds one to the line and
      sets the column to 1, and the step over the newline then adds one,
      so the first token of a later line reports column 2. */
  lemma NewlineThenToken(src: seq<char>, c: Cursor)
    requires c.position + 1 < |src|
    requires src[c.position] == '\n' && !IsSkipped(src[c.position + 1])
    ensures SkipWs(src, c) == Cursor(c.position + 1, c.line + 1, 2)
  {
  }

  /** `+`, `-`, `(` and `)` each lex as a one-character token at the
      cursor, and the cursor moves one column on. */
  lemma PunctuationToken(src: seq<char>, c: Cursor)
    requires c.position < |src|
    requires src[c.position] == '+' || src[c.position] == '-' || src[c.position] == '(' || src[c.position] == ')'
    ensures var ch := src[c.position];
      var tt := if ch == '+' then Add else if ch == '-' then Negate
                else if ch == '(' then Lparen else Rparen;
      NextTok(src, c) == (Token(tt, [ch], c.line, c.column), Cursor(c.position + 1, c.line, c.column + 1))
  {
    assert SkipWs(src, c) == c;
    assert src[c.position..c.position + 1] == [src[c.position]];
    assert AdvancedBy(src, c, 1) == Cursor(c.position + 1, c.line, c.column + 1);
  }

  /** The token stream of `(+ 2 2)`: columns 1, 2, 4, 6 and 7 on line 1. */
  lemma LexAddTwoTwo()
    ensures LexFrom("(+ 2 2)", Cursor(0, 1, 1)) ==
      [Token(Lparen, "(", 1, 1), Token(Add, "+", 1, 2), Token(Number, "2", 1, 4),
       Token(Number, "2", 1, 6), Token(Rparen, ")", 1, 7)]
  {
    var src := "(+ 2 2)";
    LexAddTwoTwoOf(src);
  }

  /** `LexAddTwoTwo` for any text spelled `(+ 2 2)`. */
  lemma LexAddTwoTwoOf(src: seq<char>)
    requires |src| == 7 && src[0] == '(' && src[1] == '+' && src[2] == ' ' && src[3] == '2'
    requires src[4] == ' ' && src[5] == '2' && src[6] == ')'
    ensures LexFrom(src, Cursor(0, 1, 1)) ==
      [Token(Lparen, "(", 1, 1), Token(Add, "+", 1, 2), Token(Number, "2", 1, 4),
       Token(Number, "2", 1, 6), Token(Rparen, ")", 1, 7)]
  {
    PunctuationToken(src, Cursor(0, 1, 1));
    PunctuationToken(src, Cursor(1, 1, 2));
    LexDigitAfterSpace(src, Cursor(2, 1, 3));
    LexDigitAfterSpace(src, Cursor(4, 1, 5));
    PunctuationToken(src, Cursor(6, 1, 7));
    assert SkipWs(src, Cursor(7, 1, 8)) == Cursor(7, 1, 8);
    LexStep(src, Cursor(6, 1, 7));
    LexStep(src, Cursor(4, 1, 5));
    LexStep(src, Cursor(2, 1, 3));
    LexStep(src, Cursor(1, 1, 2));
    LexStep(src, Cursor(0, 1, 1));
  }

  /** One token that is not end-of-file, then the rest of the stream. */
  lemma LexStep(src: seq<char>, c: Cursor)
    requires c.position <= |src| && NextTok(src, c).0.ttype != EndOfFile
    ensures LexFrom(src, c) == [NextTok(src, c).0] + LexFrom(src, NextTok(src, c).1)
  {
  }

  /** Step of `LexAddTwoTwo`: a space, then one digit not followed by
      another digit. */
  lemma LexDigitAfterSpace(src: seq<char>, c: Cursor)
    requires c.position + 2 < |src|
    requires src[c.position] == ' ' && IsDigit(src[c.position + 1]) && !IsDigit(src[c.position + 2])
    ensures NextTok(src, c) ==
      (Token(Number, [src[c.position + 1]], c.line, c.column + 1), Cursor(c.position + 2, c.line, c.column + 2))
  {
    assert SkipWs(src, Cursor(c.position + 1, c.line, c.column + 1)) == Cursor(c.position + 1, c.line, c.column + 1);
    assert SkipWs(src, c) == Cursor(c.position + 1, c.line, c.column + 1);
    assert ScanEnd(src, c.position + 2, IsDigit) == c.position + 2;
    assert src[c.position + 1..c.position + 2] == [src[c.position + 1]];
  }
}
