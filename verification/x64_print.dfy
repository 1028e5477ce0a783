/** The NASM text printer of the x64 back end (src/backend/x64_print.rs).
    Registers, operands and instructions print by pure matches; `print`
    builds the whole listing by appending to a string in loops over the
    externals, the blocks and their instructions.  The order in which the
    printer walks its hash set of externals and hash map of blocks is
    given to it as a parameter. */
module X64Print {
  import opened Ast
  import opened X64

  /** What the printer reads of its program: the runtime functions the
      code calls, the homes of the variables, and the blocks by label. */
  datatype Listing = Listing(external: set<string>, vars: seq<Home>, blocks: map<string, seq<Instr>>)

  // ---------------------------------------------------------------------
  // Registers

  /** `reg_to_string`: the lower-case NASM name of a register. */
  function RegName(r: Reg): (s: string)
    ensures 2 <= |s| <= 3 && s[0] == 'r'
  {
    match r
    case Rsp => "rsp"
    case Rbp => "rbp"
    case Rax => "rax"
    case Rbx => "rbx"
    case Rcx => "rcx"
    case Rdx => "rdx"
    case Rsi => "rsi"
    case Rdi => "rdi"
    case R8 => "r8"
    case R9 => "r9"
    case R10 => "r10"
    case R11 => "r11"
    case R12 => "r12"
    case R13 => "r13"
    case R14 => "r14"
    case R15 => "r15"
  }

  /** The register a NASM name stands for, if any. */
  function RegNamed(s: string): Option<Reg> {
    if s == "rsp" then Some(Reg.Rsp)
    else if s == "rbp" then Some(Reg.Rbp)
    else if s == "rax" then Some(Reg.Rax)
    else if s == "rbx" then Some(Reg.Rbx)
    else if s == "rcx" then Some(Reg.Rcx)
    else if s == "rdx" then Some(Reg.Rdx)
    else if s == "rsi" then Some(Reg.Rsi)
    else if s == "rdi" then Some(Reg.Rdi)
    else if s == "r8" then Some(Reg.R8)
    else if s == "r9" then Some(Reg.R9)
    else if s == "r10" then Some(Reg.R10)
    else if s == "r11" then Some(Reg.R11)
    else if s == "r12" then Some(Reg.R12)
    else if s == "r13" then Some(Reg.R13)
    else if s == "r14" then Some(Reg.R14)
    else if s == "r15" then Some(Reg.R15)
    else None
  }

  /** Reading a register's name back gives the register. */
  lemma RegNameRoundTrip(r: Reg)
    ensures RegNamed(RegName(r)) == Some(r)
  {
  }

  /** The sixteen registers print under sixteen different names. */
  lemma RegNameInjective(a: Reg, b: Reg)
    requires RegName(a) == RegName(b)
    ensures a == b
  {
    RegNameRoundTrip(a);
    RegNameRoundTrip(b);
  }

  // ---------------------------------------------------------------------
  // Decimal numbers

  /** Text `to_string` can produce for an integer: digits, after a
      minus sign for negatives. */
  predicate DecimalText(s: string) {
    && |s| > 0
    && (s[0] == '-' ==> |s| > 1)
    && (s[0] != '-' ==> '0' <= s[0] <= '9')
    && forall k | 0 < k < |s| :: '0' <= s[k] <= '9'
  }

  /** The integer a decimal text stands for. */
  function IntValue(s: string): int
    requires DecimalText(s)
  {
    if s[0] == '-' then 0 - DecimalValue(s[1..]) else DecimalValue(s)
  }

  /** Reading back the decimal text of an integer gives the integer. */
  lemma IntToStringRoundTrip(i: int)
    ensures DecimalText(IntToString(i)) && IntValue(IntToString(i)) == i
  {
    var s := IntToString(i);
    if i < 0 {
      var n := NatToString(-i);
      assert s == "-" + n;
      assert s[1..] == n;
      assert forall k | 0 < k < |s| :: s[k] == n[k - 1];
      assert DecimalText(s);
      DecimalValueOfNatToString(-i);
      assert IntValue(s) == 0 - DecimalValue(n);
    } else {
      var n := NatToString(i);
      assert s == n && s[0] != '-';
      assert DecimalText(s);
      DecimalValueOfNatToString(i);
      assert IntValue(s) == DecimalValue(n);
    }
  }

  lemma IntToStringInjective(i: int, j: int)
    requires IntToString(i) == IntToString(j)
    ensures i == j
  {
    IntToStringRoundTrip(i);
    IntToStringRoundTrip(j);
  }

  // ---------------------------------------------------------------------
  // Operands

  /** `get_var`: the first home with the given name. */
  function Lookup(vars: seq<Home>, name: string): Option<Home> {
    if |vars| == 0 then None
    else if vars[0].name == name then Some(vars[0])
    else Lookup(vars[1..], name)
  }

  /** The home found is the first one with the name; there is none
      exactly when no home has the name. */
  lemma {:induction false} LookupFirst(vars: seq<Home>, name: string)
    ensures Lookup(vars, name).None? <==> forall k | 0 <= k < |vars| :: vars[k].name != name
    ensures Lookup(vars, name).Some? ==>
      exists k | 0 <= k < |vars| :: vars[k] == Lookup(vars, name).value
        && vars[k].name == name && forall j | 0 <= j < k :: vars[j].name != name
    decreases |vars|
  {
    if |vars| > 0 {
      LookupFirst(vars[1..], name);
      if vars[0].name != name && Lookup(vars, name).Some? {
        var k :| 0 <= k < |vars[1..]| && vars[1..][k] == Lookup(vars, name).value
          && vars[1..][k].name == name && forall j | 0 <= j < k :: vars[1..][j].name != name;
        assert vars[k + 1] == vars[1..][k];
        assert forall j | 0 < j < k + 1 :: vars[j] == vars[1..][j - 1];
      }
      if vars[0].name == name {
        assert vars[0] == Lookup(vars, name).value;
      }
      if Lookup(vars, name).None? {
        assert forall k | 1 <= k < |vars| :: vars[k] == vars[1..][k - 1];
      }
    }
  }

  /** Operands `arg_to_string` prints without panicking: immediates,
      registers, and variables with a home in a register or on the stack. */
  predicate PrintableArg(vars: seq<Home>, a: Arg) {
    match a
    case Imm(_) => true
    case Reg(_) => true
    case Var(x) => Lookup(vars, x).Some? && !Lookup(vars, x).value.loc.Undefined?
    case Deref(_, _) => false
  }

  predicate NoNewline(s: string) {
    forall k | 0 <= k < |s| :: s[k] != '\n'
  }

  /** `arg_to_string`: a register by name, a stack home as a `qword`
      below `rbp`, an immediate in decimal. */
  function ArgText(vars: seq<Home>, a: Arg): string
    requires PrintableArg(vars, a)
  {
    match a
    case Imm(n) => IntToString(n)
    case Reg(r) => RegName(r)
    case Var(x) =>
      match Lookup(vars, x).value.loc
      case Reg(r) => RegName(r)
      case Rbp(offset) => StackText(offset)
  }

  /** A home `offset` bytes below `rbp`, as a 64-bit memory operand. */
  function StackText(offset: int): string {
    "qword [rbp-" + IntToString(offset) + "]"
  }

  /** Distinct stack slots print differently. */
  lemma StackTextInjective(k1: int, k2: int)
    requires StackText(k1) == StackText(k2)
    ensures k1 == k2
  {
    var s := StackText(k1);
    assert IntToString(k1) == s[11..|s| - 1];
    assert IntToString(k2) == s[11..|s| - 1];
    IntToStringInjective(k1, k2);
  }

  /** Decimal text holds no line break. */
  lemma DecimalOneLine(s: string)
    requires DecimalText(s)
    ensures NoNewline(s)
  {
  }

  /** An operand prints as a non-empty piece of one line. */
  lemma ArgTextOneLine(vars: seq<Home>, a: Arg)
    requires PrintableArg(vars, a)
    ensures |ArgText(vars, a)| > 0 && NoNewline(ArgText(vars, a))
  {
    var s := ArgText(vars, a);
    if a.Imm? {
      IntToStringRoundTrip(a.n);
      DecimalOneLine(s);
    } else if a.Var? && Lookup(vars, a.name).value.loc.Rbp? {
      var k := Lookup(vars, a.name).value.loc.offset;
      var d := IntToString(k);
      IntToStringRoundTrip(k);
      DecimalOneLine(d);
      assert s == StackText(k) == "qword [rbp-" + d + "]";
      NoNewlineConcat("qword [rbp-", d);
      NoNewlineConcat("qword [rbp-" + d, "]");
    }
  }

  /** The location an operand stands for once its home is looked up: a
      register, a slot `offset` bytes below `rbp`, or an immediate. */
  function Resolved(vars: seq<Home>, a: Arg): Arg
    requires PrintableArg(vars, a)
  {
    match a
    case Var(x) =>
      (match Lookup(vars, x).value.loc
       case Reg(r) => Arg.Reg(r)
       case Rbp(offset) => Arg.Deref(Reg.Rbp, 0 - offset))
    case _ => a
  }

  /** How each kind of operand prints: an immediate in decimal, a register
      by name, a stack slot as a `qword` below `rbp`. */
  lemma ArgTextShape(vars: seq<Home>, a: Arg)
    requires PrintableArg(vars, a)
    ensures var r := Resolved(vars, a);
      var s := ArgText(vars, a);
      && (r.Imm? || r.Reg? || (r.Deref? && r.base == Reg.Rbp))
      && |s| > 0
      && (r.Imm? ==> s == IntToString(r.n) && s[0] != 'r' && s[0] != 'q')
      && (r.Reg? ==> s == RegName(r.reg))
      && (r.Deref? ==> s == StackText(0 - r.offset) && s[0] == 'q')
  {
    if a.Imm? {
      IntToStringRoundTrip(a.n);
    }
  }

  /** Operands that print the same stand for the same location or value:
      distinct stack slots, registers and immediates stay apart in the
      text. */
  lemma ArgTextInjective(vars: seq<Home>, a: Arg, b: Arg)
    requires PrintableArg(vars, a) && PrintableArg(vars, b)
    requires ArgText(vars, a) == ArgText(vars, b)
    ensures Resolved(vars, a) == Resolved(vars, b)
  {
    ArgTextShape(vars, a);
    ArgTextShape(vars, b);
    var ra, rb := Resolved(vars, a), Resolved(vars, b);
    if ra.Imm? && rb.Imm? {
      IntToStringInjective(ra.n, rb.n);
    } else if ra.Reg? && rb.Reg? {
      RegNameInjective(ra.reg, rb.reg);
    } else if ra.Deref? && rb.Deref? {
      StackTextInjective(0 - ra.offset, 0 - rb.offset);
    }
  }

  // ---------------------------------------------------------------------
  // Instructions

  predicate PrintableInstr(vars: seq<Home>, i: Instr) {
    match i
    case Add64(d, s) => PrintableArg(vars, d) && PrintableArg(vars, s)
    case Sub64(d, s) => PrintableArg(vars, d) && PrintableArg(vars, s)
    case Mov64(d, s) => PrintableArg(vars, d) && PrintableArg(vars, s)
    case Neg64(a) => PrintableArg(vars, a)
    case Push(a) => PrintableArg(vars, a)
    case Pop(a) => PrintableArg(vars, a)
    case Call(_, _) => true
    case Ret => true
    case Jmp(_) => true
  }

  function Mnemonic(i: Instr): string {
    match i
    case Add64(_, _) => "add"
    case Sub64(_, _) => "sub"
    case Mov64(_, _) => "mov"
    case Neg64(_) => "neg"
    case Call(_, _) => "call"
    case Ret => "ret"
    case Push(_) => "push"
    case Pop(_) => "pop"
    case Jmp(_) => "jmp"
  }

  /** One operand after the mnemonic. */
  function One(a: string): string {
    " " + a
  }

  /** Two operands after the mnemonic, separated by `", "`. */
  function Two(a: string, b: string): string {
    " " + a + ", " + b
  }

  /** What follows the mnemonic of an instruction on its line. */
  function OperandsText(vars: seq<Home>, i: Instr): string
    requires PrintableInstr(vars, i)
  {
    match i
    case Add64(d, s) => Two(ArgText(vars, d), ArgText(vars, s))
    case Sub64(d, s) => Two(ArgText(vars, d), ArgText(vars, s))
    case Mov64(d, s) => Two(ArgText(vars, d), ArgText(vars, s))
    case Neg64(a) => One(ArgText(vars, a))
    case Call(f, _) => One(f)
    case Ret => ""
    case Push(a) => One(ArgText(vars, a))
    case Pop(a) => One(ArgText(vars, a))
    case Jmp(l) => One(l)
  }

  /** `instr_to_text`: the mnemonic, the operands separated by `", "`, and
      a newline. */
  function InstrText(vars: seq<Home>, i: Instr): string
    requires PrintableInstr(vars, i)
  {
    Mnemonic(i) + OperandsText(vars, i) + "\n"
  }

  lemma NoNewlineConcat(a: string, b: string)
    requires NoNewline(a) && NoNewline(b)
    ensures NoNewline(a + b)
  {
    assert forall k | |a| <= k < |a + b| :: (a + b)[k] == b[k - |a|];
  }

  /** The operands of an instruction print on the same line. */
  lemma OperandsOneLine(vars: seq<Home>, i: Instr)
    requires PrintableInstr(vars, i)
    requires i.Call? ==> NoNewline(i.callee)
    requires i.Jmp? ==> NoNewline(i.dest)
    ensures NoNewline(OperandsText(vars, i))
  {
    match i
    case Add64(d, a) => TwoOneLine(ArgText(vars, d), ArgText(vars, a), vars, d, a);
    case Sub64(d, a) => TwoOneLine(ArgText(vars, d), ArgText(vars, a), vars, d, a);
    case Mov64(d, a) => TwoOneLine(ArgText(vars, d), ArgText(vars, a), vars, d, a);
    case Neg64(a) => ArgTextOneLine(vars, a); NoNewlineConcat(" ", ArgText(vars, a));
    case Push(a) => ArgTextOneLine(vars, a); NoNewlineConcat(" ", ArgText(vars, a));
    case Pop(a) => ArgTextOneLine(vars, a); NoNewlineConcat(" ", ArgText(vars, a));
    case Call(f, _) => NoNewlineConcat(" ", f);
    case Ret =>
    case Jmp(l) => NoNewlineConcat(" ", l);
  }

  lemma TwoOneLine(x: string, y: string, vars: seq<Home>, d: Arg, a: Arg)
    requires PrintableArg(vars, d) && PrintableArg(vars, a)
    requires x == ArgText(vars, d) && y == ArgText(vars, a)
    ensures NoNewline(Two(x, y))
  {
    ArgTextOneLine(vars, d);
    ArgTextOneLine(vars, a);
    NoNewlineConcat(" ", x);
    NoNewlineConcat(" " + x, ", ");
    NoNewlineConcat(" " + x + ", ", y);
  }

  /** Every instruction prints as exactly one line that opens with its
      mnemonic (names of callees and jump targets being single words). */
  lemma InstrLine(vars: seq<Home>, i: Instr)
    requires PrintableInstr(vars, i)
    requires i.Call? ==> NoNewline(i.callee)
    requires i.Jmp? ==> NoNewline(i.dest)
    ensures var s := InstrText(vars, i);
      && |s| > |Mnemonic(i)| && s[..|Mnemonic(i)|] == Mnemonic(i)
      && s[|s| - 1] == '\n' && NoNewline(s[..|s| - 1])
  {
    var rest := OperandsText(vars, i);
    OperandsOneLine(vars, i);
    var m := Mnemonic(i);
    var s := InstrText(vars, i);
    assert NoNewline(m);
    NoNewlineConcat(m, rest);
    assert s[..|s| - 1] == m + rest;
    assert s[..|m|] == m;
  }

  // ---------------------------------------------------------------------
  // The whole listing

  /** A hash-set or hash-map walk: every element exactly once. */
  predicate Enumerates(order: seq<string>, s: set<string>) {
    (forall x | x in order :: x in s) && (forall x | x in s :: x in order)
    && forall j, k | 0 <= j < k < |order| :: order[j] != order[k]
  }

  /** Every instruction of every block prints. */
  predicate Printable(asm: Listing) {
    forall l | l in asm.blocks :: forall k | 0 <= k < |asm.blocks[l]| :: PrintableInstr(asm.vars, asm.blocks[l][k])
  }

  /** The strings joined with `sep` between them. */
  function Join(lines: seq<string>, sep: string): string {
    if |lines| == 0 then ""
    else if |lines| == 1 then lines[0]
    else Join(lines[..|lines| - 1], sep) + sep + lines[|lines| - 1]
  }

  function ExternDecls(order: seq<string>): (decls: seq<string>)
    ensures |decls| == |order|
  {
    if |order| == 0 then [] else ExternDecls(order[..|order| - 1]) + ["extern " + order[|order| - 1]]
  }

  /** The lines before the first block: the `extern` declarations and a
      blank line when there are any, then `global start` and
      `section .text`, each followed by a blank line. */
  function Header(externals: seq<string>): string {
    ExternBlock(externals) + "global start" + "\n\n" + "section .text" + "\n\n"
  }

  /** The `extern` declarations, one per line, and a blank line; nothing
      when there are none. */
  function ExternBlock(externals: seq<string>): string {
    if |externals| > 0 then Join(ExternDecls(externals), "\n") + "\n\n" else ""
  }

  /** A block: its `name:` line, then the first `n` of its instructions,
      each on its own line indented by four spaces. */
  function BlockText(vars: seq<Home>, name: string, code: seq<Instr>): string
    requires forall k | 0 <= k < |code| :: PrintableInstr(vars, code[k])
  {
    if |code| == 0 then name + ":\n"
    else BlockText(vars, name, code[..|code| - 1]) + "    " + InstrText(vars, code[|code| - 1])
  }

  /** The listing `print` produces when it walks the externals and the
      blocks in the given orders: the header, then each block. */
  function Render(asm: Listing, externals: seq<string>, labels: seq<string>): string
    requires Printable(asm) && forall k | 0 <= k < |labels| :: labels[k] in asm.blocks
  {
    if |labels| == 0 then Header(externals)
    else
      var l := labels[|labels| - 1];
      Render(asm, externals, labels[..|labels| - 1]) + BlockText(asm.vars, l, asm.blocks[l])
  }

  /** Rendering only appends to the header. */
  lemma {:induction false} RenderExtendsHeader(asm: Listing, externals: seq<string>, labels: seq<string>)
    requires Printable(asm) && forall k | 0 <= k < |labels| :: labels[k] in asm.blocks
    ensures var h := Header(externals);
      |h| <= |Render(asm, externals, labels)| && Render(asm, externals, labels)[..|h|] == h
    decreases |labels|
  {
    if |labels| > 0 {
      var l := labels[|labels| - 1];
      var h := Header(externals);
      var r := Render(asm, externals, labels[..|labels| - 1]);
      RenderExtendsHeader(asm, externals, labels[..|labels| - 1]);
      PrefixOfConcat(r, BlockText(asm.vars, l, asm.blocks[l]), |h|);
    }
  }

  /** The listing opens with `extern` declarations exactly when the program
      calls some runtime function; otherwise it opens with `global start`. */
  lemma ExternHeader(asm: Listing, externals: seq<string>, labels: seq<string>)
    requires Printable(asm) && Enumerates(externals, asm.external) && Enumerates(labels, asm.blocks.Keys)
    ensures var text := Render(asm, externals, labels);
      && |text| >= 12
      && (text[..7] == "extern " <==> asm.external != {})
      && (asm.external == {} ==> text[..12] == "global start")
  {
    var h := Header(externals);
    var text := Render(asm, externals, labels);
    HeaderOpens(externals);
    RenderExtendsHeader(asm, externals, labels);
    assert text[..7] == text[..|h|][..7] == h[..7];
    assert text[..12] == text[..|h|][..12] == h[..12];
    if |externals| > 0 {
      assert externals[0] in asm.external;
    }
  }

  lemma PrefixOfConcat(a: string, b: string, n: nat)
    requires n <= |a|
    ensures (a + b)[..n] == a[..n]
  {
  }

  /** The header opens with `extern` exactly when there are externals,
      and with `global start` otherwise. */
  lemma HeaderOpens(externals: seq<string>)
    ensures var h := Header(externals);
      && |h| >= 12
      && (h[..7] == "extern " <==> |externals| > 0)
      && (|externals| == 0 ==> h[..12] == "global start")
  {
    if |externals| == 0 {
      BareHeader(externals);
    } else {
      ExternHeaderOpens(externals);
    }
  }

  lemma BareHeader(externals: seq<string>)
    requires |externals| == 0
    ensures var h := Header(externals); |h| >= 12 && h[..12] == "global start" && h[..7] != "extern "
  {
    var h := Header(externals);
    assert ExternBlock(externals) == "";
    assert h == "global start\n\nsection .text\n\n";
    assert h[..7][0] == h[0] == 'g';
  }

  lemma ExternHeaderOpens(externals: seq<string>)
    requires |externals| > 0
    ensures var h := Header(externals); |h| >= 12 && h[..7] == "extern "
  {
    var decls := ExternDecls(externals);
    ExternDeclsFirst(externals);
    JoinFirst(decls, "\n");
    var j := Join(decls, "\n");
    assert |decls[0]| >= 7 && decls[0][..7] == "extern ";
    assert j[..7] == j[..|decls[0]|][..7];
    var e := ExternBlock(externals);
    assert e == j + "\n\n";
    PrefixOfConcat(j, "\n\n", 7);
    PrefixOfConcat(e, "global start\n\nsection .text\n\n", 7);
  }

  lemma {:induction false} ExternDeclsFirst(order: seq<string>)
    requires |order| > 0
    ensures ExternDecls(order)[0] == "extern " + order[0]
    decreases |order|
  {
    if |order| > 1 {
      ExternDeclsFirst(order[..|order| - 1]);
    }
  }

  /** A join starts with its first string. */
  lemma {:induction false} JoinFirst(lines: seq<string>, sep: string)
    requires |lines| > 0
    ensures |Join(lines, sep)| >= |lines[0]| && Join(lines, sep)[..|lines[0]|] == lines[0]
    decreases |lines|
  {
    if |lines| > 1 {
      JoinFirst(lines[..|lines| - 1], sep);
    }
  }

  // ---------------------------------------------------------------------
  // The printer

  class X64Printer {
    const asm: Listing

    /** `new`: a printer for one program. */
    constructor (asm: Listing)
      ensures this.asm == asm
    {
      this.asm := asm;
    }

    /** `get_var`: scans the homes for the first one with the name. */
    method GetVar(name: string) returns (home: Option<Home>)
      ensures home == Lookup(asm.vars, name)
    {
      var vars := asm.vars;
      for k := 0 to |vars|
        invariant Lookup(vars, name) == Lookup(vars[k..], name)
      {
        if vars[k].name == name {
          return Some(vars[k]);
        }
        assert vars[k..][1..] == vars[k + 1..];
      }
      return None;
    }

    /** `arg_to_string`; the panics on a variable without a home and on
        `Deref` are excluded by the precondition. */
    method ArgToString(a: Arg) returns (s: string)
      requires PrintableArg(asm.vars, a)
      ensures s == ArgText(asm.vars, a)
    {
      match a
      case Var(name) =>
        var theVar := GetVar(name);
        match theVar.value.loc {
          case Reg(r) =>
            s := RegName(r);
          case Rbp(offset) =>
            s := "qword [rbp-" + IntToString(offset) + "]";
            assert s == StackText(offset);
        }
      case Imm(n) =>
        s := IntToString(n);
      case Reg(r) =>
        s := RegName(r);
    }

    /** `instr_to_text`. */
    method InstrToText(i: Instr) returns (s: string)
      requires PrintableInstr(asm.vars, i)
      ensures s == InstrText(asm.vars, i)
    {
      match i
      case Add64(arg1, arg2) =>
        var a1 := ArgToString(arg1);
        var a2 := ArgToString(arg2);
        s := "add" + Two(a1, a2) + "\n";
      case Sub64(arg1, arg2) =>
        var a1 := ArgToString(arg1);
        var a2 := ArgToString(arg2);
        s := "sub" + Two(a1, a2) + "\n";
      case Mov64(arg1, arg2) =>
        var a1 := ArgToString(arg1);
        var a2 := ArgToString(arg2);
        s := "mov" + Two(a1, a2) + "\n";
      case Neg64(arg) =>
        var a := ArgToString(arg);
        s := "neg" + One(a) + "\n";
      case Call(func, _) =>
        s := "call" + One(func) + "\n";
      case Ret =>
        s := "ret" + "\n";
      case Push(arg) =>
        var a := ArgToString(arg);
        s := "push" + One(a) + "\n";
      case Pop(arg) =>
        var a := ArgToString(arg);
        s := "pop" + One(a) + "\n";
      case Jmp(target) =>
        s := "jmp" + One(target) + "\n";
    }

    /** `print`: the header, then every block under its label with its
        instructions indented, the externals and blocks walked in the given
        orders. */
    method Print(externals: seq<string>, labels: seq<string>) returns (program: string)
      requires Enumerates(externals, asm.external) && Enumerates(labels, asm.blocks.Keys)
      requires Printable(asm)
      ensures program == Render(asm, externals, labels)
    {
      program := PrintHeader(externals);
      for b := 0 to |labels|
        invariant program == Render(asm, externals, labels[..b])
      {
        var name := labels[b];
        var text := PrintBlock(name);
        program := program + text;
        assert labels[..b + 1][..b] == labels[..b];
      }
      assert labels[..|labels|] == labels;
    }

    /** The part of `print` before the first block. */
    method PrintHeader(externals: seq<string>) returns (program: string)
      ensures program == Header(externals)
    {
      program := "";
      var externalFunctions: seq<string> := [];
      var extPrepend := "extern ";
      for k := 0 to |externals|
        invariant externalFunctions == ExternDecls(externals[..k])
      {
        var newExt := extPrepend + externals[k];
        externalFunctions := externalFunctions + [newExt];
        assert externals[..k + 1][..k] == externals[..k];
      }
      assert externals[..|externals|] == externals;
      var globals := ["global start"];
      if |externalFunctions| > 0 {
        program := program + Join(externalFunctions, "\n");
        program := program + "\n\n";
      }
      assert program == ExternBlock(externals);
      program := program + Join(globals, "\n");
      program := program + "\n\n";
      program := program + "section .text";
      program := program + "\n\n";
    }

    /** One block of `print`: its label line and its instructions. */
    method PrintBlock(name: string) returns (text: string)
      requires name in asm.blocks && Printable(asm)
      ensures text == BlockText(asm.vars, name, asm.blocks[name])
    {
      text := name;
      text := text + ":\n";
      var block := asm.blocks[name];
      for j := 0 to |block|
        invariant text == BlockText(asm.vars, name, block[..j])
      {
        text := text + "    ";
        var line := InstrToText(block[j]);
        text := text + line;
        assert block[..j + 1][..j] == block[..j];
      }
      assert block[..|block|] == block;
    }
  }

  // ---------------------------------------------------------------------
  // Listings the printer's tests expect

  /** `(2)` compiles to a single block that returns 2. */
  lemma PrintConstant()
    ensures var asm := Listing({}, [], map["start" := [Instr.Mov64(Arg.Reg(Reg.Rax), Arg.Imm(2)), Instr.Ret]]);
      && Printable(asm)
      && Render(asm, [], ["start"])
         == "global start\n\nsection .text\n\nstart:\n    mov rax, 2\n    ret\n"
  {
    var asm := Listing({}, [], map["start" := [Instr.Mov64(Arg.Reg(Reg.Rax), Arg.Imm(2)), Instr.Ret]]);
    ReturnTwoBlock();
    BareHeaderText();
    assert ["start"][..0] == [];
    assert Render(asm, [], ["start"]) == Header([]) + BlockText([], "start", asm.blocks["start"]);
    ReturnTwoText();
  }

  lemma ReturnTwoText()
    ensures "global start\n\nsection .text\n\n" + "start:\n    mov rax, 2\n    ret\n"
         == "global start\n\nsection .text\n\nstart:\n    mov rax, 2\n    ret\n"
  {
  }

  lemma BareHeaderText()
    ensures Header([]) == "global start\n\nsection .text\n\n"
  {
    assert ExternBlock([]) == "";
  }

  lemma ReturnTwoBlock()
    ensures var code := [Instr.Mov64(Arg.Reg(Reg.Rax), Arg.Imm(2)), Instr.Ret];
      && (forall k | 0 <= k < |code| :: PrintableInstr([], code[k]))
      && BlockText([], "start", code) == "start:\n    mov rax, 2\n    ret\n"
  {
    var code := [Instr.Mov64(Arg.Reg(Reg.Rax), Arg.Imm(2)), Instr.Ret];
    assert IntToString(2) == "2";
    assert InstrText([], code[0]) == "mov rax, 2\n";
    assert InstrText([], code[1]) == "ret\n";
    assert code[..1] == [code[0]] && code[..1][..0] == [] && code[..2] == code;
    assert BlockText([], "start", code[..1]) == "start:\n    mov rax, 2\n";
  }
}
