/** The x64 back end (compiler/src/backend/x64_backend.rs): instruction
    selection from the intermediate language, stack homes for variables,
    patching of memory-to-memory moves through `r15`, and the frame set up
    around the entry block. */
module X64Backend {
  import opened Ast
  import opened Explicate
  import opened IrSemantics
  import opened X64
  import opened X64Semantics

  /** The runtime function that implements `read`. */
  const ReadInt: string := "read_int"

  const RaxArg: Arg := Arg.Reg(Reg.Rax)

  // ---------------------------------------------------------------------
  // Instruction selection as functions

  /** `handle_atom`'s operand: an integer becomes an immediate, a variable
      stays a variable. */
  function ArgOf(a: Atm): (r: Arg)
    ensures r.Var? <==> a.Var?
  {
    match a
    case Int(n) => Arg.Imm(n)
    case Var(x) => Arg.Var(x)
  }

  function AtmNames(a: Atm): set<string> {
    if a.Var? then {a.name} else {}
  }

  /** Expressions the selection handles: others reach `unreachable!`,
      `unimplemented!` or index past the operands. */
  predicate Selectable(e: Exp) {
    e.Atm? || e.op == "read" || (e.op == "-" && |e.args| >= 1) || (e.op == "+" && |e.args| >= 2)
  }

  predicate SelectableTail(t: Tail) {
    match t
    case Return(e) => Selectable(e)
    case Seq(s, next) => Selectable(s.exp) && SelectableTail(next)
  }

  /** A `+` whose right operand is the variable it assigns. */
  predicate AddsToItself(s: Stmt) {
    s.exp.Prim? && s.exp.op == "+" && |s.exp.args| >= 2 && s.target.Var? && s.exp.args[1] == s.target
  }

  /** The instructions for one assignment.  A `+` loads its left operand
      before adding the right one, except when the target already holds
      the right operand: then it only adds the left one. */
  function StmtCode(s: Stmt): (r: seq<Instr>)
    requires Selectable(s.exp)
    ensures CodeNames(r) == AtmNames(s.target) + ExpNames(s.exp)
  {
    var dst := ArgOf(s.target);
    var code := match s.exp
      case Atm(a) => [Instr.Mov64(dst, ArgOf(a))]
      case Prim(op, args) =>
        if op == "read" then [Instr.Call(ReadInt, 0), Instr.Mov64(dst, RaxArg)]
        else if op == "-" then [Instr.Mov64(dst, ArgOf(args[0])), Instr.Neg64(dst)]
        else if AddsToItself(s) then [Instr.Add64(dst, ArgOf(args[0]))]
        else [Instr.Mov64(dst, ArgOf(args[0])), Instr.Add64(dst, ArgOf(args[1]))];
    ShortCodeNames(code);
    code
  }

  /** The instructions that leave a returned expression in `rax`. */
  function ReturnCode(e: Exp): (r: seq<Instr>)
    requires Selectable(e)
    ensures CodeNames(r) == ExpNames(e)
  {
    var code := match e
      case Atm(a) => [Instr.Mov64(RaxArg, ArgOf(a))]
      case Prim(op, args) =>
        if op == "read" then [Instr.Call(ReadInt, 0)]
        else if op == "-" then [Instr.Mov64(RaxArg, ArgOf(args[0])), Instr.Neg64(RaxArg)]
        else [Instr.Mov64(RaxArg, ArgOf(args[0])), Instr.Add64(RaxArg, ArgOf(args[1]))];
    ShortCodeNames(code);
    code
  }

  /** `select_instruction`: the statements' code in order, then the
      return's. */
  function TailCode(t: Tail): (r: seq<Instr>)
    requires SelectableTail(t)
    ensures CodeNames(r) == TailNames(t)
  {
    match t
    case Return(e) => ReturnCode(e)
    case Seq(s, next) =>
      CodeNamesAppend(StmtCode(s), TailCode(next));
      StmtCode(s) + TailCode(next)
  }

  /** The variables `handle_atom` records for an expression. */
  function ExpNames(e: Exp): set<string>
    requires Selectable(e)
  {
    match e
    case Atm(a) => AtmNames(a)
    case Prim(op, args) =>
      if op == "read" then {}
      else if op == "-" then AtmNames(args[0])
      else AtmNames(args[0]) + AtmNames(args[1])
  }

  function TailNames(t: Tail): set<string>
    requires SelectableTail(t)
  {
    match t
    case Return(e) => ExpNames(e)
    case Seq(s, next) => AtmNames(s.target) + ExpNames(s.exp) + TailNames(next)
  }

  predicate ReadsInput(e: Exp) {
    e.Prim? && e.op == "read"
  }

  /** The runtime functions a tail calls. */
  function TailExternals(t: Tail): set<string> {
    match t
    case Return(e) => if ReadsInput(e) then {ReadInt} else {}
    case Seq(s, next) => (if ReadsInput(s.exp) then {ReadInt} else {}) + TailExternals(next)
  }

  /** Every variable an operand names, over a block of code. */
  function ArgNames(a: Arg): set<string> {
    if a.Var? then {a.name} else {}
  }

  function InstrNames(i: Instr): set<string> {
    match i
    case Add64(d, s) => ArgNames(d) + ArgNames(s)
    case Sub64(d, s) => ArgNames(d) + ArgNames(s)
    case Mov64(d, s) => ArgNames(d) + ArgNames(s)
    case Neg64(a) => ArgNames(a)
    case Push(a) => ArgNames(a)
    case Pop(a) => ArgNames(a)
    case _ => {}
  }

  function CodeNames(code: seq<Instr>): set<string> {
    if |code| == 0 then {} else InstrNames(code[0]) + CodeNames(code[1..])
  }

  lemma {:induction false} CodeNamesAppend(a: seq<Instr>, b: seq<Instr>)
    ensures CodeNames(a + b) == CodeNames(a) + CodeNames(b)
  {
    if |a| > 0 {
      assert (a + b)[0] == a[0] && (a + b)[1..] == a[1..] + b;
      CodeNamesAppend(a[1..], b);
    } else {
      assert a + b == b;
    }
  }

  lemma ShortCodeNames(code: seq<Instr>)
    requires 1 <= |code| <= 2
    ensures CodeNames(code) == InstrNames(code[0]) + (if |code| == 2 then InstrNames(code[1]) else {})
  {
    if |code| == 2 {
      assert code[1..][1..] == [];
    } else {
      assert code[1..] == [];
    }
  }

  // ---------------------------------------------------------------------
  // Shape of the selected code

  /** The registers an operand mentions. */
  predicate MentionsReg(a: Arg, r: Reg) {
    a == Arg.Reg(r) || (a.Deref? && a.base == r)
  }

  predicate InstrMentions(i: Instr, r: Reg) {
    match i
    case Add64(d, s) => MentionsReg(d, r) || MentionsReg(s, r)
    case Sub64(d, s) => MentionsReg(d, r) || MentionsReg(s, r)
    case Mov64(d, s) => MentionsReg(d, r) || MentionsReg(s, r)
    case Neg64(a) => MentionsReg(a, r)
    case Push(a) => MentionsReg(a, r)
    case Pop(a) => MentionsReg(a, r)
    case _ => false
  }

  /** An instruction that leaves the stack and the frame registers alone:
      no `push`, `pop`, `ret` or `jmp`, and no mention of `rsp` or `rbp`. */
  predicate FrameSafe(i: Instr) {
    && !i.Push? && !i.Pop? && !i.Ret? && !i.Jmp?
    && !InstrMentions(i, Reg.Rsp) && !InstrMentions(i, Reg.Rbp)
  }

  predicate AllFrameSafe(code: seq<Instr>) {
    forall i | 0 <= i < |code| :: FrameSafe(code[i])
  }

  predicate NoneMention(code: seq<Instr>, r: Reg) {
    forall i | 0 <= i < |code| :: !InstrMentions(code[i], r)
  }

  /** Selected code leaves the stack alone and never mentions `r15`. */
  lemma {:induction false} SelectedShape(t: Tail)
    requires SelectableTail(t)
    ensures AllFrameSafe(TailCode(t)) && NoRet(TailCode(t)) && NoneMention(TailCode(t), Reg.R15)
  {
    match t
    case Return(e) =>
    case Seq(s, next) =>
      SelectedShape(next);
      StmtShape(s);
      ShapeConcat(StmtCode(s), TailCode(next));
  }

  lemma StmtShape(s: Stmt)
    requires Selectable(s.exp)
    ensures AllFrameSafe(StmtCode(s)) && NoRet(StmtCode(s)) && NoneMention(StmtCode(s), Reg.R15)
  {
  }

  lemma ShapeConcat(a: seq<Instr>, b: seq<Instr>)
    requires AllFrameSafe(a) && NoRet(a) && NoneMention(a, Reg.R15)
    requires AllFrameSafe(b) && NoRet(b) && NoneMention(b, Reg.R15)
    ensures AllFrameSafe(a + b) && NoRet(a + b) && NoneMention(a + b, Reg.R15)
  {
    assert forall i | 0 <= i < |a + b| :: (a + b)[i] == if i < |a| then a[i] else b[i - |a|];
  }

  // ---------------------------------------------------------------------
  // Selection computes what the intermediate language means

  lemma AtmArg(m: Machine, st: Store, a: Atm)
    requires m.vars == st
    ensures Value(m, ArgOf(a)) == AtmValue(st, a)
  {
  }

  /** One assignment: the machine ends with the store the assignment
      produces and the input it leaves. */
  lemma StmtCorrect(m: Machine, st: Store, s: Stmt)
    requires m.vars == st && Selectable(s.exp)
    requires ExecStmt(st, m.input, s).Some?
    ensures Run(m, StmtCode(s)).Some?
    ensures Run(m, StmtCode(s)).value.vars == ExecStmt(st, m.input, s).value.0
    ensures Run(m, StmtCode(s)).value.input == ExecStmt(st, m.input, s).value.1
  {
    var code := StmtCode(s);
    match s.exp
    case Atm(a) =>
      AtmArg(m, st, a);
      RunOne(m, code[0]);
    case Prim(op, args) =>
      if op == "+" && AddsToItself(s) {
        AtmArg(m, st, args[0]);
        AtmArg(m, st, args[1]);
        RunOne(m, code[0]);
      } else if op == "+" {
        RunTwo(m, code[0], code[1]);
        AtmArg(m, st, args[0]);
        var m1 := Step(m, code[0]).value;
        assert m1.vars == st[s.target.name := AtmValue(st, args[0]).value];
        AtmArg(m1, m1.vars, args[1]);
        assert AtmValue(m1.vars, args[1]) == AtmValue(st, args[1]);
      } else {
        RunTwo(m, code[0], code[1]);
        if op == "-" {
          AtmArg(m, st, args[0]);
        }
      }
  }

  /** A return leaves the returned value in `rax`. */
  lemma ReturnCorrect(m: Machine, st: Store, e: Exp)
    requires m.vars == st && Selectable(e)
    requires ExpValue(st, m.input, e).Some?
    ensures Run(m, ReturnCode(e)).Some?
    ensures Reg.Rax in Run(m, ReturnCode(e)).value.regs
    ensures Run(m, ReturnCode(e)).value.regs[Reg.Rax] == ExpValue(st, m.input, e).value.0
    ensures Run(m, ReturnCode(e)).value.input == ExpValue(st, m.input, e).value.1
  {
    var code := ReturnCode(e);
    match e
    case Atm(a) =>
      AtmArg(m, st, a);
      RunOne(m, code[0]);
    case Prim(op, args) =>
      if op == "read" {
        RunOne(m, code[0]);
      } else {
        AtmArg(m, st, args[0]);
        RunTwo(m, code[0], code[1]);
        if op == "+" {
          var m1 := Step(m, code[0]).value;
          AtmArg(m1, m1.vars, args[1]);
        }
      }
  }

  /** The selected code of a tail leaves in `rax` the value the tail
      returns, and consumes the same input. */
  lemma {:induction false} SelectCorrect(m: Machine, st: Store, t: Tail)
    requires m.vars == st && SelectableTail(t)
    requires RunTail(st, m.input, t).Some?
    ensures Run(m, TailCode(t)).Some?
    ensures Reg.Rax in Run(m, TailCode(t)).value.regs
    ensures Run(m, TailCode(t)).value.regs[Reg.Rax] == RunTail(st, m.input, t).value.0
    ensures Run(m, TailCode(t)).value.input == RunTail(st, m.input, t).value.1
    decreases t
  {
    match t
    case Return(e) =>
      ReturnCorrect(m, st, e);
    case Seq(s, next) =>
      StmtCorrect(m, st, s);
      var m1 := Run(m, StmtCode(s)).value;
      var st1 := ExecStmt(st, m.input, s).value.0;
      StmtShape(s);
      RunAppend(m, StmtCode(s), TailCode(next));
      SelectCorrect(m1, st1, next);
  }

  // ---------------------------------------------------------------------
  // Selection as written (x64_backend.rs:95-105): a `+` whose operands give
  // the same operand emits only the `add`, and any other `+` loads its left
  // operand into the target before adding the right one, even when the
  // target is the right operand

  function StmtCodeAsWritten(s: Stmt): (r: seq<Instr>)
    requires Selectable(s.exp)
    ensures CodeNames(r) == AtmNames(s.target) + ExpNames(s.exp)
  {
    var dst := ArgOf(s.target);
    var code := match s.exp
      case Atm(a) => [Instr.Mov64(dst, ArgOf(a))]
      case Prim(op, args) =>
        if op == "read" then [Instr.Call(ReadInt, 0), Instr.Mov64(dst, RaxArg)]
        else if op == "-" then [Instr.Mov64(dst, ArgOf(args[0])), Instr.Neg64(dst)]
        else if ArgOf(args[0]) == ArgOf(args[1]) then [Instr.Add64(dst, ArgOf(args[1]))]
        else [Instr.Mov64(dst, ArgOf(args[0])), Instr.Add64(dst, ArgOf(args[1]))];
    ShortCodeNames(code);
    code
  }

  function ReturnCodeAsWritten(e: Exp): (r: seq<Instr>)
    requires Selectable(e)
    ensures CodeNames(r) == ExpNames(e)
  {
    if e.Prim? && e.op == "+" && ArgOf(e.args[0]) == ArgOf(e.args[1]) then
      var code := [Instr.Add64(RaxArg, ArgOf(e.args[1]))];
      ShortCodeNames(code);
      code
    else ReturnCode(e)
  }

  /** `select_instruction` as written.  It records the same variables as
      the corrected selection. */
  function TailCodeAsWritten(t: Tail): (r: seq<Instr>)
    requires SelectableTail(t)
    ensures CodeNames(r) == TailNames(t)
  {
    match t
    case Return(e) => ReturnCodeAsWritten(e)
    case Seq(s, next) =>
      CodeNamesAppend(StmtCodeAsWritten(s), TailCodeAsWritten(next));
      StmtCodeAsWritten(s) + TailCodeAsWritten(next)
  }

  /** `x = 1; return (+ x x)` means 2, but as written the code adds `x` to
      whatever `rax` held: from `rax = 0` it returns 1.  The corrected
      selection returns 2. */
  lemma EqualOperandsAsWritten()
    ensures var t := Tail.Seq(Stmt.Assign(Atm.Var("x"), Exp.Atm(Atm.Int(1))),
                              Tail.Return(Exp.Prim("+", [Atm.Var("x"), Atm.Var("x")])));
      var m := Machine(map[Reg.Rax := 0], map[], map[], []);
      && SelectableTail(t)
      && RunTail(map[], [], t) == Some((2, []))
      && Run(m, TailCodeAsWritten(t)).Some?
      && Value(Run(m, TailCodeAsWritten(t)).value, RaxArg) == Some(1)
      && Run(m, TailCode(t)).Some?
      && Value(Run(m, TailCode(t)).value, RaxArg) == Some(2)
  {
    var x := Arg.Var("x");
    var m := Machine(map[Reg.Rax := 0], map[], map[], []);
    var t := Tail.Seq(Stmt.Assign(Atm.Var("x"), Exp.Atm(Atm.Int(1))),
                      Tail.Return(Exp.Prim("+", [Atm.Var("x"), Atm.Var("x")])));
    var load, add := Instr.Mov64(x, Arg.Imm(1)), Instr.Add64(RaxArg, x);
    assert TailCodeAsWritten(t) == [load] + [add];
    var m1 := Step(m, load).value;
    assert Value(m1, x) == Some(1) && Value(m1, RaxArg) == Some(0);
    RunAppend(m, [load], [add]);
    RunOne(m, load);
    RunOne(m1, add);
    var copy := Instr.Mov64(RaxArg, x);
    assert TailCode(t) == [load] + [copy, add];
    RunAppend(m, [load], [copy, add]);
    RunTwo(m1, copy, add);
  }

  /** `x.1 = 5; x.1 = (+ 1 x.1); return x.1` means 6: uniquify gives every
      binder of one `let` the same name, so `(let ([x 5] [x (+ 1 x)]) x)`
      becomes this tail.  As written the code overwrites `x.1` with 1
      before adding it to itself and returns 2; the corrected selection
      returns 6. */
  lemma SelfOperandAsWritten()
    ensures var x := Atm.Var("x.1");
      var t := Tail.Seq(Stmt.Assign(x, Exp.Atm(Atm.Int(5))),
               Tail.Seq(Stmt.Assign(x, Exp.Prim("+", [Atm.Int(1), x])),
               Tail.Return(Exp.Atm(x))));
      var m := Machine(map[], map[], map[], []);
      && SelectableTail(t)
      && RunTail(map[], [], t) == Some((6, []))
      && Run(m, TailCodeAsWritten(t)).Some?
      && Value(Run(m, TailCodeAsWritten(t)).value, RaxArg) == Some(2)
      && Run(m, TailCode(t)).Some?
      && Value(Run(m, TailCode(t)).value, RaxArg) == Some(6)
  {
    var x := Arg.Var("x.1");
    var m := Machine(map[], map[], map[], []);
    var init, load, twice, ret := Instr.Mov64(x, Arg.Imm(5)), Instr.Mov64(x, Arg.Imm(1)),
      Instr.Add64(x, x), Instr.Mov64(RaxArg, x);
    var addOne := Instr.Add64(x, Arg.Imm(1));
    var t := Tail.Seq(Stmt.Assign(Atm.Var("x.1"), Exp.Atm(Atm.Int(5))),
             Tail.Seq(Stmt.Assign(Atm.Var("x.1"), Exp.Prim("+", [Atm.Int(1), Atm.Var("x.1")])),
             Tail.Return(Exp.Atm(Atm.Var("x.1")))));
    assert TailCodeAsWritten(t) == [init, load] + [twice, ret];
    RunTwo(m, init, load);
    var m2 := Run(m, [init, load]).value;
    assert Value(m2, x) == Some(1);
    RunTwo(m2, twice, ret);
    RunAppend(m, [init, load], [twice, ret]);
    assert TailCode(t) == [init] + [addOne, ret];
    RunOne(m, init);
    var m1 := Run(m, [init]).value;
    assert Value(m1, x) == Some(5);
    RunTwo(m1, addOne, ret);
    RunAppend(m, [init], [addOne, ret]);
  }
}
