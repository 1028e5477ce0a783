/** A reference meaning for the x64 subset the back end emits, on
    unbounded integers: registers, a stack memory addressed through `rsp`,
    the variables that have no home yet, and the input that the runtime's
    `read_int` consumes.  Straight-line code runs up to its first `ret`. */
module X64Semantics {
  import opened Ast
  import opened X64

  datatype Machine = Machine(regs: map<Reg, int>, mem: map<int, int>, vars: map<string, int>, input: seq<int>)

  function Value(m: Machine, a: Arg): Option<int> {
    match a
    case Var(x) => if x in m.vars then Some(m.vars[x]) else None
    case Imm(n) => Some(n)
    case Reg(r) => if r in m.regs then Some(m.regs[r]) else None
    case Deref(_, _) => None
  }

  /** Stores `v` in a variable or a register; nothing else is writable. */
  function Write(m: Machine, a: Arg, v: int): (r: Option<Machine>)
    ensures r.Some? <==> a.Var? || a.Reg?
  {
    match a
    case Var(x) => Some(m.(vars := m.vars[x := v]))
    case Reg(r) => Some(m.(regs := m.regs[r := v]))
    case Imm(_) => None
    case Deref(_, _) => None
  }

  function Step(m: Machine, i: Instr): Option<Machine> {
    match i
    case Add64(d, s) =>
      if Value(m, d).Some? && Value(m, s).Some? then Write(m, d, Value(m, d).value + Value(m, s).value) else None
    case Sub64(d, s) =>
      if Value(m, d).Some? && Value(m, s).Some? then Write(m, d, Value(m, d).value - Value(m, s).value) else None
    case Mov64(d, s) =>
      if Value(m, s).Some? then Write(m, d, Value(m, s).value) else None
    case Neg64(a) =>
      if Value(m, a).Some? then Write(m, a, 0 - Value(m, a).value) else None
    case Call(f, _) =>
      if f == "read_int" && |m.input| > 0
      then Some(m.(regs := m.regs[Reg.Rax := m.input[0]], input := m.input[1..]))
      else None
    case Push(a) =>
      if Value(m, a).Some? && Reg.Rsp in m.regs then
        var sp := m.regs[Reg.Rsp] - 8;
        Some(m.(regs := m.regs[Reg.Rsp := sp], mem := m.mem[sp := Value(m, a).value]))
      else None
    case Pop(a) =>
      if Reg.Rsp in m.regs && m.regs[Reg.Rsp] in m.mem then
        var sp := m.regs[Reg.Rsp];
        Write(m.(regs := m.regs[Reg.Rsp := sp + 8]), a, m.mem[sp])
      else None
    case Ret => Some(m)
    case Jmp(_) => None
  }

  /** Runs `code` up to its first `ret` (or its end). */
  function Run(m: Machine, code: seq<Instr>): Option<Machine>
    decreases |code|
  {
    if |code| == 0 then Some(m)
    else if code[0].Ret? then Some(m)
    else
      match Step(m, code[0])
      case None => None
      case Some(m1) => Run(m1, code[1..])
  }

  predicate NoRet(code: seq<Instr>) {
    forall i | 0 <= i < |code| :: !code[i].Ret?
  }

  lemma RunOne(m: Machine, a: Instr)
    requires !a.Ret?
    ensures Run(m, [a]) == Step(m, a)
  {
    assert [a][1..] == [];
  }

  lemma RunTwo(m: Machine, a: Instr, b: Instr)
    requires !a.Ret? && !b.Ret?
    ensures Run(m, [a, b]) == if Step(m, a).Some? then Step(Step(m, a).value, b) else None
  {
    assert [a, b][1..] == [b];
    if Step(m, a).Some? {
      RunOne(Step(m, a).value, b);
    }
  }

  /** Code without `ret` runs as its first part followed by its second. */
  lemma {:induction false} RunAppend(m: Machine, a: seq<Instr>, b: seq<Instr>)
    requires NoRet(a)
    ensures Run(m, a + b) == (if Run(m, a).Some? then Run(Run(m, a).value, b) else None)
    decreases |a|
  {
    if |a| > 0 {
      assert (a + b)[0] == a[0] && (a + b)[1..] == a[1..] + b;
      if Step(m, a[0]).Some? {
        RunAppend(Step(m, a[0]).value, a[1..], b);
      }
    } else {
      assert a + b == b;
    }
  }
}
