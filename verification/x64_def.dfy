/** The abstract syntax of x64 assembly the back end emits
    (compiler/src/backend/x64_def.rs).  Instructions take their operands
    in Intel order: the destination first. */
module X64 {

  datatype Reg =
    | Rsp | Rbp | Rax | Rbx
    | Rcx | Rdx | Rsi | Rdi
    | R8 | R9 | R10 | R11
    | R12 | R13 | R14 | R15

  /** An operand.  `Var` is a variable that has no home yet. */
  datatype Arg = Var(name: string) | Imm(n: int) | Reg(reg: Reg) | Deref(base: Reg, offset: int)

  /** Where a variable lives: a register, or an offset below `rbp`. */
  datatype VarLoc = Reg(reg: Reg) | Rbp(offset: int) | Undefined

  datatype Home = Home(name: string, loc: VarLoc)

  datatype Instr =
    | Add64(dst: Arg, src: Arg)
    | Sub64(dst: Arg, src: Arg)
    | Mov64(dst: Arg, src: Arg)
    | Neg64(arg: Arg)
    | Call(callee: string, arity: int)
    | Ret
    | Push(arg: Arg)
    | Pop(arg: Arg)
    | Jmp(dest: string)

  /** A compiled function: its blocks by label, and its variables' homes. */
  datatype Function = Function(blocks: map<string, seq<Instr>>, vars: seq<Home>)

  datatype X64Program = X64Program(external: set<string>, functions: map<string, Function>)
}
