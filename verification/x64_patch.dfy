/** Patching (the `patch_instructions` part of
    compiler/src/backend/x64_backend.rs): every variable lives in memory, and
    x64 has no two-operand instruction whose operands are both in memory, so
    such an instruction is routed through the scratch register `r15`. */
module X64Patch {
  import opened Ast
  import opened X64
  import opened X64Semantics
  import opened X64Backend

  const Scratch: Reg := Reg.R15

  /** A two-operand instruction whose operands are both variables, that
      is, both memory once the variables have homes. */
  predicate MemToMem(i: Instr) {
    (i.Add64? || i.Sub64? || i.Mov64?) && i.dst.Var? && i.src.Var?
  }

  predicate SomeMemToMem(code: seq<Instr>) {
    exists k | 0 <= k < |code| :: MemToMem(code[k])
  }

  /** The same two-operand instruction on other operands. */
  function WithOperands(i: Instr, d: Arg, s: Arg): (r: Instr)
    requires i.Add64? || i.Sub64? || i.Mov64?
    ensures r.Add64? == i.Add64? && r.Sub64? == i.Sub64? && r.Mov64? == i.Mov64?
    ensures r.dst == d && r.src == s
  {
    match i
    case Add64(_, _) => Instr.Add64(d, s)
    case Sub64(_, _) => Instr.Sub64(d, s)
    case Mov64(_, _) => Instr.Mov64(d, s)
  }

  /** One instruction: a memory-to-memory one loads its source into `r15`
      and then works from `r15`; any other is kept. */
  function PatchInstr(i: Instr): (r: seq<Instr>)
    ensures !SomeMemToMem(r)
    ensures !MemToMem(i) ==> r == [i]
  {
    if MemToMem(i) then [Instr.Mov64(Arg.Reg(Scratch), i.src), WithOperands(i, i.dst, Arg.Reg(Scratch))]
    else [i]
  }

  /** The patched block: no memory-to-memory instruction is left. */
  function Patched(code: seq<Instr>): (r: seq<Instr>)
    ensures !SomeMemToMem(r)
  {
    if |code| == 0 then []
    else
      var front, last := Patched(code[..|code| - 1]), PatchInstr(code[|code| - 1]);
      NoMemToMemConcat(front, last);
      front + last
  }

  /** A memory-to-memory `mov` between variables. */
  predicate MemToMemMov(i: Instr) {
    MemToMem(i) && i.Mov64?
  }

  /** `patch` as written: only a `mov` is patched; an `add` or a `sub`
      between two variables is kept. */
  function PatchInstrAsWritten(i: Instr): (r: seq<Instr>)
    ensures forall k | 0 <= k < |r| :: !MemToMemMov(r[k])
    ensures !MemToMemMov(i) ==> r == [i]
  {
    if MemToMemMov(i) then PatchInstr(i) else [i]
  }

  /** The patched block as written: no memory-to-memory `mov` is left. */
  function PatchedAsWritten(code: seq<Instr>): (r: seq<Instr>)
    ensures forall k | 0 <= k < |r| :: !MemToMemMov(r[k])
  {
    if |code| == 0 then []
    else
      var front, last := PatchedAsWritten(code[..|code| - 1]), PatchInstrAsWritten(code[|code| - 1]);
      assert forall k | 0 <= k < |front + last| :: (front + last)[k] == if k < |front| then front[k] else last[k - |front|];
      front + last
  }

  lemma NoMemToMemConcat(a: seq<Instr>, b: seq<Instr>)
    requires !SomeMemToMem(a) && !SomeMemToMem(b)
    ensures !SomeMemToMem(a + b)
  {
    forall k | 0 <= k < |a + b| ensures !MemToMem((a + b)[k]) {
      if k < |a| {
        assert (a + b)[k] == a[k];
      } else {
        assert (a + b)[k] == b[k - |a|];
      }
    }
  }

  /** `patch`: the loop over the block, with the flag that says whether
      anything was patched.  It patches as the corrected `Patched` does. */
  method Patch(code: seq<Instr>) returns (patched: bool, out: seq<Instr>)
    ensures out == Patched(code)
    ensures patched <==> SomeMemToMem(code)
  {
    out := [];
    patched := false;
    for k := 0 to |code|
      invariant out == Patched(code[..k])
      invariant patched <==> SomeMemToMem(code[..k])
    {
      assert code[..k + 1][..k] == code[..k];
      var i := code[k];
      if MemToMem(i) {
        out := out + [Instr.Mov64(Arg.Reg(Scratch), i.src), WithOperands(i, i.dst, Arg.Reg(Scratch))];
        patched := true;
      } else {
        out := out + [i];
      }
      assert SomeMemToMem(code[..k + 1]) <==> SomeMemToMem(code[..k]) || MemToMem(i) by {
        if MemToMem(i) {
          assert code[..k + 1][k] == i;
        }
        if SomeMemToMem(code[..k + 1]) {
          var j :| 0 <= j < k + 1 && MemToMem(code[..k + 1][j]);
          if j < k {
            assert code[..k][j] == code[..k + 1][j];
          }
        }
      }
    }
    assert code[..|code|] == code;
  }

  // ---------------------------------------------------------------------
  // What patching achieves

  lemma PatchedIndex(code: seq<Instr>, k: int)
    requires 0 <= k < |Patched(code)|
    ensures exists j | 0 <= j < |code| :: Patched(code)[k] in PatchInstr(code[j])
    decreases |code|
  {
    var n := |code| - 1;
    var front := Patched(code[..n]);
    if k < |front| {
      PatchedIndex(code[..n], k);
      var j :| 0 <= j < n && front[k] in PatchInstr(code[..n][j]);
      assert code[..n][j] == code[j];
    } else {
      assert Patched(code)[k] in PatchInstr(code[n]);
    }
  }

  /** A block with nothing to patch is kept as it is. */
  lemma {:induction false} PatchedKeeps(code: seq<Instr>)
    requires !SomeMemToMem(code)
    ensures Patched(code) == code
    decreases |code|
  {
    if |code| > 0 {
      var n := |code| - 1;
      assert !MemToMem(code[n]);
      assert !SomeMemToMem(code[..n]) by {
        forall j | 0 <= j < n ensures !MemToMem(code[..n][j]) {
          assert code[..n][j] == code[j];
        }
      }
      PatchedKeeps(code[..n]);
      assert code[..n] + [code[n]] == code;
    }
  }

  /** The patched code leaves the frame alone and does not return, like the
      code it patches. */
  lemma {:induction false} PatchedShape(code: seq<Instr>)
    requires AllFrameSafe(code) && NoRet(code)
    ensures AllFrameSafe(Patched(code)) && NoRet(Patched(code))
    decreases |code|
  {
    if |code| > 0 {
      var n := |code| - 1;
      assert AllFrameSafe(code[..n]) && NoRet(code[..n]) by {
        forall j | 0 <= j < n ensures code[..n][j] == code[j] { }
      }
      PatchedShape(code[..n]);
      var a, b := Patched(code[..n]), PatchInstr(code[n]);
      assert FrameSafe(code[n]);
      assert forall j | 0 <= j < |a + b| :: (a + b)[j] == if j < |a| then a[j] else b[j - |a|];
    }
  }

  /** Patching mentions no variable the block did not. */
  lemma {:induction false} PatchedNames(code: seq<Instr>)
    ensures CodeNames(Patched(code)) == CodeNames(code)
    decreases |code|
  {
    if |code| > 0 {
      var n := |code| - 1;
      PatchedNames(code[..n]);
      CodeNamesAppend(Patched(code[..n]), PatchInstr(code[n]));
      CodeNamesAppend(code[..n], [code[n]]);
      assert code[..n] + [code[n]] == code;
      var i := code[n];
      if MemToMem(i) {
        var p := PatchInstr(i);
        assert p[1..][1..] == [];
      } else {
        assert [i][1..] == [];
      }
      assert [i][1..] == [];
    }
  }

  /** A block with a memory-to-memory instruction mentions a variable. */
  lemma {:induction false} MemToMemNames(code: seq<Instr>)
    requires SomeMemToMem(code)
    ensures CodeNames(code) != {}
    decreases |code|
  {
    if MemToMem(code[0]) {
      assert code[0].dst.name in InstrNames(code[0]);
    } else {
      assert SomeMemToMem(code[1..]) by {
        var k :| 0 <= k < |code| && MemToMem(code[k]);
        assert code[1..][k - 1] == code[k];
      }
      MemToMemNames(code[1..]);
    }
  }

  // ---------------------------------------------------------------------
  // Patching keeps the meaning, except for what `r15` holds

  /** Two machines that agree on everything but `r15`. */
  predicate AgreeButScratch(m: Machine, n: Machine) {
    && m.vars == n.vars && m.mem == n.mem && m.input == n.input
    && m.regs - {Scratch} == n.regs - {Scratch}
  }

  lemma AgreeValue(m: Machine, n: Machine, a: Arg)
    requires AgreeButScratch(m, n) && !MentionsReg(a, Scratch)
    ensures Value(m, a) == Value(n, a)
  {
    if a.Reg? {
      assert a.reg in m.regs <==> a.reg in m.regs - {Scratch};
      assert a.reg in n.regs <==> a.reg in n.regs - {Scratch};
      if a.reg in m.regs {
        assert m.regs[a.reg] == (m.regs - {Scratch})[a.reg];
        assert n.regs[a.reg] == (n.regs - {Scratch})[a.reg];
      }
    }
  }

  lemma AgreeUpdate(x: map<Reg, int>, y: map<Reg, int>, r: Reg, v: int)
    requires x - {Scratch} == y - {Scratch}
    ensures x[r := v] - {Scratch} == y[r := v] - {Scratch}
  {
    var a, b := x[r := v] - {Scratch}, y[r := v] - {Scratch};
    forall q ensures q in a <==> q in b {
      assert q in x - {Scratch} <==> q in y - {Scratch};
    }
    forall q | q in a ensures a[q] == b[q] {
      if q != r {
        assert x[q] == (x - {Scratch})[q] && y[q] == (y - {Scratch})[q];
      }
    }
  }

  lemma AgreeWrite(m: Machine, n: Machine, a: Arg, v: int)
    requires AgreeButScratch(m, n) && Write(m, a, v).Some?
    ensures Write(n, a, v).Some? && AgreeButScratch(Write(m, a, v).value, Write(n, a, v).value)
  {
    if a.Reg? {
      AgreeUpdate(m.regs, n.regs, a.reg, v);
    }
  }

  lemma AgreeScratchWrite(m: Machine, v: int)
    ensures AgreeButScratch(m, m.(regs := m.regs[Scratch := v]))
  {
    assert m.regs[Scratch := v] - {Scratch} == m.regs - {Scratch};
  }

  /** One instruction and its patch, from machines that agree but for
      `r15`, end in machines that agree but for `r15`. */
  lemma PatchInstrSound(m: Machine, n: Machine, i: Instr)
    requires AgreeButScratch(m, n) && !InstrMentions(i, Scratch) && !i.Ret?
    requires Step(m, i).Some?
    ensures Run(n, PatchInstr(i)).Some?
    ensures AgreeButScratch(Step(m, i).value, Run(n, PatchInstr(i)).value)
  {
    if MemToMem(i) {
      MemToMemSound(m, n, i);
    } else {
      KeptSound(m, n, i);
    }
  }

  /** A memory-to-memory instruction goes through `r15`. */
  lemma MemToMemSound(m: Machine, n: Machine, i: Instr)
    requires AgreeButScratch(m, n) && !InstrMentions(i, Scratch) && !i.Ret?
    requires Step(m, i).Some? && MemToMem(i)
    ensures Run(n, PatchInstr(i)).Some?
    ensures AgreeButScratch(Step(m, i).value, Run(n, PatchInstr(i)).value)
  {
    var load := Instr.Mov64(Arg.Reg(Scratch), i.src);
    var op := WithOperands(i, i.dst, Arg.Reg(Scratch));
    RunTwo(n, load, op);
    AgreeValue(m, n, i.src);
    AgreeValue(m, n, i.dst);
    var n1 := Step(n, load).value;
    assert n1 == n.(regs := n.regs[Scratch := Value(m, i.src).value]);
    AgreeScratchWrite(n, Value(m, i.src).value);
    assert Value(n1, Arg.Reg(Scratch)) == Value(m, i.src);
    assert Value(n1, i.dst) == Value(m, i.dst);
    var v := if i.Add64? then Value(m, i.dst).value + Value(m, i.src).value
      else if i.Sub64? then Value(m, i.dst).value - Value(m, i.src).value
      else Value(m, i.src).value;
    assert Step(m, i) == Write(m, i.dst, v);
    assert Step(n1, op) == Write(n1, i.dst, v);
    AgreeWrite(m, n1, i.dst, v);
  }

  /** Any other instruction is kept as it is. */
  lemma KeptSound(m: Machine, n: Machine, i: Instr)
    requires AgreeButScratch(m, n) && !InstrMentions(i, Scratch) && !i.Ret?
    requires Step(m, i).Some? && !MemToMem(i)
    ensures Run(n, PatchInstr(i)).Some?
    ensures AgreeButScratch(Step(m, i).value, Run(n, PatchInstr(i)).value)
  {
    RunOne(n, i);
    match i
    case Add64(d, s) =>
      AgreeValue(m, n, d);
      AgreeValue(m, n, s);
      AgreeWrite(m, n, d, Value(m, d).value + Value(m, s).value);
    case Sub64(d, s) =>
      AgreeValue(m, n, d);
      AgreeValue(m, n, s);
      AgreeWrite(m, n, d, Value(m, d).value - Value(m, s).value);
    case Mov64(d, s) =>
      AgreeValue(m, n, s);
      AgreeWrite(m, n, d, Value(m, s).value);
    case Neg64(a) =>
      AgreeValue(m, n, a);
      AgreeWrite(m, n, a, 0 - Value(m, a).value);
    case Call(f, _) =>
      if f == ReadInt && |m.input| > 0 {
        AgreeUpdate(m.regs, n.regs, Reg.Rax, m.input[0]);
      }
    case Push(a) =>
      AgreeValue(m, n, a);
      AgreeValue(m, n, Arg.Reg(Reg.Rsp));
      AgreeUpdate(m.regs, n.regs, Reg.Rsp, m.regs[Reg.Rsp] - 8);
    case Pop(a) =>
      AgreeValue(m, n, Arg.Reg(Reg.Rsp));
      var sp := m.regs[Reg.Rsp];
      var m0, n0 := m.(regs := m.regs[Reg.Rsp := sp + 8]), n.(regs := n.regs[Reg.Rsp := sp + 8]);
      AgreeUpdate(m.regs, n.regs, Reg.Rsp, sp + 8);
      AgreeWrite(m0, n0, a, m.mem[sp]);
    case Jmp(_) =>
  }

  /** Patched code computes what the code computed, given that the code
      itself never uses `r15`: everything but `r15` ends the same. */
  lemma {:induction false} PatchedSound(m: Machine, n: Machine, code: seq<Instr>)
    requires AgreeButScratch(m, n) && NoneMention(code, Scratch) && NoRet(code)
    requires Run(m, code).Some?
    ensures Run(n, Patched(code)).Some?
    ensures AgreeButScratch(Run(m, code).value, Run(n, Patched(code)).value)
    decreases |code|
  {
    if |code| == 0 {
    } else {
      var k := |code| - 1;
      var front, last := code[..k], code[k];
      assert front + [last] == code;
      assert NoRet(front) && NoneMention(front, Scratch) by {
        forall j | 0 <= j < k ensures front[j] == code[j] { }
      }
      RunAppend(m, front, [last]);
      PatchedSound(m, n, front);
      var m1, n1 := Run(m, front).value, Run(n, Patched(front)).value;
      RunOne(m1, last);
      PatchInstrSound(m1, n1, last);
      assert NoRet(Patched(front)) by {
        forall j | 0 <= j < |Patched(front)| ensures !Patched(front)[j].Ret? {
          PatchedIndex(front, j);
          var i :| 0 <= i < |front| && Patched(front)[j] in PatchInstr(front[i]);
          assert !front[i].Ret?;
        }
      }
      RunAppend(n, Patched(front), PatchInstr(last));
    }
  }

  /** `(let ([a (read)]) (let ([b (read)]) (let ([c (+ a b)]) c)))` selects
      `c := a; c += b`.  As written the `add` keeps both operands in memory,
      which no x64 instruction encodes; the corrected patch leaves none. */
  lemma AddBetweenVariablesAsWritten()
    ensures var code := [Instr.Mov64(Arg.Var("c"), Arg.Var("a")), Instr.Add64(Arg.Var("c"), Arg.Var("b"))];
      && SomeMemToMem(PatchedAsWritten(code))
      && !SomeMemToMem(Patched(code))
  {
    var c, a, b := Arg.Var("c"), Arg.Var("a"), Arg.Var("b");
    var code := [Instr.Mov64(c, a), Instr.Add64(c, b)];
    assert code[..1] == [Instr.Mov64(c, a)];
    assert code[..1][..0] == [];
    assert PatchedAsWritten(code[..1]) == [] + PatchInstrAsWritten(Instr.Mov64(c, a));
    var written := PatchedAsWritten(code);
    assert written == PatchedAsWritten(code[..1]) + [Instr.Add64(c, b)];
    assert MemToMem(written[2]);
  }
}
