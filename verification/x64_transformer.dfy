/** The per-function driver of the x64 back end
    (compiler/src/backend/x64_backend.rs): an `IRToX64Transformer` selects
    the instructions of every label, gives every variable a stack home,
    patches memory-to-memory instructions and wraps the entry block `.l1`
    in a frame; `ir_to_x64` runs one transformer per function.  The
    transformer selects and patches as the corrected `TailCode` and
    `Patched` do; the source's own rules are `TailCodeAsWritten` and
    `PatchedAsWritten`. */
module X64Transformer {
  import opened Ast
  import opened Explicate
  import opened IrSemantics
  import opened X64
  import opened X64Semantics
  import opened X64Backend
  import opened X64Patch

  // ---------------------------------------------------------------------
  // Sets collected into sequences

  ghost predicate Distinct<T>(s: seq<T>) {
    forall i, j | 0 <= i < j < |s| :: s[i] != s[j]
  }

  /** A `HashSet` collected into a `Vec`: every element once, in an order
      the model leaves open. */
  method SetToSeq<T(==)>(s: set<T>) returns (r: seq<T>)
    ensures forall x :: x in r <==> x in s
    ensures Distinct(r) && |r| == |s|
  {
    r := [];
    var todo := s;
    while todo != {}
      invariant todo <= s
      invariant forall x :: x in r <==> x in s - todo
      invariant Distinct(r) && |r| + |todo| == |s|
      decreases |todo|
    {
      var x :| x in todo;
      assert x !in r;
      assert |todo - {x}| == |todo| - 1;
      r := r + [x];
      todo := todo - {x};
    }
  }

  lemma {:induction false} DistinctCard<T>(s: seq<T>)
    requires Distinct(s)
    ensures |set x | x in s| == |s|
    decreases |s|
  {
    if |s| > 0 {
      var n := |s| - 1;
      DistinctCard(s[..n]);
      assert (set x | x in s) == (set x | x in s[..n]) + {s[n]};
      assert s[n] !in (set x | x in s[..n]);
    }
  }

  lemma {:induction false} DistinctCounts<T>(s: seq<T>, y: T)
    requires Distinct(s)
    ensures multiset(s)[y] <= 1
    decreases |s|
  {
    if |s| > 0 {
      var n := |s| - 1;
      assert s == s[..n] + [s[n]];
      assert Distinct(s[..n]);
      DistinctCounts(s[..n], y);
      if y == s[n] {
        assert y !in s[..n];
      }
    }
  }

  /** A reordering of a sequence without repeats has none either. */
  lemma PermutedDistinct<T>(r: seq<T>, s: seq<T>)
    requires multiset(r) == multiset(s) && Distinct(s)
    ensures Distinct(r)
  {
    forall i, j | 0 <= i < j < |r| ensures r[i] != r[j] {
      if r[i] == r[j] {
        assert r == r[..j] + [r[j]] + r[j + 1..];
        assert r[i] in r[..j];
        assert multiset(r)[r[j]] >= multiset(r[..j])[r[j]] + 1;
        DistinctCounts(s, r[j]);
      }
    }
  }

  // ---------------------------------------------------------------------
  // Homes

  /** The homes `handle_atom` records: a location yet to be decided. */
  function Unplaced(names: set<string>): set<Home> {
    set x | x in names :: Home(x, VarLoc.Undefined)
  }

  function HomeNames(hs: set<Home>): set<string> {
    set h | h in hs :: h.name
  }

  /** `natord::compare` on the names, as `sort_by` uses it. */
  function ByName(le: (string, string) -> bool): (Home, Home) -> bool {
    (a: Home, b: Home) => le(a.name, b.name)
  }

  lemma ByNamePreorder(le: (string, string) -> bool)
    requires TotalPreorder(le)
    ensures TotalPreorder(ByName(le))
  {
    forall a: Home, b: Home ensures ByName(le)(a, b) || ByName(le)(b, a) {
      assert le(a.name, b.name) || le(b.name, a.name);
    }
    forall a: Home, b: Home, c: Home | ByName(le)(a, b) && ByName(le)(b, c) ensures ByName(le)(a, c) {
      assert le(a.name, b.name) && le(b.name, c.name);
    }
  }

  /** Homes on the stack between `lo` (exclusive) and `hi`, 8 bytes apart. */
  ghost predicate OnStack(hs: set<Home>, lo: int, hi: int) {
    forall h | h in hs :: h.loc.Rbp? && lo < h.loc.offset <= hi && (h.loc.offset - lo) % 8 == 0
  }

  /** One home per name, and one name per location. */
  ghost predicate OnePerSlot(hs: set<Home>) {
    forall h1, h2 | h1 in hs && h2 in hs && (h1.name == h2.name || h1.loc == h2.loc) :: h1 == h2
  }

  /** Deeper slots hold names later in the order `le`. */
  ghost predicate SlotsOrdered(hs: set<Home>, le: (string, string) -> bool) {
    forall h1, h2 | h1 in hs && h2 in hs && h1.loc.Rbp? && h2.loc.Rbp? && h1.loc.offset < h2.loc.offset ::
      le(h1.name, h2.name)
  }

  ghost predicate Placed(hs: set<Home>, lo: int, hi: int, le: (string, string) -> bool) {
    OnStack(hs, lo, hi) && OnePerSlot(hs) && SlotsOrdered(hs, le)
  }

  /** The homes `assign_homes` builds from the sorted variables: the
      `j`-th one gets the slot `8 * (j + 1)` past `base`. */
  ghost predicate LaidOut(order: seq<Home>, found: seq<Home>, base: int) {
    && |found| == |order|
    && forall j | 0 <= j < |found| :: found[j] == Home(order[j].name, VarLoc.Rbp(base + 8 * (j + 1)))
  }

  lemma LayoutOnStack(order: seq<Home>, found: seq<Home>, base: int)
    requires LaidOut(order, found, base)
    ensures OnStack((set h | h in found), base, base + 8 * |order|)
  {
    forall h | h in found ensures h.loc.Rbp? && base < h.loc.offset <= base + 8 * |order| && (h.loc.offset - base) % 8 == 0 {
      var j :| 0 <= j < |found| && found[j] == h;
    }
  }

  lemma LayoutOnePerSlot(order: seq<Home>, found: seq<Home>, base: int)
    requires LaidOut(order, found, base)
    requires Distinct(order) && forall h | h in order :: h.loc.Undefined?
    ensures OnePerSlot(set h | h in found) && Distinct(found)
  {
    forall h1, h2 | h1 in found && h2 in found && (h1.name == h2.name || h1.loc == h2.loc) ensures h1 == h2 {
      var j1 :| 0 <= j1 < |found| && found[j1] == h1;
      var j2 :| 0 <= j2 < |found| && found[j2] == h2;
      if h1.name == h2.name {
        assert order[j1] in order && order[j2] in order;
        assert order[j1] == Home(order[j1].name, VarLoc.Undefined) == order[j2];
      }
      assert j1 == j2;
    }
  }

  lemma LayoutOrdered(order: seq<Home>, found: seq<Home>, base: int, le: (string, string) -> bool)
    requires LaidOut(order, found, base) && SortedBy(order, ByName(le))
    ensures SlotsOrdered((set h | h in found), le)
  {
    forall h1, h2 | h1 in found && h2 in found && h1.loc.Rbp? && h2.loc.Rbp? && h1.loc.offset < h2.loc.offset
      ensures le(h1.name, h2.name)
    {
      var j1 :| 0 <= j1 < |found| && found[j1] == h1;
      var j2 :| 0 <= j2 < |found| && found[j2] == h2;
      assert ByName(le)(order[j1], order[j2]);
    }
  }

  lemma LayoutNames(order: seq<Home>, found: seq<Home>, base: int)
    requires LaidOut(order, found, base)
    ensures HomeNames(set h | h in found) == set h | h in order :: h.name
  {
    var hs := set h | h in found;
    forall x ensures x in HomeNames(hs) <==> x in set h | h in order :: h.name {
      if x in HomeNames(hs) {
        var h :| h in hs && h.name == x;
        var j :| 0 <= j < |found| && found[j] == h;
        assert order[j].name == x;
      }
      if x in set h | h in order :: h.name {
        var h :| h in order && h.name == x;
        var j :| 0 <= j < |order| && order[j] == h;
        assert found[j] in hs;
      }
    }
  }

  /** `assign_homes` on variables all yet to be placed: whatever order the
      set gave them, once sorted and laid out every name has one slot, the
      slots fill the space from `base`, and deeper slots hold later names. */
  lemma AssignedHomes(vars: set<Home>, unsorted: seq<Home>, order: seq<Home>, found: seq<Home>,
                      base: int, le: (string, string) -> bool)
    requires TotalPreorder(le) && forall h | h in vars :: h.loc.Undefined?
    requires (forall h :: h in unsorted <==> h in vars) && Distinct(unsorted) && |unsorted| == |vars|
    requires order == SortBy(unsorted, ByName(le))
    requires LaidOut(order, found, base)
    ensures Placed((set h | h in found), base, base + 8 * |vars|, le)
    ensures HomeNames(set h | h in found) == HomeNames(vars)
    ensures |set h | h in found| == |vars| == |order|
  {
    ByNamePreorder(le);
    SortBySorted(unsorted, ByName(le));
    PermutedDistinct(order, unsorted);
    assert |order| == |unsorted| by {
      assert |multiset(order)| == |multiset(unsorted)|;
    }
    forall h | h in order ensures h.loc.Undefined? {
      assert h in multiset(order);
    }
    LayoutOnStack(order, found, base);
    LayoutOnePerSlot(order, found, base);
    LayoutOrdered(order, found, base, le);
    LayoutNames(order, found, base);
    DistinctCard(found);
    forall x ensures x in (set h | h in order :: h.name) <==> x in HomeNames(vars) {
      if x in HomeNames(vars) {
        var h :| h in vars && h.name == x;
        assert h in multiset(unsorted);
        assert h in multiset(order);
      }
      if x in (set h | h in order :: h.name) {
        var h :| h in order && h.name == x;
        assert h in multiset(order);
      }
    }
  }

  // ---------------------------------------------------------------------
  // The frame around the entry block

  /** `push r15` when `r15` is used, then `push rbp; mov rbp, rsp` and
      `sub rsp, dec` when there is something to allocate. */
  function Prologue(dec: int, save: bool): seq<Instr> {
    (if save then [Instr.Push(Arg.Reg(Scratch))] else [])
    + [Instr.Push(Arg.Reg(Reg.Rbp)), Instr.Mov64(Arg.Reg(Reg.Rbp), Arg.Reg(Reg.Rsp))]
    + (if dec > 0 then [Instr.Sub64(Arg.Reg(Reg.Rsp), Arg.Imm(dec))] else [])
  }

  /** `mov rsp, rbp; pop rbp`, and `pop r15` when it was pushed. */
  function Epilogue(save: bool): seq<Instr> {
    [Instr.Mov64(Arg.Reg(Reg.Rsp), Arg.Reg(Reg.Rbp)), Instr.Pop(Arg.Reg(Reg.Rbp))]
    + (if save then [Instr.Pop(Arg.Reg(Scratch))] else [])
  }

  /** The entry block: the body inside the frame when one is needed, and
      `ret` in any case. */
  function Framed(body: seq<Instr>, prologue: bool, dec: int, save: bool): seq<Instr> {
    if prologue then Prologue(dec, save) + body + Epilogue(save) + [Instr.Ret]
    else body + [Instr.Ret]
  }

  /** Code that leaves the frame alone keeps `rsp`, `rbp` and the stack. */
  lemma {:induction false} FrameSafeRun(m: Machine, body: seq<Instr>)
    requires AllFrameSafe(body) && Run(m, body).Some?
    ensures var e := Run(m, body).value;
      && e.mem == m.mem
      && (Reg.Rsp in e.regs <==> Reg.Rsp in m.regs) && (Reg.Rbp in e.regs <==> Reg.Rbp in m.regs)
      && (Reg.Rsp in m.regs ==> e.regs[Reg.Rsp] == m.regs[Reg.Rsp])
      && (Reg.Rbp in m.regs ==> e.regs[Reg.Rbp] == m.regs[Reg.Rbp])
    decreases |body|
  {
    if |body| > 0 {
      var i := body[0];
      assert FrameSafe(i);
      var m1 := Step(m, i).value;
      assert m1.mem == m.mem && (Reg.Rsp in m1.regs <==> Reg.Rsp in m.regs) && (Reg.Rbp in m1.regs <==> Reg.Rbp in m.regs);
      assert Reg.Rsp in m.regs ==> m1.regs[Reg.Rsp] == m.regs[Reg.Rsp];
      assert Reg.Rbp in m.regs ==> m1.regs[Reg.Rbp] == m.regs[Reg.Rbp];
      assert AllFrameSafe(body[1..]) by {
        forall k | 0 <= k < |body[1..]| ensures body[1..][k] == body[k + 1] { }
      }
      FrameSafeRun(m1, body[1..]);
    }
  }

  /** What the prologue leaves: `rbp` points at the saved `rbp`, the saved
      `r15` sits above it, and `rsp` is `dec` below `rbp`. */
  lemma PrologueRun(m: Machine, dec: int, save: bool)
    requires Reg.Rsp in m.regs && Reg.Rbp in m.regs && (save ==> Scratch in m.regs)
    ensures Run(m, Prologue(dec, save)).Some?
    ensures var e := Run(m, Prologue(dec, save)).value;
      var bp := m.regs[Reg.Rsp] - (if save then 16 else 8);
      && e.vars == m.vars && e.input == m.input
      && Reg.Rbp in e.regs && e.regs[Reg.Rbp] == bp
      && Reg.Rsp in e.regs && e.regs[Reg.Rsp] == bp - (if dec > 0 then dec else 0)
      && bp in e.mem && e.mem[bp] == m.regs[Reg.Rbp]
      && (save ==> bp + 8 in e.mem && e.mem[bp + 8] == m.regs[Scratch])
  {
    var pushBp, setBp := Instr.Push(Arg.Reg(Reg.Rbp)), Instr.Mov64(Arg.Reg(Reg.Rbp), Arg.Reg(Reg.Rsp));
    var alloc := if dec > 0 then [Instr.Sub64(Arg.Reg(Reg.Rsp), Arg.Imm(dec))] else [];
    var m0 := if save then Step(m, Instr.Push(Arg.Reg(Scratch))).value else m;
    var pre := if save then [Instr.Push(Arg.Reg(Scratch))] else [];
    if save {
      RunOne(m, Instr.Push(Arg.Reg(Scratch)));
    }
    assert Run(m, pre) == Some(m0);
    RunTwo(m0, pushBp, setBp);
    var m2 := Run(m0, [pushBp, setBp]).value;
    assert NoRet(pre) && NoRet([pushBp, setBp]);
    RunAppend(m, pre, [pushBp, setBp]);
    assert NoRet(pre + [pushBp, setBp]);
    RunAppend(m, pre + [pushBp, setBp], alloc);
    assert Prologue(dec, save) == pre + [pushBp, setBp] + alloc;
    if dec > 0 {
      RunOne(m2, alloc[0]);
    }
  }

  /** What the epilogue and `ret` leave: `rsp` back above the saved
      values, `rbp` and a saved `r15` reloaded from the stack. */
  lemma EpilogueRun(b: Machine, save: bool)
    requires Reg.Rbp in b.regs
    requires b.regs[Reg.Rbp] in b.mem && (save ==> b.regs[Reg.Rbp] + 8 in b.mem)
    ensures Run(b, Epilogue(save) + [Instr.Ret]).Some?
    ensures var r := Run(b, Epilogue(save) + [Instr.Ret]).value;
      var bp := b.regs[Reg.Rbp];
      && Reg.Rsp in r.regs && r.regs[Reg.Rsp] == bp + (if save then 16 else 8)
      && Reg.Rbp in r.regs && r.regs[Reg.Rbp] == b.mem[bp]
      && (save ==> Scratch in r.regs && r.regs[Scratch] == b.mem[bp + 8])
      && r.vars == b.vars && r.input == b.input
      && (Reg.Rax in r.regs <==> Reg.Rax in b.regs)
      && (Reg.Rax in b.regs ==> r.regs[Reg.Rax] == b.regs[Reg.Rax])
  {
    var bp := b.regs[Reg.Rbp];
    var restore := [Instr.Mov64(Arg.Reg(Reg.Rsp), Arg.Reg(Reg.Rbp)), Instr.Pop(Arg.Reg(Reg.Rbp))];
    RestoreFrame(b);
    var b2 := Run(b, restore).value;
    assert NoRet(restore);
    if save {
      PopScratch(b, b2, bp);
      assert Epilogue(save) + [Instr.Ret] == restore + [Instr.Pop(Arg.Reg(Scratch)), Instr.Ret];
      RunAppend(b, restore, [Instr.Pop(Arg.Reg(Scratch)), Instr.Ret]);
    } else {
      assert Epilogue(save) + [Instr.Ret] == restore + [Instr.Ret];
      RunAppend(b, restore, [Instr.Ret]);
    }
  }

  lemma PopStep(m: Machine, r: Reg)
    requires Reg.Rsp in m.regs && m.regs[Reg.Rsp] in m.mem
    ensures var sp := m.regs[Reg.Rsp];
      Step(m, Instr.Pop(Arg.Reg(r))) == Some(m.(regs := m.regs[Reg.Rsp := sp + 8][r := m.mem[sp]]))
  {
  }

  /** `mov rsp, rbp; pop rbp`. */
  lemma RestoreFrame(b: Machine)
    requires Reg.Rbp in b.regs && b.regs[Reg.Rbp] in b.mem
    ensures Run(b, [Instr.Mov64(Arg.Reg(Reg.Rsp), Arg.Reg(Reg.Rbp)), Instr.Pop(Arg.Reg(Reg.Rbp))]).Some?
    ensures var r := Run(b, [Instr.Mov64(Arg.Reg(Reg.Rsp), Arg.Reg(Reg.Rbp)), Instr.Pop(Arg.Reg(Reg.Rbp))]).value;
      var bp := b.regs[Reg.Rbp];
      && r.mem == b.mem && r.vars == b.vars && r.input == b.input
      && Reg.Rsp in r.regs && r.regs[Reg.Rsp] == bp + 8
      && Reg.Rbp in r.regs && r.regs[Reg.Rbp] == b.mem[bp]
      && (Reg.Rax in r.regs <==> Reg.Rax in b.regs)
      && (Reg.Rax in b.regs ==> r.regs[Reg.Rax] == b.regs[Reg.Rax])
  {
    var bp := b.regs[Reg.Rbp];
    var restoreSp, popBp := Instr.Mov64(Arg.Reg(Reg.Rsp), Arg.Reg(Reg.Rbp)), Instr.Pop(Arg.Reg(Reg.Rbp));
    var b1 := b.(regs := b.regs[Reg.Rsp := bp]);
    assert Step(b, restoreSp) == Some(b1);
    var b2 := b1.(regs := b1.regs[Reg.Rsp := bp + 8][Reg.Rbp := b.mem[bp]]);
    assert Step(b1, popBp) == Some(b2);
    RunTwo(b, restoreSp, popBp);
  }

  /** `pop r15; ret` after the frame is gone. */
  lemma PopScratch(b: Machine, b2: Machine, bp: int)
    requires Reg.Rsp in b2.regs && b2.regs[Reg.Rsp] == bp + 8 && b2.mem == b.mem && bp + 8 in b.mem
    ensures Run(b2, [Instr.Pop(Arg.Reg(Scratch)), Instr.Ret])
      == Some(b2.(regs := b2.regs[Reg.Rsp := bp + 16][Scratch := b.mem[bp + 8]]))
  {
    var pop := Instr.Pop(Arg.Reg(Scratch));
    var b3 := b2.(regs := b2.regs[Reg.Rsp := bp + 16][Scratch := b.mem[bp + 8]]);
    PopStep(b2, Scratch);
    var code := [pop, Instr.Ret];
    assert code[1..] == [Instr.Ret];
    assert Run(b2, code) == Run(b3, [Instr.Ret]);
  }

  /** The entry block's frame: the prologue and epilogue around a body that
      leaves the frame alone run exactly when the body does, and restore
      `rsp`, `rbp` and a saved `r15`; the variables, `rax` and the input are
      what the body leaves. */
  lemma FramedRestores(m: Machine, body: seq<Instr>, dec: int, save: bool)
    requires AllFrameSafe(body) && NoRet(body)
    requires Reg.Rsp in m.regs && Reg.Rbp in m.regs && (save ==> Scratch in m.regs)
    ensures Run(m, Prologue(dec, save)).Some?
    ensures var inner := Run(Run(m, Prologue(dec, save)).value, body);
      var outer := Run(m, Framed(body, true, dec, save));
      && (outer.Some? <==> inner.Some?)
      && (outer.Some? ==>
            && Reg.Rsp in outer.value.regs && Reg.Rbp in outer.value.regs
            && (save ==> Scratch in outer.value.regs)
            && outer.value.regs[Reg.Rsp] == m.regs[Reg.Rsp]
            && outer.value.regs[Reg.Rbp] == m.regs[Reg.Rbp]
            && (save ==> outer.value.regs[Scratch] == m.regs[Scratch])
            && outer.value.vars == inner.value.vars
            && outer.value.input == inner.value.input
            && (Reg.Rax in outer.value.regs <==> Reg.Rax in inner.value.regs)
            && (Reg.Rax in inner.value.regs ==> outer.value.regs[Reg.Rax] == inner.value.regs[Reg.Rax]))
  {
    PrologueRun(m, dec, save);
    var pro := Prologue(dec, save);
    var e := Run(m, pro).value;
    assert NoRet(pro);
    RunAppend(m, pro, body);
    assert NoRet(pro + body) by {
      assert forall k | 0 <= k < |pro + body| :: (pro + body)[k] == if k < |pro| then pro[k] else body[k - |pro|];
    }
    var rest := Epilogue(save) + [Instr.Ret];
    RunAppend(m, pro + body, rest);
    assert Framed(body, true, dec, save) == (pro + body) + rest;
    if Run(e, body).Some? {
      var b := Run(e, body).value;
      FrameSafeRun(e, body);
      EpilogueRun(b, save);
    }
  }

  // ---------------------------------------------------------------------
  // A function's labels

  predicate AllSelectable(labels: map<string, Tail>) {
    forall l | l in labels :: SelectableTail(labels[l])
  }

  /** The variables of the given labels. */
  function LabelNames(labels: map<string, Tail>, done: set<string>): set<string>
    requires AllSelectable(labels) && done <= labels.Keys
  {
    set l, x | l in done && x in TailNames(labels[l]) :: x
  }

  /** The runtime functions the given labels call. */
  function LabelExternals(labels: map<string, Tail>, done: set<string>): set<string>
    requires done <= labels.Keys
  {
    set l, x | l in done && x in TailExternals(labels[l]) :: x
  }

  lemma LabelNamesAdd(labels: map<string, Tail>, done: set<string>, key: string)
    requires AllSelectable(labels) && done <= labels.Keys && key in labels
    ensures LabelNames(labels, done + {key}) == LabelNames(labels, done) + TailNames(labels[key])
  {
  }

  lemma LabelExternalsAdd(labels: map<string, Tail>, done: set<string>, key: string)
    requires done <= labels.Keys && key in labels
    ensures LabelExternals(labels, done + {key}) == LabelExternals(labels, done) + TailExternals(labels[key])
  {
  }

  /** Some label selects a memory-to-memory instruction, so `r15` is used. */
  predicate UsesScratch(labels: map<string, Tail>)
    requires AllSelectable(labels)
  {
    exists l | l in labels :: SomeMemToMem(TailCode(labels[l]))
  }

  /** What `transform` makes of a function: every label's selected and
      patched code, the entry block framed with room for one 8-byte slot
      per variable, and a home on the stack for every variable. */
  ghost predicate Compiled(cfunc: IRFunction, f: Function, le: (string, string) -> bool)
    requires AllSelectable(cfunc.labels)
  {
    var labels := cfunc.labels;
    var homes := set h | h in f.vars;
    var prologue := |f.vars| > 0;
    && f.blocks.Keys == labels.Keys
    && Distinct(f.vars)
    && HomeNames(homes) == LabelNames(labels, labels.Keys)
    && Placed(homes, 0, 8 * |f.vars|, le)
    && (forall l | l in labels && l != EntryLabel :: f.blocks[l] == Patched(TailCode(labels[l])))
    && (EntryLabel in labels ==>
          f.blocks[EntryLabel] == Framed(Patched(TailCode(labels[EntryLabel])), prologue, 8 * |f.vars|, UsesScratch(labels) && prologue))
  }

  /** Some of the given blocks needs `r15`. */
  predicate NeedScratch(blocks: map<string, seq<Instr>>, keys: set<string>)
    requires keys <= blocks.Keys
  {
    exists l | l in keys :: SomeMemToMem(blocks[l])
  }

  lemma NeedScratchAdd(blocks: map<string, seq<Instr>>, keys: set<string>, key: string)
    requires keys <= blocks.Keys && key in blocks
    ensures NeedScratch(blocks, keys + {key}) == (NeedScratch(blocks, keys) || SomeMemToMem(blocks[key]))
  {
    if NeedScratch(blocks, keys + {key}) && !SomeMemToMem(blocks[key]) {
      var l :| l in keys + {key} && SomeMemToMem(blocks[l]);
      assert l in keys;
    }
  }

  // ---------------------------------------------------------------------
  // The transformer

  class IRToX64Transformer {
    var externals: set<string>
    const cfunc: IRFunction
    var blocks: map<string, seq<Instr>>
    var vars: set<Home>
    var rbpOffset: int
    var prologueNecessary: bool
    const memoryPatch: Reg
    var mpUsed: bool

    /** The state `new` leaves, which `transform` starts from. */
    predicate Fresh()
      reads this
    {
      externals == {} && blocks == map[] && vars == {} && rbpOffset == 0
      && !prologueNecessary && memoryPatch == Scratch && !mpUsed
    }

    constructor (cfunc: IRFunction)
      ensures this.cfunc == cfunc && Fresh()
    {
      externals := {};
      this.cfunc := cfunc;
      blocks := map[];
      vars := {};
      rbpOffset := 0;
      prologueNecessary := false;
      memoryPatch := Scratch;
      mpUsed := false;
    }

    /** `handle_atom`: the operand of an atom, recording a variable. */
    method HandleAtom(a: Atm) returns (arg: Arg)
      modifies this`vars
      ensures arg == ArgOf(a)
      ensures vars == old(vars) + Unplaced(AtmNames(a))
    {
      match a
      case Int(n) =>
        arg := Arg.Imm(n);
      case Var(name) =>
        vars := vars + {Home(name, VarLoc.Undefined)};
        arg := Arg.Var(name);
    }

    /** `handle_stmt`: appends the code of one assignment. */
    method HandleStmt(s: Stmt, blk: seq<Instr>) returns (blk': seq<Instr>)
      requires Selectable(s.exp)
      modifies this`vars, this`externals
      ensures blk' == blk + StmtCode(s)
      ensures vars == old(vars) + Unplaced(AtmNames(s.target) + ExpNames(s.exp))
      ensures externals == old(externals) + (if ReadsInput(s.exp) then {ReadInt} else {})
    {
      var assignee := HandleAtom(s.target);
      match s.exp
      case Atm(a) =>
        var source := HandleAtom(a);
        blk' := blk + [Instr.Mov64(assignee, source)];
      case Prim(op, args) =>
        if op == "read" {
          externals := externals + {ReadInt};
          blk' := blk + [Instr.Call(ReadInt, 0)] + [Instr.Mov64(assignee, RaxArg)];
        } else if op == "-" {
          var source := HandleAtom(args[0]);
          blk' := blk + [Instr.Mov64(assignee, source)] + [Instr.Neg64(assignee)];
        } else {
          var left := HandleAtom(args[0]);
          var right := HandleAtom(args[1]);
          if AddsToItself(s) {
            blk' := blk + [Instr.Add64(assignee, left)];
          } else {
            blk' := blk + [Instr.Mov64(assignee, left)] + [Instr.Add64(assignee, right)];
          }
        }
    }

    /** `select_instruction`: appends the code of a tail, statement by
        statement, and then its return. */
    method SelectInstruction(t: Tail, blk: seq<Instr>) returns (blk': seq<Instr>)
      requires SelectableTail(t)
      modifies this`vars, this`externals
      ensures blk' == blk + TailCode(t)
      ensures vars == old(vars) + Unplaced(TailNames(t))
      ensures externals == old(externals) + TailExternals(t)
      decreases t
    {
      match t
      case Seq(s, next) =>
        ghost var vars0, externals0 := vars, externals;
        var mid := HandleStmt(s, blk);
        ghost var vars1, externals1 := vars, externals;
        blk' := SelectInstruction(next, mid);
        SeqArmCode(s, next, blk, mid, blk');
        SeqArmVars(s, next, vars0, vars1, vars);
        SeqArmExternals(s, next, externals0, externals1, externals);
      case Return(e) =>
        blk' := SelectReturn(e, blk);
    }

    /** The `Return` arm of `select_instruction`: the value of the
        expression left in `rax`. */
    method SelectReturn(e: Exp, blk: seq<Instr>) returns (blk': seq<Instr>)
      requires Selectable(e)
      modifies this`vars, this`externals
      ensures blk' == blk + ReturnCode(e)
      ensures vars == old(vars) + Unplaced(ExpNames(e))
      ensures externals == old(externals) + (if ReadsInput(e) then {ReadInt} else {})
    {
      match e
      case Atm(a) =>
        var theAtom := HandleAtom(a);
        blk' := blk + [Instr.Mov64(RaxArg, theAtom)];
      case Prim(op, args) =>
        if op == "read" {
          externals := externals + {ReadInt};
          blk' := blk + [Instr.Call(ReadInt, 0)];
        } else if op == "-" {
          var theAtm := HandleAtom(args[0]);
          blk' := blk + [Instr.Mov64(RaxArg, theAtm)] + [Instr.Neg64(RaxArg)];
        } else {
          var left := HandleAtom(args[0]);
          var right := HandleAtom(args[1]);
          UnplacedUnion(AtmNames(args[0]), AtmNames(args[1]));
          blk' := blk + [Instr.Mov64(RaxArg, left)] + [Instr.Add64(RaxArg, right)];
        }
    }

    /** `next_rbp_offset`: the next 8-byte slot below `rbp`. */
    method NextRbpOffset() returns (offset: int)
      modifies this`rbpOffset
      ensures rbpOffset == old(rbpOffset) + 8 && offset == rbpOffset
    {
      rbpOffset := rbpOffset + 8;
      offset := rbpOffset;
    }

    /** `assign_homes`: the variables sorted by name, each given the next
        slot; the frame becomes necessary when there is any. */
    method AssignHomes(le: (string, string) -> bool)
      requires TotalPreorder(le)
      requires forall h | h in vars :: h.loc.Undefined?
      modifies this`vars, this`rbpOffset, this`prologueNecessary
      ensures rbpOffset == old(rbpOffset) + 8 * |old(vars)|
      ensures prologueNecessary == (old(prologueNecessary) || old(vars) != {})
      ensures HomeNames(vars) == HomeNames(old(vars)) && |vars| == |old(vars)|
      ensures old(vars) != {} ==> Placed(vars, old(rbpOffset), rbpOffset, le)
    {
      ghost var before := vars;
      var unsorted := SetToSeq(vars);
      var theVars := SortBy(unsorted, ByName(le));
      ghost var base := rbpOffset;
      var foundHomes: seq<Home> := [];
      for i := 0 to |theVars|
        invariant vars == old(vars) && prologueNecessary == old(prologueNecessary)
        invariant rbpOffset == base + 8 * i && |foundHomes| == i
        invariant forall j | 0 <= j < i :: foundHomes[j] == Home(theVars[j].name, VarLoc.Rbp(base + 8 * (j + 1)))
      {
        var offset := NextRbpOffset();
        foundHomes := foundHomes + [Home(theVars[i].name, VarLoc.Rbp(offset))];
      }
      AssignedHomes(before, unsorted, theVars, foundHomes, base, le);
      assert |foundHomes| == |before|;
      if |foundHomes| > 0 {
        prologueNecessary := true;
        vars := set h | h in foundHomes;
      }
    }

    /** `patch_instructions`: every block patched; `mp_used` records that
        some block needed `r15`. */
    method PatchInstructions()
      modifies this`blocks, this`mpUsed
      ensures blocks.Keys == old(blocks).Keys
      ensures forall l | l in blocks :: blocks[l] == Patched(old(blocks)[l])
      ensures mpUsed == (old(mpUsed) || NeedScratch(old(blocks), old(blocks).Keys))
    {
      ghost var before := blocks;
      ghost var done: set<string> := {};
      var todo := blocks.Keys;
      while todo != {}
        invariant todo <= before.Keys && done == before.Keys - todo && blocks.Keys == before.Keys
        invariant forall l | l in todo :: blocks[l] == before[l]
        invariant forall l | l in done :: blocks[l] == Patched(before[l])
        invariant mpUsed == (old(mpUsed) || NeedScratch(before, done))
        decreases todo
      {
        var key :| key in todo;
        var patched, instructions := Patch(blocks[key]);
        if patched {
          mpUsed := true;
          blocks := blocks[key := instructions];
        } else {
          PatchedKeeps(blocks[key]);
        }
        NeedScratchAdd(before, done, key);
        todo := todo - {key};
        done := done + {key};
      }
    }

    /** The stack space for the homes: 8 bytes per home on the stack. */
    method RspDecrement() returns (dec: int)
      ensures dec == 8 * |set h | h in vars && h.loc.Rbp?|
    {
      dec := 0;
      var todo := vars;
      ghost var counted: set<Home> := {};
      while todo != {}
        invariant todo <= vars && counted == set h | h in vars - todo && h.loc.Rbp?
        invariant dec == 8 * |counted|
        decreases todo
      {
        var home :| home in todo;
        assert home !in counted;
        if home.loc.Rbp? {
          dec := dec + 8;
          counted := counted + {home};
        }
        todo := todo - {home};
      }
      assert vars - todo == vars;
    }

    /** The loop of `transform` that selects every label into its block. */
    method SelectAll()
      requires blocks == map[] && vars == {} && externals == {}
      requires AllSelectable(cfunc.labels)
      modifies this`blocks, this`vars, this`externals
      ensures blocks.Keys == cfunc.labels.Keys
      ensures forall l | l in blocks :: blocks[l] == TailCode(cfunc.labels[l])
      ensures vars == Unplaced(LabelNames(cfunc.labels, cfunc.labels.Keys))
      ensures externals == LabelExternals(cfunc.labels, cfunc.labels.Keys)
    {
      var labels := cfunc.labels;
      ghost var done: set<string> := {};
      var todo := labels.Keys;
      while todo != {}
        invariant todo <= labels.Keys && done == labels.Keys - todo && blocks.Keys == done
        invariant forall l | l in blocks :: blocks[l] == TailCode(labels[l])
        invariant vars == Unplaced(LabelNames(labels, done))
        invariant externals == LabelExternals(labels, done)
        decreases todo
      {
        var key :| key in todo;
        var block := SelectInstruction(labels[key], []);
        blocks := blocks[key := block];
        LabelNamesAdd(labels, done, key);
        UnplacedUnion(LabelNames(labels, done), TailNames(labels[key]));
        LabelExternalsAdd(labels, done, key);
        todo := todo - {key};
        done := done + {key};
      }
    }

    /** The end of `transform`: the entry block wrapped in the frame when
        one is necessary, with room for every home, and closed by `ret`. */
    method WrapEntry()
      requires EntryLabel in blocks && memoryPatch == Scratch
      requires forall h | h in vars :: h.loc.Rbp?
      modifies this`blocks
      ensures blocks == old(blocks)[EntryLabel := Framed(old(blocks)[EntryLabel], prologueNecessary, 8 * |vars|, mpUsed)]
    {
      var fnStart := blocks[EntryLabel];
      if prologueNecessary {
        var dec := RspDecrement();
        assert (set h | h in vars && h.loc.Rbp?) == vars;
        fnStart := FrameEntry(fnStart, dec, mpUsed, memoryPatch);
      } else {
        fnStart := fnStart + [Instr.Ret];
      }
      blocks := blocks[EntryLabel := fnStart];
    }

    /** The first half of `transform`: every label selected, the homes
        assigned and the blocks patched. */
    method SelectPlacePatch(le: (string, string) -> bool)
      requires Fresh() && TotalPreorder(le) && AllSelectable(cfunc.labels)
      modifies this`blocks, this`vars, this`externals, this`rbpOffset, this`prologueNecessary, this`mpUsed
      ensures blocks.Keys == cfunc.labels.Keys
      ensures forall l | l in blocks :: blocks[l] == Patched(TailCode(cfunc.labels[l]))
      ensures mpUsed == UsesScratch(cfunc.labels)
      ensures HomeNames(vars) == LabelNames(cfunc.labels, cfunc.labels.Keys)
      ensures |vars| == |LabelNames(cfunc.labels, cfunc.labels.Keys)|
      ensures prologueNecessary == (vars != {})
      ensures vars != {} ==> Placed(vars, 0, 8 * |vars|, le)
      ensures externals == LabelExternals(cfunc.labels, cfunc.labels.Keys)
    {
      SelectPlace(le);
      ghost var selected := blocks;
      PatchInstructions();
      ScratchUse(cfunc.labels, selected);
    }

    /** Every label selected and the homes assigned. */
    method SelectPlace(le: (string, string) -> bool)
      requires Fresh() && TotalPreorder(le) && AllSelectable(cfunc.labels)
      modifies this`blocks, this`vars, this`externals, this`rbpOffset, this`prologueNecessary
      ensures blocks.Keys == cfunc.labels.Keys
      ensures forall l | l in blocks :: blocks[l] == TailCode(cfunc.labels[l])
      ensures HomeNames(vars) == LabelNames(cfunc.labels, cfunc.labels.Keys)
      ensures |vars| == |LabelNames(cfunc.labels, cfunc.labels.Keys)|
      ensures prologueNecessary == (vars != {})
      ensures vars != {} ==> Placed(vars, 0, 8 * |vars|, le)
      ensures externals == LabelExternals(cfunc.labels, cfunc.labels.Keys)
      ensures !mpUsed
    {
      SelectAll();
      ghost var names := LabelNames(cfunc.labels, cfunc.labels.Keys);
      UnplacedNames(names);
      AssignHomes(le);
    }

    /** `transform`: selects every label, assigns homes, patches, and wraps
        the entry block in its frame. */
    method Transform(le: (string, string) -> bool) returns (f: Function)
      requires Fresh() && TotalPreorder(le)
      requires AllSelectable(cfunc.labels) && EntryLabel in cfunc.labels
      modifies this
      ensures Compiled(cfunc, f, le)
      ensures externals == LabelExternals(cfunc.labels, cfunc.labels.Keys)
      ensures mpUsed ==> prologueNecessary
    {
      SelectPlacePatch(le);
      ghost var patched := blocks;
      ghost var placed := vars;
      if mpUsed {
        ScratchNeedsHomes(cfunc.labels);
      }
      WrapEntry();
      var homes := SetToSeq(vars);
      f := Function(blocks, homes);
      TransformCompiled(cfunc, patched, placed, f, mpUsed, le);
    }
  }

  /** The entry block wrapped as `transform` does it, by insertions at the
      front and pushes at the end. */
  method FrameEntry(body: seq<Instr>, dec: int, save: bool, patchReg: Reg) returns (block: seq<Instr>)
    requires patchReg == Scratch
    ensures block == Prologue(dec, save) + body + Epilogue(save) + [Instr.Ret]
  {
    var fnStart := [Instr.Push(Arg.Reg(Reg.Rbp))] + body;
    fnStart := fnStart[..1] + [Instr.Mov64(Arg.Reg(Reg.Rbp), Arg.Reg(Reg.Rsp))] + fnStart[1..];
    if dec > 0 {
      fnStart := fnStart[..2] + [Instr.Sub64(Arg.Reg(Reg.Rsp), Arg.Imm(dec))] + fnStart[2..];
    }
    var fnEnd := [Instr.Mov64(Arg.Reg(Reg.Rsp), Arg.Reg(Reg.Rbp))];
    fnEnd := fnEnd + [Instr.Pop(Arg.Reg(Reg.Rbp))];
    if save {
      fnStart := [Instr.Push(Arg.Reg(patchReg))] + fnStart;
      fnEnd := fnEnd + [Instr.Pop(Arg.Reg(patchReg))];
    }
    fnEnd := fnEnd + [Instr.Ret];
    block := fnStart + fnEnd;
  }

  /** A label that needs `r15` mentions a variable, so the function has a
      home and therefore a frame to save `r15` in. */
  lemma ScratchNeedsHomes(labels: map<string, Tail>)
    requires AllSelectable(labels) && UsesScratch(labels)
    ensures LabelNames(labels, labels.Keys) != {}
  {
    var l :| l in labels && SomeMemToMem(TailCode(labels[l]));
    MemToMemNames(TailCode(labels[l]));
    var x :| x in TailNames(labels[l]);
    assert x in LabelNames(labels, labels.Keys);
  }

  /** Patching the selected blocks needs `r15` exactly when some label's
      selected code moves between two variables. */
  lemma ScratchUse(labels: map<string, Tail>, selected: map<string, seq<Instr>>)
    requires AllSelectable(labels) && selected.Keys == labels.Keys
    requires forall l | l in selected :: selected[l] == TailCode(labels[l])
    ensures NeedScratch(selected, selected.Keys) == UsesScratch(labels)
  {
    if UsesScratch(labels) {
      var l :| l in labels && SomeMemToMem(TailCode(labels[l]));
      assert SomeMemToMem(selected[l]);
    }
  }

  /** The state `transform` reaches, read as a `Compiled` function. */
  lemma TransformCompiled(cfunc: IRFunction, patched: map<string, seq<Instr>>, placed: set<Home>,
                          f: Function, save: bool, le: (string, string) -> bool)
    requires AllSelectable(cfunc.labels) && EntryLabel in cfunc.labels
    requires patched.Keys == cfunc.labels.Keys
    requires forall l | l in patched :: patched[l] == Patched(TailCode(cfunc.labels[l]))
    requires HomeNames(placed) == LabelNames(cfunc.labels, cfunc.labels.Keys)
    requires placed != {} ==> Placed(placed, 0, 8 * |placed|, le)
    requires save == UsesScratch(cfunc.labels)
    requires (forall h :: h in f.vars <==> h in placed) && Distinct(f.vars) && |f.vars| == |placed|
    requires f.blocks == patched[EntryLabel := Framed(patched[EntryLabel], placed != {}, 8 * |placed|, save)]
    ensures Compiled(cfunc, f, le)
  {
    assert (set h | h in f.vars) == placed;
    if placed == {} {
      assert Placed(placed, 0, 0, le);
    }
  }

  /** Recording names as unplaced homes loses and merges none of them. */
  lemma {:induction false} UnplacedNames(names: set<string>)
    ensures HomeNames(Unplaced(names)) == names && |Unplaced(names)| == |names|
    decreases |names|
  {
    if names != {} {
      var x :| x in names;
      UnplacedNames(names - {x});
      assert Unplaced(names) == Unplaced(names - {x}) + {Home(x, VarLoc.Undefined)};
      assert names == (names - {x}) + {x};
    }
  }

  // The `Seq` arm of `select_instruction`: the statement's code, names
  // and runtime functions, then the rest's, add up to the tail's.

  lemma SeqArmCode(s: Stmt, next: Tail, blk: seq<Instr>, mid: seq<Instr>, blk': seq<Instr>)
    requires SelectableTail(Tail.Seq(s, next))
    requires mid == blk + StmtCode(s) && blk' == mid + TailCode(next)
    ensures blk' == blk + TailCode(Tail.Seq(s, next))
  {
    var a, b := StmtCode(s), TailCode(next);
    assert TailCode(Tail.Seq(s, next)) == a + b;
    assert blk + a + b == blk + (a + b);
  }

  lemma SeqArmVars(s: Stmt, next: Tail, vars0: set<Home>, vars1: set<Home>, vars2: set<Home>)
    requires SelectableTail(Tail.Seq(s, next))
    requires vars1 == vars0 + Unplaced(AtmNames(s.target) + ExpNames(s.exp))
    requires vars2 == vars1 + Unplaced(TailNames(next))
    ensures vars2 == vars0 + Unplaced(TailNames(Tail.Seq(s, next)))
  {
    var here, rest := AtmNames(s.target) + ExpNames(s.exp), TailNames(next);
    assert TailNames(Tail.Seq(s, next)) == here + rest;
    UnplacedUnion(here, rest);
    UnionAssoc(vars0, Unplaced(here), Unplaced(rest));
  }

  lemma SeqArmExternals(s: Stmt, next: Tail, ext0: set<string>, ext1: set<string>, ext2: set<string>)
    requires ext1 == ext0 + (if ReadsInput(s.exp) then {ReadInt} else {})
    requires ext2 == ext1 + TailExternals(next)
    ensures ext2 == ext0 + TailExternals(Tail.Seq(s, next))
  {
    UnionAssoc(ext0, if ReadsInput(s.exp) then {ReadInt} else {}, TailExternals(next));
  }

  lemma UnionAssoc<T>(a: set<T>, b: set<T>, c: set<T>)
    ensures a + b + c == a + (b + c)
  {
  }

  lemma UnplacedUnion(a: set<string>, b: set<string>)
    ensures Unplaced(a + b) == Unplaced(a) + Unplaced(b)
  {
  }

  /** The runtime functions the named functions of `prog` call. */
  function ProgramExternals(prog: IRProgram, names: set<string>): set<string>
    requires names <= prog.Keys
  {
    set name, e | name in names && e in LabelExternals(prog[name].labels, prog[name].labels.Keys) :: e
  }

  lemma ProgramExternalsAdd(prog: IRProgram, names: set<string>, name: string)
    requires names <= prog.Keys && name in prog
    ensures ProgramExternals(prog, names + {name})
         == ProgramExternals(prog, names) + LabelExternals(prog[name].labels, prog[name].labels.Keys)
  {
  }

  /** What `ir_to_x64` does with each function: a fresh transformer,
      its function and its externals. */
  method TransformFunction(cfunc: IRFunction, le: (string, string) -> bool) returns (func: Function, calls: set<string>)
    requires TotalPreorder(le) && AllSelectable(cfunc.labels) && EntryLabel in cfunc.labels
    ensures Compiled(cfunc, func, le)
    ensures calls == LabelExternals(cfunc.labels, cfunc.labels.Keys)
  {
    var transformer := new IRToX64Transformer(cfunc);
    func := transformer.Transform(le);
    calls := transformer.externals;
  }

  /** `ir_to_x64`: one fresh transformer per function; the program's
      externals are all the functions' externals. */
  method IrToX64(prog: IRProgram, le: (string, string) -> bool) returns (x: X64Program)
    requires TotalPreorder(le)
    requires forall name | name in prog :: AllSelectable(prog[name].labels) && EntryLabel in prog[name].labels
    ensures x.functions.Keys == prog.Keys
    ensures forall name | name in prog :: Compiled(prog[name], x.functions[name], le)
    ensures x.external == ProgramExternals(prog, prog.Keys)
  {
    var externals: set<string> := {};
    var functions: map<string, Function> := map[];
    ghost var done: set<string> := {};
    var todo := prog.Keys;
    while todo != {}
      invariant todo <= prog.Keys && done == prog.Keys - todo && functions.Keys == done
      invariant forall name | name in done :: Compiled(prog[name], functions[name], le)
      invariant externals == ProgramExternals(prog, done)
      decreases todo
    {
      var name :| name in todo;
      var func, calls := TransformFunction(prog[name], le);
      ProgramExternalsAdd(prog, done, name);
      externals := externals + calls;
      functions := functions[name := func];
      todo := todo - {name};
      done := done + {name};
    }
    x := X64Program(externals, functions);
  }
}
