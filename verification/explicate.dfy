/** Explicate-control: the pass that turns an expression whose operands are
    atomic into the intermediate language, where nested `let`s become one
    chain of assignments ending in a return (compiler/src/ir/explicate.rs).

      Atm  ::= (Int int) | (Var var)
      Exp  ::= atm | (Prim read ()) | (Prim - (atm)) | (Prim + (atm atm))
      Stmt ::= (Assign (Var var) exp)
      Tail ::= (Return exp) | (Seq stmt tail)

    The IR constructors share their names with the AST's, so both are
    always written qualified (`Atm.Int`, `AstNode.Int`). */
module Explicate {
  import opened Ast

  datatype Atm = Int(n: int) | Var(name: string)
  datatype Exp = Atm(atm: Atm) | Prim(op: string, args: seq<Atm>)
  datatype Stmt = Assign(target: Atm, exp: Exp)
  datatype Tail = Return(exp: Exp) | Seq(stmt: Stmt, next: Tail)

  /** A function of the IR: its local variables and its labelled tails. */
  datatype IRFunction = IRFunction(locals: seq<string>, labels: map<string, Tail>)
  type IRProgram = map<string, IRFunction>

  /** The one label every function receives. */
  const EntryLabel: string := ".l1"

  // ---------------------------------------------------------------------
  // Operands

  function AstOf(a: Atm): (e: AstNode)
    ensures IsAtom(e)
  {
    match a
    case Int(n) => AstNode.Int(n)
    case Var(x) => AstNode.Var(x)
  }

  /** The IR operand of an atomic AST node: same value, same name. */
  function AtmOf(e: AstNode): (a: Atm)
    requires IsAtom(e)
    ensures AstOf(a) == e
  {
    if e.Int? then Atm.Int(e.n) else Atm.Var(e.name)
  }

  predicate AtomArgs(args: seq<AstNode>) {
    forall i | 0 <= i < |args| :: IsAtom(args[i])
  }

  /** Operands converted one by one, keeping length and order. */
  function AtmsOf(args: seq<AstNode>): (r: seq<Atm>)
    requires AtomArgs(args)
    ensures |r| == |args| && forall i | 0 <= i < |r| :: AstOf(r[i]) == args[i]
  {
    seq(|args|, i requires 0 <= i < |args| => AtmOf(args[i]))
  }

  /** Expressions the pass handles without reaching `unreachable!`: no
      error nodes, only the operators `+`, `-` and `read`, and only atoms
      as their operands. */
  predicate Explicable(e: AstNode) {
    match e
    case Int(_) => true
    case Var(_) => true
    case Error(_, _) => false
    case Prim(op, args) => (op == "+" || op == "-" || op == "read") && AtomArgs(args)
    case Let(bs, body) => (forall i | 0 <= i < |bs| :: Explicable(bs[i].expr)) && Explicable(body)
  }

  /** The IR expression an atomic node or a primitive becomes. */
  function ExpOf(e: AstNode): Exp
    requires Explicable(e) && !e.Let?
  {
    if e.Prim? then Exp.Prim(e.op, AtmsOf(e.args)) else Exp.Atm(AtmOf(e))
  }

  // ---------------------------------------------------------------------
  // The pass as functions: the tail built and the names pushed onto
  // `local_vars`, in the order they are pushed

  /** `explicate_tail`: the body's tail is built first, then the bindings
      are folded onto it from the last to the first. */
  function ExplicatedTail(e: AstNode): (Tail, seq<string>)
    requires Explicable(e)
    decreases e, 1
  {
    match e
    case Let(bs, body) =>
      var (last, pushed) := ExplicatedTail(body);
      var (t, pushed') := ExplicatedBindings(bs, last);
      (t, pushed + pushed')
    case _ => (Tail.Return(ExpOf(e)), [])
  }

  /** `explicate_assign`: an atom or primitive prepends one assignment to
      `x`; a `let` assigns its body to `x` and folds its bindings on top. */
  function ExplicatedAssign(e: AstNode, x: string, acc: Tail): (Tail, seq<string>)
    requires Explicable(e)
    decreases e, 1
  {
    match e
    case Let(bs, body) =>
      var (inner, pushed) := ExplicatedAssign(body, x, acc);
      var (t, pushed') := ExplicatedBindings(bs, inner);
      (t, pushed + pushed')
    case _ => (Tail.Seq(Stmt.Assign(Atm.Var(x), ExpOf(e)), acc), [x])
  }

  /** The right fold over `bindings.iter().rev()`: the later bindings are
      assigned first, so each binding's chain ends up in front of theirs. */
  function ExplicatedBindings(bs: seq<LetBinding>, acc: Tail): (Tail, seq<string>)
    requires forall i | 0 <= i < |bs| :: Explicable(bs[i].expr)
    decreases bs, 0
  {
    if |bs| == 0 then (acc, [])
    else
      var (rest, pushed) := ExplicatedBindings(bs[1..], acc);
      var (t, pushed') := ExplicatedAssign(bs[0].expr, bs[0].identifier, rest);
      (t, pushed + pushed')
  }

  // ---------------------------------------------------------------------
  // Reference definition: the assignments in binding order

  /** The statements that store the value of `e` in `x`, innermost
      bindings first. */
  function Chain(e: AstNode, x: string): (ss: seq<Stmt>)
    requires Explicable(e)
    ensures |ss| > 0 && ss[|ss| - 1].target == Atm.Var(x)
    ensures AssignsVars(ss)
    decreases e, 1
  {
    match e
    case Let(bs, body) => BindingsChain(bs) + Chain(body, x)
    case _ => [Stmt.Assign(Atm.Var(x), ExpOf(e))]
  }

  /** The chains of the bindings, concatenated from the first to the last. */
  function BindingsChain(bs: seq<LetBinding>): (ss: seq<Stmt>)
    requires forall i | 0 <= i < |bs| :: Explicable(bs[i].expr)
    ensures AssignsVars(ss)
    decreases bs, 0
  {
    if |bs| == 0 then [] else Chain(bs[0].expr, bs[0].identifier) + BindingsChain(bs[1..])
  }

  /** The assignments a tail expression performs before it returns. */
  function TailChain(e: AstNode): (ss: seq<Stmt>)
    requires Explicable(e)
    ensures AssignsVars(ss)
  {
    if e.Let? then BindingsChain(e.bindings) + TailChain(e.body) else []
  }

  /** What a tail expression finally returns. */
  function TailResult(e: AstNode): Exp
    requires Explicable(e)
  {
    if e.Let? then TailResult(e.body) else ExpOf(e)
  }

  /** The tail that runs `ss` and then `t`. */
  function Prepend(ss: seq<Stmt>, t: Tail): Tail {
    if |ss| == 0 then t else Tail.Seq(ss[0], Prepend(ss[1..], t))
  }

  /** The statements of a tail, in execution order. */
  function Stmts(t: Tail): seq<Stmt> {
    match t
    case Return(_) => []
    case Seq(s, next) => [s] + Stmts(next)
  }

  /** The expression a tail finally returns. */
  function Returned(t: Tail): Exp {
    match t
    case Return(e) => e
    case Seq(_, next) => Returned(next)
  }

  predicate AssignsVars(ss: seq<Stmt>) {
    forall i | 0 <= i < |ss| :: ss[i].target.Var?
  }

  /** The names the statements assign, in order. */
  function Targets(ss: seq<Stmt>): (xs: seq<string>)
    ensures AssignsVars(ss) ==> |xs| == |ss|
  {
    if |ss| == 0 then []
    else (if ss[0].target.Var? then [ss[0].target.name] else []) + Targets(ss[1..])
  }

  lemma {:induction false} PrependAppend(a: seq<Stmt>, b: seq<Stmt>, t: Tail)
    ensures Prepend(a + b, t) == Prepend(a, Prepend(b, t))
  {
    if |a| > 0 {
      assert (a + b)[1..] == a[1..] + b;
      PrependAppend(a[1..], b, t);
    } else {
      assert a + b == b;
    }
  }

  /** A prepended chain is exactly the first statements of the tail, and
      the returned expression is untouched. */
  lemma {:induction false} PrependParts(ss: seq<Stmt>, t: Tail)
    ensures Stmts(Prepend(ss, t)) == ss + Stmts(t)
    ensures Returned(Prepend(ss, t)) == Returned(t)
  {
    if |ss| > 0 {
      PrependParts(ss[1..], t);
      assert ss == [ss[0]] + ss[1..];
    }
  }

  lemma {:induction false} TargetsAppend(a: seq<Stmt>, b: seq<Stmt>)
    ensures Targets(a + b) == Targets(a) + Targets(b)
  {
    if |a| > 0 {
      assert (a + b)[1..] == a[1..] + b;
      TargetsAppend(a[1..], b);
    } else {
      assert a + b == b;
    }
  }

  // ---------------------------------------------------------------------
  // The pass agrees with the reference definition

  /** Assigning `e` to `x` in front of `acc` prepends exactly `Chain(e, x)`,
      and every pushed name is the target of one of those assignments. */
  lemma {:induction false} AssignIsChain(e: AstNode, x: string, acc: Tail)
    requires Explicable(e)
    ensures ExplicatedAssign(e, x, acc).0 == Prepend(Chain(e, x), acc)
    ensures multiset(ExplicatedAssign(e, x, acc).1) == multiset(Targets(Chain(e, x)))
    decreases e, 1
  {
    match e
    case Let(bs, body) =>
      var inner := ExplicatedAssign(body, x, acc);
      AssignIsChain(body, x, acc);
      BindingsAreChain(bs, inner.0);
      PrependAppend(BindingsChain(bs), Chain(body, x), acc);
      TargetsAppend(BindingsChain(bs), Chain(body, x));
    case Int(_) =>
    case Var(_) =>
    case Prim(_, _) =>
  }

  lemma {:induction false} BindingsAreChain(bs: seq<LetBinding>, acc: Tail)
    requires forall i | 0 <= i < |bs| :: Explicable(bs[i].expr)
    ensures ExplicatedBindings(bs, acc).0 == Prepend(BindingsChain(bs), acc)
    ensures multiset(ExplicatedBindings(bs, acc).1) == multiset(Targets(BindingsChain(bs)))
    decreases bs, 0
  {
    if |bs| > 0 {
      var rest := ExplicatedBindings(bs[1..], acc);
      BindingsAreChain(bs[1..], acc);
      AssignIsChain(bs[0].expr, bs[0].identifier, rest.0);
      PrependAppend(Chain(bs[0].expr, bs[0].identifier), BindingsChain(bs[1..]), acc);
      TargetsAppend(Chain(bs[0].expr, bs[0].identifier), BindingsChain(bs[1..]));
    }
  }

  /** A tail `let` becomes its bindings' assignments in binding order,
      then the body's, then the body's return; one local is pushed per
      assignment, naming its target. */
  lemma {:induction false} TailIsChain(e: AstNode)
    requires Explicable(e)
    ensures ExplicatedTail(e).0 == Prepend(TailChain(e), Tail.Return(TailResult(e)))
    ensures multiset(ExplicatedTail(e).1) == multiset(Targets(TailChain(e)))
  {
    if e.Let? {
      var last := ExplicatedTail(e.body);
      TailIsChain(e.body);
      BindingsAreChain(e.bindings, last.0);
      PrependAppend(BindingsChain(e.bindings), TailChain(e.body), Tail.Return(TailResult(e)));
      TargetsAppend(BindingsChain(e.bindings), TailChain(e.body));
    }
  }

  /** Consequences for the whole tail: its statements are the reference
      chain, it returns the reference result, and the number of `Assign`
      statements equals the number of locals pushed. */
  lemma ExplicatedTailParts(e: AstNode)
    requires Explicable(e)
    ensures Stmts(ExplicatedTail(e).0) == TailChain(e)
    ensures Returned(ExplicatedTail(e).0) == TailResult(e)
    ensures |Targets(Stmts(ExplicatedTail(e).0))| == |Stmts(ExplicatedTail(e).0)| == |ExplicatedTail(e).1|
    ensures multiset(Targets(Stmts(ExplicatedTail(e).0))) == multiset(ExplicatedTail(e).1)
  {
    TailIsChain(e);
    PrependParts(TailChain(e), Tail.Return(TailResult(e)));
    assert TailChain(e) + [] == TailChain(e);
    assert |multiset(ExplicatedTail(e).1)| == |multiset(Targets(TailChain(e)))|;
  }

  /** A `let` nested in a binding: its own bindings are assigned before the
      outer variable, which is assigned last. */
  lemma NestedLetAssignsOuterLast(bs: seq<LetBinding>, body: AstNode, x: string, acc: Tail)
    requires Explicable(AstNode.Let(bs, body))
    ensures Stmts(ExplicatedAssign(AstNode.Let(bs, body), x, acc).0)
      == BindingsChain(bs) + Chain(body, x) + Stmts(acc)
  {
    var e := AstNode.Let(bs, body);
    AssignIsChain(e, x, acc);
    PrependParts(Chain(e, x), acc);
    assert Chain(e, x) == BindingsChain(bs) + Chain(body, x);
  }

  // ---------------------------------------------------------------------
  // Sorting the locals: `natord::compare` is an external crate, so its
  // order is a parameter `le`, assumed to be a total preorder

  ghost predicate TotalPreorder<T(!new)>(le: (T, T) -> bool) {
    && (forall a, b :: le(a, b) || le(b, a))
    && (forall a, b, c :: le(a, b) && le(b, c) ==> le(a, c))
  }

  ghost predicate SortedBy<T>(s: seq<T>, le: (T, T) -> bool) {
    forall i, j | 0 <= i < j < |s| :: le(s[i], s[j])
  }

  function Insert<T(==)>(x: T, s: seq<T>, le: (T, T) -> bool): (r: seq<T>)
    ensures multiset(r) == multiset(s) + multiset{x}
  {
    if |s| == 0 then [x]
    else if le(x, s[0]) then [x] + s
    else
      assert s == [s[0]] + s[1..];
      [s[0]] + Insert(x, s[1..], le)
  }

  /** `sort_by` with the comparison `le`, as an insertion sort. */
  function SortBy<T(==)>(s: seq<T>, le: (T, T) -> bool): (r: seq<T>)
    ensures multiset(r) == multiset(s)
  {
    if |s| == 0 then []
    else
      assert s == [s[0]] + s[1..];
      Insert(s[0], SortBy(s[1..], le), le)
  }

  lemma {:induction false} InsertSorted<T(!new)>(x: T, s: seq<T>, le: (T, T) -> bool)
    requires TotalPreorder(le) && SortedBy(s, le)
    ensures SortedBy(Insert(x, s, le), le)
  {
    if |s| > 0 && !le(x, s[0]) {
      assert le(s[0], x);
      InsertSorted(x, s[1..], le);
      var r := Insert(x, s[1..], le);
      forall k | 0 <= k < |r| ensures le(s[0], r[k]) {
        assert r[k] in multiset(r);
        assert r[k] in multiset(s[1..]) + multiset{x};
        if r[k] != x {
          assert r[k] in multiset(s[1..]);
          var j :| 0 <= j < |s[1..]| && s[1..][j] == r[k];
          assert s[1 + j] == r[k];
        }
      }
    } else if |s| > 0 {
      forall k | 0 < k < |s| ensures le(x, s[k]) {
        assert le(s[0], s[k]);
      }
    }
  }

  /** The sorted locals are in order and hold the same names. */
  lemma {:induction false} SortBySorted<T(!new)>(s: seq<T>, le: (T, T) -> bool)
    requires TotalPreorder(le)
    ensures SortedBy(SortBy(s, le), le)
  {
    if |s| > 0 {
      SortBySorted(s[1..], le);
      InsertSorted(s[0], SortBy(s[1..], le), le);
    }
  }

  // ---------------------------------------------------------------------
  // The pass as it works in place: one `Explicator` per function, whose
  // `local_vars` grows as assignments are emitted

  /** `prim_args_to_ir_atm_vec`: converts the operands one by one. */
  method PrimArgsToAtms(args: seq<AstNode>) returns (v: seq<Atm>)
    requires AtomArgs(args)
    ensures v == AtmsOf(args)
  {
    v := [];
    for i := 0 to |args|
      invariant v == AtmsOf(args[..i])
    {
      assert args[..i + 1] == args[..i] + [args[i]];
      v := v + [AtmOf(args[i])];
    }
    assert args[..|args|] == args;
  }

  class Explicator {
    var localVars: seq<string>

    constructor ()
      ensures localVars == []
    {
      localVars := [];
    }

    method ExplicateTail(e: AstNode) returns (t: Tail)
      requires Explicable(e)
      modifies this
      ensures t == ExplicatedTail(e).0 && localVars == old(localVars) + ExplicatedTail(e).1
      decreases e, 1
    {
      match e {
        case Var(name) =>
          t := Tail.Return(Exp.Atm(Atm.Var(name)));
        case Int(n) =>
          t := Tail.Return(Exp.Atm(Atm.Int(n)));
        case Let(bindings, body) =>
          var last := ExplicateTail(body);
          t := AssignBindings(bindings, last);
        case Prim(op, args) =>
          var atms := PrimArgsToAtms(args);
          t := Tail.Return(Exp.Prim(op, atms));
      }
    }

    method ExplicateAssign(e: AstNode, x: string, acc: Tail) returns (t: Tail)
      requires Explicable(e)
      modifies this
      ensures t == ExplicatedAssign(e, x, acc).0 && localVars == old(localVars) + ExplicatedAssign(e, x, acc).1
      decreases e, 1
    {
      match e {
        case Var(name) =>
          localVars := localVars + [x];
          t := Tail.Seq(Stmt.Assign(Atm.Var(x), Exp.Atm(Atm.Var(name))), acc);
        case Int(n) =>
          localVars := localVars + [x];
          t := Tail.Seq(Stmt.Assign(Atm.Var(x), Exp.Atm(Atm.Int(n))), acc);
        case Let(bindings, body) =>
          var bodyAssign := ExplicateAssign(body, x, acc);
          t := AssignBindings(bindings, bodyAssign);
        case Prim(op, args) =>
          localVars := localVars + [x];
          var atms := PrimArgsToAtms(args);
          t := Tail.Seq(Stmt.Assign(Atm.Var(x), Exp.Prim(op, atms)), acc);
      }
    }

    /** The fold over the reversed bindings, as a loop from the last
        binding down to the first. */
    method AssignBindings(bs: seq<LetBinding>, acc: Tail) returns (t: Tail)
      requires forall i | 0 <= i < |bs| :: Explicable(bs[i].expr)
      modifies this
      ensures t == ExplicatedBindings(bs, acc).0 && localVars == old(localVars) + ExplicatedBindings(bs, acc).1
      decreases bs, 0
    {
      t := acc;
      var i := |bs|;
      while i > 0
        invariant 0 <= i <= |bs|
        invariant t == ExplicatedBindings(bs[i..], acc).0
        invariant localVars == old(localVars) + ExplicatedBindings(bs[i..], acc).1
      {
        i := i - 1;
        assert bs[i..][1..] == bs[i + 1..];
        t := ExplicateAssign(bs[i].expr, bs[i].identifier, t);
      }
    }
  }

  /** One function of the IR program: the explicated tail under the label
      `.l1`, and the pushed locals sorted. */
  function ExplicatedFunction(body: AstNode, le: (string, string) -> bool): IRFunction
    requires Explicable(body)
  {
    var (t, pushed) := ExplicatedTail(body);
    IRFunction(SortBy(pushed, le), map[EntryLabel := t])
  }

  method ExplicateFunction(body: AstNode, le: (string, string) -> bool) returns (f: IRFunction)
    requires Explicable(body)
    ensures f == ExplicatedFunction(body, le)
  {
    var explicator := new Explicator();
    var instructions := explicator.ExplicateTail(body);
    assert explicator.localVars == ExplicatedTail(body).1;
    var fnLocals := SortBy(explicator.localVars, le);
    f := IRFunction(fnLocals, map[EntryLabel := instructions]);
  }

  /** Each explicated function has the single label `.l1`, and its locals
      are sorted and name exactly the assigned variables, one local per
      `Assign`. */
  lemma ExplicatedFunctionShape(body: AstNode, le: (string, string) -> bool)
    requires Explicable(body) && TotalPreorder(le)
    ensures var f := ExplicatedFunction(body, le);
      && f.labels.Keys == {EntryLabel}
      && SortedBy(f.locals, le)
      && multiset(f.locals) == multiset(Targets(Stmts(f.labels[EntryLabel])))
      && |f.locals| == |Stmts(f.labels[EntryLabel])|
  {
    ExplicatedTailParts(body);
    SortBySorted(ExplicatedTail(body).1, le);
  }

  /** `explicate_control`: every function of the program, each with a
      fresh explicator.  The keys are preserved, every function has the
      single label `.l1`, and its locals are sorted, one per assignment,
      naming exactly the assigned variables. */
  method ExplicateControl(prog: Program, le: (string, string) -> bool) returns (ir: IRProgram)
    requires forall f | f in prog :: Explicable(prog[f])
    requires TotalPreorder(le)
    ensures ir.Keys == prog.Keys
    ensures forall f | f in ir :: ir[f] == ExplicatedFunction(prog[f], le)
    ensures forall f | f in ir :: ir[f].labels.Keys == {EntryLabel}
    ensures forall f | f in ir :: SortedBy(ir[f].locals, le)
    ensures forall f | f in ir ::
      multiset(ir[f].locals) == multiset(Targets(Stmts(ir[f].labels[EntryLabel])))
  {
    ir := map[];
    var todo := prog.Keys;
    while todo != {}
      invariant todo <= prog.Keys && ir.Keys == prog.Keys - todo
      invariant forall f | f in ir :: ir[f] == ExplicatedFunction(prog[f], le)
      decreases todo
    {
      var name :| name in todo;
      var f := ExplicateFunction(prog[name], le);
      ir := ir[name := f];
      todo := todo - {name};
    }
    forall f | f in ir
      ensures ir[f].labels.Keys == {EntryLabel} && SortedBy(ir[f].locals, le)
      ensures multiset(ir[f].locals) == multiset(Targets(Stmts(ir[f].labels[EntryLabel])))
    {
      ExplicatedFunctionShape(prog[f], le);
    }
  }

  // ---------------------------------------------------------------------
  // Examples

  /** `(let ([tmp.0 (read)] [tmp.1 (read)]) (+ tmp.0 tmp.1))`, the
      decomplified `(+ (read) (read))`: two reads assigned in order, then
      the sum returned; `tmp.1` is pushed before `tmp.0`. */
  lemma ExplicateAddRead()
    ensures var e := AstNode.Let([LetBinding("tmp.0", AstNode.Prim("read", [])),
                                  LetBinding("tmp.1", AstNode.Prim("read", []))],
                                 AstNode.Prim("+", [AstNode.Var("tmp.0"), AstNode.Var("tmp.1")]));
      Explicable(e) &&
      ExplicatedTail(e) ==
        (Tail.Seq(Stmt.Assign(Atm.Var("tmp.0"), Exp.Prim("read", [])),
           Tail.Seq(Stmt.Assign(Atm.Var("tmp.1"), Exp.Prim("read", [])),
             Tail.Return(Exp.Prim("+", [Atm.Var("tmp.0"), Atm.Var("tmp.1")])))),
         ["tmp.1", "tmp.0"])
  {
    var args := [AstNode.Var("tmp.0"), AstNode.Var("tmp.1")];
    var none: seq<AstNode> := [];
    var read := AstNode.Prim("read", none);
    var b0, b1 := LetBinding("tmp.0", read), LetBinding("tmp.1", read);
    var bs := [b0, b1];
    assert AtmsOf(args) == [Atm.Var("tmp.0"), Atm.Var("tmp.1")];
    assert AtmsOf(none) == [];
    var ret := Tail.Return(Exp.Prim("+", [Atm.Var("tmp.0"), Atm.Var("tmp.1")]));
    var assign1 := Tail.Seq(Stmt.Assign(Atm.Var("tmp.1"), Exp.Prim("read", [])), ret);
    assert ExplicatedTail(AstNode.Prim("+", args)) == (ret, []);
    assert ExpOf(read) == Exp.Prim("read", []);
    var nobs: seq<LetBinding> := [];
    assert bs[1..] == [b1] && [b1][1..] == nobs;
    assert ExplicatedBindings(nobs, ret) == (ret, []);
    assert ExplicatedAssign(read, "tmp.1", ret) == (assign1, ["tmp.1"]);
    var one := [b1];
    assert one[0].expr == read && one[0].identifier == "tmp.1";
    assert ExplicatedBindings(one, ret).0 == assign1;
    assert ExplicatedBindings(one, ret).1 == ["tmp.1"];
    assert bs[1..] == one && bs[0].expr == read && bs[0].identifier == "tmp.0";
    assert ExplicatedAssign(read, "tmp.0", assign1)
      == (Tail.Seq(Stmt.Assign(Atm.Var("tmp.0"), Exp.Prim("read", [])), assign1), ["tmp.0"]);
    assert ExplicatedBindings(bs, ret).0 == Tail.Seq(Stmt.Assign(Atm.Var("tmp.0"), Exp.Prim("read", [])), assign1);
    assert ExplicatedBindings(bs, ret).1 == ["tmp.1"] + ["tmp.0"];
    var e := AstNode.Let(bs, AstNode.Prim("+", args));
    assert ExplicatedTail(e).0 == ExplicatedBindings(bs, ret).0;
    assert ExplicatedTail(e).1 == [] + ExplicatedBindings(bs, ret).1;
    var pushed: seq<string> := ["tmp.1"] + ["tmp.0"];
    assert [] + pushed == pushed == ["tmp.1", "tmp.0"];
  }

  /** With `tmp.0` ordered strictly before `tmp.1`, the function's locals
      come out as `[tmp.0, tmp.1]`. */
  lemma ExplicateAddReadLocals(le: (string, string) -> bool)
    requires le("tmp.0", "tmp.1") && !le("tmp.1", "tmp.0")
    ensures SortBy(["tmp.1", "tmp.0"], le) == ["tmp.0", "tmp.1"]
  {
    assert SortBy(["tmp.0"], le) == ["tmp.0"];
  }
}
