/** Partial evaluation: folds `+` and `-` over literals and over names the
    evaluator has bound to literals, and replaces a `let` whose body folds
    to a literal by that literal.  One environment, never scoped, records
    the evaluated expression of every binding seen so far. */
module PartialEval {
  import opened Ast
  import opened Semantics

  /** Binder name to its partially evaluated expression. */
  type PeEnv = map<string, AstNode>

  /** The operands the evaluator reads exist: `+` has at least two and `-`
      at least one (it indexes `args[0]` and `args[1]`); other primitives
      are copied without looking inside. */
  predicate OperandsPresent(e: AstNode) {
    match e
    case Prim(op, args) =>
      && (op == "+" ==> |args| >= 2 && OperandsPresent(args[0]) && OperandsPresent(args[1]))
      && (op == "-" ==> |args| >= 1 && OperandsPresent(args[0]))
    case Let(bs, body) => (forall i | 0 <= i < |bs| :: OperandsPresent(bs[i].expr)) && OperandsPresent(body)
    case _ => true
  }

  /** The literal bound to `x`, when `x` is bound to one. */
  function IntOf(env: PeEnv, x: string): Option<int> {
    if x in env && env[x].Int? then Some(env[x].n) else None
  }

  /** An operand whose value is known: a literal, or a name bound to one. */
  predicate Known(env: PeEnv, a: AstNode) {
    a.Int? || (a.Var? && IntOf(env, a.name).Some?)
  }

  function KnownValue(env: PeEnv, a: AstNode): int
    requires Known(env, a)
  {
    if a.Int? then a.n else IntOf(env, a.name).value
  }

  /** `(- right)` after its operand is evaluated. */
  function NegFolded(env: PeEnv, right: AstNode): (r: AstNode)
    ensures r.Int? <==> Known(env, right)
    ensures r.Int? ==> r.n == 0 - KnownValue(env, right)
    ensures !r.Int? ==> r == Prim("-", [right])
  {
    match right
    case Int(n) => Int(0 - n)
    case Var(x) => if IntOf(env, x).Some? then Int(0 - IntOf(env, x).value) else Prim("-", [right])
    case _ => Prim("-", [right])
  }

  /** `(+ left right)` after both operands are evaluated. */
  function AddFolded(env: PeEnv, left: AstNode, right: AstNode): (r: AstNode)
    ensures r.Int? <==> Known(env, left) && Known(env, right)
    ensures r.Int? ==> r.n == KnownValue(env, left) + KnownValue(env, right)
    ensures !r.Int? ==> r == Prim("+", [left, right])
  {
    match (left, right)
    case (Int(n), Int(m)) => Int(n + m)
    case (Var(a), Var(b)) =>
      if IntOf(env, a).Some? && IntOf(env, b).Some? then Int(IntOf(env, a).value + IntOf(env, b).value)
      else Prim("+", [left, right])
    case (Var(a), Int(m)) =>
      if IntOf(env, a).Some? then Int(m + IntOf(env, a).value) else Prim("+", [left, right])
    case (Int(n), Var(b)) =>
      if IntOf(env, b).Some? then Int(n + IntOf(env, b).value) else Prim("+", [left, right])
    case _ => Prim("+", [left, right])
  }

  /** The evaluated expression and the environment afterwards, with the
      `let` case corrected (see `PeExpAsWritten` for the source's own).  A
      `let` body that folds to a literal replaces the `let`; so does a body
      that is a name bound to a literal.  Otherwise the `let` is rebuilt
      with its evaluated bindings and its body evaluated a second time,
      where the source would replace it by whatever the name is bound to. */
  function PeExp(env: PeEnv, e: AstNode): (r: (AstNode, PeEnv))
    requires OperandsPresent(e)
    ensures env.Keys <= r.1.Keys
    decreases e
  {
    match e
    case Var(_) => (e, env)
    case Int(_) => (e, env)
    case Prim(op, args) =>
      if op == "+" then
        var (l, env1) := PeExp(env, args[0]);
        var (r, env2) := PeExp(env1, args[1]);
        (AddFolded(env2, l, r), env2)
      else if op == "-" then
        var (r, env1) := PeExp(env, args[0]);
        (NegFolded(env1, r), env1)
      else (e, env)
    case Let(bs, body) =>
      var (nbs, env1) := PeBinds(env, bs);
      var (b1, env2) := PeExp(env1, body);
      if b1.Int? then (b1, env2)
      else if b1.Var? && IntOf(env2, b1.name).Some? then (Int(IntOf(env2, b1.name).value), env2)
      else
        var (b2, env3) := PeExp(env2, body);
        (Let(nbs, b2), env3)
    case Error(_, _) => (e, env)
  }

  /** The bindings evaluated in order, each result entered in the
      environment under its binder. */
  function PeBinds(env: PeEnv, bs: seq<LetBinding>): (r: (seq<LetBinding>, PeEnv))
    requires forall i | 0 <= i < |bs| :: OperandsPresent(bs[i].expr)
    ensures env.Keys + Binders(bs) <= r.1.Keys
    decreases bs
  {
    if |bs| == 0 then ([], env)
    else
      var (nbs, env1) := PeBinds(env, bs[..|bs| - 1]);
      var b := bs[|bs| - 1];
      var (ne, env2) := PeExp(env1, b.expr);
      (nbs + [LetBinding(b.identifier, ne)], env2[b.identifier := ne])
  }

  /** `partial_eval_negate` on operand `a`. */
  function PeNegate(env: PeEnv, a: AstNode): (AstNode, PeEnv)
    requires OperandsPresent(a)
  {
    var (r, env1) := PeExp(env, a);
    (NegFolded(env1, r), env1)
  }

  /** `partial_eval_add` on operands `a` and `b`. */
  function PeAdd(env: PeEnv, a: AstNode, b: AstNode): (AstNode, PeEnv)
    requires OperandsPresent(a) && OperandsPresent(b)
  {
    var (l, env1) := PeExp(env, a);
    var (r, env2) := PeExp(env1, b);
    (AddFolded(env2, l, r), env2)
  }

  /** The environment after evaluating the functions of `prog` in the
      order `order`, all sharing one environment. */
  function EnvAfter(prog: Program, env: PeEnv, order: seq<string>): PeEnv
    requires forall f | f in prog :: OperandsPresent(prog[f])
  {
    if |order| == 0 then env
    else
      var before := EnvAfter(prog, env, order[..|order| - 1]);
      var f := order[|order| - 1];
      if f in prog then PeExp(before, prog[f]).1 else before
  }

  /** `order` lists the functions done so far, each once, and each one's
      result in `q` is its evaluation in the environment the earlier ones
      left behind. */
  ghost predicate Visited(prog: Program, env0: PeEnv, order: seq<string>, q: Program) {
    && (forall f | f in prog :: OperandsPresent(prog[f]))
    && (forall i | 0 <= i < |order| :: order[i] in prog && order[i] in q)
    && (forall f | f in q :: f in order)
    && (forall i, j | 0 <= i < j < |order| :: order[i] != order[j])
    && (forall i | 0 <= i < |order| :: q[order[i]] == PeExp(EnvAfter(prog, env0, order[..i]), prog[order[i]]).0)
  }

  lemma VisitedStep(prog: Program, env0: PeEnv, order: seq<string>, q: Program, f: string, body: AstNode)
    requires Visited(prog, env0, order, q) && f in prog && f !in q
    requires body == PeExp(EnvAfter(prog, env0, order), prog[f]).0
    ensures Visited(prog, env0, order + [f], q[f := body])
  {
    VisitedNames(prog, env0, order, q, f, body);
    VisitedDistinct(prog, env0, order, q, f);
    VisitedResults(prog, env0, order, q, f, body);
  }

  lemma VisitedNames(prog: Program, env0: PeEnv, order: seq<string>, q: Program, f: string, body: AstNode)
    requires Visited(prog, env0, order, q) && f in prog && f !in q
    ensures forall i | 0 <= i < |order + [f]| :: (order + [f])[i] in prog
    ensures forall g | g in q[f := body] :: g in order + [f]
  {
    var order', q' := order + [f], q[f := body];
    forall i | 0 <= i < |order'|
      ensures order'[i] in prog
    {
      if i < |order| {
        assert order'[i] == order[i];
      }
    }
    forall g | g in q' ensures g in order' {
      if g != f {
        var k :| 0 <= k < |order| && order[k] == g;
        assert order'[k] == g;
      } else {
        assert order'[|order|] == f;
      }
    }
  }

  lemma VisitedDistinct(prog: Program, env0: PeEnv, order: seq<string>, q: Program, f: string)
    requires Visited(prog, env0, order, q) && f !in q
    ensures forall i, j | 0 <= i < j < |order + [f]| :: (order + [f])[i] != (order + [f])[j]
  {
    var order' := order + [f];
    forall i, j | 0 <= i < j < |order'| ensures order'[i] != order'[j] {
      if j == |order| {
        assert order[i] in q;
      }
    }
  }

  lemma EnvAfterStep(prog: Program, env0: PeEnv, order: seq<string>, f: string)
    requires (forall g | g in prog :: OperandsPresent(prog[g])) && f in prog
    ensures EnvAfter(prog, env0, order + [f]) == PeExp(EnvAfter(prog, env0, order), prog[f]).1
  {
    assert (order + [f])[..|order|] == order;
  }

  lemma VisitedResults(prog: Program, env0: PeEnv, order: seq<string>, q: Program, f: string, body: AstNode)
    requires Visited(prog, env0, order, q) && f in prog && f !in q
    requires body == PeExp(EnvAfter(prog, env0, order), prog[f]).0
    ensures forall i | 0 <= i < |order + [f]| ::
      (order + [f])[i] in q[f := body] &&
      q[f := body][(order + [f])[i]] == PeExp(EnvAfter(prog, env0, (order + [f])[..i]), prog[(order + [f])[i]]).0
  {
    var order', q' := order + [f], q[f := body];
    forall i | 0 <= i < |order'|
      ensures order'[i] in q'
      ensures q'[order'[i]] == PeExp(EnvAfter(prog, env0, order'[..i]), prog[order'[i]]).0
    {
      if i < |order| {
        VisitedKept(prog, env0, order, q, f, body, i);
      } else {
        assert order'[..i] == order;
      }
    }
  }

  /** An earlier function keeps its result when `f` is added. */
  lemma VisitedKept(prog: Program, env0: PeEnv, order: seq<string>, q: Program, f: string, body: AstNode, i: int)
    requires Visited(prog, env0, order, q) && f !in q && 0 <= i < |order|
    ensures (order + [f])[i] in q[f := body]
    ensures q[f := body][(order + [f])[i]] == PeExp(EnvAfter(prog, env0, (order + [f])[..i]), prog[(order + [f])[i]]).0
  {
    var order' := order + [f];
    assert order'[..i] == order[..i];
    assert order'[i] == order[i];
    assert order[i] in q;
  }

  /** The evaluator object: one environment shared by every function it
      visits.  Its methods compute the corrected `PeExp`; the source's own
      `let` case is `PeExpAsWritten`. */
  class PartialEvaluator {
    const prog: Program
    var env: PeEnv

    constructor (prog: Program)
      ensures this.prog == prog && env == map[]
    {
      this.prog := prog;
      env := map[];
    }

    /** Evaluates every function; the functions share the environment, in
        the order they are visited (`order`, every name once). */
    method Evaluate() returns (q: Program, ghost order: seq<string>)
      requires forall f | f in prog :: OperandsPresent(prog[f])
      modifies this
      ensures q.Keys == prog.Keys
      ensures Visited(prog, old(env), order, q)
      ensures env == EnvAfter(prog, old(env), order)
    {
      q := map[];
      order := [];
      var todo := prog.Keys;
      while todo != {}
        invariant todo <= prog.Keys
        invariant q.Keys == prog.Keys - todo
        invariant Visited(prog, old(env), order, q)
        invariant env == EnvAfter(prog, old(env), order)
        decreases todo
      {
        var f :| f in todo;
        var body := PartialEvalExp(prog[f]);
        VisitedStep(prog, old(env), order, q, f, body);
        EnvAfterStep(prog, old(env), order, f);
        q := q[f := body];
        order := order + [f];
        todo := todo - {f};
      }
    }

    /** `(- a)`: evaluates `a` and folds when its value is known. */
    method PartialEvalNegate(a: AstNode) returns (r: AstNode)
      requires OperandsPresent(a)
      modifies this
      ensures (r, env) == PeNegate(old(env), a)
      decreases a, 3
    {
      var right := PartialEvalExp(a);
      if right.Int? {
        return Int(0 - right.n);
      } else if right.Var? {
        if right.name in env && env[right.name].Int? {
          return Int(0 - env[right.name].n);
        }
      }
      r := Prim("-", [right]);
    }

    /** `(+ a b)`: evaluates both operands, left first, and folds when
        both values are known.  `parent` is the `+` node the operands come
        from; it only measures the recursion. */
    method PartialEvalAdd(a: AstNode, b: AstNode, ghost parent: AstNode) returns (r: AstNode)
      requires OperandsPresent(a) && OperandsPresent(b)
      requires parent.Prim? && |parent.args| >= 2 && a == parent.args[0] && b == parent.args[1]
      modifies this
      ensures (r, env) == PeAdd(old(env), a, b)
      decreases parent, 0
    {
      var left := PartialEvalExp(a);
      var right := PartialEvalExp(b);
      if left.Int? && right.Int? {
        return Int(left.n + right.n);
      } else if left.Var? && right.Var? {
        if IntOf(env, left.name).Some? && IntOf(env, right.name).Some? {
          return Int(IntOf(env, left.name).value + IntOf(env, right.name).value);
        }
      } else if left.Var? && right.Int? {
        if IntOf(env, left.name).Some? {
          return Int(right.n + IntOf(env, left.name).value);
        }
      } else if left.Int? && right.Var? {
        if IntOf(env, right.name).Some? {
          return Int(left.n + IntOf(env, right.name).value);
        }
      }
      r := Prim("+", [left, right]);
    }

    method PartialEvalPrim(e: AstNode) returns (r: AstNode)
      requires e.Prim? && OperandsPresent(e)
      modifies this
      ensures (r, env) == PeExp(old(env), e)
      decreases e, 1
    {
      if e.op == "+" {
        r := PartialEvalAdd(e.args[0], e.args[1], e);
      } else if e.op == "-" {
        r := PartialEvalNegate(e.args[0]);
      } else {
        r := e;
      }
    }

    method PartialEvalExp(e: AstNode) returns (r: AstNode)
      requires OperandsPresent(e)
      modifies this
      ensures (r, env) == PeExp(old(env), e)
      decreases e, 2
    {
      match e {
        case Var(_) =>
          r := e;
        case Int(_) =>
          r := e;
        case Prim(_, _) =>
          r := PartialEvalPrim(e);
        case Let(bindings, body) =>
          var newBindings: seq<LetBinding> := [];
          ghost var env0 := env;
          for i := 0 to |bindings|
            invariant (newBindings, env) == PeBinds(env0, bindings[..i])
          {
            assert bindings[..i + 1][..i] == bindings[..i];
            var newExpr := PartialEvalExp(bindings[i].expr);
            env := env[bindings[i].identifier := newExpr];
            newBindings := newBindings + [LetBinding(bindings[i].identifier, newExpr)];
          }
          assert bindings[..|bindings|] == bindings;
          var newBody := PartialEvalExp(body);
          if newBody.Int? {
            r := newBody;
          } else if newBody.Var? && IntOf(env, newBody.name).Some? {
            r := Int(IntOf(env, newBody.name).value);
          } else {
            var body2 := PartialEvalExp(body);
            r := Let(newBindings, body2);
          }
        case Error(_, _) =>
          r := e;
      }
    }
  }

  /** Partial evaluation of a whole program with a fresh environment. */
  method PartiallyEvaluate(prog: Program) returns (q: Program)
    requires forall f | f in prog :: OperandsPresent(prog[f])
    ensures q.Keys == prog.Keys
    ensures forall f | f in prog && |prog| == 1 :: q[f] == PeExp(map[], prog[f]).0
  {
    var pe := new PartialEvaluator(prog);
    ghost var order;
    q, order := pe.Evaluate();
    forall f | f in prog && |prog| == 1 ensures q[f] == PeExp(map[], prog[f]).0 {
      var i :| 0 <= i < |order| && order[i] == f;
      OnlyFirst(prog, order, i);
      assert order[..0] == [];
    }
  }

  /** With one function, it is the first one visited. */
  lemma OnlyFirst(prog: Program, order: seq<string>, i: nat)
    requires |prog| == 1 && i < |order|
    requires forall k | 0 <= k < |order| :: order[k] in prog
    requires forall k, j | 0 <= k < j < |order| :: order[k] != order[j]
    ensures i == 0
  {
    if i > 0 {
      SubsetCard({order[0], order[i]}, prog.Keys);
    }
  }

  lemma SubsetCard<T>(a: set<T>, b: set<T>)
    requires a <= b
    ensures |a| <= |b|
  {
    if a != {} {
      var x :| x in a;
      SubsetCard(a - {x}, b - {x});
    }
  }

  // -----------------------------------------------------------------------
  // Properties of partial evaluation

  /** What the parser builds has the operands the evaluator reads. */
  lemma {:induction false} WellFormedHasOperands(e: AstNode)
    requires WellFormed(e)
    ensures OperandsPresent(e)
    decreases e
  {
    match e
    case Prim(op, args) =>
      if op == "+" {
        WellFormedHasOperands(args[0]);
        WellFormedHasOperands(args[1]);
      } else if op == "-" {
        WellFormedHasOperands(args[0]);
      }
    case Let(bs, body) =>
      forall i | 0 <= i < |bs| ensures OperandsPresent(bs[i].expr) {
        WellFormedHasOperands(bs[i].expr);
      }
      WellFormedHasOperands(body);
    case _ =>
  }

  /** A valuation that gives every name bound to a literal that literal. */
  predicate Agrees(s: Valuation, env: PeEnv) {
    forall x | x in env && env[x].Int? :: x in s && s[x] == env[x].n
  }

  /** On expressions without `let`, partial evaluation leaves the
      environment alone and keeps the meaning: under any valuation that
      agrees with the environment's literals, and on any input, the result
      evaluates to the same value with the same inputs consumed. */
  lemma {:induction false} PeSoundLetFree(env: PeEnv, s: Valuation, ins: seq<int>, e: AstNode)
    requires WellFormed(e) && LetFree(e) && Agrees(s, env)
    ensures OperandsPresent(e)
    ensures PeExp(env, e).1 == env
    ensures Eval(s, ins, PeExp(env, e).0) == Eval(s, ins, e)
    decreases e
  {
    WellFormedHasOperands(e);
    match e
    case Prim(op, args) =>
      if op == "+" {
        var a0, a1 := args[0], args[1];
        assert args == [a0, a1];
        PeSoundLetFree(env, s, ins, a0);
        var l := PeExp(env, a0).0;
        var r := PeExp(env, a1).0;
        var ev0 := Eval(s, ins, a0);
        if ev0.Some? {
          PeSoundLetFree(env, s, ev0.value.1, a1);
        } else {
          PeSoundLetFree(env, s, ins, a1);
        }
        AddFoldedSound(env, s, ins, l, r);
        EvalAddCongruence(s, ins, l, r, a0, a1);
      } else if op == "-" {
        var a0 := args[0];
        assert args == [a0];
        PeSoundLetFree(env, s, ins, a0);
        var r := PeExp(env, a0).0;
        NegFoldedSound(env, s, ins, r);
        EvalNegCongruence(s, ins, r, a0);
      }
    case _ =>
  }

  /** A known operand evaluates to its value without reading input. */
  lemma KnownEval(env: PeEnv, s: Valuation, ins: seq<int>, a: AstNode)
    requires Agrees(s, env) && Known(env, a)
    ensures Eval(s, ins, a) == Some((KnownValue(env, a), ins))
  {
  }

  lemma EvalAdd(s: Valuation, ins: seq<int>, l: AstNode, r: AstNode)
    ensures Eval(s, ins, Prim("+", [l, r])) ==
      match Eval(s, ins, l)
      case None => None
      case Some((a, ins1)) =>
        match Eval(s, ins1, r)
        case None => None
        case Some((b, ins2)) => Some((a + b, ins2))
  {
    var p := Prim("+", [l, r]);
    assert p.args[0] == l && p.args[1] == r;
  }

  lemma EvalAddCongruence(s: Valuation, ins: seq<int>, l: AstNode, r: AstNode, a0: AstNode, a1: AstNode)
    requires Eval(s, ins, l) == Eval(s, ins, a0)
    requires Eval(s, ins, a0).Some? ==> Eval(s, Eval(s, ins, a0).value.1, r) == Eval(s, Eval(s, ins, a0).value.1, a1)
    ensures Eval(s, ins, Prim("+", [l, r])) == Eval(s, ins, Prim("+", [a0, a1]))
  {
    EvalAdd(s, ins, l, r);
    EvalAdd(s, ins, a0, a1);
  }

  lemma EvalNeg(s: Valuation, ins: seq<int>, a: AstNode)
    ensures Eval(s, ins, Prim("-", [a])) ==
      match Eval(s, ins, a)
      case None => None
      case Some((v, ins1)) => Some((0 - v, ins1))
  {
    EvalNegOf(s, ins, Prim("-", [a]));
  }

  lemma EvalNegOf(s: Valuation, ins: seq<int>, p: AstNode)
    requires p.Prim? && p.op == "-" && |p.args| == 1
    ensures Eval(s, ins, p) ==
      match Eval(s, ins, p.args[0])
      case None => None
      case Some((v, ins1)) => Some((0 - v, ins1))
  {
    assert p.op != "+" by {
      assert p.op[0] == '-';
    }
  }

  lemma EvalNegCongruence(s: Valuation, ins: seq<int>, r: AstNode, a0: AstNode)
    requires Eval(s, ins, r) == Eval(s, ins, a0)
    ensures Eval(s, ins, Prim("-", [r])) == Eval(s, ins, Prim("-", [a0]))
  {
    EvalNeg(s, ins, r);
    EvalNeg(s, ins, a0);
  }

  lemma AddFoldedSound(env: PeEnv, s: Valuation, ins: seq<int>, l: AstNode, r: AstNode)
    requires Agrees(s, env)
    ensures Eval(s, ins, AddFolded(env, l, r)) == Eval(s, ins, Prim("+", [l, r]))
  {
    if Known(env, l) && Known(env, r) {
      KnownEval(env, s, ins, l);
      KnownEval(env, s, ins, r);
      EvalAdd(s, ins, l, r);
    }
  }

  lemma NegFoldedSound(env: PeEnv, s: Valuation, ins: seq<int>, a: AstNode)
    requires Agrees(s, env)
    ensures Eval(s, ins, NegFolded(env, a)) == Eval(s, ins, Prim("-", [a]))
  {
    if Known(env, a) {
      KnownEval(env, s, ins, a);
      EvalNeg(s, ins, a);
    }
  }

  /** Partial evaluation never introduces a free name: every name free
      in the result is free in the input. */
  lemma {:induction false} PeFreeVars(env: PeEnv, e: AstNode)
    requires OperandsPresent(e)
    ensures FreeVars(PeExp(env, e).0) <= FreeVars(e)
    decreases e
  {
    match e
    case Prim(op, args) =>
      if op == "+" {
        var (l, env1) := PeExp(env, args[0]);
        var (r, env2) := PeExp(env1, args[1]);
        PeFreeVars(env, args[0]);
        PeFreeVars(env1, args[1]);
        FreeVarsArgsHas(args, 0);
        FreeVarsArgsHas(args, 1);
        FreeVarsPair(l, r);
      } else if op == "-" {
        var (r, env1) := PeExp(env, args[0]);
        PeFreeVars(env, args[0]);
        FreeVarsArgsHas(args, 0);
        FreeVarsSingle(r);
      }
    case Let(bs, body) =>
      var (nbs, env1) := PeBinds(env, bs);
      PeBindsFreeVars(env, bs);
      var (b1, env2) := PeExp(env1, body);
      if !b1.Int? && !(b1.Var? && IntOf(env2, b1.name).Some?) {
        PeFreeVars(env2, body);
      }
    case _ =>
  }

  lemma {:induction false} PeBindsFreeVars(env: PeEnv, bs: seq<LetBinding>)
    requires forall i | 0 <= i < |bs| :: OperandsPresent(bs[i].expr)
    ensures |PeBinds(env, bs).0| == |bs|
    ensures Binders(PeBinds(env, bs).0) == Binders(bs)
    ensures FreeVarsBinds(PeBinds(env, bs).0) <= FreeVarsBinds(bs)
    decreases bs
  {
    if |bs| > 0 {
      var n := |bs| - 1;
      var (nbs, env1) := PeBinds(env, bs[..n]);
      PeBindsFreeVars(env, bs[..n]);
      var (ne, env2) := PeExp(env1, bs[n].expr);
      PeFreeVars(env1, bs[n].expr);
      var all := nbs + [LetBinding(bs[n].identifier, ne)];
      assert all[..n] == nbs;
    }
  }

  lemma FreeVarsArgsHas(args: seq<AstNode>, i: nat)
    requires i < |args|
    ensures FreeVars(args[i]) <= FreeVarsArgs(args)
    decreases |args|
  {
    if i < |args| - 1 {
      var front := args[..|args| - 1];
      assert front[i] == args[i];
      FreeVarsArgsHas(front, i);
    }
  }

  lemma FreeVarsPair(l: AstNode, r: AstNode)
    ensures FreeVars(Prim("+", [l, r])) == FreeVars(l) + FreeVars(r)
  {
    var args := [l, r];
    FreeVarsSingle(l);
    assert args[..1] == [l];
    assert FreeVarsArgs(args) == FreeVarsArgs([l]) + FreeVars(r);
  }

  lemma FreeVarsSingle(a: AstNode)
    ensures FreeVars(Prim("-", [a])) == FreeVars(a)
    ensures FreeVarsArgs([a]) == FreeVars(a)
  {
    var args := [a];
    assert args[..0] == [];
    assert FreeVarsArgs(args) == FreeVarsArgs([]) + FreeVars(a);
  }

  // -----------------------------------------------------------------------
  // The `let` whose body is a name, as the source has it

  /** The source's evaluation, with `None` for a panic: a `let` whose body
      evaluates to a name returns whatever that name is bound to (and
      panics when it is unbound), dropping the bindings. */
  function PeExpAsWritten(env: PeEnv, e: AstNode): (r: (Option<AstNode>, PeEnv))
    requires OperandsPresent(e)
    ensures env.Keys <= r.1.Keys
    decreases e
  {
    match e
    case Var(_) => (Some(e), env)
    case Int(_) => (Some(e), env)
    case Prim(op, args) =>
      if op == "+" then
        var (l, env1) := PeExpAsWritten(env, args[0]);
        var (r, env2) := PeExpAsWritten(env1, args[1]);
        if l.None? || r.None? then (None, env2) else (Some(AddFolded(env2, l.value, r.value)), env2)
      else if op == "-" then
        var (r, env1) := PeExpAsWritten(env, args[0]);
        if r.None? then (None, env1) else (Some(NegFolded(env1, r.value)), env1)
      else (Some(e), env)
    case Let(bs, body) =>
      var (nbs, env1) := PeBindsAsWritten(env, bs);
      var (b1, env2) := PeExpAsWritten(env1, body);
      if nbs.None? || b1.None? then (None, env2)
      else if b1.value.Int? then (b1, env2)
      else if b1.value.Var? then
        (if b1.value.name in env2 then Some(env2[b1.value.name]) else None, env2)
      else
        var (b2, env3) := PeExpAsWritten(env2, body);
        (if b2.None? then None else Some(Let(nbs.value, b2.value)), env3)
    case Error(_, _) => (Some(e), env)
  }

  function PeBindsAsWritten(env: PeEnv, bs: seq<LetBinding>): (r: (Option<seq<LetBinding>>, PeEnv))
    requires forall i | 0 <= i < |bs| :: OperandsPresent(bs[i].expr)
    ensures env.Keys <= r.1.Keys
    decreases bs
  {
    if |bs| == 0 then (Some([]), env)
    else
      var (nbs, env1) := PeBindsAsWritten(env, bs[..|bs| - 1]);
      var b := bs[|bs| - 1];
      var (ne, env2) := PeExpAsWritten(env1, b.expr);
      if nbs.None? || ne.None? then (None, env2)
      else (Some(nbs.value + [LetBinding(b.identifier, ne.value)]), env2[b.identifier := ne.value])
  }

  /** `(let ([x 1] [y x]) y)` evaluates to 1, but the source turns it into
      the free name `x`, which evaluates to nothing; the corrected
      `PeExp` keeps the `let`. */
  lemma LetVarBodyEscapes()
    ensures var e := Let([LetBinding("x", Int(1)), LetBinding("y", Var("x"))], Var("y"));
      && OperandsPresent(e)
      && FreeVars(e) == {}
      && Eval(map[], [], e) == Some((1, []))
      && PeExpAsWritten(map[], e).0 == Some(Var("x"))
      && FreeVars(Var("x")) == {"x"}
      && Eval(map[], [], Var("x")) == None
      && PeExp(map[], e).0 == e
  {
    LetVarClosed();
    LetVarValue();
    LetVarAsWritten();
    LetVarKept();
  }

  lemma LetVarClosed()
    ensures var e := Let([LetBinding("x", Int(1)), LetBinding("y", Var("x"))], Var("y"));
      OperandsPresent(e) && FreeVars(e) == {}
  {
    var bx := LetBinding("x", Int(1));
    var yb := LetBinding("y", Var("x"));
    var one := [bx];
    var bs := [bx, yb];
    var none: seq<LetBinding> := [];
    assert one[..0] == none && bs[..1] == one;
    assert Binders(one) == {"x"};
    assert FreeVarsBinds(one) == {};
    assert FreeVarsBinds(bs) == FreeVarsBinds(one) + (FreeVars(Var("x")) - Binders(one));
  }

  lemma LetVarValue()
    ensures var e := Let([LetBinding("x", Int(1)), LetBinding("y", Var("x"))], Var("y"));
      Eval(map[], [], e) == Some((1, []))
  {
    var bx := LetBinding("x", Int(1));
    var yb := LetBinding("y", Var("x"));
    var one := [bx];
    var bs := [bx, yb];
    var none: seq<LetBinding> := [];
    assert one[..0] == none && bs[..1] == one;
    var s1: Valuation := map["x" := 1];
    assert EvalBinds(map[], [], one) == Some((s1, []));
    assert EvalBinds(map[], [], bs) == Some((s1["y" := 1], []));
  }

  lemma LetVarAsWritten()
    ensures var e := Let([LetBinding("x", Int(1)), LetBinding("y", Var("x"))], Var("y"));
      OperandsPresent(e) && PeExpAsWritten(map[], e).0 == Some(Var("x"))
  {
    var bx := LetBinding("x", Int(1));
    var yb := LetBinding("y", Var("x"));
    var one := [bx];
    var bs := [bx, yb];
    var none: seq<LetBinding> := [];
    var empty: PeEnv := map[];
    assert one[..0] == none && bs[..1] == one;
    var env1 := empty["x" := Int(1)];
    assert PeExpAsWritten(empty, Int(1)) == (Some(Int(1)), empty);
    assert none + [bx] == one && one + [yb] == bs;
    assert PeBindsAsWritten(empty, none) == (Some(none), empty);
    assert PeBindsAsWritten(empty, one) == (Some(one), env1);
    assert PeExpAsWritten(env1, Var("x")) == (Some(Var("x")), env1);
    assert PeBindsAsWritten(empty, bs) == (Some(bs), env1["y" := Var("x")]);
  }

  lemma LetVarKept()
    ensures var e := Let([LetBinding("x", Int(1)), LetBinding("y", Var("x"))], Var("y"));
      OperandsPresent(e) && PeExp(map[], e).0 == e
  {
    var bx := LetBinding("x", Int(1));
    var yb := LetBinding("y", Var("x"));
    var one := [bx];
    var bs := [bx, yb];
    var none: seq<LetBinding> := [];
    var empty: PeEnv := map[];
    assert one[..0] == none && bs[..1] == one;
    var env1 := empty["x" := Int(1)];
    assert none + [bx] == one && one + [yb] == bs;
    assert PeBinds(empty, one) == (one, env1);
    assert PeBinds(empty, bs) == (bs, env1["y" := Var("x")]);
  }

  // -----------------------------------------------------------------------
  // The folding cases the source expects

  /** `(+ 2 2)` folds to 4 and `(+ 2 (+ 2 2))` to 6. */
  lemma FoldAddConstants()
    ensures PeExp(map[], Prim("+", [Int(2), Int(2)])).0 == Int(4)
    ensures PeExp(map[], Prim("+", [Int(2), Prim("+", [Int(2), Int(2)])])).0 == Int(6)
  {
  }

  /** `(- (+ 3 (- 5)))` folds to 2. */
  lemma FoldNegateAdd()
    ensures PeExp(map[], Prim("-", [Prim("+", [Int(3), Prim("-", [Int(5)])])])).0 == Int(2)
  {
  }

  /** `(+ (read) (- (+ 5 3)))` becomes `(+ (read) -8)`: the `read` stays,
      the operand order is kept and the constant part folds. */
  lemma FoldAroundRead()
    ensures PeExp(map[], Prim("+", [Prim("read", []), Prim("-", [Prim("+", [Int(5), Int(3)])])])).0
         == Prim("+", [Prim("read", []), Int(-8)])
  {
  }
}
