/** A reference meaning for the integer language, used to state what the
    passes preserve: `let` binds its names one after another (each binding
    sees the earlier ones), `read` takes the next value of an input
    sequence, and operands are evaluated left to right. */
module Semantics {
  import opened Ast

  type Valuation = map<string, int>

  /** True when `rest` is what is left of `ins` after some reads. */
  predicate Consumed(ins: seq<int>, rest: seq<int>) {
    |rest| <= |ins| && rest == ins[|ins| - |rest|..]
  }

  /** The value of `e` and the inputs left over, or `None` when the
      evaluation gets stuck (an unbound name, an error node, a malformed
      primitive, or no input left for a `read`). */
  function Eval(s: Valuation, ins: seq<int>, e: AstNode): Option<(int, seq<int>)>
    decreases e
  {
    match e
    case Int(n) => Some((n, ins))
    case Var(x) => if x in s then Some((s[x], ins)) else None
    case Error(_, _) => None
    case Prim(op, args) =>
      if op == "+" && |args| == 2 then
        match Eval(s, ins, args[0])
        case None => None
        case Some((a, ins1)) =>
          match Eval(s, ins1, args[1])
          case None => None
          case Some((b, ins2)) => Some((a + b, ins2))
      else if op == "-" && |args| == 1 then
        match Eval(s, ins, args[0])
        case None => None
        case Some((a, ins1)) => Some((0 - a, ins1))
      else if op == "read" && |args| == 0 then
        if |ins| > 0 then Some((ins[0], ins[1..])) else None
      else None
    case Let(bs, body) =>
      match EvalBinds(s, ins, bs)
      case None => None
      case Some((s1, ins1)) => Eval(s1, ins1, body)
  }

  /** The valuation after binding `bs` in order, and the inputs left. */
  function EvalBinds(s: Valuation, ins: seq<int>, bs: seq<LetBinding>): (r: Option<(Valuation, seq<int>)>)
    ensures r.Some? ==> r.value.0.Keys == s.Keys + Binders(bs)
    decreases bs
  {
    if |bs| == 0 then Some((s, ins))
    else
      match EvalBinds(s, ins, bs[..|bs| - 1])
      case None => None
      case Some((s1, ins1)) =>
        match Eval(s1, ins1, bs[|bs| - 1].expr)
        case None => None
        case Some((v, ins2)) => Some((s1[bs[|bs| - 1].identifier := v], ins2))
  }

  /** The names a binding list binds. */
  function Binders(bs: seq<LetBinding>): set<string>
  {
    if |bs| == 0 then {} else Binders(bs[..|bs| - 1]) + {bs[|bs| - 1].identifier}
  }

  /** The names `e` uses without binding them. */
  function FreeVars(e: AstNode): set<string>
    decreases e
  {
    match e
    case Int(_) => {}
    case Var(x) => {x}
    case Error(_, _) => {}
    case Prim(_, args) => FreeVarsArgs(args)
    case Let(bs, body) => FreeVarsBinds(bs) + (FreeVars(body) - Binders(bs))
  }

  function FreeVarsArgs(args: seq<AstNode>): set<string>
    decreases args
  {
    if |args| == 0 then {}
    else FreeVarsArgs(args[..|args| - 1]) + FreeVars(args[|args| - 1])
  }

  /** Free names of the binding expressions, each seen with the binders
      before it in scope. */
  function FreeVarsBinds(bs: seq<LetBinding>): set<string>
    decreases bs
  {
    if |bs| == 0 then {}
    else
      var front := bs[..|bs| - 1];
      FreeVarsBinds(front) + (FreeVars(bs[|bs| - 1].expr) - Binders(front))
  }

  predicate LetFree(e: AstNode) {
    match e
    case Let(_, _) => false
    case Prim(_, args) => forall i | 0 <= i < |args| :: LetFree(args[i])
    case _ => true
  }

  lemma ConsumedTrans(a: seq<int>, b: seq<int>, c: seq<int>)
    requires Consumed(a, b) && Consumed(b, c)
    ensures Consumed(a, c)
  {
    assert a[|a| - |b|..][|b| - |c|..] == a[|a| - |c|..];
  }

  /** Evaluation only takes inputs from the front: what is left is a
      suffix of what was given. */
  lemma {:induction false} EvalConsumes(s: Valuation, ins: seq<int>, e: AstNode)
    ensures Eval(s, ins, e).Some? ==> Consumed(ins, Eval(s, ins, e).value.1)
    decreases e
  {
    match e
    case Int(_) =>
    case Var(_) =>
    case Error(_, _) =>
    case Prim(op, args) =>
      if op == "+" && |args| == 2 {
        EvalConsumes(s, ins, args[0]);
        if Eval(s, ins, args[0]).Some? {
          var ins1 := Eval(s, ins, args[0]).value.1;
          EvalConsumes(s, ins1, args[1]);
          if Eval(s, ins1, args[1]).Some? {
            ConsumedTrans(ins, ins1, Eval(s, ins1, args[1]).value.1);
          }
        }
      } else if op == "-" && |args| == 1 {
        EvalConsumes(s, ins, args[0]);
      }
    case Let(bs, body) =>
      EvalBindsConsumes(s, ins, bs);
      if EvalBinds(s, ins, bs).Some? {
        var (s1, ins1) := EvalBinds(s, ins, bs).value;
        EvalConsumes(s1, ins1, body);
        if Eval(s1, ins1, body).Some? {
          ConsumedTrans(ins, ins1, Eval(s1, ins1, body).value.1);
        }
      }
  }

  lemma {:induction false} EvalBindsConsumes(s: Valuation, ins: seq<int>, bs: seq<LetBinding>)
    ensures EvalBinds(s, ins, bs).Some? ==> Consumed(ins, EvalBinds(s, ins, bs).value.1)
    decreases bs
  {
    if |bs| > 0 {
      var front := bs[..|bs| - 1];
      EvalBindsConsumes(s, ins, front);
      if EvalBinds(s, ins, front).Some? {
        var (s1, ins1) := EvalBinds(s, ins, front).value;
        EvalConsumes(s1, ins1, bs[|bs| - 1].expr);
        if Eval(s1, ins1, bs[|bs| - 1].expr).Some? {
          ConsumedTrans(ins, ins1, Eval(s1, ins1, bs[|bs| - 1].expr).value.1);
        }
      }
    }
  }
}
