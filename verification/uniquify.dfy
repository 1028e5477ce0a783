/** Renaming of `let`-bound variables by scope depth: a binder `x` of a
    `let` at depth `d` (counting the `let` itself) becomes `x.d`, and each
    variable is renamed through the innermost scope that binds it. */
module Uniquify {
  import opened Ast

  /** A stack of scopes, outermost first: source name to new name. */
  type Scopes = seq<map<string, string>>

  /** The name `x` is renamed to in the innermost scope that binds it, or
      `x` itself when no scope does. */
  function Lookup(envs: Scopes, x: string): string
  {
    if |envs| == 0 then x
    else if x in envs[|envs| - 1] then envs[|envs| - 1][x]
    else Lookup(envs[..|envs| - 1], x)
  }

  /** `Lookup` leaves a name that no scope binds unchanged. */
  lemma {:induction false} LookupUnbound(envs: Scopes, x: string)
    requires forall i | 0 <= i < |envs| :: x !in envs[i]
    ensures Lookup(envs, x) == x
  {
    if |envs| > 0 {
      var front := envs[..|envs| - 1];
      assert forall i | 0 <= i < |front| :: front[i] == envs[i];
      LookupUnbound(front, x);
    }
  }

  /** `Lookup` answers from the innermost scope that binds the name. */
  lemma {:induction false} LookupInnermost(envs: Scopes, x: string, i: nat)
    requires i < |envs| && x in envs[i]
    requires forall j | i < j < |envs| :: x !in envs[j]
    ensures Lookup(envs, x) == envs[i][x]
  {
    if i < |envs| - 1 {
      var front := envs[..|envs| - 1];
      assert forall j | i < j < |front| :: front[j] == envs[j];
      LookupInnermost(front, x, i);
    }
  }

  /** The new name of binder `x` in a `let` at depth `depth`. */
  function Renamed(x: string, depth: nat): string {
    x + "." + NatToString(depth)
  }

  /** The renaming of an expression under the scopes `envs`.  It keeps the
      shape of the tree: same constructors, operators, arities and binding
      counts in the same order; literals and error nodes come back
      unchanged. */
  function Uq(envs: Scopes, e: AstNode): (r: AstNode)
    ensures SameShape(e, r)
    decreases e
  {
    match e
    case Int(n) => Int(n)
    case Var(x) => Var(Lookup(envs, x))
    case Prim(op, args) => Prim(op, UqArgs(envs, args))
    case Let(bs, body) =>
      var (ubs, top) := UqBinds(envs, bs);
      Let(ubs, Uq(envs + [top], body))
    case Error(msg, tok) => AstNode.Error(msg, tok)
  }

  /** The operands renamed one by one, in order. */
  function UqArgs(envs: Scopes, args: seq<AstNode>): (r: seq<AstNode>)
    ensures |r| == |args|
    ensures forall i | 0 <= i < |args| :: SameShape(args[i], r[i])
    decreases args
  {
    if |args| == 0 then []
    else
      var n := |args| - 1;
      assert forall i | 0 <= i < n :: args[..n][i] == args[i];
      UqArgs(envs, args[..n]) + [Uq(envs, args[n])]
  }

  /** The renamed bindings of a `let` pushed onto `envs`, and the scope
      the `let` has built when they are done: each binding's expression is
      renamed before its binder enters the scope.  There are as many
      renamed bindings as bindings, each of the same shape. */
  function UqBinds(envs: Scopes, bs: seq<LetBinding>): (r: (seq<LetBinding>, map<string, string>))
    ensures |r.0| == |bs|
    ensures forall i {:trigger r.0[i]} | 0 <= i < |bs| :: SameShape(bs[i].expr, r.0[i].expr)
    decreases bs
  {
    if |bs| == 0 then ([], map[])
    else
      var n := |bs| - 1;
      var (ubs, top) := UqBinds(envs, bs[..n]);
      var b := bs[n];
      var name := Renamed(b.identifier, |envs| + 1);
      assert forall i | 0 <= i < n :: bs[..n][i] == bs[i];
      (ubs + [LetBinding(name, Uq(envs + [top], b.expr))], top[b.identifier := name])
  }

  /** The scope a `let` at depth `depth` holds after binding `bs`. */
  function Frame(bs: seq<LetBinding>, depth: nat): (m: map<string, string>)
    ensures forall i | 0 <= i < |bs| :: bs[i].identifier in m
    ensures forall x | x in m :: m[x] == Renamed(x, depth)
  {
    if |bs| == 0 then map[]
    else Frame(bs[..|bs| - 1], depth)[bs[|bs| - 1].identifier := Renamed(bs[|bs| - 1].identifier, depth)]
  }

  lemma LookupStep(envs: Scopes, i: nat, x: string)
    requires i < |envs|
    ensures Lookup(envs[..i + 1], x) == if x in envs[i] then envs[i][x] else Lookup(envs[..i], x)
  {
    assert envs[..i + 1][..i] == envs[..i];
  }

  /** Same constructor, operator, arity and binding count everywhere,
      literals and error nodes unchanged. */
  predicate SameShape(a: AstNode, b: AstNode) {
    match a
    case Int(n) => b == Int(n)
    case Var(_) => b.Var?
    case Error(_, _) => b == a
    case Prim(op, args) =>
      b.Prim? && b.op == op && |b.args| == |args|
      && forall i | 0 <= i < |args| :: SameShape(args[i], b.args[i])
    case Let(bs, body) =>
      b.Let? && |b.bindings| == |bs| && SameShape(body, b.body)
      && forall i | 0 <= i < |bs| :: SameShape(bs[i].expr, b.bindings[i].expr)
  }

  class Uniquifier {
    var environments: Scopes

    constructor ()
      ensures environments == []
    {
      environments := [];
    }

    method UniquifyExp(e: AstNode) returns (r: AstNode)
      modifies this
      ensures environments == old(environments)
      ensures r == Uq(old(environments), e)
      decreases e, 1
    {
      match e {
        case Int(n) =>
          r := Int(n);
        case Var(name) =>
          var newName := LookupName(name);
          r := Var(newName);
        case Prim(_, _) =>
          r := UniquifyPrim(e);
        case Let(_, _) =>
          r := UniquifyLet(e);
        case Error(msg, token) =>
          r := AstNode.Error(msg, token);
      }
    }

    /** Searches the scopes from the innermost out. */
    method LookupName(name: string) returns (newName: string)
      ensures newName == Lookup(environments, name)
    {
      newName := name;
      var i := |environments|;
      assert environments[..i] == environments;
      while i > 0
        invariant 0 <= i <= |environments|
        invariant Lookup(environments, name) == Lookup(environments[..i], name)
        invariant newName == name
      {
        i := i - 1;
        LookupStep(environments, i, name);
        if name in environments[i] {
          newName := environments[i][name];
          return;
        }
      }
      assert environments[..i] == [];
    }

    /** Renames the operands of a primitive one by one, in place. */
    method UniquifyPrim(e: AstNode) returns (r: AstNode)
      requires e.Prim?
      modifies this
      ensures environments == old(environments)
      ensures r == Uq(old(environments), e)
      decreases e, 0
    {
      var args := e.args;
      for i := 0 to |args|
        invariant environments == old(environments)
        invariant |args| == |e.args|
        invariant args[..i] == UqArgs(environments, e.args[..i])
        invariant args[i..] == e.args[i..]
      {
        assert args[i] == e.args[i];
        var newArg := UniquifyExp(args[i]);
        assert e.args[..i + 1][..i] == e.args[..i];
        args := args[i := newArg];
      }
      assert e.args[..|e.args|] == e.args;
      r := Prim(e.op, args);
    }

    /** Opens a scope for the `let`, renames and binds each binding in
        turn, renames the body, and closes the scope. */
    method UniquifyLet(e: AstNode) returns (r: AstNode)
      requires e.Let?
      modifies this
      ensures environments == old(environments)
      ensures r == Uq(old(environments), e)
      decreases e, 0
    {
      var bindings := e.bindings;
      ghost var outer := environments;
      environments := environments + [map[]];
      var last := |environments| - 1;
      var uniqueBindings: seq<LetBinding> := [];
      for i := 0 to |bindings|
        invariant |environments| == last + 1 && environments[..last] == outer
        invariant (uniqueBindings, environments[last]) == UqBinds(outer, bindings[..i])
      {
        var theVar := bindings[i].identifier;
        var newName := theVar + "." + NatToString(last + 1);
        assert environments == outer + [environments[last]];
        var unqValue := UniquifyExp(bindings[i].expr);
        environments := environments[last := environments[last][theVar := newName]];
        assert bindings[..i + 1][..i] == bindings[..i];
        uniqueBindings := uniqueBindings + [LetBinding(newName, unqValue)];
      }
      assert bindings[..|bindings|] == bindings;
      assert environments == outer + [environments[last]];
      var unqBody := UniquifyExp(e.body);
      environments := environments[..last];
      r := Let(uniqueBindings, unqBody);
    }
  }

  /** Every function body is renamed starting from an empty scope stack;
      the function names are kept. */
  method UniquifyProgram(p: Program) returns (q: Program)
    ensures q.Keys == p.Keys
    ensures forall f | f in p :: q[f] == Uq([], p[f])
  {
    q := map[];
    var todo := p.Keys;
    while todo != {}
      invariant todo <= p.Keys
      invariant q.Keys == p.Keys - todo
      invariant forall f | f in q :: q[f] == Uq([], p[f])
      decreases todo
    {
      var f :| f in todo;
      var u := new Uniquifier();
      var body := u.UniquifyExp(p[f]);
      q := q[f := body];
      todo := todo - {f};
    }
  }

  // -----------------------------------------------------------------------
  // Properties of the renaming

  /** Binding `i` of `bs` under `envs` comes out as `u`: its binder is
      renamed to `x.d` with `d` one more than the depth of `envs`, and its
      expression is renamed in the outer scopes plus the binders before
      it. */
  predicate RenamedAt(envs: Scopes, bs: seq<LetBinding>, i: nat, u: LetBinding)
    requires i < |bs|
  {
    u == LetBinding(Renamed(bs[i].identifier, |envs| + 1), Uq(envs + [Frame(bs[..i], |envs| + 1)], bs[i].expr))
  }

  /** Each binding of a `let` is renamed as `RenamedAt` says; the scope
      left for the body binds every binder of the `let`. */
  lemma {:induction false} UqBindsScope(envs: Scopes, bs: seq<LetBinding>)
    ensures UqBinds(envs, bs).1 == Frame(bs, |envs| + 1)
    ensures forall i | 0 <= i < |bs| :: RenamedAt(envs, bs, i, UqBinds(envs, bs).0[i])
    decreases bs
  {
    if |bs| > 0 {
      var n := |bs| - 1;
      var d := |envs| + 1;
      UqBindsScope(envs, bs[..n]);
      var (ubs, top) := UqBinds(envs, bs[..n]);
      var last := LetBinding(Renamed(bs[n].identifier, d), Uq(envs + [top], bs[n].expr));
      assert UqBinds(envs, bs).0 == ubs + [last];
      assert top == Frame(bs[..n], d);
      forall i | 0 <= i < |bs| ensures RenamedAt(envs, bs, i, (ubs + [last])[i]) {
        if i < n {
          assert (ubs + [last])[i] == ubs[i];
          assert RenamedAt(envs, bs[..n], i, ubs[i]);
          assert bs[..n][i] == bs[i];
          assert bs[..n][..i] == bs[..i];
        } else {
          assert bs[..i] == bs[..n];
          assert (ubs + [last])[i] == last;
        }
      }
    }
  }

  /** The whole `let`: binders renamed by depth, each binding expression
      seen in the outer scopes plus the earlier binders, and the body seen
      with all binders of the `let` in scope. */
  lemma UqLet(envs: Scopes, bs: seq<LetBinding>, body: AstNode)
    ensures var r := Uq(envs, Let(bs, body));
      && r.Let? && |r.bindings| == |bs|
      && (forall i | 0 <= i < |bs| ::
           r.bindings[i].identifier == Renamed(bs[i].identifier, |envs| + 1)
           && r.bindings[i].expr == Uq(envs + [Frame(bs[..i], |envs| + 1)], bs[i].expr))
      && r.body == Uq(envs + [Frame(bs, |envs| + 1)], body)
  {
    UqBindsScope(envs, bs);
    var r := Uq(envs, Let(bs, body));
    forall i | 0 <= i < |bs|
      ensures r.bindings[i].identifier == Renamed(bs[i].identifier, |envs| + 1)
      ensures r.bindings[i].expr == Uq(envs + [Frame(bs[..i], |envs| + 1)], bs[i].expr)
    {
      assert RenamedAt(envs, bs, i, r.bindings[i]);
    }
  }

  /** Renamed binders with no '.' in the source name determine the source
      name and the depth: binders at different depths never collide. */
  lemma RenamedInjective(x: string, d: nat, y: string, k: nat)
    requires '.' !in x && '.' !in y
    requires Renamed(x, d) == Renamed(y, k)
    ensures x == y && d == k
  {
    var s, t := NatToString(d), NatToString(k);
    var X, Y := Renamed(x, d), Renamed(y, k);
    assert X == x + ("." + s) && Y == y + ("." + t);
    FirstDotAfter(x, s);
    FirstDotAfter(y, t);
    assert x == X[..|x|] && y == Y[..|y|];
    assert s == X[|x| + 1..] && t == Y[|y| + 1..];
    NatToStringInjective(d, k);
  }

  /** Index of the first '.' in `str`, or its length when there is none. */
  function FirstDot(str: string): (k: nat)
    ensures k <= |str|
  {
    if |str| == 0 || str[0] == '.' then 0 else 1 + FirstDot(str[1..])
  }

  lemma {:induction false} FirstDotAfter(x: string, rest: string)
    requires '.' !in x
    ensures FirstDot(x + ("." + rest)) == |x|
  {
    if |x| > 0 {
      assert (x + ("." + rest))[1..] == x[1..] + ("." + rest);
      FirstDotAfter(x[1..], rest);
    }
  }

  /** A `let` with one binding, as a special case of `UqLet`. */
  lemma UqLet1(envs: Scopes, x: string, e: AstNode, body: AstNode)
    ensures Uq(envs, Let([LetBinding(x, e)], body))
         == Let([LetBinding(Renamed(x, |envs| + 1), Uq(envs + [map[]], e))],
                Uq(envs + [map[x := Renamed(x, |envs| + 1)]], body))
  {
    var bs := [LetBinding(x, e)];
    UqLet(envs, bs, body);
    assert bs[..0] == [];
    assert Frame(bs, |envs| + 1) == map[x := Renamed(x, |envs| + 1)];
  }

  /** `(let ([x (let ([y 42]) y)]) x)` becomes
      `(let ([x.1 (let ([y.2 42]) y.2)]) x.1)`. */
  lemma UqNestedLet()
    ensures Uq([], Let([LetBinding("x", Let([LetBinding("y", Int(42))], Var("y")))], Var("x")))
         == Let([LetBinding("x.1", Let([LetBinding("y.2", Int(42))], Var("y.2")))], Var("x.1"))
  {
    assert Renamed("x", 1) == "x.1" && Renamed("y", 2) == "y.2";
    UqLet1([], "x", Let([LetBinding("y", Int(42))], Var("y")), Var("x"));
    UqLet1([map[]], "y", Int(42), Var("y"));
    var none: Scopes := [];
    var empty: map<string, string> := map[];
    assert none + [empty] == [empty];
    assert [empty] + [map["y" := "y.2"]] == [empty, map["y" := "y.2"]];
    assert none + [map["x" := "x.1"]] == [map["x" := "x.1"]];
  }

  /** `(let ([x 10]) (let ([x (+ x 1)]) x))` becomes
      `(let ([x.1 10]) (let ([x.2 (+ x.1 1)]) x.2))`: the inner binding's
      expression still sees the outer `x`. */
  lemma UqShadowing()
    ensures Uq([], Let([LetBinding("x", Int(10))],
                       Let([LetBinding("x", Prim("+", [Var("x"), Int(1)]))], Var("x"))))
         == Let([LetBinding("x.1", Int(10))],
                Let([LetBinding("x.2", Prim("+", [Var("x.1"), Int(1)]))], Var("x.2")))
  {
    assert Renamed("x", 1) == "x.1" && Renamed("x", 2) == "x.2";
    var top1 := map["x" := "x.1"];
    var inner := Let([LetBinding("x", Prim("+", [Var("x"), Int(1)]))], Var("x"));
    UqLet1([], "x", Int(10), inner);
    var none: Scopes := [];
    assert none + [top1] == [top1];
    UqLet1([top1], "x", Prim("+", [Var("x"), Int(1)]), Var("x"));
    var args := [Var("x"), Int(1)];
    assert args[..1][..0] == [] && args[..1] == [Var("x")];
    var empty: map<string, string> := map[];
    assert [top1, empty][..1] == [top1];
    assert Lookup([top1, empty], "x") == "x.1";
    assert UqArgs([top1, map[]], args) == [Var("x.1"), Int(1)];
    assert Lookup([top1, map["x" := "x.2"]], "x") == "x.2";
  }
}
