/** Removal of complex operands: after this pass the operands of `+` and
    `-` are literals or names.  A complex operand is bound to a fresh
    temporary `tmp.N` by a `let` placed around the operation.  The pass
    keeps a counter for the temporaries and a list of (name, expression)
    entries, the expressions bound so far. */
module Decomplify {
  import opened Ast
  import opened Semantics

  /** The `k`-th temporary name, `"tmp.k"`. */
  function TmpName(k: nat): (name: string)
    ensures |name| > 4 && name[..4] == "tmp."
  {
    "tmp." + NatToString(k)
  }

  lemma TmpNameInjective(j: nat, k: nat)
    requires TmpName(j) == TmpName(k)
    ensures j == k
  {
    assert TmpName(j)[4..] == NatToString(j);
    assert TmpName(k)[4..] == NatToString(k);
    NatToStringInjective(j, k);
  }

  /** Temporaries with different numbers have different names. */
  lemma TmpNameDistinct(j: nat)
    ensures forall k: nat | k != j :: TmpName(k) != TmpName(j)
  {
    forall k: nat | TmpName(k) == TmpName(j) ensures k == j {
      TmpNameInjective(k, j);
    }
  }

  type Env = seq<(string, AstNode)>

  /** The expression of the first entry named `x` (a search from the
      front of the list). */
  function EnvFind(env: Env, x: string): (r: Option<AstNode>)
    ensures r.None? <==> forall i | 0 <= i < |env| :: env[i].0 != x
    ensures r.Some? ==> exists i | 0 <= i < |env| :: env[i] == (x, r.value) && forall j | 0 <= j < i :: env[j].0 != x
  {
    if |env| == 0 then None
    else if env[0].0 == x then Some(env[0].1)
    else
      var r := EnvFind(env[1..], x);
      assert forall i | 1 <= i < |env| :: env[1..][i - 1] == env[i];
      r
  }

  /** The first entry named `x` is the one found. */
  lemma {:induction false} EnvFindFirst(env: Env, i: nat, x: string)
    requires i < |env| && env[i].0 == x
    requires forall j | 0 <= j < i :: env[j].0 != x
    ensures EnvFind(env, x) == Some(env[i].1)
  {
    if i > 0 {
      assert env[1..][i - 1] == env[i];
      EnvFindFirst(env[1..], i - 1, x);
    }
  }

  /** The counter and the bound expressions. */
  datatype RcoState = RcoState(num: nat, env: Env)

  /** No entry from index `from` on names a temporary numbered outside
      `[lo, hi)`. */
  ghost predicate TmpsBetween(env: Env, from: nat, lo: nat, hi: nat) {
    forall i, k: nat | from <= i < |env| && (k < lo || hi <= k) :: env[i].0 != TmpName(k)
  }

  /** No temporary the counter has yet to hand out is bound. */
  ghost predicate Fresh(st: RcoState) {
    TmpsBetween(st.env, 0, 0, st.num)
  }

  /** `st'` comes from `st` by handing out more temporaries and appending
      entries for them. */
  ghost predicate Grows(st: RcoState, st': RcoState) {
    && st.num <= st'.num
    && |st.env| <= |st'.env| && st'.env[..|st.env|] == st.env
    && TmpsBetween(st'.env, |st.env|, st.num, st'.num)
  }

  /** The operands of every `+` and `-` are atoms. */
  predicate AtomicOperands(e: AstNode) {
    match e
    case Int(_) => true
    case Var(_) => true
    case Error(_, _) => true
    case Prim(op, args) =>
      && (op == "+" ==> |args| >= 2 && IsAtom(args[0]) && IsAtom(args[1]))
      && (op == "-" ==> |args| >= 1 && IsAtom(args[0]))
    case Let(bs, body) => (forall i | 0 <= i < |bs| :: AtomicOperands(bs[i].expr)) && AtomicOperands(body)
  }

  /** Expressions `rco_expr` handles without reaching `unreachable!`: no
      error nodes, only `+`, `-` and `read`, and the operands it reads are
      present. */
  predicate RcoOk(e: AstNode)
    decreases e, 0
  {
    match e
    case Int(_) => true
    case Var(_) => true
    case Error(_, _) => false
    case Prim(op, args) =>
      || op == "read"
      || (op == "-" && |args| >= 1 && AtomOk(args[0]))
      || (op == "+" && |args| >= 2 && AtomOk(args[0]) && AtomOk(args[1]))
    case Let(bs, body) => (forall i | 0 <= i < |bs| :: RcoOk(bs[i].expr)) && RcoOk(body)
  }

  /** Operands `rco_atom` handles. */
  predicate AtomOk(e: AstNode)
    decreases e, 1
  {
    match e
    case Int(_) => true
    case Var(_) => true
    case Error(_, _) => false
    case Prim(op, _) => op == "read" || ((op == "+" || op == "-") && RcoOk(e))
    case Let(_, _) => RcoOk(e)
  }

  /** What the parser builds without errors is accepted. */
  lemma {:induction false} WellFormedRcoOk(e: AstNode)
    requires WellFormed(e) && !ContainsError(e)
    ensures RcoOk(e) && AtomOk(e)
    decreases e
  {
    match e
    case Prim(op, args) =>
      if op == "+" {
        WellFormedRcoOk(args[0]);
        WellFormedRcoOk(args[1]);
      } else if op == "-" {
        WellFormedRcoOk(args[0]);
      }
    case Let(bs, body) =>
      forall i | 0 <= i < |bs| ensures RcoOk(bs[i].expr) {
        WellFormedRcoOk(bs[i].expr);
      }
      WellFormedRcoOk(body);
    case _ =>
  }

  // -----------------------------------------------------------------------
  // The pass as a function of the counter and the entries

  /** The outcome of `rco_atom`: whether a temporary was needed, the atom
      that replaces the operand, the expression bound to the temporary
      (the operand itself when none was needed), and the state after. */
  datatype Atomized = Atomized(changed: bool, atom: AstNode, bound: AstNode, st: RcoState)

  /** `rco_atom`: literals and names stay; anything else is bound to the
      next temporary.  `(read)` is bound as it is, the other operands
      after removing their own complex operands. */
  function Atomize(st: RcoState, e: AstNode): (r: Atomized)
    requires AtomOk(e)
    ensures r.changed <==> !IsAtom(e)
    ensures !r.changed ==> r.atom == e == r.bound && r.st == st
    ensures r.changed ==> r.atom == Var(TmpName(st.num)) && st.num < r.st.num
    ensures r.changed ==> |r.st.env| > 0 && r.st.env[|r.st.env| - 1] == (TmpName(st.num), r.bound)
    ensures Grows(st, r.st)
    ensures AtomicOperands(r.bound)
    decreases e, 1
  {
    if IsAtom(e) then Atomized(false, e, e, st)
    else
      TmpNameDistinct(st.num);
      var t := TmpName(st.num);
      if e.Prim? && e.op == "read" then
        Atomized(true, Var(t), e, RcoState(st.num + 1, st.env + [(t, e)]))
      else
        var (x, st1) := RcoExp(RcoState(st.num + 1, st.env), e);
        assert st1.env[..|st.env|] == st.env;
        Atomized(true, Var(t), x, RcoState(st1.num, st1.env + [(t, x)]))
  }

  /** The `let` binding an atomized operand to its temporary, if any. */
  function OperandBinding(a: Atomized): seq<LetBinding>
    requires a.changed ==> a.atom.Var?
  {
    if a.changed then [LetBinding(a.atom.name, a.bound)] else []
  }

  /** `rco_expr`: the expression with complex operands removed, and the
      state after.  A result that is not a `let` is the input itself. */
  function RcoExp(st: RcoState, e: AstNode): (r: (AstNode, RcoState))
    requires RcoOk(e)
    ensures Grows(st, r.1)
    ensures AtomicOperands(r.0)
    ensures !r.0.Let? ==> r.0 == e
    decreases e, 0
  {
    match e
    case Int(_) => (e, st)
    case Var(_) => (e, st)
    case Prim(op, args) =>
      if op == "read" then (e, st)
      else if op == "-" then
        var a := Atomize(st, args[0]);
        if a.changed then (Let(OperandBinding(a), Prim(op, [a.atom])), a.st) else (e, a.st)
      else
        var l := Atomize(st, args[0]);
        var r := Atomize(l.st, args[1]);
        GrowsTrans(st, l.st, r.st);
        if l.changed || r.changed then
          (Let(OperandBinding(l) + OperandBinding(r), Prim(op, [l.atom, r.atom])), r.st)
        else (e, r.st)
    case Let(bs, body) =>
      var (nbs, st1) := RcoBinds(st, bs);
      var (nb, st2) := RcoExp(st1, body);
      GrowsTrans(st, st1, st2);
      (Let(nbs, nb), st2)
  }

  /** The bindings one binding becomes: when its expression came back as
      a `let`, that `let`'s bindings followed by the binder bound to its
      body; otherwise the binding as it was. */
  function Expanded(b: LetBinding, x: AstNode): (bs: seq<LetBinding>)
    ensures |bs| > 0 && bs[|bs| - 1].identifier == b.identifier
  {
    if x.Let? then x.bindings + [LetBinding(b.identifier, x.body)] else [b]
  }

  /** The bindings of a `let` with complex operands removed, each one
      expanded in place, in the original order. */
  function RcoBinds(st: RcoState, bs: seq<LetBinding>): (r: (seq<LetBinding>, RcoState))
    requires forall i | 0 <= i < |bs| :: RcoOk(bs[i].expr)
    ensures Grows(st, r.1)
    ensures |r.0| >= |bs|
    ensures forall i | 0 <= i < |r.0| :: AtomicOperands(r.0[i].expr)
    decreases bs, 0
  {
    if |bs| == 0 then ([], st)
    else
      var (front, st1) := RcoBinds(st, bs[..|bs| - 1]);
      var b := bs[|bs| - 1];
      var (x, st2) := RcoExp(st1, b.expr);
      GrowsTrans(st, st1, st2);
      (front + Expanded(b, x), st2)
  }

  // -----------------------------------------------------------------------
  // Temporaries are fresh, so the lookups of `rco_expr` find what
  // `rco_atom` bound

  lemma GrowsTrans(a: RcoState, b: RcoState, c: RcoState)
    requires Grows(a, b) && Grows(b, c)
    ensures Grows(a, c)
  {
    assert c.env[..|b.env|][..|a.env|] == c.env[..|a.env|];
    forall i, k: nat | |a.env| <= i < |c.env| && (k < a.num || c.num <= k)
      ensures c.env[i].0 != TmpName(k)
    {
      if i < |b.env| {
        assert c.env[i] == b.env[i];
      }
    }
  }

  lemma GrowsFresh(st: RcoState, st': RcoState)
    requires Fresh(st) && Grows(st, st')
    ensures Fresh(st')
  {
    forall i, k | 0 <= i < |st'.env| && st'.num <= k
      ensures st'.env[i].0 != TmpName(k)
    {
      if i < |st.env| {
        assert st'.env[i] == st.env[i];
      }
    }
  }

  /** The entry `rco_atom` appends for an operand it atomizes is found by
      `env_get` however many entries follow it. */
  lemma FindAtomized(st: RcoState, e: AstNode, later: RcoState)
    requires Fresh(st) && AtomOk(e) && !IsAtom(e)
    requires Grows(Atomize(st, e).st, later)
    ensures EnvFind(later.env, TmpName(st.num)) == Some(Atomize(st, e).bound)
  {
    var a := Atomize(st, e);
    var n := |a.st.env| - 1;
    var t := TmpName(st.num);
    AtomizedFirst(st, e);
    forall j | 0 <= j < n ensures later.env[j].0 != t {
      assert later.env[j] == a.st.env[j];
    }
    assert later.env[n] == a.st.env[n];
    EnvFindFirst(later.env, n, t);
  }

  /** No entry before the one `rco_atom` appends names its temporary. */
  lemma AtomizedFirst(st: RcoState, e: AstNode)
    requires Fresh(st) && AtomOk(e) && !IsAtom(e)
    ensures var a := Atomize(st, e);
      forall j | 0 <= j < |a.st.env| - 1 :: a.st.env[j].0 != TmpName(st.num)
  {
    var a := Atomize(st, e);
    var n := |a.st.env| - 1;
    var t := TmpName(st.num);
    var pre := a.st.env[..n];
    if e.Prim? && e.op == "read" {
      assert pre == st.env;
    } else {
      var st1 := RcoExp(RcoState(st.num + 1, st.env), e).1;
      assert pre == st1.env;
      forall j | |st.env| <= j < n ensures pre[j].0 != t {
        assert TmpsBetween(st1.env, |st.env|, st.num + 1, st1.num);
      }
    }
    forall j | 0 <= j < n ensures a.st.env[j].0 != t {
      assert a.st.env[j] == pre[j];
      if j < |st.env| {
        assert pre[j] == st.env[j];
      }
    }
  }

  // -----------------------------------------------------------------------
  // The order of `let` bindings

  /** The binders of a binding list, in order. */
  function Idents(bs: seq<LetBinding>): (ids: seq<string>)
    ensures |ids| == |bs| && forall i | 0 <= i < |bs| :: ids[i] == bs[i].identifier
  {
    seq(|bs|, i requires 0 <= i < |bs| => bs[i].identifier)
  }

  /** `a` is `w` with some elements left out. */
  predicate IsSubseq(a: seq<string>, w: seq<string>)
    decreases |w|
  {
    if |a| == 0 then true
    else if |w| == 0 then false
    else
      || (a[|a| - 1] == w[|w| - 1] && IsSubseq(a[..|a| - 1], w[..|w| - 1]))
      || IsSubseq(a, w[..|w| - 1])
  }

  lemma {:induction false} SubseqAppend(a: seq<string>, w: seq<string>, c: seq<string>)
    requires IsSubseq(a, w)
    ensures IsSubseq(a, w + c)
    decreases |c|
  {
    if |c| > 0 {
      var wc := w + c;
      assert wc[..|wc| - 1] == w + c[..|c| - 1];
      SubseqAppend(a, w, c[..|c| - 1]);
      assert IsSubseq(a, wc[..|wc| - 1]);
    } else {
      assert w + c == w;
    }
  }

  /** Every binder keeps its place relative to the others: the binders of
      the input are, in order, among the binders of the output, each
      after the temporaries its expression needed. */
  lemma {:induction false} RcoBindsKeepsOrder(st: RcoState, bs: seq<LetBinding>)
    requires forall i | 0 <= i < |bs| :: RcoOk(bs[i].expr)
    ensures IsSubseq(Idents(bs), Idents(RcoBinds(st, bs).0))
    decreases |bs|
  {
    if |bs| > 0 {
      var n := |bs| - 1;
      var (front, st1) := RcoBinds(st, bs[..n]);
      var x := RcoExp(st1, bs[n].expr).0;
      var ex := Expanded(bs[n], x);
      assert RcoBinds(st, bs).0 == front + ex;
      RcoBindsKeepsOrder(st, bs[..n]);
      LastSplit(bs);
      SubseqExtend(bs[..n], bs[n], front, ex);
    }
  }

  lemma LastSplit(bs: seq<LetBinding>)
    requires |bs| > 0
    ensures bs == bs[..|bs| - 1] + [bs[|bs| - 1]]
  {
  }

  /** Appending a binding on one side and a list ending in its binder on
      the other keeps the binders in order. */
  lemma SubseqExtend(a: seq<LetBinding>, b: LetBinding, w: seq<LetBinding>, ex: seq<LetBinding>)
    requires IsSubseq(Idents(a), Idents(w))
    requires |ex| > 0 && ex[|ex| - 1].identifier == b.identifier
    ensures IsSubseq(Idents(a + [b]), Idents(w + ex))
  {
    var ib, io := Idents(a + [b]), Idents(w + ex);
    assert ib[..|ib| - 1] == Idents(a);
    assert io[..|io| - 1] == Idents(w) + Idents(ex[..|ex| - 1]);
    SubseqAppend(Idents(a), Idents(w), Idents(ex[..|ex| - 1]));
    assert ib[|ib| - 1] == io[|io| - 1];
  }

  // -----------------------------------------------------------------------
  // The pass as an object: a counter and a list of entries that its
  // methods update.  Its methods compute the corrected `RcoExp`; the
  // source's own rules are `AtomizeAsWritten` and `RcoExpAsWritten`

  class Rco {
    var num: nat
    var env: Env

    function State(): RcoState
      reads this
    {
      RcoState(num, env)
    }

    constructor ()
      ensures num == 0 && env == []
    {
      num := 0;
      env := [];
    }

    /** The next temporary; the counter moves past it. */
    method Tmp() returns (name: string)
      modifies this
      ensures name == TmpName(old(num)) && num == old(num) + 1 && env == old(env)
    {
      var current := num;
      name := "tmp." + NatToString(current);
      num := num + 1;
    }

    /** The expression of the first entry named `find`. */
    method EnvGet(find: string) returns (r: Option<AstNode>)
      ensures r == EnvFind(env, find)
    {
      for i := 0 to |env|
        invariant EnvFind(env, find) == EnvFind(env[i..], find)
      {
        assert env[i..][1..] == env[i + 1..];
        if env[i].0 == find {
          return Some(env[i].1);
        }
      }
      assert env[|env|..] == [];
      return None;
    }

    method EnvSet(name: string, expr: AstNode)
      modifies this
      ensures env == old(env) + [(name, expr)] && num == old(num)
    {
      env := env + [(name, expr)];
    }

    method RcoAtom(e: AstNode) returns (changed: bool, atom: AstNode)
      requires AtomOk(e) && Fresh(State())
      modifies this
      ensures var r := Atomize(old(State()), e); changed == r.changed && atom == r.atom && State() == r.st
      ensures Fresh(State())
      decreases e, 2
    {
      if e.Int? || e.Var? {
        return false, e;
      }
      var t := Tmp();
      var x;
      if e.Prim? && e.op == "read" {
        x := e;
      } else {
        x := RcoExpr(e);
      }
      EnvSet(t, x);
      return true, Var(t);
    }

    method RcoExpr(e: AstNode) returns (r: AstNode)
      requires RcoOk(e) && Fresh(State())
      modifies this
      ensures (r, State()) == RcoExp(old(State()), e)
      ensures Fresh(State())
      decreases e, 1
    {
      match e {
        case Int(_) =>
          r := e;
        case Var(_) =>
          r := e;
        case Let(bs, body) =>
          r := RcoLet(e);
        case Prim(op, args) =>
          if op == "read" {
            r := e;
          } else if op == "-" {
            r := RcoNegate(e);
          } else {
            r := RcoAdd(e);
          }
      }
    }

    /** The `-` case of `rco_expr`. */
    method RcoNegate(e: AstNode) returns (r: AstNode)
      requires e.Prim? && e.op == "-" && RcoOk(e) && Fresh(State())
      modifies this
      ensures (r, State()) == RcoExp(old(State()), e)
      ensures Fresh(State())
      decreases e, 0
    {
      ghost var st := State();
      ghost var a := Atomize(st, e.args[0]);
      var changed, atom := RcoAtom(e.args[0]);
      GrowsFresh(st, State());
      if changed {
        FindAtomized(st, e.args[0], State());
        var name := atom.name;
        var bound := EnvGet(name);
        match bound {
          case Some(x) =>
            r := Let([LetBinding(name, x)], Prim(e.op, [atom]));
          case None =>
            assert false;
        }
      } else {
        r := e;
      }
    }

    /** The `+` case of `rco_expr`: both operands are atomized, left
        first, and each temporary is then bound to what `env_get` finds
        for it. */
    method RcoAdd(e: AstNode) returns (r: AstNode)
      requires e.Prim? && e.op == "+" && RcoOk(e) && Fresh(State())
      modifies this
      ensures (r, State()) == RcoExp(old(State()), e)
      ensures Fresh(State())
      decreases e, 0
    {
      ghost var st := State();
      ghost var l := Atomize(st, e.args[0]);
      ghost var rr := Atomize(l.st, e.args[1]);
      var lAtomized, lAtom := RcoAtom(e.args[0]);
      GrowsFresh(st, State());
      var rAtomized, rAtom := RcoAtom(e.args[1]);
      GrowsFresh(l.st, State());
      if l.changed {
        FindAtomized(st, e.args[0], State());
      }
      if rr.changed {
        FindAtomized(l.st, e.args[1], State());
      }
      var results := [(lAtomized, lAtom), (rAtomized, rAtom)];
      ghost var atomized := [l, rr];
      assert Bindable(results[0].0, results[0].1, atomized[0]);
      assert Bindable(results[1].0, results[1].1, atomized[1]);
      var letBindings: seq<LetBinding> := [];
      var wasAtomized := false;
      for i := 0 to 2
        invariant letBindings == if i == 0 then [] else if i == 1 then OperandBinding(l) else OperandBinding(l) + OperandBinding(rr)
        invariant wasAtomized == ((i >= 1 && l.changed) || (i >= 2 && rr.changed))
        invariant State() == rr.st
      {
        var bs, atm := BindOperand(results[i].0, results[i].1, atomized[i]);
        assert i == 0 ==> letBindings + bs == OperandBinding(l);
        letBindings := letBindings + bs;
        wasAtomized := wasAtomized || atm;
      }
      if wasAtomized {
        r := Let(letBindings, Prim(e.op, [lAtom, rAtom]));
      } else {
        r := e;
      }
    }

    /** One round of the loop over the two atomized operands of `+`: a
        temporary is bound to the expression `env_get` finds for it. */
    /** What `rco_atom` returned for an operand, with the entry it made
        when it bound a temporary. */
    predicate Bindable(atm: bool, node: AstNode, a: Atomized)
      reads this
    {
      && atm == a.changed && node == a.atom && IsAtom(node)
      && (atm ==> node.Var? && EnvFind(env, node.name) == Some(a.bound))
    }

    method BindOperand(atm: bool, node: AstNode, ghost a: Atomized) returns (bs: seq<LetBinding>, atomized: bool)
      requires Bindable(atm, node, a)
      ensures bs == OperandBinding(a) && atomized == atm
    {
      bs := [];
      atomized := false;
      match node {
        case Int(_) =>
        case Var(name) =>
          if atm {
            var found := EnvGet(name);
            match found {
              case Some(x) =>
                bs := [LetBinding(name, x)];
                atomized := true;
              case None =>
                assert false;
            }
          }
      }
    }

    /** The `let` case of `rco_expr`: each binding is expanded in place,
        then the body is processed. */
    method RcoLet(e: AstNode) returns (r: AstNode)
      requires e.Let? && RcoOk(e) && Fresh(State())
      modifies this
      ensures (r, State()) == RcoExp(old(State()), e)
      ensures Fresh(State())
      decreases e, 0
    {
      var bindings := e.bindings;
      ghost var st0 := State();
      var newBindings: seq<LetBinding> := [];
      for i := 0 to |bindings|
        invariant (newBindings, State()) == RcoBinds(st0, bindings[..i])
        invariant Fresh(State())
      {
        assert bindings[..i + 1][..i] == bindings[..i];
        var current := bindings[i];
        var x := RcoExpr(current.expr);
        if x.Let? {
          assert newBindings + x.bindings + [LetBinding(current.identifier, x.body)]
            == newBindings + Expanded(current, x);
          newBindings := newBindings + x.bindings + [LetBinding(current.identifier, x.body)];
        } else {
          newBindings := newBindings + [current];
        }
      }
      assert bindings[..|bindings|] == bindings;
      var newBody := RcoExpr(e.body);
      r := Let(newBindings, newBody);
    }
  }

  /** `decomplify_program`: a fresh counter and no entries. */
  method DecomplifyProgram(exp: AstNode) returns (r: AstNode)
    requires RcoOk(exp)
    ensures r == RcoExp(RcoState(0, []), exp).0
    ensures AtomicOperands(r)
  {
    var rco := new Rco();
    r := rco.RcoExpr(exp);
  }

  // -----------------------------------------------------------------------
  // The pass exactly as the source writes it

  /** `rco_atom` as written: `(- a)` is bound to its temporary as it is,
      like `(read)`, without removing the complex operands of `a`. */
  function AtomizeAsWritten(st: RcoState, e: AstNode): (r: Atomized)
    requires AtomOk(e)
    ensures r.changed <==> !IsAtom(e)
    ensures r.changed ==> r.atom == Var(TmpName(st.num)) && st.num < r.st.num
    ensures !r.changed ==> r.atom == e == r.bound && r.st == st
    decreases e, 1
  {
    if IsAtom(e) then Atomized(false, e, e, st)
    else
      var t := TmpName(st.num);
      if e.Prim? && (e.op == "read" || e.op == "-") then
        Atomized(true, Var(t), e, RcoState(st.num + 1, st.env + [(t, e)]))
      else
        var (x, st1) := RcoExpAsWritten(RcoState(st.num + 1, st.env), e);
        Atomized(true, Var(t), x, RcoState(st1.num, st1.env + [(t, x)]))
  }

  /** `rco_expr` as written: a `let` lists the bindings it kept unchanged
      first and the expanded ones after them. */
  function RcoExpAsWritten(st: RcoState, e: AstNode): (r: (AstNode, RcoState))
    requires RcoOk(e)
    ensures st.num <= r.1.num
    ensures !r.0.Let? ==> r.0 == e
    decreases e, 0
  {
    match e
    case Int(_) => (e, st)
    case Var(_) => (e, st)
    case Prim(op, args) =>
      if op == "read" then (e, st)
      else if op == "-" then
        var a := AtomizeAsWritten(st, args[0]);
        if a.changed then (Let(OperandBinding(a), Prim(op, [a.atom])), a.st) else (e, a.st)
      else
        var l := AtomizeAsWritten(st, args[0]);
        var r := AtomizeAsWritten(l.st, args[1]);
        if l.changed || r.changed then
          (Let(OperandBinding(l) + OperandBinding(r), Prim(op, [l.atom, r.atom])), r.st)
        else (e, r.st)
    case Let(bs, body) =>
      var (untouched, changed, st1) := RcoBindsAsWritten(st, bs);
      var (nb, st2) := RcoExpAsWritten(st1, body);
      (Let(untouched + changed, nb), st2)
  }

  /** The binding loop as written: the bindings kept as they were, and
      the expanded ones, in two separate lists. */
  function RcoBindsAsWritten(st: RcoState, bs: seq<LetBinding>): (r: (seq<LetBinding>, seq<LetBinding>, RcoState))
    requires forall i | 0 <= i < |bs| :: RcoOk(bs[i].expr)
    ensures st.num <= r.2.num
    ensures |r.0| + |r.1| >= |bs|
    decreases bs, 0
  {
    if |bs| == 0 then ([], [], st)
    else
      var (untouched, changed, st1) := RcoBindsAsWritten(st, bs[..|bs| - 1]);
      var b := bs[|bs| - 1];
      var (x, st2) := RcoExpAsWritten(st1, b.expr);
      if x.Let? then (untouched, changed + x.bindings + [LetBinding(b.identifier, x.body)], st2)
      else (untouched + [b], changed, st2)
  }

  lemma TmpZeroOne()
    ensures TmpName(0) == "tmp.0" && TmpName(1) == "tmp.1"
  {
    assert NatToString(0) == "0" && NatToString(1) == "1";
  }

  /** `(- (- (read)))`: the source binds `tmp.0` to `(- (read))`, whose
      operand is still complex; the corrected pass also binds `(read)` to
      `tmp.1`. */
  lemma NegatedOperandStaysComplex()
    ensures var e := Prim("-", [Prim("-", [Prim("read", [])])]);
      && RcoOk(e)
      && RcoExpAsWritten(RcoState(0, []), e).0
         == Let([LetBinding("tmp.0", Prim("-", [Prim("read", [])]))], Prim("-", [Var("tmp.0")]))
      && !AtomicOperands(RcoExpAsWritten(RcoState(0, []), e).0)
      && RcoExp(RcoState(0, []), e).0
         == Let([LetBinding("tmp.0", Let([LetBinding("tmp.1", Prim("read", []))], Prim("-", [Var("tmp.1")])))],
                Prim("-", [Var("tmp.0")]))
  {
    TmpZeroOne();
    var rd := Prim("read", []);
    var inner := Prim("-", [rd]);
    var e := Prim("-", [inner]);
    var st0 := RcoState(0, []);
    var a := AtomizeAsWritten(st0, inner);
    assert a == Atomized(true, Var("tmp.0"), inner, RcoState(1, [("tmp.0", inner)]));
    var out := Let([LetBinding("tmp.0", inner)], Prim("-", [Var("tmp.0")]));
    assert RcoExpAsWritten(st0, e).0 == out;
    assert out.bindings[0].expr == inner;
    var st1 := RcoState(1, []);
    var b := Atomize(st1, rd);
    assert b == Atomized(true, Var("tmp.1"), rd, RcoState(2, [("tmp.1", rd)]));
    assert RcoExp(st1, inner).0 == Let([LetBinding("tmp.1", rd)], Prim("-", [Var("tmp.1")]));
  }

  /** `(+ 1 (+ 2 3))` becomes `(let ([tmp.0 (+ 2 3)]) (+ 1 tmp.0))` as
      written. */
  lemma AddOfSum()
    ensures var sum := Prim("+", [Int(2), Int(3)]);
      var ea := Prim("+", [Int(1), sum]);
      var xa := Let([LetBinding("tmp.0", sum)], Prim("+", [Int(1), Var("tmp.0")]));
      && RcoOk(ea)
      && RcoExpAsWritten(RcoState(0, []), ea) == (xa, RcoState(1, [("tmp.0", sum)]))
  {
    TmpZeroOne();
    var sum := Prim("+", [Int(2), Int(3)]);
    var ea := Prim("+", [Int(1), sum]);
    var st0 := RcoState(0, []);
    var st1 := RcoState(1, [("tmp.0", sum)]);
    var t0 := LetBinding("tmp.0", sum);
    var xa := Let([t0], Prim("+", [Int(1), Var("tmp.0")]));
    var one := Atomized(false, Int(1), Int(1), st0);
    var tmp0 := Atomized(true, Var("tmp.0"), sum, st1);
    assert AtomOk(sum) && RcoOk(ea);
    assert OperandBinding(one) + OperandBinding(tmp0) == [t0];
    assert AtomizeAsWritten(st0, Int(1)) == one;
    assert AtomizeAsWritten(st0, sum) == tmp0;
  }

  /** The example `let` and its value. */
  function Example(): AstNode {
    Let([LetBinding("a", Prim("+", [Int(1), Prim("+", [Int(2), Int(3)])])), LetBinding("b", Var("a"))], Var("b"))
  }

  lemma ExampleValue()
    ensures RcoOk(Example()) && Eval(map[], [], Example()) == Some((6, []))
  {
    var ba := LetBinding("a", Prim("+", [Int(1), Prim("+", [Int(2), Int(3)])]));
    var bb := LetBinding("b", Var("a"));
    var bs := [ba, bb];
    assert Example() == Let(bs, Var("b"));
    ExampleBindsValue(map[], []);
  }

  lemma ExampleBindsValue(s: Valuation, ins: seq<int>)
    ensures var bs := [LetBinding("a", Prim("+", [Int(1), Prim("+", [Int(2), Int(3)])])), LetBinding("b", Var("a"))];
      EvalBinds(s, ins, bs) == Some((s["a" := 6]["b" := 6], ins))
  {
    var ba := LetBinding("a", Prim("+", [Int(1), Prim("+", [Int(2), Int(3)])]));
    var bb := LetBinding("b", Var("a"));
    var bs := [ba, bb];
    assert bs[..1] == [ba] && [ba][..0] == [];
    assert Eval(s, ins, ba.expr) == Some((6, ins));
    assert EvalBinds(s, ins, [ba]) == Some((s["a" := 6], ins));
  }

  /** As written, the result binds `b` to `a` before binding `a`. */
  lemma ExampleAsWritten()
    ensures RcoOk(Example())
    ensures RcoExpAsWritten(RcoState(0, []), Example()).0 ==
      Let([LetBinding("b", Var("a")), LetBinding("tmp.0", Prim("+", [Int(2), Int(3)])),
           LetBinding("a", Prim("+", [Int(1), Var("tmp.0")]))], Var("b"))
  {
    ExampleOk();
    AddOfSum();
    var sum := Prim("+", [Int(2), Int(3)]);
    var ba := LetBinding("a", Prim("+", [Int(1), sum]));
    var bb := LetBinding("b", Var("a"));
    var bs := [ba, bb];
    assert Example() == Let(bs, Var("b"));
    var t0 := LetBinding("tmp.0", sum);
    var ta := LetBinding("a", Prim("+", [Int(1), Var("tmp.0")]));
    var st0 := RcoState(0, []);
    var st1 := RcoState(1, [("tmp.0", sum)]);
    var none: seq<LetBinding> := [];
    assert bs[..1] == [ba] && [ba][..0] == none;
    assert none + [t0] + [ta] == [t0, ta];
    assert RcoBindsAsWritten(st0, none) == ([], [], st0);
    assert RcoBindsAsWritten(st0, [ba]) == ([], [t0, ta], st1);
    assert RcoExpAsWritten(st1, Var("a")) == (Var("a"), st1);
    assert none + [bb] == [bb];
    assert RcoBindsAsWritten(st0, bs) == ([bb], [t0, ta], st1);
    assert RcoExpAsWritten(st1, Var("b")) == (Var("b"), st1);
  }

  lemma ExampleOk()
    ensures RcoOk(Example())
  {
    var sum := Prim("+", [Int(2), Int(3)]);
    var ba := LetBinding("a", Prim("+", [Int(1), sum]));
    var bb := LetBinding("b", Var("a"));
    assert RcoOk(ba.expr) by {
      assert AtomOk(Int(1)) && AtomOk(sum);
    }
    assert RcoOk(bb.expr);
    var bs := [ba, bb];
    assert forall i | 0 <= i < |bs| :: RcoOk(bs[i].expr);
    assert Example() == Let(bs, Var("b"));
  }

  lemma ReorderedBindingsStuck()
    ensures var bs := [LetBinding("b", Var("a")), LetBinding("tmp.0", Prim("+", [Int(2), Int(3)])),
                       LetBinding("a", Prim("+", [Int(1), Var("tmp.0")]))];
      EvalBinds(map[], [], bs) == None
  {
    var bb := LetBinding("b", Var("a"));
    var t0 := LetBinding("tmp.0", Prim("+", [Int(2), Int(3)]));
    var ta := LetBinding("a", Prim("+", [Int(1), Var("tmp.0")]));
    var none: seq<LetBinding> := [];
    var s0: Valuation := map[];
    assert [bb][..0] == none;
    assert EvalBinds(s0, [], [bb]) == None;
    assert [bb, t0, ta][..2][..1] == [bb] && [bb, t0, ta][..2] == [bb, t0];
    assert EvalBinds(s0, [], [bb, t0]) == None;
  }

  lemma ReorderedBinders()
    ensures !IsSubseq(["a", "b"], ["b", "tmp.0", "a"])
  {
    var ids, idsW := ["a", "b"], ["b", "tmp.0", "a"];
    assert ids[..1] == ["a"] && idsW[..2] == ["b", "tmp.0"] && idsW[..2][..1] == ["b"];
    assert !IsSubseq(["a"], ["b"]) by {
      assert ["b"][..0] == [];
    }
    assert !IsSubseq(["a"], ["b", "tmp.0"]);
  }

  /** `(let ([a (+ 1 (+ 2 3))] [b a]) b)` evaluates to 6.  The source
      moves the unchanged binding `[b a]` in front of the binding of `a`,
      so the result refers to `a` before binding it and evaluates to
      nothing. */
  lemma LetBindingsReordered()
    ensures RcoOk(Example()) && Eval(map[], [], Example()) == Some((6, []))
    ensures var out := RcoExpAsWritten(RcoState(0, []), Example()).0;
      && out.Let?
      && !IsSubseq(Idents(Example().bindings), Idents(out.bindings))
      && Eval(map[], [], out) == None
  {
    ExampleValue();
    ExampleAsWrittenStuck();
    ExampleAsWrittenOrder();
  }

  lemma ExampleAsWrittenStuck()
    ensures Eval(map[], [], RcoExpAsWritten(RcoState(0, []), Example()).0) == None
  {
    ExampleAsWritten();
    ReorderedBindingsStuck();
  }

  lemma ExampleAsWrittenOrder()
    ensures var out := RcoExpAsWritten(RcoState(0, []), Example()).0;
      out.Let? && !IsSubseq(Idents(Example().bindings), Idents(out.bindings))
  {
    ExampleAsWritten();
    ReorderedBinders();
    var out := RcoExpAsWritten(RcoState(0, []), Example()).0;
    assert Idents(out.bindings) == ["b", "tmp.0", "a"];
    assert Idents(Example().bindings) == ["a", "b"];
  }

  /** The corrected pass keeps the binders of the example in their order. */
  lemma LetBindingsKept()
    ensures RcoOk(Example())
    ensures var out := RcoExp(RcoState(0, []), Example()).0;
      out.Let? && IsSubseq(Idents(Example().bindings), Idents(out.bindings))
  {
    ExampleOk();
    var e := Example();
    RcoBindsKeepsOrder(RcoState(0, []), e.bindings);
  }

  // -----------------------------------------------------------------------
  // The examples the source gives

  /** `(+ x (+ x y))` becomes `(let ([tmp.0 (+ x y)]) (+ x tmp.0))`. */
  lemma DecomplifyAddition()
    ensures var e := Prim("+", [Var("x"), Prim("+", [Var("x"), Var("y")])]);
      && RcoOk(e)
      && RcoExp(RcoState(0, []), e).0
         == Let([LetBinding("tmp.0", Prim("+", [Var("x"), Var("y")]))], Prim("+", [Var("x"), Var("tmp.0")]))
  {
    TmpZeroOne();
    var xy := Prim("+", [Var("x"), Var("y")]);
    var st0 := RcoState(0, []);
    var st1 := RcoState(1, [("tmp.0", xy)]);
    var x := Atomized(false, Var("x"), Var("x"), st0);
    var tmp0 := Atomized(true, Var("tmp.0"), xy, st1);
    assert AtomOk(xy);
    assert OperandBinding(x) + OperandBinding(tmp0) == [LetBinding("tmp.0", xy)];
    assert Atomize(st0, Var("x")) == x;
    assert Atomize(st0, xy) == tmp0;
  }

  /** `(let ([x.1 42]) (+ x.1 (read)))` keeps its binding and binds
      `(read)` to `tmp.0` in an inner `let`. */
  lemma DecomplifyLetRead()
    ensures var e := Let([LetBinding("x.1", Int(42))], Prim("+", [Var("x.1"), Prim("read", [])]));
      && RcoOk(e)
      && RcoExp(RcoState(0, []), e).0
         == Let([LetBinding("x.1", Int(42))],
                Let([LetBinding("tmp.0", Prim("read", []))], Prim("+", [Var("x.1"), Var("tmp.0")])))
  {
    TmpZeroOne();
    var rd := Prim("read", []);
    var b := LetBinding("x.1", Int(42));
    var none: seq<LetBinding> := [];
    var st0 := RcoState(0, []);
    var st1 := RcoState(1, [("tmp.0", rd)]);
    var x := Atomized(false, Var("x.1"), Var("x.1"), st0);
    var tmp0 := Atomized(true, Var("tmp.0"), rd, st1);
    assert [b][..0] == none && none + [b] == [b];
    assert RcoBinds(st0, [b]) == ([b], st0);
    assert OperandBinding(x) + OperandBinding(tmp0) == [LetBinding("tmp.0", rd)];
    assert Atomize(st0, Var("x.1")) == x;
    assert Atomize(st0, rd) == tmp0;
  }
}
