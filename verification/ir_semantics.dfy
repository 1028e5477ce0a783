/** A reference meaning for the intermediate language: a store from names
    to integers that assignments update, `read` taking the next value of an
    input sequence, and a tail's value being what its `Return` computes.
    A statement or expression that cannot be evaluated makes the whole
    tail stuck. */
module IrSemantics {
  import opened Ast
  import opened Explicate

  type Store = map<string, int>

  function AtmValue(st: Store, a: Atm): Option<int> {
    match a
    case Int(n) => Some(n)
    case Var(x) => if x in st then Some(st[x]) else None
  }

  /** The value of `e` and the input left.  `+` reads its first two
      operands, `-` its first one, as the interpreters and the back end
      index them. */
  function ExpValue(st: Store, ins: seq<int>, e: Exp): (r: Option<(int, seq<int>)>)
    ensures r.Some? && !(e.Prim? && e.op == "read") ==> r.value.1 == ins
    ensures r.Some? && e.Prim? && e.op == "read" ==> |ins| > 0 && r.value == (ins[0], ins[1..])
  {
    match e
    case Atm(a) =>
      if AtmValue(st, a).Some? then Some((AtmValue(st, a).value, ins)) else None
    case Prim(op, args) =>
      if op == "+" && |args| >= 2 then
        if AtmValue(st, args[0]).Some? && AtmValue(st, args[1]).Some?
        then Some((AtmValue(st, args[0]).value + AtmValue(st, args[1]).value, ins))
        else None
      else if op == "-" && |args| >= 1 then
        if AtmValue(st, args[0]).Some? then Some((0 - AtmValue(st, args[0]).value, ins)) else None
      else if op == "read" then
        if |ins| > 0 then Some((ins[0], ins[1..])) else None
      else None
  }

  /** An assignment stores the value of its expression in its variable. */
  function ExecStmt(st: Store, ins: seq<int>, s: Stmt): (r: Option<(Store, seq<int>)>)
    ensures r.Some? ==> s.target.Var? && r.value.0.Keys == st.Keys + {s.target.name}
  {
    if !s.target.Var? then None
    else
      match ExpValue(st, ins, s.exp)
      case None => None
      case Some((v, ins1)) => Some((st[s.target.name := v], ins1))
  }

  /** Runs the statements of a tail in order, then evaluates its return. */
  function RunTail(st: Store, ins: seq<int>, t: Tail): Option<(int, seq<int>)>
    decreases t
  {
    match t
    case Return(e) => ExpValue(st, ins, e)
    case Seq(s, next) =>
      match ExecStmt(st, ins, s)
      case None => None
      case Some((st1, ins1)) => RunTail(st1, ins1, next)
  }
}
