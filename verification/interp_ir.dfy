/** The interpreter over the intermediate language (compiler/src/interpreter/
    interp_ir.rs).  It runs the tail labelled `start`, keeps the value of
    every assigned variable, records error messages, and answers `read`
    either from the cache of runtime calls an earlier run recorded or from
    standard input, which it then records. */
module InterpIr {
  import opened Ast
  import opened Explicate
  import InterpAst

  /** A value a runtime function returned: an integer, or any other value,
      known here only by its debug rendering. */
  datatype RuntimeValue = RuntimeI64(n: int) | OtherValue(debug: string)

  /** Cached runtime calls: each function's results, oldest first. */
  type Cache = map<string, seq<RuntimeValue>>

  /** How evaluating an expression ends: with an atom, with no value (an
      error was recorded), or with a panic, which ends the whole program. */
  datatype Result = Value(atm: Option<Atm>) | Panic

  /** Everything evaluation reads and changes: the error messages, the
      variables, the cache, and the standard input not read yet. */
  datatype Machine = Machine(errors: seq<string>, vars: map<string, Atm>, cache: Cache, input: seq<InterpAst.Line>)

  /** A result and the machine it leaves.  A statement has no value: its
      result is `Value(None)` unless it panics. */
  datatype Step = Step(result: Result, m: Machine)

  datatype ArithmeticKind = Add | Negate
  datatype Arithmetic = Binary(kind: ArithmeticKind, larg: Atm, rarg: Atm) | Unary(kind: ArithmeticKind, arg: Atm)

  datatype InterpretResult = InterpretResult(value: Option<int>, hadError: bool, errors: seq<string>)

  /** How `interpret` ends: with its result, or with a panic. */
  datatype Ending = Returned(result: InterpretResult) | Panicked

  const ReadFn: string := "read"
  const StartLabel: string := "start"
  const NoEntryError: string := "entry point 'start' not found!"

  /** The message `interpret` records when the program yields no integer;
      the path of the enclosing function is shortened to its name. */
  const NotI64Error: string := "interpret:371:Expected the result of executing the IR to be an i64"

  /** The derived debug rendering of an atom. */
  function AtmDebug(a: Atm): string {
    match a
    case Int(n) => "Int(" + IntToString(n) + ")"
    case Var(x) => "Var { name: \"" + x + "\" }"
  }

  function KindDebug(k: ArithmeticKind): string {
    match k
    case Add => "Add"
    case Negate => "Negate"
  }

  function UndeclaredError(x: string): string {
    "Attempted to use undeclared variable: '" + x + "'"
  }

  /** Variables hold integer atoms only. */
  predicate IntsOnly(vars: map<string, Atm>) {
    forall x | x in vars :: vars[x].Int?
  }

  function AddError(m: Machine, msg: string): Machine {
    m.(errors := m.errors + [msg])
  }

  /** `get_var_value`, on a machine whose variables hold integers (a
      variable bound to a variable would be looked up again). */
  function VarValue(m: Machine, a: Atm): (s: Step)
    ensures s.m.vars == m.vars && s.m.cache == m.cache && s.m.input == m.input
  {
    match a
    case Var(x) =>
      if x in m.vars then Step(Value(Some(m.vars[x])), m)
      else Step(Value(None), AddError(m, UndeclaredError(x)))
    case Int(_) => Step(Value(None), AddError(m, "Called get_var_value with a non-var: " + AtmDebug(a)))
  }

  /** An operand of `atm_aritmetic`: a literal, or the value of a
      variable, where `unwrap` panics when there is none. */
  function OperandValue(m: Machine, a: Atm): (s: Step)
    ensures s.result.Panic? || (s.result.atm.Some? && s.result.atm.value.Int?)
    ensures s.m.vars == m.vars && s.m.cache == m.cache && s.m.input == m.input
  {
    match a
    case Int(_) => Step(Value(Some(a)), m)
    case Var(_) =>
      var s := VarValue(m, a);
      if s.result.Value? && s.result.atm.Some? && s.result.atm.value.Int? then s else Step(Panic, s.m)
  }

  /** `op_to_arithm`; indexing `args` panics unless it has the operands. */
  function OpToArithm(kind: ArithmeticKind, args: seq<Atm>): Arithmetic
    requires |args| >= (if kind == ArithmeticKind.Add then 2 else 1)
  {
    match kind
    case Add => Binary(kind, args[0], args[1])
    case Negate => Unary(kind, args[0])
  }

  /** `atm_aritmetic`: the operands left to right, then the sum of a
      binary `Add` or the negation of a unary `Negate`. */
  function ArithmeticResult(m: Machine, arithm: Arithmetic): (s: Step)
    ensures s.m.vars == m.vars && s.m.cache == m.cache && s.m.input == m.input
  {
    match arithm
    case Binary(kind, larg, rarg) =>
      var l := OperandValue(m, larg);
      if l.result.Panic? then l
      else
        var r := OperandValue(l.m, rarg);
        if r.result.Panic? then r
        else if kind == ArithmeticKind.Add then
          Step(Value(Some(Atm.Int(l.result.atm.value.n + r.result.atm.value.n))), r.m)
        else Step(Value(None), AddError(r.m, "Unexpected arithmetic kind: " + KindDebug(kind)))
    case Unary(kind, arg) =>
      var a := OperandValue(m, arg);
      if a.result.Panic? then a
      else if kind == ArithmeticKind.Negate then
        Step(Value(Some(Atm.Int(0 - a.result.atm.value.n))), a.m)
      else Step(Value(None), AddError(a.m, "Unexpected arithmetic kind: " + KindDebug(kind)))
  }

  /** Appends to the back of a function's queue, creating it if missing. */
  function Push(c: Cache, name: string, v: RuntimeValue): (c': Cache)
    ensures name in c' && c'[name] == (if name in c then c[name] else []) + [v]
    ensures c'.Keys == c.Keys + {name}
  {
    c[name := (if name in c then c[name] else []) + [v]]
  }

  /** `read`.  Replaying (`write` false) pops the oldest cached value,
      panicking when there is none, and records an error for a value that
      is not an integer; recording reads a line of standard input and
      caches the integer on it. */
  function ReadResult(write: bool, m: Machine): (s: Step)
    ensures s.m.vars == m.vars
  {
    if !write then
      if ReadFn in m.cache && |m.cache[ReadFn]| > 0 then
        var v := m.cache[ReadFn][0];
        var m1 := m.(cache := m.cache[ReadFn := m.cache[ReadFn][1..]]);
        match v
        case RuntimeI64(n) => Step(Value(Some(Atm.Int(n))), m1)
        case OtherValue(d) => Step(Value(None), AddError(m1, "Expected an integer, got: " + d + ")"))
      else Step(Panic, m)
    else
      var line := if |m.input| > 0 then m.input[0] else InterpAst.EmptyLine;
      var m1 := m.(input := if |m.input| > 0 then m.input[1..] else []);
      match line
      case Number(n) => Step(Value(Some(Atm.Int(n))), m1.(cache := Push(m1.cache, ReadFn, RuntimeI64(n))))
      case Garbled(msg) => Step(Value(None), AddError(m1, msg))
  }

  /** `handle_exp`. */
  function ExpResult(write: bool, m: Machine, e: Exp): (s: Step)
    ensures s.m.vars == m.vars
  {
    match e
    case Atm(a) => if a.Int? then Step(Value(Some(a)), m) else VarValue(m, a)
    case Prim(op, args) => PrimResult(write, m, op, args)
  }

  /** The primitives of `handle_exp`; an unknown one is an error. */
  function PrimResult(write: bool, m: Machine, op: string, args: seq<Atm>): (s: Step)
    ensures s.m.vars == m.vars
  {
    if op == "+" then
      if |args| < 2 then Step(Panic, m) else ArithmeticResult(m, OpToArithm(ArithmeticKind.Add, args))
    else if op == "-" then
      if |args| < 1 then Step(Panic, m) else ArithmeticResult(m, OpToArithm(ArithmeticKind.Negate, args))
    else if op == "read" then ReadResult(write, m)
    else Step(Value(None), AddError(m, "handle_exp: unknown primitive: \"" + op + "\""))
  }

  /** `handle_stmt`: evaluates the expression, then binds the target when
      the expression has a value and the target is a variable. */
  function StmtResult(write: bool, m: Machine, s: Stmt): Step {
    var r := ExpResult(write, m, s.exp);
    if r.result.Panic? then r
    else if r.result.atm.Some? && s.target.Var? then
      Step(Value(None), r.m.(vars := r.m.vars[s.target.name := r.result.atm.value]))
    else Step(Value(None), r.m)
  }

  /** `handle_tail`: the statements in order, then the returned
      expression; a statement that fails does not stop the tail. */
  function TailRun(write: bool, m: Machine, t: Tail): Step
    decreases t
  {
    match t
    case Return(e) => ExpResult(write, m, e)
    case Seq(s, next) =>
      var r := StmtResult(write, m, s);
      if r.result.Panic? then r else TailRun(write, r.m, next)
  }

  /** `interpret`: runs the `start` tail; an integer is the value, and
      anything else is an error. */
  function InterpretRun(write: bool, labels: map<string, Tail>, m: Machine): Step {
    if StartLabel in labels then
      var r := TailRun(write, m, labels[StartLabel]);
      if r.result.Panic? || (r.result.atm.Some? && r.result.atm.value.Int?) then r
      else Step(Value(None), AddError(r.m, NotI64Error))
    else Step(Value(None), AddError(m, NoEntryError))
  }

  /** The result `interpret` builds from how the run ends. */
  function EndingOf(s: Step): Ending {
    if s.result.Panic? then Panicked
    else
      var value := if s.result.atm.Some? && s.result.atm.value.Int? then Some(s.result.atm.value.n) else None;
      Returned(InterpretResult(value, |s.m.errors| > 0, s.m.errors))
  }

  class IrInterpreter {
    var interpretationError: bool
    var errors: seq<string>
    /** The labelled tails of the program. */
    const labels: map<string, Tail>
    var vars: map<string, Atm>
    /** The borrowed cache of runtime calls: whether this run records
        `read` values, and the queues. */
    const write: bool
    var cache: Cache
    /** Standard input: the lines not read yet. */
    var input: seq<InterpAst.Line>

    /** The error flag is raised exactly when an error was recorded, and
        every variable holds an integer. */
    predicate Valid()
      reads this
    {
      (interpretationError <==> |errors| > 0) && IntsOnly(vars)
    }

    function State(): Machine
      reads this
    {
      Machine(errors, vars, cache, input)
    }

    /** `new`: no errors and no variables. */
    constructor (labels: map<string, Tail>, write: bool, cache: Cache, input: seq<InterpAst.Line>)
      ensures this.labels == labels && this.write == write && this.cache == cache && this.input == input
      ensures !interpretationError && errors == [] && vars == map[]
      ensures Valid()
    {
      this.labels := labels;
      this.write := write;
      this.cache := cache;
      this.input := input;
      interpretationError := false;
      errors := [];
      vars := map[];
    }

    /** `add_error`: raises the flag, appends the message, yields no value. */
    method AddError(err: string) returns (r: Option<Atm>)
      requires Valid()
      modifies this`interpretationError, this`errors
      ensures r.None? && errors == old(errors) + [err] && interpretationError
      ensures Valid()
    {
      interpretationError := true;
      errors := errors + [err];
      r := None;
    }

    /** `has_error`. */
    method HasError() returns (b: bool)
      requires Valid()
      ensures b <==> errors != []
    {
      b := interpretationError;
    }

    /** `get_var_value`: the integer a variable holds. */
    method GetVarValue(a: Atm) returns (r: Option<Atm>)
      requires Valid()
      modifies this`interpretationError, this`errors
      ensures var s := VarValue(old(State()), a); Value(r) == s.result && errors == s.m.errors
      ensures r.Some? ==> r.value.Int?
      ensures Valid()
    {
      match a
      case Var(name) =>
        if name in vars {
          var v := vars[name];
          if v.Var? {
            assert false;
          }
          r := Some(v);
        } else {
          var _ := AddError(UndeclaredError(name));
          r := None;
        }
      case Int(_) =>
        var _ := AddError("Called get_var_value with a non-var: " + AtmDebug(a));
        r := None;
    }

    /** An operand of `atm_aritmetic`, unwrapping the variable's value. */
    method Operand(a: Atm) returns (r: Result)
      requires Valid()
      modifies this`interpretationError, this`errors
      ensures var s := OperandValue(old(State()), a); r == s.result && errors == s.m.errors
      ensures Valid()
    {
      match a
      case Int(_) =>
        r := Value(Some(a));
      case Var(_) =>
        var maybeVal := GetVarValue(a);
        if maybeVal.None? {
          r := Panic;
        } else {
          r := Value(maybeVal);
        }
    }

    /** `atm_aritmetic`. */
    method AtmArithmetic(arithm: Arithmetic) returns (r: Result)
      requires Valid()
      modifies this`interpretationError, this`errors
      ensures var s := ArithmeticResult(old(State()), arithm); r == s.result && errors == s.m.errors
      ensures r.Value? && r.atm.Some? ==> r.atm.value.Int?
      ensures Valid()
    {
      match arithm
      case Binary(kind, larg, rarg) =>
        var l := Operand(larg);
        if l.Panic? {
          return Panic;
        }
        var rv := Operand(rarg);
        if rv.Panic? {
          return Panic;
        }
        if kind == ArithmeticKind.Add {
          r := Value(Some(Atm.Int(l.atm.value.n + rv.atm.value.n)));
        } else {
          var none := AddError("Unexpected arithmetic kind: " + KindDebug(kind));
          r := Value(none);
        }
      case Unary(kind, arg) =>
        var v := Operand(arg);
        if v.Panic? {
          return Panic;
        }
        if kind == ArithmeticKind.Negate {
          r := Value(Some(Atm.Int(0 - v.atm.value.n)));
        } else {
          var none := AddError("Unexpected arithmetic kind: " + KindDebug(kind));
          r := Value(none);
        }
    }

    /** The `read` primitive of `handle_exp`. */
    method HandleRead() returns (r: Result)
      requires Valid()
      modifies this`interpretationError, this`errors, this`cache, this`input
      ensures var s := ReadResult(write, old(State()));
        r == s.result && errors == s.m.errors && cache == s.m.cache && input == s.m.input
      ensures r.Value? && r.atm.Some? ==> r.atm.value.Int?
      ensures Valid()
    {
      if !write {
        if ReadFn !in cache || |cache[ReadFn]| == 0 {
          return Panic;
        }
        var runtimeVal := cache[ReadFn][0];
        cache := cache[ReadFn := cache[ReadFn][1..]];
        match runtimeVal
        case RuntimeI64(n) =>
          r := Value(Some(Atm.Int(n)));
        case OtherValue(d) =>
          var none := AddError("Expected an integer, got: " + d + ")");
          r := Value(none);
      } else {
        var line := InterpAst.EmptyLine;
        if |input| > 0 {
          line := input[0];
          input := input[1..];
        }
        match line
        case Number(n) =>
          cache := Push(cache, ReadFn, RuntimeI64(n));
          r := Value(Some(Atm.Int(n)));
        case Garbled(msg) =>
          var none := AddError(msg);
          r := Value(none);
      }
    }

    /** `handle_exp`: only ever yields an integer atom or nothing. */
    method HandleExp(e: Exp) returns (r: Result)
      requires Valid()
      modifies this`interpretationError, this`errors, this`cache, this`input
      ensures var s := ExpResult(write, old(State()), e);
        r == s.result && errors == s.m.errors && cache == s.m.cache && input == s.m.input
      ensures r.Value? && r.atm.Some? ==> r.atm.value.Int?
      ensures Valid()
    {
      match e
      case Atm(atm) =>
        if atm.Int? {
          r := Value(Some(atm));
        } else {
          var v := GetVarValue(atm);
          r := Value(v);
        }
      case Prim(op, args) =>
        r := HandlePrim(op, args);
    }

    /** The primitives of `handle_exp`. */
    method HandlePrim(op: string, args: seq<Atm>) returns (r: Result)
      requires Valid()
      modifies this`interpretationError, this`errors, this`cache, this`input
      ensures var s := PrimResult(write, old(State()), op, args);
        r == s.result && errors == s.m.errors && cache == s.m.cache && input == s.m.input
      ensures r.Value? && r.atm.Some? ==> r.atm.value.Int?
      ensures Valid()
    {
      if op == "+" {
        if |args| < 2 {
          return Panic;
        }
        r := AtmArithmetic(OpToArithm(ArithmeticKind.Add, args));
      } else if op == "-" {
        if |args| < 1 {
          return Panic;
        }
        r := AtmArithmetic(OpToArithm(ArithmeticKind.Negate, args));
      } else if op == "read" {
        r := HandleRead();
      } else {
        var none := AddError("handle_exp: unknown primitive: \"" + op + "\"");
        r := Value(none);
      }
    }

    /** `handle_stmt`: reports whether the program panicked. */
    method HandleStmt(s: Stmt) returns (panicked: bool)
      requires Valid()
      modifies this`interpretationError, this`errors, this`vars, this`cache, this`input
      ensures var st := StmtResult(write, old(State()), s);
        panicked == st.result.Panic? && errors == st.m.errors && vars == st.m.vars
        && cache == st.m.cache && input == st.m.input
      ensures Valid()
    {
      var maybeExpr := HandleExp(s.exp);
      if maybeExpr.Panic? {
        return true;
      }
      panicked := false;
      if maybeExpr.atm.None? {
        return;
      }
      if !s.target.Var? {
        return;
      }
      vars := vars[s.target.name := maybeExpr.atm.value];
    }

    /** `handle_tail`. */
    method HandleTail(t: Tail) returns (r: Result)
      requires Valid()
      modifies this`interpretationError, this`errors, this`vars, this`cache, this`input
      ensures var st := TailRun(write, old(State()), t);
        r == st.result && errors == st.m.errors && vars == st.m.vars
        && cache == st.m.cache && input == st.m.input
      ensures r.Value? && r.atm.Some? ==> r.atm.value.Int?
      ensures Valid()
      decreases t
    {
      match t
      case Seq(stmt, next) =>
        var panicked := HandleStmt(stmt);
        if panicked {
          return Panic;
        }
        r := HandleTail(next);
      case Return(e) =>
        r := HandleExp(e);
    }

    /** `interpret`: the value is present exactly when the `start` tail
        yields an integer, and `hadError` is the error flag. */
    method Interpret() returns (r: Ending)
      requires Valid()
      modifies this`interpretationError, this`errors, this`vars, this`cache, this`input
      ensures var st := InterpretRun(write, labels, old(State()));
        r == EndingOf(st) && errors == st.m.errors && vars == st.m.vars
        && cache == st.m.cache && input == st.m.input
      ensures r.Returned? ==> (r.result.value.None? ==> r.result.hadError)
      ensures Valid()
    {
      if StartLabel in labels {
        var maybeAtm := HandleTail(labels[StartLabel]);
        if maybeAtm.Panic? {
          return Panicked;
        }
        var value: Option<int> := None;
        if maybeAtm.atm.Some? {
          value := Some(maybeAtm.atm.value.n);
        } else {
          var _ := AddError(NotI64Error);
        }
        r := Returned(InterpretResult(value, interpretationError, errors));
      } else {
        var _ := AddError(NoEntryError);
        r := Returned(InterpretResult(None, interpretationError, errors));
      }
    }
  }
}

/** What the IR interpreter guarantees: variables only ever hold
    integers, errors only grow, and replaying cached `read` values it
    computes what the reference meaning of the intermediate language
    computes. */
module InterpIrProps {
  import opened Ast
  import opened Explicate
  import opened IrSemantics
  import opened InterpIr

  // ---------------------------------------------------------------------
  // Integers only, errors only grow

  /** Errors only grow, a run that does not panic yields a value exactly
      when it records no error, and the value is an integer. */
  predicate Reports(m: Machine, r: Step) {
    && m.errors <= r.m.errors
    && (r.result.Value? ==> (r.result.atm.Some? <==> r.m.errors == m.errors))
    && (r.result.Value? && r.result.atm.Some? ==> r.result.atm.value.Int?)
  }

  lemma VarReports(m: Machine, a: Atm)
    requires IntsOnly(m.vars)
    ensures Reports(m, VarValue(m, a))
  {
  }

  lemma OperandReports(m: Machine, a: Atm)
    requires IntsOnly(m.vars)
    ensures Reports(m, OperandValue(m, a))
  {
    VarReports(m, a);
  }

  lemma ArithmeticReports(m: Machine, arithm: Arithmetic)
    requires IntsOnly(m.vars)
    ensures Reports(m, ArithmeticResult(m, arithm))
  {
    match arithm
    case Binary(_, larg, _) =>
      OperandReports(m, larg);
      OperandReports(OperandValue(m, larg).m, arithm.rarg);
    case Unary(_, arg) =>
      OperandReports(m, arg);
  }

  lemma ReadReports(write: bool, m: Machine)
    ensures Reports(m, ReadResult(write, m))
  {
  }

  /** An expression yields an integer or nothing, and yields a value
      exactly when it records no error. */
  lemma ExpReports(write: bool, m: Machine, e: Exp)
    requires IntsOnly(m.vars)
    ensures Reports(m, ExpResult(write, m, e))
  {
    match e
    case Atm(a) =>
      VarReports(m, a);
    case Prim(op, args) =>
      if op == "+" && |args| >= 2 {
        ArithmeticReports(m, OpToArithm(ArithmeticKind.Add, args));
      } else if op == "-" && |args| >= 1 {
        ArithmeticReports(m, OpToArithm(ArithmeticKind.Negate, args));
      } else if op == "read" {
        ReadReports(write, m);
      }
  }

  /** An assignment binds at most its target, to the value of its
      expression, and binds nothing when the expression has no value. */
  lemma StmtBinds(write: bool, m: Machine, s: Stmt)
    ensures var r := StmtResult(write, m, s);
      var e := ExpResult(write, m, s.exp);
      && (forall y | y in m.vars && !(s.target.Var? && y == s.target.name) :: y in r.m.vars && r.m.vars[y] == m.vars[y])
      && r.m.vars.Keys <= m.vars.Keys + (if s.target.Var? then {s.target.name} else {})
      && (e.result.Value? && e.result.atm.Some? && s.target.Var? ==> r.m.vars[s.target.name] == e.result.atm.value)
      && (!(e.result.Value? && e.result.atm.Some?) ==> r.m.vars == m.vars)
  {
  }

  /** A tail keeps every variable an integer, yields an integer or
      nothing, and never removes an error. */
  lemma {:induction false} TailKeepsInts(write: bool, m: Machine, t: Tail)
    requires IntsOnly(m.vars)
    ensures var r := TailRun(write, m, t);
      && IntsOnly(r.m.vars)
      && m.errors <= r.m.errors
      && (r.result.Value? && r.result.atm.Some? ==> r.result.atm.value.Int?)
    decreases t
  {
    match t
    case Return(e) =>
      ExpReports(write, m, e);
    case Seq(s, next) =>
      ExpReports(write, m, s.exp);
      var r := StmtResult(write, m, s);
      if !r.result.Panic? {
        TailKeepsInts(write, r.m, next);
      }
  }

  // ---------------------------------------------------------------------
  // Agreement with the reference meaning, replaying cached reads

  /** The interpreter's variables hold the store's values. */
  predicate Holds(vars: map<string, Atm>, st: Store) {
    vars.Keys == st.Keys && forall x | x in st :: vars[x] == Atm.Int(st[x])
  }

  /** The cached `read` results for the input values `ins`. */
  function Cached(ins: seq<int>): (c: seq<RuntimeValue>)
    ensures |c| == |ins| && forall i | 0 <= i < |ins| :: c[i] == RuntimeI64(ins[i])
  {
    seq(|ins|, i requires 0 <= i < |ins| => RuntimeI64(ins[i]))
  }

  /** The machine replays exactly the values `ins` for `read`. */
  predicate Feeds(m: Machine, ins: seq<int>) {
    ReadFn in m.cache && m.cache[ReadFn] == Cached(ins)
  }

  /** `m'` is `m` with the `read` queue down to `ins` and nothing else
      changed but the variables. */
  predicate Replayed(m': Machine, m: Machine, ins: seq<int>) {
    m'.errors == m.errors && m'.input == m.input && m'.cache == m.cache[ReadFn := Cached(ins)]
  }

  lemma ReplayedNothing(m: Machine, ins: seq<int>)
    requires Feeds(m, ins)
    ensures Replayed(m, m, ins)
  {
    assert m.cache[ReadFn := Cached(ins)] == m.cache;
  }

  lemma OperandAgrees(m: Machine, st: Store, a: Atm)
    requires Holds(m.vars, st) && AtmValue(st, a).Some?
    ensures OperandValue(m, a) == Step(Value(Some(Atm.Int(AtmValue(st, a).value))), m)
  {
  }

  /** An expression the reference meaning evaluates yields the same
      integer and consumes the same `read` values. */
  lemma ExpAgrees(m: Machine, st: Store, ins: seq<int>, e: Exp)
    requires Holds(m.vars, st) && Feeds(m, ins) && ExpValue(st, ins, e).Some?
    ensures var (v, ins') := ExpValue(st, ins, e).value;
      var r := ExpResult(false, m, e);
      r.result == Value(Some(Atm.Int(v))) && r.m.vars == m.vars && Replayed(r.m, m, ins')
  {
    match e
    case Atm(a) =>
      ReplayedNothing(m, ins);
    case Prim(op, args) =>
      if op == "+" {
        OperandAgrees(m, st, args[0]);
        OperandAgrees(m, st, args[1]);
        ReplayedNothing(m, ins);
      } else if op == "-" {
        OperandAgrees(m, st, args[0]);
        ReplayedNothing(m, ins);
      } else {
        assert Cached(ins)[1..] == Cached(ins[1..]);
      }
  }

  /** An assignment the reference meaning executes stores the same value
      and consumes the same `read` values. */
  lemma StmtAgrees(m: Machine, st: Store, ins: seq<int>, s: Stmt)
    requires Holds(m.vars, st) && Feeds(m, ins) && ExecStmt(st, ins, s).Some?
    ensures var (st', ins') := ExecStmt(st, ins, s).value;
      var r := StmtResult(false, m, s);
      r.result == Value(None) && Holds(r.m.vars, st') && Replayed(r.m, m, ins')
  {
    ExpAgrees(m, st, ins, s.exp);
  }

  /** A tail the reference meaning runs to a value yields that value,
      records no error and consumes the same `read` values. */
  lemma {:induction false} TailAgrees(m: Machine, st: Store, ins: seq<int>, t: Tail)
    requires Holds(m.vars, st) && Feeds(m, ins) && RunTail(st, ins, t).Some?
    ensures var (v, ins') := RunTail(st, ins, t).value;
      var r := TailRun(false, m, t);
      r.result == Value(Some(Atm.Int(v))) && Replayed(r.m, m, ins')
    decreases t
  {
    match t
    case Return(e) =>
      ExpAgrees(m, st, ins, e);
    case Seq(s, next) =>
      var (st1, ins1) := ExecStmt(st, ins, s).value;
      StmtAgrees(m, st, ins, s);
      var m1 := StmtResult(false, m, s).m;
      TailAgrees(m1, st1, ins1, next);
      var ins' := RunTail(st, ins, t).value.1;
      assert m1.cache[ReadFn := Cached(ins')] == m.cache[ReadFn := Cached(ins')];
  }

  /** `interpret` on a program whose `start` tail the reference meaning
      runs from an empty store to `v`, replaying its reads from the cache,
      returns `v` and reports no error. */
  lemma InterpretAgrees(labels: map<string, Tail>, m: Machine, ins: seq<int>)
    requires m.errors == [] && m.vars == map[] && Feeds(m, ins)
    requires StartLabel in labels && RunTail(map[], ins, labels[StartLabel]).Some?
    ensures EndingOf(InterpretRun(false, labels, m))
      == Returned(InterpretResult(Some(RunTail(map[], ins, labels[StartLabel]).value.0), false, []))
  {
    TailAgrees(m, map[], ins, labels[StartLabel]);
  }
}
