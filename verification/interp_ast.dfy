/** The tree-walking interpreter over the abstract syntax tree.  It keeps
    one environment for the whole run (a `let` inserts its names and never
    removes them), records error messages, and either reads `read` values
    from standard input and caches them in order, or replays values cached
    by an earlier run. */
module InterpAst {
  import opened Ast

  /** One line of standard input as `read` sees it: an integer, or the
      message of the error that parsing the line as an `i64` reports. */
  datatype Line = Number(n: int) | Garbled(message: string)

  /** At the end of standard input `read` sees an empty line. */
  const EmptyLine: Line := Garbled("cannot parse integer from empty string")

  /** How an evaluation ends: with a value, with no value (an error was
      recorded), or with a panic, which ends the whole program. */
  datatype Outcome = Done(value: Option<int>) | Panic

  type Env = map<string, int>

  /** Cached runtime calls: the values each runtime function returned, in
      call order. */
  type Cache = map<string, seq<int>>

  /** What evaluation changes besides the environment: the error messages,
      the cache, and the standard input not read yet. */
  datatype World = World(errors: seq<string>, crcs: Cache, input: seq<Line>)

  datatype Run = Run(outcome: Outcome, env: Env, world: World)

  /** The end of a binding list: `stop` is the early result of the `let`
      when a binding failed, `None` when every name was bound. */
  datatype BindRun = BindRun(stop: Option<Outcome>, env: Env, world: World)

  /** The name the runtime's input function is cached under. */
  const ReadFn: string := "read"

  /** The queue cached for `read`; empty when there is none. */
  function Queue(c: Cache): seq<int> {
    if ReadFn in c then c[ReadFn] else []
  }

  /** `set_cached_result_of`: appends to the function's queue, creating it
      when it is missing. */
  function Store(c: Cache, name: string, v: int): (c': Cache)
    ensures name in c' && c'[name] == (if name in c then c[name] else []) + [v]
    ensures forall f | f in c && f != name :: f in c' && c'[f] == c[f]
    ensures c'.Keys == c.Keys + {name}
  {
    c[name := (if name in c then c[name] else []) + [v]]
  }

  function TokenTypeName(t: TokenType): string {
    match t
    case Number => "Number"
    case Add => "Add"
    case Negate => "Negate"
    case Identifier => "Identifier"
    case EndOfFile => "EndOfFile"
    case Lparen => "Lparen"
    case Rparen => "Rparen"
    case Lbracket => "Lbracket"
    case Rbracket => "Rbracket"
    case Error => "Error"
  }

  /** The derived debug rendering of a token. */
  function TokenDebug(t: Token): string {
    "Token { ttype: " + TokenTypeName(t.ttype) + ", lexeme: \"" + t.lexeme
      + "\", line: " + IntToString(t.line) + ", col: " + IntToString(t.col) + " }"
  }

  function AddError(w: World, msg: string): World {
    w.(errors := w.errors + [msg])
  }

  /** `interp_exp`, with `using` the flag that selects replaying cached
      `read` values over reading standard input. */
  function Interp(using: bool, env: Env, w: World, e: AstNode): Run
    decreases e, 2
  {
    match e
    case Int(n) => Run(Done(Some(n)), env, w)
    case Prim(_, _) => PrimResult(using, env, w, e)
    case Let(_, _) => LetResult(using, env, w, e)
    case Var(x) =>
      if x in env then Run(Done(Some(env[x])), env, w)
      else Run(Done(None), env, AddError(w, x + " is not defined!"))
    case Error(msg, token) =>
      Run(Done(None), env, AddError(w, msg + TokenDebug(token)))
  }

  /** A primitive; an unknown operator is an error. */
  function PrimResult(using: bool, env: Env, w: World, e: AstNode): Run
    requires e.Prim?
    decreases e, 1
  {
    if e.op == "+" then AddResult(using, env, w, e)
    else if e.op == "-" then NegateResult(using, env, w, e)
    else if e.op == "read" then ReadResult(using, env, w)
    else Run(Done(None), env, AddError(w, "Unrecognized operator in interp_exp: " + e.op))
  }

  /** `+`: both operands, left to right, before looking at either; no
      value when either has none; a panic when an operand is missing. */
  function AddResult(using: bool, env: Env, w: World, e: AstNode): Run
    requires e.Prim?
    decreases e, 0
  {
    if |e.args| < 2 then Run(Panic, env, w)
    else
      var r1 := Interp(using, env, w, e.args[0]);
      if r1.outcome.Panic? then r1
      else
        var r2 := Interp(using, r1.env, r1.world, e.args[1]);
        if r2.outcome.Panic? then r2
        else if r1.outcome.value.None? || r2.outcome.value.None? then Run(Done(None), r2.env, r2.world)
        else Run(Done(Some(r1.outcome.value.value + r2.outcome.value.value)), r2.env, r2.world)
  }

  /** `-`: the negated operand; a panic when it has no value. */
  function NegateResult(using: bool, env: Env, w: World, e: AstNode): Run
    requires e.Prim?
    decreases e, 0
  {
    if |e.args| < 1 then Run(Panic, env, w)
    else
      var r1 := Interp(using, env, w, e.args[0]);
      if r1.outcome.Panic? || r1.outcome.value.None? then Run(Panic, r1.env, r1.world)
      else Run(Done(Some(0 - r1.outcome.value.value)), r1.env, r1.world)
  }

  /** `let`: the bindings in order, then the body in the environment they
      leave. */
  function LetResult(using: bool, env: Env, w: World, e: AstNode): Run
    requires e.Let?
    decreases e, 1
  {
    var b := InterpBinds(using, env, w, e.bindings);
    if b.stop.Some? then Run(b.stop.value, b.env, b.world)
    else Interp(using, b.env, b.world, e.body)
  }

  /** A `read`: the next cached value when replaying (a panic when there is
      none), otherwise the next line of standard input, cached when it
      parses and recorded as an error when it does not. */
  function ReadResult(using: bool, env: Env, w: World): Run {
    if using then
      if ReadFn !in w.crcs || |w.crcs[ReadFn]| == 0 then Run(Panic, env, w)
      else Run(Done(Some(w.crcs[ReadFn][0])), env, w.(crcs := w.crcs[ReadFn := w.crcs[ReadFn][1..]]))
    else
      var line := if |w.input| > 0 then w.input[0] else EmptyLine;
      var rest := if |w.input| > 0 then w.input[1..] else [];
      match line
      case Number(n) => Run(Done(Some(n)), env, w.(crcs := Store(w.crcs, ReadFn, n), input := rest))
      case Garbled(m) => Run(Done(None), env, AddError(w.(input := rest), m))
  }

  /** The bindings of a `let`, first to last, until one stops it. */
  function InterpBinds(using: bool, env: Env, w: World, bs: seq<LetBinding>): BindRun
    decreases bs
  {
    if |bs| == 0 then BindRun(None, env, w)
    else
      var r := InterpBinds(using, env, w, bs[..|bs| - 1]);
      if r.stop.Some? then r
      else BindStep(using, r.env, r.world, bs[|bs| - 1])
  }

  /** One binding: a name already in the environment stops the `let` with
      an error; a value that fails panics; otherwise the name is inserted
      before the next binding. */
  function BindStep(using: bool, env: Env, w: World, b: LetBinding): BindRun
    decreases b
  {
    if b.identifier in env then
      BindRun(Some(Done(None)), env, AddError(w, b.identifier + " is already defined!"))
    else
      var v := Interp(using, env, w, b.expr);
      if v.outcome.Panic? || v.outcome.value.None? then BindRun(Some(Panic), v.env, v.world)
      else BindRun(None, v.env[b.identifier := v.outcome.value.value], v.world)
  }

  /** Once a binding stops the `let`, the later bindings are not looked
      at. */
  lemma {:induction false} BindsStopped(using: bool, env: Env, w: World, bs: seq<LetBinding>, k: nat)
    requires k <= |bs| && InterpBinds(using, env, w, bs[..k]).stop.Some?
    ensures InterpBinds(using, env, w, bs) == InterpBinds(using, env, w, bs[..k])
    decreases |bs|
  {
    if k < |bs| {
      assert bs[..|bs| - 1][..k] == bs[..k];
      BindsStopped(using, env, w, bs[..|bs| - 1], k);
    } else {
      assert bs[..k] == bs;
    }
  }

  class AstInterpreter {
    const exp: AstNode
    var interpretationError: bool
    var errors: seq<string>
    var crcs: Cache
    var usingCachedRuntimeCalls: bool
    var storingCachedRuntimeCalls: bool
    /** Standard input: the lines not read yet. */
    var input: seq<Line>

    /** The error flag is raised exactly when some error was recorded. */
    predicate Valid()
      reads this
    {
      interpretationError <==> |errors| > 0
    }

    function State(): World
      reads this
    {
      World(errors, crcs, input)
    }

    /** `new`: no errors, an empty cache, storing `read` values. */
    constructor (exp: AstNode, input: seq<Line>)
      ensures this.exp == exp && this.input == input
      ensures !interpretationError && errors == [] && crcs == map[]
      ensures !usingCachedRuntimeCalls && storingCachedRuntimeCalls
      ensures Valid()
    {
      this.exp := exp;
      this.input := input;
      interpretationError := false;
      errors := [];
      crcs := map[];
      usingCachedRuntimeCalls := false;
      storingCachedRuntimeCalls := true;
    }

    /** `set_cached_runtime_calls`: switches to replaying `crcs`. */
    method SetCachedRuntimeCalls(crcs: Cache)
      modifies this`usingCachedRuntimeCalls, this`storingCachedRuntimeCalls, this`crcs
      ensures usingCachedRuntimeCalls && !storingCachedRuntimeCalls && this.crcs == crcs
    {
      usingCachedRuntimeCalls := true;
      storingCachedRuntimeCalls := false;
      this.crcs := crcs;
    }

    /** `interpret_success`. */
    method InterpretSuccess() returns (ok: bool)
      requires Valid()
      ensures ok <==> errors == []
    {
      ok := !interpretationError;
    }

    /** `add_error`: raises the flag, appends the message, yields no value. */
    method AddError(msg: string) returns (r: Option<int>)
      requires Valid()
      modifies this`interpretationError, this`errors
      ensures r.None? && errors == old(errors) + [msg] && interpretationError
      ensures Valid()
    {
      interpretationError := true;
      errors := errors + [msg];
      r := None;
    }

    /** `get_cached_result_of`: pops the front of the function's queue; the
        panics on a missing or empty queue are excluded by the
        precondition. */
    method GetCachedResultOf(name: string) returns (v: int)
      requires name in crcs && |crcs[name]| > 0
      modifies this`crcs
      ensures v == old(crcs[name][0]) && crcs == old(crcs)[name := old(crcs[name])[1..]]
    {
      var readCalls := crcs[name];
      v := readCalls[0];
      crcs := crcs[name := readCalls[1..]];
    }

    /** `set_cached_result_of`: pushes onto the back of the function's
        queue. */
    method SetCachedResultOf(name: string, val: int)
      modifies this`crcs
      ensures crcs == Store(old(crcs), name, val)
    {
      if name in crcs {
        crcs := crcs[name := crcs[name] + [val]];
      } else {
        var newFnCache := [val];
        assert newFnCache == [] + [val];
        crcs := crcs[name := newFnCache];
      }
    }

    /** `get_line`: the next line of standard input. */
    method GetLine() returns (line: Line)
      modifies this`input
      ensures line == (if |old(input)| > 0 then old(input)[0] else EmptyLine)
      ensures input == (if |old(input)| > 0 then old(input)[1..] else [])
    {
      if |input| > 0 {
        line := input[0];
        input := input[1..];
      } else {
        line := EmptyLine;
      }
    }

    /** `interpret`: the program's expression in an empty environment,
        with the cache the run leaves. */
    method Interpret() returns (r: Outcome, cached: Cache)
      requires Valid()
      modifies this`interpretationError, this`errors, this`crcs, this`input
      ensures var run := Interp(usingCachedRuntimeCalls, map[], old(State()), exp);
        r == run.outcome && State() == run.world && cached == crcs
      ensures Valid()
    {
      var envir: Env := map[];
      var envAfter;
      r, envAfter := InterpExp(envir, exp);
      cached := crcs;
    }

    /** `interp_exp`. */
    method InterpExp(env: Env, e: AstNode) returns (r: Outcome, env': Env)
      requires Valid()
      modifies this`interpretationError, this`errors, this`crcs, this`input
      ensures var run := Interp(usingCachedRuntimeCalls, env, old(State()), e);
        r == run.outcome && env' == run.env && errors == run.world.errors
        && crcs == run.world.crcs && input == run.world.input
      ensures Valid()
      decreases e, 1
    {
      match e
      case Int(n) =>
        r, env' := Done(Some(n)), env;
      case Prim(op, args) =>
        r, env' := InterpPrim(env, e);
      case Let(bs, body) =>
        r, env' := InterpLet(env, e);
      case Var(name) =>
        if name in env {
          r, env' := Done(Some(env[name])), env;
        } else {
          var _ := AddError(name + " is not defined!");
          r, env' := Done(None), env;
        }
      case Error(msg, token) =>
        var _ := AddError(msg + TokenDebug(token));
        r, env' := Done(None), env;
    }

    /** The primitives of `interp_exp`; an unknown operator is an error. */
    method InterpPrim(env: Env, e: AstNode) returns (r: Outcome, env': Env)
      requires e.Prim? && Valid()
      modifies this`interpretationError, this`errors, this`crcs, this`input
      ensures var run := PrimResult(usingCachedRuntimeCalls, env, old(State()), e);
        r == run.outcome && env' == run.env && errors == run.world.errors
        && crcs == run.world.crcs && input == run.world.input
      ensures Valid()
      decreases e, 0
    {
      var op := e.op;
      if op == "+" {
        r, env' := InterpAdd(env, e);
      } else if op == "-" {
        r, env' := InterpNegate(env, e);
      } else if op == "read" {
        var v := InterpRead();
        r, env' := v, env;
      } else {
        var none := AddError("Unrecognized operator in interp_exp: " + op);
        r, env' := Done(none), env;
      }
    }

    /** `+`: both operands, left to right, before looking at either. */
    method InterpAdd(env: Env, e: AstNode) returns (r: Outcome, env': Env)
      requires e.Prim? && e.op == "+" && Valid()
      modifies this`interpretationError, this`errors, this`crcs, this`input
      ensures var run := AddResult(usingCachedRuntimeCalls, env, old(State()), e);
        r == run.outcome && env' == run.env && errors == run.world.errors
        && crcs == run.world.crcs && input == run.world.input
      ensures Valid()
      decreases e, -1
    {
      var args := e.args;
      if |args| < 2 {
        return Panic, env;
      }
      var arg1, env1 := InterpExp(env, args[0]);
      if arg1.Panic? {
        return Panic, env1;
      }
      var arg2, env2 := InterpExp(env1, args[1]);
      env' := env2;
      if arg2.Panic? {
        return Panic, env';
      }
      if arg1.value.None? {
        return Done(None), env';
      }
      if arg2.value.None? {
        return Done(None), env';
      }
      r := Done(Some(arg1.value.value + arg2.value.value));
    }

    /** `-`: panics when its operand has no value. */
    method InterpNegate(env: Env, e: AstNode) returns (r: Outcome, env': Env)
      requires e.Prim? && e.op == "-" && Valid()
      modifies this`interpretationError, this`errors, this`crcs, this`input
      ensures var run := NegateResult(usingCachedRuntimeCalls, env, old(State()), e);
        r == run.outcome && env' == run.env && errors == run.world.errors
        && crcs == run.world.crcs && input == run.world.input
      ensures Valid()
      decreases e, -1
    {
      var args := e.args;
      if |args| < 1 {
        return Panic, env;
      }
      var arg1, env1 := InterpExp(env, args[0]);
      env' := env1;
      if arg1.Panic? || arg1.value.None? {
        return Panic, env';
      }
      r := Done(Some(0 - arg1.value.value));
    }

    /** The `read` primitive of `interp_exp`. */
    method InterpRead() returns (r: Outcome)
      requires Valid()
      modifies this`interpretationError, this`errors, this`crcs, this`input
      ensures var run := ReadResult(usingCachedRuntimeCalls, map[], old(State()));
        r == run.outcome && errors == run.world.errors
        && crcs == run.world.crcs && input == run.world.input
      ensures Valid()
    {
      var fnName := ReadFn;
      if usingCachedRuntimeCalls {
        if fnName !in crcs || |crcs[fnName]| == 0 {
          return Panic;
        }
        var v := GetCachedResultOf(fnName);
        r := Done(Some(v));
      } else {
        var line := GetLine();
        match line
        case Number(n) =>
          SetCachedResultOf(fnName, n);
          r := Done(Some(n));
        case Garbled(message) =>
          var none := AddError(message);
          r := Done(none);
      }
    }

    /** The `let` case of `interp_exp`: each binding in turn, then the
        body. */
    method InterpLet(env: Env, e: AstNode) returns (r: Outcome, env': Env)
      requires e.Let? && Valid()
      modifies this`interpretationError, this`errors, this`crcs, this`input
      ensures var run := LetResult(usingCachedRuntimeCalls, env, old(State()), e);
        r == run.outcome && env' == run.env && errors == run.world.errors
        && crcs == run.world.crcs && input == run.world.input
      ensures Valid()
      decreases e, 0
    {
      var bindings := e.bindings;
      ghost var w0 := State();
      env' := env;
      for k := 0 to |bindings|
        invariant Valid()
        invariant var b := InterpBinds(usingCachedRuntimeCalls, env, w0, bindings[..k]);
          b.stop.None? && b.env == env' && b.world == State()
      {
        assert bindings[..k + 1][..k] == bindings[..k];
        var stop;
        stop, env' := Bind(env', bindings[k]);
        if stop.Some? {
          BindsStopped(usingCachedRuntimeCalls, env, w0, bindings, k + 1);
          return stop.value, env';
        }
      }
      assert bindings[..|bindings|] == bindings;
      r, env' := InterpExp(env', e.body);
    }

    /** One iteration of the binding loop of `interp_exp`. */
    method Bind(env: Env, binding: LetBinding) returns (stop: Option<Outcome>, env': Env)
      requires Valid()
      modifies this`interpretationError, this`errors, this`crcs, this`input
      ensures var run := BindStep(usingCachedRuntimeCalls, env, old(State()), binding);
        stop == run.stop && env' == run.env && errors == run.world.errors
        && crcs == run.world.crcs && input == run.world.input
      ensures Valid()
      decreases binding, 0
    {
      var theVar := binding.identifier;
      var alreadyExists := theVar in env;
      if alreadyExists {
        var none := AddError(theVar + " is already defined!");
        return Some(Done(none)), env;
      }
      var theValue := binding.expr;
      var result;
      result, env' := InterpExp(env, theValue);
      if result.Panic? || result.value.None? {
        return Some(Panic), env';
      }
      env' := env'[theVar := result.value.value];
      stop := None;
    }
  }
}

module InterpAstProps {
  import opened Ast
  import opened InterpAst

  /** Every name of `env` keeps its value in `env'`. */
  predicate Extends(env': Env, env: Env) {
    forall x | x in env :: x in env' && env'[x] == env[x]
  }

  // ---------------------------------------------------------------------
  // Standard input and the `read` queue

  /** The integers among the lines, in order. */
  function Parsed(lines: seq<Line>): seq<int> {
    if |lines| == 0 then []
    else Parsed(lines[..|lines| - 1]) + (if lines[|lines| - 1].Number? then [lines[|lines| - 1].n] else [])
  }

  lemma {:induction false} ParsedAppend(a: seq<Line>, b: seq<Line>)
    ensures Parsed(a + b) == Parsed(a) + Parsed(b)
    decreases |b|
  {
    if |b| == 0 {
      assert a + b == a;
    } else {
      assert (a + b)[..|a + b| - 1] == a + b[..|b| - 1];
      ParsedAppend(a, b[..|b| - 1]);
    }
  }

  /** `after` is what is left of `before` once some lines were read. */
  predicate Suffix(after: seq<Line>, before: seq<Line>) {
    |after| <= |before| && after == before[|before| - |after|..]
  }

  /** The integers read between input `before` and input `after`. */
  function ReadBetween(before: seq<Line>, after: seq<Line>): seq<int> {
    if |after| <= |before| then Parsed(before[..|before| - |after|]) else []
  }

  lemma ReadBetweenSplit(a: seq<Line>, b: seq<Line>, c: seq<Line>)
    requires Suffix(b, a) && Suffix(c, b)
    ensures Suffix(c, a) && ReadBetween(a, c) == ReadBetween(a, b) + ReadBetween(b, c)
  {
    var ab, bc := a[..|a| - |b|], b[..|b| - |c|];
    assert a == ab + b;
    assert b == bc + c;
    assert a == ab + bc + c;
    assert a[..|a| - |c|] == ab + bc;
    ParsedAppend(ab, bc);
  }

  /** From `w` to `w'` a prefix of the input was read and the integers on
      it were appended to the back of the `read` queue, in order. */
  predicate Stored(w: World, w': World) {
    && Suffix(w'.input, w.input)
    && Queue(w'.crcs) == Queue(w.crcs) + ReadBetween(w.input, w'.input)
  }

  lemma StoredNothing(w: World)
    ensures Stored(w, w)
  {
    assert w.input[..|w.input| - |w.input|] == [];
  }

  lemma StoredTrans(a: World, b: World, c: World)
    requires Stored(a, b) && Stored(b, c)
    ensures Stored(a, c)
  {
    ReadBetweenSplit(a.input, b.input, c.input);
  }

  // ---------------------------------------------------------------------
  // What a run records

  /** Errors only grow; a run that ends without a panic yields a value
      exactly when it records no error; a binding, once made, is never
      overwritten; and a run that reads standard input appends the
      integers it read to the back of the `read` queue, in order. */
  predicate Reported(using: bool, env: Env, w: World, r: Run) {
    && w.errors <= r.world.errors
    && (r.outcome.Done? ==> (r.outcome.value.Some? <==> r.world.errors == w.errors))
    && Extends(r.env, env)
    && (!using ==> Stored(w, r.world))
  }

  /** The same for a binding list: bindings that all succeed record
      nothing; one that stops the `let` without a panic records an error. */
  predicate BindsReported(using: bool, env: Env, w: World, r: BindRun) {
    && w.errors <= r.world.errors
    && (r.stop.None? ==> r.world.errors == w.errors)
    && (r.stop.Some? && r.stop.value.Done? ==> r.stop.value.value.None? && r.world.errors != w.errors)
    && Extends(r.env, env)
    && (!using ==> Stored(w, r.world))
  }

  lemma {:induction false} InterpReports(using: bool, env: Env, w: World, e: AstNode)
    ensures Reported(using, env, w, Interp(using, env, w, e))
    decreases e, 2
  {
    match e
    case Prim(_, _) => PrimReports(using, env, w, e);
    case Let(_, _) => LetReports(using, env, w, e);
    case _ => StoredNothing(w);
  }

  lemma {:induction false} PrimReports(using: bool, env: Env, w: World, e: AstNode)
    requires e.Prim?
    ensures Reported(using, env, w, PrimResult(using, env, w, e))
    decreases e, 1
  {
    if e.op == "+" {
      AddReports(using, env, w, e);
    } else if e.op == "-" {
      NegateReports(using, env, w, e);
    } else if e.op == "read" {
      ReadReports(using, env, w);
    } else {
      StoredNothing(w);
    }
  }

  lemma ReadReports(using: bool, env: Env, w: World)
    ensures Reported(using, env, w, ReadResult(using, env, w))
  {
    var r := ReadResult(using, env, w);
    if !using {
      if |w.input| > 0 {
        assert w.input[..|w.input| - |r.world.input|] == [w.input[0]];
        assert Parsed([w.input[0]]) == Parsed([]) + (if w.input[0].Number? then [w.input[0].n] else []);
      } else {
        StoredNothing(w);
      }
    }
  }

  lemma {:induction false} AddReports(using: bool, env: Env, w: World, e: AstNode)
    requires e.Prim?
    ensures Reported(using, env, w, AddResult(using, env, w, e))
    decreases e, 0
  {
    if |e.args| < 2 {
      StoredNothing(w);
    } else {
      var r1 := Interp(using, env, w, e.args[0]);
      InterpReports(using, env, w, e.args[0]);
      if !r1.outcome.Panic? {
        var r2 := Interp(using, r1.env, r1.world, e.args[1]);
        InterpReports(using, r1.env, r1.world, e.args[1]);
        if !using {
          StoredTrans(w, r1.world, r2.world);
        }
      }
    }
  }

  lemma {:induction false} NegateReports(using: bool, env: Env, w: World, e: AstNode)
    requires e.Prim?
    ensures Reported(using, env, w, NegateResult(using, env, w, e))
    decreases e, 0
  {
    if |e.args| < 1 {
      StoredNothing(w);
    } else {
      InterpReports(using, env, w, e.args[0]);
    }
  }

  lemma {:induction false} LetReports(using: bool, env: Env, w: World, e: AstNode)
    requires e.Let?
    ensures Reported(using, env, w, LetResult(using, env, w, e))
    decreases e, 1
  {
    var b := InterpBinds(using, env, w, e.bindings);
    BindsReport(using, env, w, e.bindings);
    if b.stop.None? {
      var r := Interp(using, b.env, b.world, e.body);
      InterpReports(using, b.env, b.world, e.body);
      if !using {
        StoredTrans(w, b.world, r.world);
      }
    }
  }

  lemma {:induction false} BindsReport(using: bool, env: Env, w: World, bs: seq<LetBinding>)
    ensures BindsReported(using, env, w, InterpBinds(using, env, w, bs))
    decreases bs
  {
    if |bs| == 0 {
      StoredNothing(w);
    } else {
      var r := InterpBinds(using, env, w, bs[..|bs| - 1]);
      BindsReport(using, env, w, bs[..|bs| - 1]);
      if r.stop.None? {
        var r1 := BindStep(using, r.env, r.world, bs[|bs| - 1]);
        BindStepReports(using, r.env, r.world, bs[|bs| - 1]);
        if !using {
          StoredTrans(w, r.world, r1.world);
        }
      }
    }
  }

  lemma {:induction false} BindStepReports(using: bool, env: Env, w: World, b: LetBinding)
    ensures BindsReported(using, env, w, BindStep(using, env, w, b))
    decreases b
  {
    if b.identifier !in env {
      InterpReports(using, env, w, b.expr);
    } else {
      StoredNothing(w);
    }
  }

  // ---------------------------------------------------------------------
  // Replaying a run from the cache

  predicate Succeeded(r: Run) {
    r.outcome.Done? && r.outcome.value.Some?
  }

  /** The replaying world `wu` holds the values `s` read from `w`'s input at
      the front of its `read` queue, followed by `rest`. */
  predicate Queued(wu: World, w: World, s: World, rest: seq<int>) {
    ReadFn in wu.crcs && wu.crcs[ReadFn] == ReadBetween(w.input, s.input) + rest
  }

  /** The replay `u` of `s` yields the same value and environment and only
      pops the replayed values off the `read` queue of `wu`. */
  predicate Replays(s: Run, u: Run, wu: World, rest: seq<int>) {
    u.outcome == s.outcome && u.env == s.env && u.world == wu.(crcs := wu.crcs[ReadFn := rest])
  }

  /** Replaying a successful run that read standard input: with the values
      it read at the front of the `read` queue, a replaying run yields the
      same value and environment, pops exactly those values, and changes
      nothing else. */
  lemma {:induction false} Replay(env: Env, w: World, e: AstNode, wu: World, rest: seq<int>)
    requires Succeeded(Interp(false, env, w, e)) && Queued(wu, w, Interp(false, env, w, e).world, rest)
    ensures Replays(Interp(false, env, w, e), Interp(true, env, wu, e), wu, rest)
    decreases e, 2
  {
    match e
    case Prim(_, _) => ReplayPrim(env, w, e, wu, rest);
    case Let(_, _) => ReplayLet(env, w, e, wu, rest);
    case Int(_) => ReplayNothing(w, wu, rest);
    case Var(x) =>
      if x in env {
        ReplayNothing(w, wu, rest);
      }
    case Error(_, _) =>
  }

  /** A run that reads nothing leaves the queue as it found it. */
  lemma ReplayNothing(w: World, wu: World, rest: seq<int>)
    requires Queued(wu, w, w, rest)
    ensures wu.(crcs := wu.crcs[ReadFn := rest]) == wu
  {
    assert w.input[..|w.input| - |w.input|] == [];
    assert ReadBetween(w.input, w.input) == [];
    assert wu.crcs[ReadFn] == rest;
    assert wu.crcs[ReadFn := rest] == wu.crcs;
  }

  lemma {:induction false} ReplayPrim(env: Env, w: World, e: AstNode, wu: World, rest: seq<int>)
    requires e.Prim?
    requires Succeeded(PrimResult(false, env, w, e)) && Queued(wu, w, PrimResult(false, env, w, e).world, rest)
    ensures Replays(PrimResult(false, env, w, e), PrimResult(true, env, wu, e), wu, rest)
    decreases e, 1
  {
    if e.op == "+" {
      ReplayAdd(env, w, e, wu, rest);
    } else if e.op == "-" {
      ReplayNegate(env, w, e, wu, rest);
    } else {
      ReplayRead(env, w, wu, rest);
    }
  }

  lemma ReplayRead(env: Env, w: World, wu: World, rest: seq<int>)
    requires Succeeded(ReadResult(false, env, w)) && Queued(wu, w, ReadResult(false, env, w).world, rest)
    ensures Replays(ReadResult(false, env, w), ReadResult(true, env, wu), wu, rest)
  {
    var ins := w.input;
    assert ins[..|ins| - |ins[1..]|] == [ins[0]];
    assert Parsed([ins[0]]) == Parsed([]) + [ins[0].n];
  }

  lemma {:induction false} ReplayNegate(env: Env, w: World, e: AstNode, wu: World, rest: seq<int>)
    requires e.Prim?
    requires Succeeded(NegateResult(false, env, w, e)) && Queued(wu, w, NegateResult(false, env, w, e).world, rest)
    ensures Replays(NegateResult(false, env, w, e), NegateResult(true, env, wu, e), wu, rest)
    decreases e, 0
  {
    Replay(env, w, e.args[0], wu, rest);
  }

  /** The two operands of a `+` that yields a value both yield values. */
  lemma AddSucceeds(using: bool, env: Env, w: World, e: AstNode)
    requires e.Prim? && Succeeded(AddResult(using, env, w, e))
    ensures |e.args| >= 2
    ensures var r1 := Interp(using, env, w, e.args[0]);
      var r2 := Interp(using, r1.env, r1.world, e.args[1]);
      && Succeeded(r1) && Succeeded(r2)
      && AddResult(using, env, w, e) == Run(Done(Some(r1.outcome.value.value + r2.outcome.value.value)), r2.env, r2.world)
  {
  }

  /** A `+` whose two operands yield values yields their sum. */
  lemma AddOfValues(using: bool, env: Env, w: World, e: AstNode)
    requires e.Prim? && |e.args| >= 2
    requires Succeeded(Interp(using, env, w, e.args[0]))
    requires var r1 := Interp(using, env, w, e.args[0]); Succeeded(Interp(using, r1.env, r1.world, e.args[1]))
    ensures var r1 := Interp(using, env, w, e.args[0]);
      var r2 := Interp(using, r1.env, r1.world, e.args[1]);
      AddResult(using, env, w, e) == Run(Done(Some(r1.outcome.value.value + r2.outcome.value.value)), r2.env, r2.world)
  {
  }

  lemma {:induction false} ReplayAdd(env: Env, w: World, e: AstNode, wu: World, rest: seq<int>)
    requires e.Prim?
    requires Succeeded(AddResult(false, env, w, e)) && Queued(wu, w, AddResult(false, env, w, e).world, rest)
    ensures Replays(AddResult(false, env, w, e), AddResult(true, env, wu, e), wu, rest)
    decreases e, 0
  {
    AddSucceeds(false, env, w, e);
    var s1 := Interp(false, env, w, e.args[0]);
    var s2 := Interp(false, s1.env, s1.world, e.args[1]);
    InterpSuffix(env, w, e.args[0]);
    InterpSuffix(s1.env, s1.world, e.args[1]);
    var rest1 := ReadBetween(s1.world.input, s2.world.input) + rest;
    QueueSplit(wu, w, s1.world, s2.world, rest);
    Replay(env, w, e.args[0], wu, rest1);
    var u1 := Interp(true, env, wu, e.args[0]);
    Replay(s1.env, s1.world, e.args[1], u1.world, rest);
    PopTwice(wu, rest1, rest);
    AddOfValues(true, env, wu, e);
  }

  lemma {:induction false} ReplayLet(env: Env, w: World, e: AstNode, wu: World, rest: seq<int>)
    requires e.Let?
    requires Succeeded(LetResult(false, env, w, e)) && Queued(wu, w, LetResult(false, env, w, e).world, rest)
    ensures Replays(LetResult(false, env, w, e), LetResult(true, env, wu, e), wu, rest)
    decreases e, 1
  {
    LetSucceeds(false, env, w, e);
    var b := InterpBinds(false, env, w, e.bindings);
    var s := Interp(false, b.env, b.world, e.body);
    BindsSuffix(env, w, e.bindings);
    InterpSuffix(b.env, b.world, e.body);
    var restBody := ReadBetween(b.world.input, s.world.input) + rest;
    QueueSplit(wu, w, b.world, s.world, rest);
    ReplayBinds(env, w, e.bindings, wu, restBody);
    var ub := InterpBinds(true, env, wu, e.bindings);
    Replay(b.env, b.world, e.body, ub.world, rest);
    PopTwice(wu, restBody, rest);
  }

  lemma {:induction false} ReplayBinds(env: Env, w: World, bs: seq<LetBinding>, wu: World, rest: seq<int>)
    requires InterpBinds(false, env, w, bs).stop.None?
    requires Queued(wu, w, InterpBinds(false, env, w, bs).world, rest)
    ensures var s := InterpBinds(false, env, w, bs);
      var u := InterpBinds(true, env, wu, bs);
      u.stop.None? && u.env == s.env && u.world == wu.(crcs := wu.crcs[ReadFn := rest])
    decreases bs
  {
    if |bs| == 0 {
      ReplayNothing(w, wu, rest);
    } else {
      var front := bs[..|bs| - 1];
      var b := bs[|bs| - 1];
      var s0 := InterpBinds(false, env, w, front);
      var s1 := BindStep(false, s0.env, s0.world, b);
      BindsSuffix(env, w, front);
      InterpSuffix(s0.env, s0.world, b.expr);
      var rest0 := ReadBetween(s0.world.input, s1.world.input) + rest;
      QueueSplit(wu, w, s0.world, s1.world, rest);
      ReplayBinds(env, w, front, wu, rest0);
      var u0 := InterpBinds(true, env, wu, front);
      ReplayStep(s0.env, s0.world, b, u0.world, rest);
      PopTwice(wu, rest0, rest);
    }
  }

  /** A `let` that yields a value bound every name and yields its body's
      value. */
  lemma LetSucceeds(using: bool, env: Env, w: World, e: AstNode)
    requires e.Let? && Succeeded(LetResult(using, env, w, e))
    ensures var b := InterpBinds(using, env, w, e.bindings);
      b.stop.None? && LetResult(using, env, w, e) == Interp(using, b.env, b.world, e.body)
  {
    BindsReport(using, env, w, e.bindings);
  }

  /** A run that reads standard input only consumes a prefix of it. */
  lemma InterpSuffix(env: Env, w: World, e: AstNode)
    ensures Suffix(Interp(false, env, w, e).world.input, w.input)
  {
    InterpReports(false, env, w, e);
  }

  lemma BindsSuffix(env: Env, w: World, bs: seq<LetBinding>)
    ensures Suffix(InterpBinds(false, env, w, bs).world.input, w.input)
  {
    BindsReport(false, env, w, bs);
  }

  /** The values read up to `w2` split into those read up to `w1` and
      those read after. */
  lemma QueueSplit(wu: World, w: World, w1: World, w2: World, rest: seq<int>)
    requires Suffix(w1.input, w.input) && Suffix(w2.input, w1.input)
    requires Queued(wu, w, w2, rest)
    ensures Queued(wu, w, w1, ReadBetween(w1.input, w2.input) + rest)
  {
    ReadBetweenSplit(w.input, w1.input, w2.input);
  }

  /** Popping down to `rest1` and then to `rest` pops down to `rest`. */
  lemma PopTwice(wu: World, rest1: seq<int>, rest: seq<int>)
    ensures var w1 := wu.(crcs := wu.crcs[ReadFn := rest1]);
      w1.(crcs := w1.crcs[ReadFn := rest]) == wu.(crcs := wu.crcs[ReadFn := rest])
  {
    assert wu.crcs[ReadFn := rest1][ReadFn := rest] == wu.crcs[ReadFn := rest];
  }

  lemma {:induction false} ReplayStep(env: Env, w: World, b: LetBinding, wu: World, rest: seq<int>)
    requires BindStep(false, env, w, b).stop.None?
    requires Queued(wu, w, BindStep(false, env, w, b).world, rest)
    ensures var s := BindStep(false, env, w, b);
      var u := BindStep(true, env, wu, b);
      u.stop.None? && u.env == s.env && u.world == wu.(crcs := wu.crcs[ReadFn := rest])
    decreases b
  {
    Replay(env, w, b.expr, wu, rest);
  }
}
