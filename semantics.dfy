/** What `eval` of step4_if_fn_do.rs computes, together with the special
    forms of core.rs that it calls back into, as functions that thread the
    scope arena through: each returns its result and the arena afterwards.
    Every call to `eval` costs one unit of `fuel`; running out stands for the
    host's stack exhaustion and for programs that do not terminate. */
module Semantics {
  import opened Common
  import opened Values
  import opened Environment
  import Core
  import Printer

  /** A result together with the scope arena after the computation. */
  datatype Outcome<T> = Outcome(result: Result<T>, store: Store)

  /** `t` grows `s` and differs from it at most in the contents of scope
      `h`, whose parent link stays put. */
  predicate ExtendsExcept(s: Store, t: Store, h: Handle) {
    && |s| <= |t|
    && (forall j :: 0 <= j < |s| && j != h ==> t[j] == s[j])
    && (h < |s| ==> t[h].parent == s[h].parent)
  }

  /** `t` grows `s` and leaves every scope of `s` as it was. */
  predicate Preserves(s: Store, t: Store) {
    |s| <= |t| && forall j :: 0 <= j < |s| ==> t[j] == s[j]
  }

  /** Only `nil` and `false` are falsy. */
  predicate Truthy(v: Value) {
    !(v.Nil? || v == Bool(false))
  }

  function NotFound(name: string): Error {
    Raised("Symbol '" + name + "' not found in environment")
  }

  function ArityMismatch(expected: nat, got: nat): Error {
    Raised("Expected " + Printer.NatToString(expected) + " arguments but got " + Printer.NatToString(got))
  }

  /** `eval`. */
  function Eval(s: Store, ast: Value, env: Env, fuel: nat): (r: Outcome<Value>)
    ensures ExtendsExcept(s, r.store, env.bindings)
    decreases fuel, 0, 0
  {
    if fuel == 0 then Outcome(Err(OutOfFuel), s)
    else match ast
      case Symbol(name) =>
        (match EnvGet(s, env, name)
         case Some(v) => Outcome(Ok(v), s)
         case None => Outcome(Err(NotFound(name)), s))
      case Round(list) =>
        if list == [] then Outcome(Ok(ast), s)
        else
          var head := Eval(s, list[0], env, fuel - 1);
          if head.result.Err? then Outcome(Err(head.result.error), head.store)
          else Apply(head.store, head.result.value, list[1..], env, fuel - 1)
      case _ => EvalAst(s, ast, env, fuel - 1)
  }

  /** The dispatch on the evaluated head of a non-empty list. */
  function Apply(s: Store, f: Value, argExprs: seq<Value>, env: Env, fuel: nat): (r: Outcome<Value>)
    ensures ExtendsExcept(s, r.store, env.bindings)
    decreases fuel, 4, 0
  {
    match f
    case BuiltinFunction(SpecialForm(form)) => ApplySpecialForm(s, form, argExprs, env, fuel)
    case BuiltinFunction(Builtin(b)) =>
      var args := EvalArgs(s, argExprs, env, fuel, []);
      if args.result.Err? then Outcome(Err(args.result.error), args.store)
      else Outcome(Core.ApplyBuiltin(b, args.result.value), args.store)
    case BuiltinFunction(UserDefined(params, _, body, closureEnv)) =>
      var args := EvalArgs(s, argExprs, env, fuel, []);
      if args.result.Err? then Outcome(Err(args.result.error), args.store)
      else if |params| != |args.result.value| then
        Outcome(Err(ArityMismatch(|params|, |args.result.value|)), args.store)
      else ApplyClosure(args.store, params, args.result.value, body, closureEnv, fuel)
    case _ => Outcome(Err(Raised("First element is not a function")), s)
  }

  /** `list.iter().map(|x| eval(x, env)).collect()`: left to right, the
      first error aborts. `acc` holds the values collected so far. */
  function EvalArgs(s: Store, exprs: seq<Value>, env: Env, fuel: nat, acc: seq<Value>): (r: Outcome<seq<Value>>)
    ensures ExtendsExcept(s, r.store, env.bindings)
    ensures r.result.Ok? ==> |r.result.value| == |acc| + |exprs| && r.result.value[..|acc|] == acc
    decreases fuel, 1, |exprs|
  {
    if exprs == [] then Outcome(Ok(acc), s)
    else
      var first := Eval(s, exprs[0], env, fuel);
      if first.result.Err? then Outcome(Err(first.result.error), first.store)
      else EvalArgs(first.store, exprs[1..], env, fuel, acc + [first.result.value])
  }

  /** `eval_ast`: lists of every flavour are evaluated element-wise and keep
      their flavour; everything else, symbols included, is returned as is. */
  function EvalAst(s: Store, ast: Value, env: Env, fuel: nat): (r: Outcome<Value>)
    ensures ExtendsExcept(s, r.store, env.bindings)
    decreases fuel, 2, 0
  {
    match ast
    case Round(list) =>
      var o := EvalArgs(s, list, env, fuel, []);
      Outcome(if o.result.Ok? then Ok(Round(o.result.value)) else Err(o.result.error), o.store)
    case Square(list) =>
      var o := EvalArgs(s, list, env, fuel, []);
      Outcome(if o.result.Ok? then Ok(Square(o.result.value)) else Err(o.result.error), o.store)
    case Curly(list) =>
      var o := EvalArgs(s, list, env, fuel, []);
      Outcome(if o.result.Ok? then Ok(Curly(o.result.value)) else Err(o.result.error), o.store)
    case Mal(list) =>
      var o := EvalArgs(s, list, env, fuel, []);
      Outcome(if o.result.Ok? then Ok(Mal(o.result.value)) else Err(o.result.error), o.store)
    case _ => Outcome(Ok(ast), s)
  }

  /** `eval_all`: every top-level form of one input line, in order. */
  function EvalAll(s: Store, input: seq<Value>, env: Env, fuel: nat): (r: Outcome<seq<Value>>)
    ensures ExtendsExcept(s, r.store, env.bindings)
    ensures r.result.Ok? ==> |r.result.value| == |input|
  {
    EvalArgs(s, input, env, fuel, [])
  }

  /** The loop `for expr in body { result = eval(expr, env)? }` shared by
      `do` and closure bodies: `res` is the last value so far. */
  function EvalBody(s: Store, exprs: seq<Value>, env: Env, fuel: nat, res: Value): (r: Outcome<Value>)
    ensures ExtendsExcept(s, r.store, env.bindings)
    ensures exprs == [] ==> r == Outcome(Ok(res), s)
    decreases fuel, 1, |exprs|
  {
    if exprs == [] then Outcome(Ok(res), s)
    else
      var o := Eval(s, exprs[0], env, fuel);
      if o.result.Err? then o
      else EvalBody(o.store, exprs[1..], env, fuel, o.result.value)
  }

  /** Closure application: a fresh scope under the captured scope, the
      parameters bound positionally, then the body. The rest parameter is
      never bound. */
  function ApplyClosure(s: Store, params: seq<string>, args: seq<Value>, body: seq<Value>,
                        closureEnv: Env, fuel: nat): (r: Outcome<Value>)
    requires |params| == |args|
    ensures Preserves(s, r.store)
    decreases fuel, 2, 0
  {
    var (s1, newEnv) := EnvNew(s, Some(GetBindings(closureEnv)));
    var s2 := BindParams(s1, newEnv, params, args);
    EvalBody(s2, body, newEnv, fuel, Nil)
  }

  /** `for (param, arg) in params.iter().zip(args.iter()) { set(param, arg) }`. */
  function BindParams(s: Store, e: Env, params: seq<string>, args: seq<Value>): (r: Store)
    requires |params| == |args|
    ensures ExtendsExcept(s, r, e.bindings) && |r| == |s|
    decreases |params|
  {
    if params == [] then s
    else BindParams(EnvSet(s, e, params[0], args[0]), e, params[1..], args[1..])
  }

  /** The special forms, which receive their arguments unevaluated. */
  function ApplySpecialForm(s: Store, form: SpecialFn, args: seq<Value>, env: Env, fuel: nat): (r: Outcome<Value>)
    ensures ExtendsExcept(s, r.store, env.bindings)
    decreases fuel, 3, 0
  {
    match form
    case DefForm => DefBang(s, args, env, fuel)
    case LetForm => LetStar(s, args, env, fuel)
    case DoForm => Do(s, args, env, fuel)
    case FnForm => Outcome(FnStar(args, env), s)
    case IfForm => If(s, args, env, fuel)
  }

  /** `def_bang`: evaluate the value, then bind it in the current scope. */
  function DefBang(s: Store, args: seq<Value>, env: Env, fuel: nat): (r: Outcome<Value>)
    ensures ExtendsExcept(s, r.store, env.bindings)
    ensures |args| != 2 ==> r == Outcome(Err(Raised("def! requires exactly two arguments")), s)
    ensures |args| == 2 && !args[0].Symbol? ==> r == Outcome(Err(Raised("def! first argument must be a symbol")), s)
    decreases fuel, 2, 0
  {
    if |args| != 2 then Outcome(Err(Raised("def! requires exactly two arguments")), s)
    else if !args[0].Symbol? then Outcome(Err(Raised("def! first argument must be a symbol")), s)
    else
      var o := Eval(s, args[1], env, fuel);
      if o.result.Err? then o
      else Outcome(Ok(o.result.value), EnvSet(o.store, env, args[0].text, o.result.value))
  }

  /** `do_func`. */
  function Do(s: Store, args: seq<Value>, env: Env, fuel: nat): (r: Outcome<Value>)
    ensures ExtendsExcept(s, r.store, env.bindings)
    ensures args == [] ==> r == Outcome(Ok(Nil), s)
    decreases fuel, 2, 0
  {
    EvalBody(s, args, env, fuel, Nil)
  }

  /** `if_special_form`. */
  function If(s: Store, args: seq<Value>, env: Env, fuel: nat): (r: Outcome<Value>)
    ensures ExtendsExcept(s, r.store, env.bindings)
    ensures !(2 <= |args| <= 3) ==> r == Outcome(Err(Raised("if requires two or three arguments")), s)
    decreases fuel, 2, 0
  {
    if |args| < 2 || |args| > 3 then Outcome(Err(Raised("if requires two or three arguments")), s)
    else
      var c := Eval(s, args[0], env, fuel);
      if c.result.Err? then c
      else if Truthy(c.result.value) then Eval(c.store, args[1], env, fuel)
      else if |args| == 3 then Eval(c.store, args[2], env, fuel)
      else Outcome(Ok(Nil), c.store)
  }

  /** `let_star`. */
  function LetStar(s: Store, args: seq<Value>, env: Env, fuel: nat): (r: Outcome<Value>)
    ensures Preserves(s, r.store)
    ensures |args| != 2 ==> r == Outcome(Err(Raised("let* requires exactly two arguments")), s)
    ensures |args| == 2 && !(args[0].Round? || args[0].Square?) ==>
      r == Outcome(Err(Raised("let* first argument must be a list of bindings")), s)
    ensures |args| == 2 && (args[0].Round? || args[0].Square?) && |args[0].items| % 2 != 0 ==>
      r == Outcome(Err(Raised("Bindings must be pairs")), s)
    decreases fuel, 2, 0
  {
    if |args| != 2 then Outcome(Err(Raised("let* requires exactly two arguments")), s)
    else if !(args[0].Round? || args[0].Square?) then
      Outcome(Err(Raised("let* first argument must be a list of bindings")), s)
    else if |args[0].items| % 2 != 0 then Outcome(Err(Raised("Bindings must be pairs")), s)
    else
      var (s1, newEnv) := EnvNew(s, Some(GetBindings(env)));
      var b := LetBindings(s1, args[0].items, newEnv, fuel);
      if b.result.Err? then Outcome(Err(b.result.error), b.store)
      else Eval(b.store, args[1], newEnv, fuel)
  }

  /** The `for pair in bindings_list.chunks(2)` loop of `let_star`: each
      value is evaluated in the new scope and bound there before the next. */
  function LetBindings(s: Store, pairs: seq<Value>, e: Env, fuel: nat): (r: Outcome<()>)
    ensures ExtendsExcept(s, r.store, e.bindings)
    ensures pairs == [] ==> r == Outcome(Ok(()), s)
    ensures |pairs| == 1 ==> r == Outcome(Err(Raised("Bindings must be pairs")), s)
    ensures |pairs| >= 2 && !pairs[0].Symbol? ==> r == Outcome(Err(Raised("Bindings must start with a symbol")), s)
    decreases fuel, 1, |pairs|
  {
    if pairs == [] then Outcome(Ok(()), s)
    else if |pairs| < 2 then Outcome(Err(Raised("Bindings must be pairs")), s)
    else if !pairs[0].Symbol? then Outcome(Err(Raised("Bindings must start with a symbol")), s)
    else
      var o := Eval(s, pairs[1], e, fuel);
      if o.result.Err? then Outcome(Err(o.result.error), o.store)
      else LetBindings(EnvSet(o.store, e, pairs[0].text, o.result.value), pairs[2..], e, fuel)
  }

  /** `fn_star`: a closure over the current environment whose body is the
      second argument. */
  function FnStar(args: seq<Value>, env: Env): (r: Result<Value>)
    ensures |args| != 2 ==> r == Err(Raised("fn* requires exactly two arguments"))
    ensures |args| == 2 && !(args[0].Round? || args[0].Square?) ==>
      r == Err(Raised("fn* first argument must be a vector that defines the function's parameters"))
    ensures r.Ok? ==> (|args| == 2 && (args[0].Round? || args[0].Square?) && ParseParams(args[0].items).Ok?
      && r.value == BuiltinFunction(UserDefined(ParseParams(args[0].items).value.0,
                                                ParseParams(args[0].items).value.1, [args[1]], env)))
    ensures |args| == 2 && (args[0].Round? || args[0].Square?) && ParseParams(args[0].items).Err? ==>
      r == Err(ParseParams(args[0].items).error)
  {
    if |args| != 2 then Err(Raised("fn* requires exactly two arguments"))
    else if !(args[0].Round? || args[0].Square?) then
      Err(Raised("fn* first argument must be a vector that defines the function's parameters"))
    else
      var parsed :- ParseParams(args[0].items);
      Ok(BuiltinFunction(UserDefined(parsed.0, parsed.1, [args[1]], env)))
  }

  predicate IsAmp(v: Value) {
    v == Symbol("&")
  }

  /** `position(|p| p is the symbol &)`. */
  function FirstAmp(ps: seq<Value>): (r: Option<nat>)
    ensures r.Some? ==> (r.value < |ps| && IsAmp(ps[r.value])
      && forall i :: 0 <= i < r.value ==> !IsAmp(ps[i]))
    ensures r.None? ==> forall i :: 0 <= i < |ps| ==> !IsAmp(ps[i])
    decreases |ps|
  {
    if ps == [] then None
    else if IsAmp(ps[0]) then Some(0)
    else match FirstAmp(ps[1..])
      case Some(i) => Some(i + 1)
      case None => None
  }

  /** The parameter names, or the error of the first non-symbol. */
  function SymbolNames(ps: seq<Value>): (r: Result<seq<string>>)
    ensures r.Ok? <==> forall i :: 0 <= i < |ps| ==> ps[i].Symbol?
    ensures r.Ok? ==> |r.value| == |ps| && forall i :: 0 <= i < |ps| ==> r.value[i] == ps[i].text
    ensures r.Err? ==> r.error == Raised("fn* Parameters must be Symbols")
    decreases |ps|
  {
    if ps == [] then Ok([])
    else if !ps[0].Symbol? then Err(Raised("fn* Parameters must be Symbols"))
    else
      var rest :- SymbolNames(ps[1..]);
      Ok([ps[0].text] + rest)
  }

  /** The fixed parameters and the optional rest parameter of `fn*`. */
  function ParseParams(ps: seq<Value>): (r: Result<(seq<string>, Option<string>)>)
  {
    match FirstAmp(ps)
    case Some(pos) =>
      if pos + 1 >= |ps| then Err(Raised("Expected symbol after &"))
      else if pos + 2 != |ps| then Err(Raised("Unexpected parameter after rest parameter"))
      else if !ps[pos + 1].Symbol? then Err(Raised("Expected symbol after &"))
      else
        var fixed :- SymbolNames(ps[..pos]);
        Ok((fixed, Some(ps[pos + 1].text)))
    case None =>
      var fixed :- SymbolNames(ps);
      Ok((fixed, None))
  }
}
