/** The evaluator of step4_if_fn_do.rs and the special forms of core.rs as
    the source runs them: methods that update the scope arena in place,
    with loops where the source loops. Each method is proved to compute
    exactly what its namesake in module Semantics describes: the same
    result and the same arena afterwards. */
module Interpreter {
  import opened Common
  import opened Values
  import opened Environment
  import S = Semantics
  import Core

  /** `eval`. */
  method Eval(arena: Arena, ast: Value, env: Env, fuel: nat) returns (r: Result<Value>)
    modifies arena
    ensures S.Outcome(r, arena.scopes) == S.Eval(old(arena.scopes), ast, env, fuel)
    decreases fuel, 0
  {
    if fuel == 0 {
      return Err(OutOfFuel);
    }
    match ast {
      case Symbol(name) =>
        match arena.Get(env, name) {
          case Some(v) => r := Ok(v);
          case None => r := Err(S.NotFound(name));
        }
      case Round(list) =>
        if list == [] {
          return Ok(ast);
        }
        r := EvalCall(arena, list, env, fuel - 1);
      case _ =>
        r := EvalAst(arena, ast, env, fuel - 1);
    }
  }

  /** The call arm of `eval`: the head first, then the dispatch on it.
      `fuel` is what remains once `eval` has taken its unit. */
  method EvalCall(arena: Arena, list: seq<Value>, env: Env, fuel: nat) returns (r: Result<Value>)
    requires list != []
    modifies arena
    ensures S.Outcome(r, arena.scopes) == S.Eval(old(arena.scopes), Round(list), env, fuel + 1)
    decreases fuel, 5
  {
    CallArm(arena.scopes, list, env, fuel);
    var head := Eval(arena, list[0], env, fuel);
    if head.Err? {
      return Err(head.error);
    }
    r := Apply(arena, head.value, list[1..], env, fuel);
  }

  /** The dispatch on the evaluated head of a non-empty list. */
  method Apply(arena: Arena, f: Value, argExprs: seq<Value>, env: Env, fuel: nat) returns (r: Result<Value>)
    modifies arena
    ensures S.Outcome(r, arena.scopes) == S.Apply(old(arena.scopes), f, argExprs, env, fuel)
    decreases fuel, 4
  {
    match f {
      case BuiltinFunction(SpecialForm(form)) =>
        SpecialFormArm(arena.scopes, form, argExprs, env, fuel);
        r := ApplySpecialForm(arena, form, argExprs, env, fuel);
      case BuiltinFunction(Builtin(b)) =>
        r := CallBuiltin(arena, b, argExprs, env, fuel);
      case BuiltinFunction(UserDefined(_, _, _, _)) =>
        r := CallClosure(arena, f.f, argExprs, env, fuel);
      case _ =>
        NotFunctionArm(arena.scopes, f, argExprs, env, fuel);
        r := Err(Raised("First element is not a function"));
    }
  }

  /** The `Function::Builtin` arm of `eval`: the arguments are evaluated,
      then the builtin is called on their values. */
  method CallBuiltin(arena: Arena, b: BuiltinFn, argExprs: seq<Value>, env: Env, fuel: nat) returns (r: Result<Value>)
    modifies arena
    ensures S.Outcome(r, arena.scopes) == S.Apply(old(arena.scopes), BuiltinFunction(Builtin(b)), argExprs, env, fuel)
    decreases fuel, 3
  {
    BuiltinArm(arena.scopes, b, argExprs, env, fuel);
    var args := EvalArgs(arena, argExprs, env, fuel);
    if args.Err? {
      return Err(args.error);
    }
    r := Core.ApplyBuiltin(b, args.value);
  }

  /** The `Function::UserDefined` arm of `eval`: the arguments are
      evaluated, their number checked against the parameters, and the
      closure applied. */
  method CallClosure(arena: Arena, f: Function, argExprs: seq<Value>, env: Env, fuel: nat) returns (r: Result<Value>)
    requires f.UserDefined?
    modifies arena
    ensures S.Outcome(r, arena.scopes) == S.Apply(old(arena.scopes), BuiltinFunction(f), argExprs, env, fuel)
    decreases fuel, 3
  {
    ClosureArm(arena.scopes, f, argExprs, env, fuel);
    var args := EvalArgs(arena, argExprs, env, fuel);
    if args.Err? {
      return Err(args.error);
    }
    if |f.params| != |args.value| {
      return Err(S.ArityMismatch(|f.params|, |args.value|));
    }
    r := ApplyClosure(arena, f.params, args.value, f.body, f.env, fuel);
  }

  /** `map(|x| eval(x, env)).collect()`: evaluate left to right into a
      vector, returning the first error. */
  method EvalArgs(arena: Arena, exprs: seq<Value>, env: Env, fuel: nat) returns (r: Result<seq<Value>>)
    modifies arena
    ensures S.Outcome(r, arena.scopes) == S.EvalArgs(old(arena.scopes), exprs, env, fuel, [])
    decreases fuel, 1
  {
    var values: seq<Value> := [];
    var i := 0;
    while i < |exprs|
      invariant 0 <= i <= |exprs|
      invariant S.EvalArgs(arena.scopes, exprs[i..], env, fuel, values)
             == S.EvalArgs(old(arena.scopes), exprs, env, fuel, [])
    {
      assert exprs[i..][1..] == exprs[i + 1..];
      var v := Eval(arena, exprs[i], env, fuel);
      if v.Err? {
        return Err(v.error);
      }
      values := values + [v.value];
      i := i + 1;
    }
    return Ok(values);
  }

  /** `eval_ast`. */
  method EvalAst(arena: Arena, ast: Value, env: Env, fuel: nat) returns (r: Result<Value>)
    modifies arena
    ensures S.Outcome(r, arena.scopes) == S.EvalAst(old(arena.scopes), ast, env, fuel)
    decreases fuel, 2
  {
    match ast {
      case Round(list) =>
        var o := EvalArgs(arena, list, env, fuel);
        r := if o.Ok? then Ok(Round(o.value)) else Err(o.error);
      case Square(list) =>
        var o := EvalArgs(arena, list, env, fuel);
        r := if o.Ok? then Ok(Square(o.value)) else Err(o.error);
      case Curly(list) =>
        var o := EvalArgs(arena, list, env, fuel);
        r := if o.Ok? then Ok(Curly(o.value)) else Err(o.error);
      case Mal(list) =>
        var o := EvalArgs(arena, list, env, fuel);
        r := if o.Ok? then Ok(Mal(o.value)) else Err(o.error);
      case _ =>
        r := Ok(ast);
    }
  }

  /** `eval_all`. */
  method EvalAll(arena: Arena, input: seq<Value>, env: Env, fuel: nat) returns (r: Result<seq<Value>>)
    modifies arena
    ensures S.Outcome(r, arena.scopes) == S.EvalAll(old(arena.scopes), input, env, fuel)
  {
    r := EvalArgs(arena, input, env, fuel);
  }

  /** `let mut result = Nil; for expr in body { result = eval(expr, env)?; }`,
      the loop of `do_func` and of closure application. */
  method EvalBody(arena: Arena, exprs: seq<Value>, env: Env, fuel: nat) returns (r: Result<Value>)
    modifies arena
    ensures S.Outcome(r, arena.scopes) == S.EvalBody(old(arena.scopes), exprs, env, fuel, Nil)
    decreases fuel, 1
  {
    var result := Nil;
    var i := 0;
    while i < |exprs|
      invariant 0 <= i <= |exprs|
      invariant S.EvalBody(arena.scopes, exprs[i..], env, fuel, result)
             == S.EvalBody(old(arena.scopes), exprs, env, fuel, Nil)
    {
      assert exprs[i..][1..] == exprs[i + 1..];
      var o := Eval(arena, exprs[i], env, fuel);
      if o.Err? {
        return o;
      }
      result := o.value;
      i := i + 1;
    }
    return Ok(result);
  }

  /** Applying a closure: `new_env` under the captured bindings, one `set`
      per parameter, then the body. */
  method ApplyClosure(arena: Arena, params: seq<string>, args: seq<Value>, body: seq<Value>,
                      closureEnv: Env, fuel: nat) returns (r: Result<Value>)
    requires |params| == |args|
    modifies arena
    ensures S.Outcome(r, arena.scopes) == S.ApplyClosure(old(arena.scopes), params, args, body, closureEnv, fuel)
    decreases fuel, 2
  {
    var newEnv := arena.NewEnv(Some(GetBindings(closureEnv)));
    ghost var s1 := arena.scopes;
    var i := 0;
    while i < |params|
      invariant 0 <= i <= |params|
      invariant S.BindParams(arena.scopes, newEnv, params[i..], args[i..])
             == S.BindParams(s1, newEnv, params, args)
    {
      assert params[i..][1..] == params[i + 1..];
      assert args[i..][1..] == args[i + 1..];
      arena.Set(newEnv, params[i], args[i]);
      i := i + 1;
    }
    r := EvalBody(arena, body, newEnv, fuel);
  }

  /** The special forms, called with their arguments unevaluated. */
  method ApplySpecialForm(arena: Arena, form: SpecialFn, args: seq<Value>, env: Env, fuel: nat)
    returns (r: Result<Value>)
    modifies arena
    ensures S.Outcome(r, arena.scopes) == S.ApplySpecialForm(old(arena.scopes), form, args, env, fuel)
    decreases fuel, 3
  {
    match form {
      case DefForm => r := DefBang(arena, args, env, fuel);
      case LetForm => r := LetStar(arena, args, env, fuel);
      case DoForm => r := EvalBody(arena, args, env, fuel);
      case FnForm => r := S.FnStar(args, env);
      case IfForm => r := If(arena, args, env, fuel);
    }
  }

  /** `def_bang`. */
  method DefBang(arena: Arena, args: seq<Value>, env: Env, fuel: nat) returns (r: Result<Value>)
    modifies arena
    ensures S.Outcome(r, arena.scopes) == S.DefBang(old(arena.scopes), args, env, fuel)
    decreases fuel, 2
  {
    if |args| != 2 {
      return Err(Raised("def! requires exactly two arguments"));
    }
    var key: string;
    match args[0] {
      case Symbol(s) => key := s;
      case _ => return Err(Raised("def! first argument must be a symbol"));
    }
    var value := Eval(arena, args[1], env, fuel);
    if value.Err? {
      return value;
    }
    arena.Set(env, key, value.value);
    r := value;
  }

  /** `if_special_form`. */
  method If(arena: Arena, args: seq<Value>, env: Env, fuel: nat) returns (r: Result<Value>)
    modifies arena
    ensures S.Outcome(r, arena.scopes) == S.If(old(arena.scopes), args, env, fuel)
    decreases fuel, 2
  {
    if |args| < 2 || |args| > 3 {
      return Err(Raised("if requires two or three arguments"));
    }
    var conditionRes := Eval(arena, args[0], env, fuel);
    if conditionRes.Err? {
      return conditionRes;
    }
    var isTruthy := match conditionRes.value
      case Nil => false
      case Bool(false) => false
      case _ => true;
    if isTruthy {
      r := Eval(arena, args[1], env, fuel);
    } else if |args| == 3 {
      r := Eval(arena, args[2], env, fuel);
    } else {
      r := Ok(Nil);
    }
  }

  /** `let_star`. */
  method LetStar(arena: Arena, args: seq<Value>, env: Env, fuel: nat) returns (r: Result<Value>)
    modifies arena
    ensures S.Outcome(r, arena.scopes) == S.LetStar(old(arena.scopes), args, env, fuel)
    decreases fuel, 2
  {
    if |args| != 2 {
      return Err(Raised("let* requires exactly two arguments"));
    }
    if !(args[0].Round? || args[0].Square?) {
      return Err(Raised("let* first argument must be a list of bindings"));
    }
    var bindingsList := args[0].items;
    if |bindingsList| % 2 != 0 {
      return Err(Raised("Bindings must be pairs"));
    }
    var newEnv := arena.NewEnv(Some(GetBindings(env)));
    var b := LetBindings(arena, bindingsList, newEnv, fuel);
    if b.Err? {
      return Err(b.error);
    }
    r := Eval(arena, args[1], newEnv, fuel);
  }

  /** The `for pair in bindings_list.chunks(2)` loop of `let_star`. */
  method LetBindings(arena: Arena, bindingsList: seq<Value>, newEnv: Env, fuel: nat) returns (r: Result<()>)
    modifies arena
    ensures S.Outcome(r, arena.scopes) == S.LetBindings(old(arena.scopes), bindingsList, newEnv, fuel)
    decreases fuel, 1, 1
  {
    var i := 0;
    while i < |bindingsList|
      invariant 0 <= i <= |bindingsList|
      invariant S.LetBindings(arena.scopes, bindingsList[i..], newEnv, fuel)
             == S.LetBindings(old(arena.scopes), bindingsList, newEnv, fuel)
    {
      LetBindingsAt(arena.scopes, bindingsList, i, newEnv, fuel);
      var end := if i + 2 <= |bindingsList| then i + 2 else |bindingsList|;
      var step := BindPair(arena, bindingsList[i..end], newEnv, fuel);
      if step.Err? {
        return step;
      }
      i := i + 2;
    }
    return Ok(());
  }

  /** The body of the `chunks(2)` loop, on one chunk: it must be a pair
      starting with a symbol; its value is evaluated and bound. */
  method BindPair(arena: Arena, pair: seq<Value>, newEnv: Env, fuel: nat) returns (r: Result<()>)
    modifies arena
    ensures |pair| != 2 ==> r == Err(Raised("Bindings must be pairs")) && arena.scopes == old(arena.scopes)
    ensures |pair| == 2 && !pair[0].Symbol? ==>
      r == Err(Raised("Bindings must start with a symbol")) && arena.scopes == old(arena.scopes)
    ensures |pair| == 2 && pair[0].Symbol? ==>
      var o := S.Eval(old(arena.scopes), pair[1], newEnv, fuel);
      if o.result.Err? then r == Err(o.result.error) && arena.scopes == o.store
      else r == Ok(()) && arena.scopes == EnvSet(o.store, newEnv, pair[0].text, o.result.value)
    decreases fuel, 1, 0
  {
    if |pair| != 2 {
      return Err(Raised("Bindings must be pairs"));
    }
    var key: string;
    match pair[0] {
      case Symbol(s) => key := s;
      case _ => return Err(Raised("Bindings must start with a symbol"));
    }
    var value := Eval(arena, pair[1], newEnv, fuel);
    if value.Err? {
      return Err(value.error);
    }
    arena.Set(newEnv, key, value.value);
    return Ok(());
  }

  /** The call arm of `S.Eval`, unfolded once. */
  lemma CallArm(s: Store, list: seq<Value>, env: Env, fuel: nat)
    requires list != []
    ensures var h := S.Eval(s, list[0], env, fuel);
      S.Eval(s, Round(list), env, fuel + 1) ==
        if h.result.Err? then S.Outcome(Err(h.result.error), h.store)
        else S.Apply(h.store, h.result.value, list[1..], env, fuel)
  {
  }

  /** The special-form arm of `S.Apply`, unfolded once. */
  lemma SpecialFormArm(s: Store, form: SpecialFn, argExprs: seq<Value>, env: Env, fuel: nat)
    ensures S.Apply(s, BuiltinFunction(SpecialForm(form)), argExprs, env, fuel)
         == S.ApplySpecialForm(s, form, argExprs, env, fuel)
  {
  }

  /** The last arm of `S.Apply`, unfolded once. */
  lemma NotFunctionArm(s: Store, f: Value, argExprs: seq<Value>, env: Env, fuel: nat)
    requires !f.BuiltinFunction?
    ensures S.Apply(s, f, argExprs, env, fuel) == S.Outcome(Err(Raised("First element is not a function")), s)
  {
  }

  /** The closure arm of `S.Apply`, unfolded once. */
  lemma ClosureArm(s: Store, f: Function, argExprs: seq<Value>, env: Env, fuel: nat)
    requires f.UserDefined?
    ensures var a := S.EvalArgs(s, argExprs, env, fuel, []);
      S.Apply(s, BuiltinFunction(f), argExprs, env, fuel) ==
        if a.result.Err? then S.Outcome(Err(a.result.error), a.store)
        else if |f.params| != |a.result.value| then
          S.Outcome(Err(S.ArityMismatch(|f.params|, |a.result.value|)), a.store)
        else S.ApplyClosure(a.store, f.params, a.result.value, f.body, f.env, fuel)
  {
  }

  /** The builtin arm of `S.Apply`, unfolded once. */
  lemma BuiltinArm(s: Store, b: BuiltinFn, argExprs: seq<Value>, env: Env, fuel: nat)
    ensures var a := S.EvalArgs(s, argExprs, env, fuel, []);
      S.Apply(s, BuiltinFunction(Builtin(b)), argExprs, env, fuel) ==
        if a.result.Err? then S.Outcome(Err(a.result.error), a.store)
        else S.Outcome(Core.ApplyBuiltin(b, a.result.value), a.store)
  {
  }

  /** One step of `S.LetBindings` on the pairs from position `i` on. */
  lemma LetBindingsAt(s: Store, pairs: seq<Value>, i: nat, e: Env, fuel: nat)
    requires i < |pairs|
    ensures i + 2 > |pairs| ==>
      S.LetBindings(s, pairs[i..], e, fuel) == S.Outcome(Err(Raised("Bindings must be pairs")), s)
    ensures i + 2 <= |pairs| && !pairs[i].Symbol? ==>
      S.LetBindings(s, pairs[i..], e, fuel) == S.Outcome(Err(Raised("Bindings must start with a symbol")), s)
    ensures i + 2 <= |pairs| && pairs[i].Symbol? ==>
      S.LetBindings(s, pairs[i..], e, fuel) ==
        var o := S.Eval(s, pairs[i + 1], e, fuel);
        if o.result.Err? then S.Outcome(Err(o.result.error), o.store)
        else S.LetBindings(EnvSet(o.store, e, pairs[i].text, o.result.value), pairs[i + 2..], e, fuel)
  {
    if i + 2 <= |pairs| {
      assert pairs[i..][2..] == pairs[i + 2..];
    }
  }
}
