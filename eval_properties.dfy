/** What the evaluator of step4_if_fn_do.rs and the special forms of
    core.rs promise, proved about module Semantics (and so, through the
    methods' postconditions, about module Interpreter). */
module EvalProperties {
  import opened Common
  import opened Values
  import opened Environment
  import opened Semantics

  // ---------------------------------------------------------------------
  // Symbols, lists and literals

  /** A symbol evaluates to its binding anywhere up the chain, and an
      unbound symbol is an error naming it; nothing changes either way. */
  lemma SymbolEvaluation(s: Store, name: string, env: Env, fuel: nat)
    requires fuel >= 1
    ensures var r := Eval(s, Symbol(name), env, fuel);
      r.store == s &&
      r.result == (match EnvGet(s, env, name) case Some(v) => Ok(v) case None => Err(NotFound(name)))
  {
  }

  /** A value that evaluates to itself given `fuel`: anything but a symbol
      or a non-empty Round, with Square, Curly and Mal holding only such
      values, nested no deeper than the fuel allows. */
  predicate SelfEvaluating(v: Value, fuel: nat)
    decreases v
  {
    fuel >= 1 &&
    match v
    case Symbol(_) => false
    case Round(xs) => xs == []
    case Square(xs) => forall i :: 0 <= i < |xs| ==> SelfEvaluating(xs[i], fuel - 1)
    case Curly(xs) => forall i :: 0 <= i < |xs| ==> SelfEvaluating(xs[i], fuel - 1)
    case Mal(xs) => forall i :: 0 <= i < |xs| ==> SelfEvaluating(xs[i], fuel - 1)
    case _ => true
  }

  /** Numbers, strings, booleans, nil, functions, EOI, the empty Round and
      vectors of such values evaluate to themselves and change nothing, so
      evaluating the result again gives it back once more. */
  lemma {:induction false} SelfEvaluatingIsFixed(s: Store, v: Value, env: Env, fuel: nat)
    requires SelfEvaluating(v, fuel)
    ensures Eval(s, v, env, fuel) == Outcome(Ok(v), s)
    decreases v
  {
    match v
    case Square(xs) => ArgsSelfEvaluating(s, xs, env, fuel - 1, []);
    case Curly(xs) => ArgsSelfEvaluating(s, xs, env, fuel - 1, []);
    case Mal(xs) => ArgsSelfEvaluating(s, xs, env, fuel - 1, []);
    case _ =>
  }

  lemma {:induction false} ArgsSelfEvaluating(s: Store, xs: seq<Value>, env: Env, fuel: nat, acc: seq<Value>)
    requires forall i :: 0 <= i < |xs| ==> SelfEvaluating(xs[i], fuel)
    ensures EvalArgs(s, xs, env, fuel, acc) == Outcome(Ok(acc + xs), s)
    decreases xs
  {
    if xs != [] {
      SelfEvaluatingIsFixed(s, xs[0], env, fuel);
      assert Eval(s, xs[0], env, fuel) == Outcome(Ok(xs[0]), s);
      assert forall i :: 0 <= i < |xs[1..]| ==> xs[1..][i] == xs[i + 1];
      ArgsSelfEvaluating(s, xs[1..], env, fuel, acc + [xs[0]]);
      assert EvalArgs(s, xs, env, fuel, acc) == EvalArgs(s, xs[1..], env, fuel, acc + [xs[0]]);
      assert acc + [xs[0]] + xs[1..] == acc + xs;
    } else {
      assert acc + xs == acc;
    }
  }

  /** Arguments are evaluated left to right: evaluating `xs + [x]` is
      evaluating `xs`, then `x` in the arena `xs` left behind. */
  lemma {:induction false} EvalArgsAppend(s: Store, xs: seq<Value>, x: Value, env: Env, fuel: nat, acc: seq<Value>)
    ensures EvalArgs(s, xs + [x], env, fuel, acc) ==
      var o := EvalArgs(s, xs, env, fuel, acc);
      if o.result.Err? then o
      else
        var last := Eval(o.store, x, env, fuel);
        if last.result.Err? then Outcome(Err(last.result.error), last.store)
        else Outcome(Ok(o.result.value + [last.result.value]), last.store)
    decreases xs
  {
    if xs != [] {
      assert (xs + [x])[1..] == xs[1..] + [x];
      var first := Eval(s, xs[0], env, fuel);
      if first.result.Ok? {
        EvalArgsAppend(first.store, xs[1..], x, env, fuel, acc + [first.result.value]);
      }
    }
  }

  /** In a call, the head is evaluated first; a special form then gets the
      unevaluated tail, and a head that is no function is an error raised
      before any argument is evaluated. */
  lemma CallDispatch(s: Store, head: Value, tail: seq<Value>, env: Env, fuel: nat)
    requires fuel >= 1
    ensures var h := Eval(s, head, env, fuel - 1);
      var r := Eval(s, Round([head] + tail), env, fuel);
      && (h.result.Err? ==> r == Outcome(Err(h.result.error), h.store))
      && (h.result.Ok? && h.result.value.BuiltinFunction? && h.result.value.f.SpecialForm? ==>
            r == ApplySpecialForm(h.store, h.result.value.f.form, tail, env, fuel - 1))
      && (h.result.Ok? && !h.result.value.BuiltinFunction? ==>
            r == Outcome(Err(Raised("First element is not a function")), h.store))
  {
    assert ([head] + tail)[1..] == tail;
  }

  /** A call of a builtin or a closure evaluates the arguments left to
      right; the first failing argument ends the call. A builtin then gets
      the values, and a closure given as many values as it has parameters
      runs its body in a fresh scope. */
  lemma CallEvaluatesArguments(s: Store, head: Value, tail: seq<Value>, env: Env, fuel: nat)
    requires fuel >= 1
    ensures var h := Eval(s, head, env, fuel - 1);
      var a := EvalArgs(h.store, tail, env, fuel - 1, []);
      var r := Eval(s, Round([head] + tail), env, fuel);
      h.result.Ok? && h.result.value.BuiltinFunction? && !h.result.value.f.SpecialForm? ==>
        var f := h.result.value.f;
        && (a.result.Err? ==> r == Outcome(Err(a.result.error), a.store))
        && (a.result.Ok? && f.Builtin? ==> r == Outcome(Core.ApplyBuiltin(f.builtin, a.result.value), a.store))
        && (a.result.Ok? && f.UserDefined? && |f.params| == |a.result.value| ==>
              r == ApplyClosure(a.store, f.params, a.result.value, f.body, f.env, fuel - 1))
  {
    assert ([head] + tail)[1..] == tail;
  }

  /** Square, Curly and Mal forms are evaluated element by element, left to
      right, and keep their flavour; the first failing element ends it. */
  lemma FlavourKept(s: Store, xs: seq<Value>, env: Env, fuel: nat)
    requires fuel >= 1
    ensures var o := EvalArgs(s, xs, env, fuel - 1, []);
      && Eval(s, Square(xs), env, fuel)
           == Outcome(if o.result.Ok? then Ok(Square(o.result.value)) else Err(o.result.error), o.store)
      && Eval(s, Curly(xs), env, fuel)
           == Outcome(if o.result.Ok? then Ok(Curly(o.result.value)) else Err(o.result.error), o.store)
      && Eval(s, Mal(xs), env, fuel)
           == Outcome(if o.result.Ok? then Ok(Mal(o.result.value)) else Err(o.result.error), o.store)
  {
  }

  /** A closure called with the wrong number of arguments fails after the
      arguments are evaluated, naming both counts. */
  lemma ClosureArityChecked(s: Store, f: Function, argExprs: seq<Value>, env: Env, fuel: nat)
    requires f.UserDefined?
    ensures var a := EvalArgs(s, argExprs, env, fuel, []);
      a.result.Ok? && |a.result.value| != |f.params| ==>
        Apply(s, BuiltinFunction(f), argExprs, env, fuel)
          == Outcome(Err(ArityMismatch(|f.params|, |a.result.value|)), a.store)
  {
  }

  // ---------------------------------------------------------------------
  // Closures: lexical scope

  /** Binding the parameters touches only the new scope, and there only
      the parameter names. */
  lemma {:induction false} BindParamsLevel(s: Store, e: Env, params: seq<string>, args: seq<Value>, x: string)
    requires |params| == |args| && e.bindings < |s|
    ensures var t := BindParams(s, e, params, args);
      && (x !in params ==>
            (x in t[e.bindings].currentLevel <==> x in s[e.bindings].currentLevel)
            && (x in s[e.bindings].currentLevel ==> t[e.bindings].currentLevel[x] == s[e.bindings].currentLevel[x]))
      && (x in params ==> x in t[e.bindings].currentLevel)
    decreases |params|
  {
    if params != [] {
      BindParamsLevel(EnvSet(s, e, params[0], args[0]), e, params[1..], args[1..], x);
    }
  }

  /** With distinct names, parameter `i` is bound to argument `i`. */
  lemma {:induction false} BindParamsPositional(s: Store, e: Env, params: seq<string>, args: seq<Value>, i: nat)
    requires |params| == |args| && e.bindings < |s| && i < |params|
    requires forall j, k :: 0 <= j < k < |params| ==> params[j] != params[k]
    ensures var level := BindParams(s, e, params, args)[e.bindings].currentLevel;
      params[i] in level && level[params[i]] == args[i]
    decreases |params|
  {
    var s' := EnvSet(s, e, params[0], args[0]);
    BindParamsLevel(s, e, params, args, params[i]);
    if i == 0 {
      BindParamsLevel(s', e, params[1..], args[1..], params[0]);
    } else {
      BindParamsPositional(s', e, params[1..], args[1..], i - 1);
    }
  }

  /** A name that is no parameter is looked up in the scope the closure
      captured when it was created, not in the caller's scope. */
  lemma ClosureSeesCapturedScope(s: Store, params: seq<string>, args: seq<Value>, x: string,
                                 closureEnv: Env, fuel: nat)
    requires |params| == |args| && x !in params && closureEnv.bindings < |s| && fuel >= 1
    ensures ApplyClosure(s, params, args, [Symbol(x)], closureEnv, fuel).result ==
      (match EnvGet(s, closureEnv, x) case Some(v) => Ok(v) case None => Err(NotFound(x)))
  {
    var (s1, newEnv) := EnvNew(s, Some(closureEnv.bindings));
    var t := BindParams(s1, newEnv, params, args);
    BindParamsLevel(s1, newEnv, params, args, x);
    assert x !in t[|s|].currentLevel && t[|s|].parent == Some(closureEnv.bindings);
    GetDependsOnlyBelow(s, t, closureEnv.bindings, x);
    assert EnvGet(t, newEnv, x) == BindingsGet(t, closureEnv.bindings, x);
    assert [Symbol(x)][1..] == [];
    var o := Eval(t, Symbol(x), newEnv, fuel);
    assert o.result == (match EnvGet(s, closureEnv, x) case Some(v) => Ok(v) case None => Err(NotFound(x)));
    assert EvalBody(t, [Symbol(x)], newEnv, fuel, Nil).result == o.result;
  }

  /** A parameter name evaluates to the argument in its position. */
  lemma ClosureBindsParameters(s: Store, params: seq<string>, args: seq<Value>, i: nat,
                               closureEnv: Env, fuel: nat)
    requires |params| == |args| && i < |params| && fuel >= 1
    requires forall j, k :: 0 <= j < k < |params| ==> params[j] != params[k]
    ensures ApplyClosure(s, params, args, [Symbol(params[i])], closureEnv, fuel).result == Ok(args[i])
  {
    var (s1, newEnv) := EnvNew(s, Some(closureEnv.bindings));
    BindParamsPositional(s1, newEnv, params, args, i);
    var t := BindParams(s1, newEnv, params, args);
    assert EnvGet(t, newEnv, params[i]) == Some(args[i]);
    assert [Symbol(params[i])][1..] == [];
    assert Eval(t, Symbol(params[i]), newEnv, fuel).result == Ok(args[i]);
  }

  /** A closure call leaves every scope that existed before it untouched:
      whatever its body defines goes into the call's own new scope. */
  lemma ClosureCallLeavesScopes(s: Store, params: seq<string>, args: seq<Value>, body: seq<Value>,
                                closureEnv: Env, fuel: nat, h: Handle, key: string)
    requires |params| == |args| && h < |s|
    ensures var r := ApplyClosure(s, params, args, body, closureEnv, fuel);
      BindingsGet(r.store, h, key) == BindingsGet(s, h, key)
  {
    var r := ApplyClosure(s, params, args, body, closureEnv, fuel);
    GetDependsOnlyBelow(s, r.store, h, key);
  }

  // ---------------------------------------------------------------------
  // Argument errors of the special forms

  /** `def!` checks its arguments before evaluating anything: two of them,
      the first a symbol. */
  lemma DefBangArgumentErrors(s: Store, args: seq<Value>, env: Env, fuel: nat)
    ensures |args| != 2 ==>
      DefBang(s, args, env, fuel) == Outcome(Err(Raised("def! requires exactly two arguments")), s)
    ensures |args| == 2 && !args[0].Symbol? ==>
      DefBang(s, args, env, fuel) == Outcome(Err(Raised("def! first argument must be a symbol")), s)
  {
  }

  /** `if` takes two or three arguments and checks so before evaluating. */
  lemma IfArgumentErrors(s: Store, args: seq<Value>, env: Env, fuel: nat)
    ensures !(2 <= |args| <= 3) ==>
      If(s, args, env, fuel) == Outcome(Err(Raised("if requires two or three arguments")), s)
  {
  }

  /** `let*` takes two arguments, the first a list of bindings of even
      length; each violation is reported before any scope is made. */
  lemma LetStarArgumentErrors(s: Store, args: seq<Value>, env: Env, fuel: nat)
    ensures |args| != 2 ==>
      LetStar(s, args, env, fuel) == Outcome(Err(Raised("let* requires exactly two arguments")), s)
    ensures |args| == 2 && !(args[0].Round? || args[0].Square?) ==>
      LetStar(s, args, env, fuel) == Outcome(Err(Raised("let* first argument must be a list of bindings")), s)
    ensures |args| == 2 && (args[0].Round? || args[0].Square?) && |args[0].items| % 2 != 0 ==>
      LetStar(s, args, env, fuel) == Outcome(Err(Raised("Bindings must be pairs")), s)
  {
  }

  /** The binding loop: no pairs bind nothing; a lone item is an unpaired
      binding; a pair must start with a symbol. */
  lemma LetBindingsErrors(s: Store, pairs: seq<Value>, e: Env, fuel: nat)
    ensures pairs == [] ==> LetBindings(s, pairs, e, fuel) == Outcome(Ok(()), s)
    ensures |pairs| == 1 ==> LetBindings(s, pairs, e, fuel) == Outcome(Err(Raised("Bindings must be pairs")), s)
    ensures |pairs| >= 2 && !pairs[0].Symbol? ==>
      LetBindings(s, pairs, e, fuel) == Outcome(Err(Raised("Bindings must start with a symbol")), s)
  {
  }

  // ---------------------------------------------------------------------
  // def!

  /** `def!` binds the evaluated value in the current scope and returns it;
      when evaluating the value fails, the failure is returned and nothing
      is bound. */
  lemma DefBangBinds(s: Store, key: string, expr: Value, env: Env, fuel: nat)
    requires env.bindings < |s|
    ensures var o := Eval(s, expr, env, fuel);
      var r := DefBang(s, [Symbol(key), expr], env, fuel);
      && (o.result.Err? ==> r == o)
      && (o.result.Ok? ==> r.result == o.result && r.store == EnvSet(o.store, env, key, o.result.value)
                            && EnvGet(r.store, env, key) == Some(o.result.value))
  {
    var o := Eval(s, expr, env, fuel);
    if o.result.Ok? {
      GetAfterSet(o.store, env, key, o.result.value);
    }
  }

  /** `def!` changes no other name as seen from the current scope, beyond
      what evaluating the value itself did. */
  lemma DefBangLeavesOtherNames(s: Store, key: string, expr: Value, env: Env, fuel: nat, other: string)
    requires env.bindings < |s| && other != key
    ensures var o := Eval(s, expr, env, fuel);
      EnvGet(DefBang(s, [Symbol(key), expr], env, fuel).store, env, other) == EnvGet(o.store, env, other)
  {
    var o := Eval(s, expr, env, fuel);
    if o.result.Ok? {
      SetLeavesOtherKeys(o.store, env, key, o.result.value, other);
    }
  }

  // ---------------------------------------------------------------------
  // let*

  /** `let*` adds nothing to the outer scope or any other existing scope:
      every lookup from an existing scope is as before. */
  lemma LetStarLeavesOuterScopes(s: Store, args: seq<Value>, env: Env, fuel: nat, h: Handle, key: string)
    requires h < |s|
    ensures BindingsGet(LetStar(s, args, env, fuel).store, h, key) == BindingsGet(s, h, key)
  {
    GetDependsOnlyBelow(s, LetStar(s, args, env, fuel).store, h, key);
  }

  /** The value of a binding, evaluated in the new scope under `env`. */
  function LetValue(s: Store, expr: Value, env: Env, fuel: nat): Outcome<Value> {
    var (s1, newEnv) := EnvNew(s, Some(env.bindings));
    Eval(s1, expr, newEnv, fuel)
  }

  /** The body of `(let* (k e) k)` sees the binding: the result is `e`'s
      value in the new scope. */
  lemma LetStarBodySeesBinding(s: Store, k: string, e: Value, env: Env, fuel: nat)
    requires fuel >= 1
    ensures LetStar(s, [Round([Symbol(k), e]), Symbol(k)], env, fuel).result == LetValue(s, e, env, fuel).result
  {
    var (s1, newEnv) := EnvNew(s, Some(env.bindings));
    var pairs := [Symbol(k), e];
    assert pairs[2..] == [];
    var o := Eval(s1, e, newEnv, fuel);
    if o.result.Ok? {
      var t := EnvSet(o.store, newEnv, k, o.result.value);
      assert LetBindings(s1, pairs, newEnv, fuel) == LetBindings(t, [], newEnv, fuel) == Outcome(Ok(()), t);
      GetAfterSet(o.store, newEnv, k, o.result.value);
      assert Eval(t, Symbol(k), newEnv, fuel).result == o.result;
    }
  }

  /** Binding one more pair: bind the earlier pairs, then evaluate the new
      value in the scope they left, then set the name. */
  lemma {:induction false} LetBindingsAppend(s: Store, pairs: seq<Value>, k: string, x: Value, e: Env, fuel: nat)
    requires |pairs| % 2 == 0
    ensures var b := LetBindings(s, pairs, e, fuel);
      var o := Eval(b.store, x, e, fuel);
      LetBindings(s, pairs + [Symbol(k), x], e, fuel) ==
        if b.result.Err? then b
        else if o.result.Err? then Outcome(Err(o.result.error), o.store)
        else Outcome(Ok(()), EnvSet(o.store, e, k, o.result.value))
    decreases |pairs|
  {
    var q := [Symbol(k), x];
    if pairs == [] {
      assert pairs + q == q && q[2..] == [];
    } else {
      assert (pairs + q)[0] == pairs[0] && (pairs + q)[1] == pairs[1];
      if pairs[0].Symbol? {
        var o := Eval(s, pairs[1], e, fuel);
        if o.result.Ok? {
          assert (pairs + q)[2..] == pairs[2..] + q;
          LetBindingsAppend(EnvSet(o.store, e, pairs[0].text, o.result.value), pairs[2..], k, x, e, fuel);
        }
      }
    }
  }

  /** Bindings are sequential: after any pairs, `a x b a` binds `b` to the
      value just bound to `a`. */
  lemma LetStarSequential(s: Store, pairs: seq<Value>, a: string, x: Value, b: string, e: Env, fuel: nat)
    requires |pairs| % 2 == 0 && e.bindings < |s| && fuel >= 1
    ensures var t := LetBindings(s, pairs + [Symbol(a), x], e, fuel);
      var u := LetBindings(s, pairs + [Symbol(a), x, Symbol(b), Symbol(a)], e, fuel);
      t.result.Ok? ==> u.result.Ok? && EnvGet(u.store, e, b) == EnvGet(t.store, e, a)
  {
    var p := pairs + [Symbol(a), x];
    assert p + [Symbol(b), Symbol(a)] == pairs + [Symbol(a), x, Symbol(b), Symbol(a)];
    LetBindingsAppend(s, pairs, a, x, e, fuel);
    LetBindingsAppend(s, p, b, Symbol(a), e, fuel);
    var t := LetBindings(s, p, e, fuel);
    if t.result.Ok? {
      var bs := LetBindings(s, pairs, e, fuel);
      var o := Eval(bs.store, x, e, fuel);
      GetAfterSet(o.store, e, a, o.result.value);
      var v := o.result.value;
      assert Eval(t.store, Symbol(a), e, fuel) == Outcome(Ok(v), t.store);
      GetAfterSet(t.store, e, b, v);
    }
  }

  // ---------------------------------------------------------------------
  // if and do

  /** `if` evaluates the condition, then only the branch it selects: the
      other branch can be anything. A falsy condition without an else
      branch gives nil. */
  lemma IfTakesOneBranch(s: Store, c: Value, t: Value, e: Value, t': Value, e': Value, env: Env, fuel: nat)
    ensures var co := Eval(s, c, env, fuel);
      && (co.result.Err? ==> If(s, [c, t, e], env, fuel) == co && If(s, [c, t], env, fuel) == co)
      && (co.result.Ok? && !(co.result.value == Nil || co.result.value == Bool(false)) ==>
            If(s, [c, t, e], env, fuel) == If(s, [c, t, e'], env, fuel) == If(s, [c, t], env, fuel)
            == Eval(co.store, t, env, fuel))
      && (co.result.Ok? && (co.result.value == Nil || co.result.value == Bool(false)) ==>
            If(s, [c, t, e], env, fuel) == If(s, [c, t', e], env, fuel) == Eval(co.store, e, env, fuel)
            && If(s, [c, t], env, fuel) == Outcome(Ok(Nil), co.store))
  {
  }

  /** Only `nil` and `false` are falsy: every other value, 0, "" and the
      empty list included, is true. */
  lemma Truthiness(v: Value)
    ensures !Truthy(v) <==> v == Nil || v == Bool(false)
    ensures Truthy(Number(0)) && Truthy(String("")) && Truthy(Round([]))
  {
  }

  /** `do` over `xs + [x]` is `do` over `xs` followed by `x`, whose value
      it returns: the value of `do` is that of its last expression. */
  lemma {:induction false} EvalBodyAppend(s: Store, xs: seq<Value>, x: Value, env: Env, fuel: nat, res: Value)
    ensures EvalBody(s, xs + [x], env, fuel, res) ==
      var o := EvalBody(s, xs, env, fuel, res);
      if o.result.Err? then o else Eval(o.store, x, env, fuel)
    decreases xs
  {
    if xs == [] {
      var o := Eval(s, x, env, fuel);
      assert [x][1..] == [];
    } else {
      assert (xs + [x])[1..] == xs[1..] + [x];
      var o := Eval(s, xs[0], env, fuel);
      if o.result.Ok? {
        EvalBodyAppend(o.store, xs[1..], x, env, fuel, o.result.value);
      }
    }
  }

  lemma DoReturnsLast(s: Store, xs: seq<Value>, x: Value, env: Env, fuel: nat)
    ensures Do(s, xs + [x], env, fuel) ==
      var o := Do(s, xs, env, fuel);
      if o.result.Err? then o else Eval(o.store, x, env, fuel)
    ensures Do(s, [], env, fuel) == Outcome(Ok(Nil), s)
  {
    EvalBodyAppend(s, xs, x, env, fuel, Nil);
  }

  // ---------------------------------------------------------------------
  // fn*

  /** The symbols naming `names`. */
  function Symbols(names: seq<string>): (r: seq<Value>)
    ensures |r| == |names| && forall i :: 0 <= i < |names| ==> r[i] == Symbol(names[i])
  {
    seq(|names|, i requires 0 <= i < |names| => Symbol(names[i]))
  }

  /** Without `&` the parameters must all be symbols and are all fixed. */
  lemma ParseParamsWithoutAmp(ps: seq<Value>)
    requires forall i :: 0 <= i < |ps| ==> !IsAmp(ps[i])
    ensures ParseParams(ps).Ok? <==> forall i :: 0 <= i < |ps| ==> ps[i].Symbol?
    ensures ParseParams(ps).Ok? ==> ParseParams(ps).value == (SymbolNames(ps).value, None)
    ensures ParseParams(ps).Err? ==> ParseParams(ps).error == Raised("fn* Parameters must be Symbols")
  {
  }

  /** With `&` at `pos` (its first occurrence) the list parses exactly when
      one symbol follows it and every parameter before it is a symbol. */
  lemma ParseParamsWithAmp(ps: seq<Value>, pos: nat)
    requires pos < |ps| && IsAmp(ps[pos]) && forall i :: 0 <= i < pos ==> !IsAmp(ps[i])
    ensures ParseParams(ps).Ok? <==>
      pos + 2 == |ps| && ps[pos + 1].Symbol? && forall i :: 0 <= i < pos ==> ps[i].Symbol?
    ensures ParseParams(ps).Ok? ==>
      ParseParams(ps).value == (SymbolNames(ps[..pos]).value, Some(ps[pos + 1].text))
    ensures pos + 1 == |ps| ==> ParseParams(ps) == Err(Raised("Expected symbol after &"))
    ensures pos + 2 < |ps| ==> ParseParams(ps) == Err(Raised("Unexpected parameter after rest parameter"))
    ensures pos + 2 == |ps| && !ps[pos + 1].Symbol? ==> ParseParams(ps) == Err(Raised("Expected symbol after &"))
    ensures pos + 2 == |ps| && ps[pos + 1].Symbol? && !(forall i :: 0 <= i < pos ==> ps[i].Symbol?) ==>
      ParseParams(ps) == Err(Raised("fn* Parameters must be Symbols"))
  {
    var amp := FirstAmp(ps);
    assert amp.Some?;
    assert amp.value == pos;
  }

  /** Printing a parameter list back as symbols and parsing it again gives
      the same parameters. */
  lemma ParseParamsRoundTrip(fixed: seq<string>, rest: string)
    requires "&" !in fixed
    ensures ParseParams(Symbols(fixed)) == Ok((fixed, None))
    ensures ParseParams(Symbols(fixed) + [Symbol("&"), Symbol(rest)]) == Ok((fixed, Some(rest)))
  {
    var ps := Symbols(fixed);
    assert forall i :: 0 <= i < |ps| ==> !IsAmp(ps[i]) by {
      forall i | 0 <= i < |ps| ensures !IsAmp(ps[i]) {
        assert fixed[i] != "&";
      }
    }
    assert SymbolNames(ps).value == fixed;
    var qs := ps + [Symbol("&"), Symbol(rest)];
    ParseParamsWithAmp(qs, |fixed|);
    assert qs[..|fixed|] == ps;
  }

  /** `fn*` builds a closure over the environment it is evaluated in, with
      the parsed parameters and the second argument as its only body
      expression; it evaluates nothing and changes nothing. */
  lemma FnStarCaptures(s: Store, fixed: seq<string>, rest: Option<string>, body: Value, env: Env, fuel: nat)
    requires "&" !in fixed
    ensures var ps := if rest.Some? then Symbols(fixed) + [Symbol("&"), Symbol(rest.value)] else Symbols(fixed);
      ApplySpecialForm(s, FnForm, [Square(ps), body], env, fuel)
        == Outcome(Ok(BuiltinFunction(UserDefined(fixed, rest, [body], env))), s)
  {
    var ps := if rest.Some? then Symbols(fixed) + [Symbol("&"), Symbol(rest.value)] else Symbols(fixed);
    ParseParamsRoundTrip(fixed, if rest.Some? then rest.value else "");
    assert ParseParams(ps) == Ok((fixed, rest));
    FnStarParsed(s, [Square(ps), body], env, fuel);
  }

  /** `fn*` over a parameter list that parses. */
  lemma FnStarParsed(s: Store, args: seq<Value>, env: Env, fuel: nat)
    requires |args| == 2 && (args[0].Round? || args[0].Square?) && ParseParams(args[0].items).Ok?
    ensures var p := ParseParams(args[0].items).value;
      ApplySpecialForm(s, FnForm, args, env, fuel) == Outcome(Ok(BuiltinFunction(UserDefined(p.0, p.1, [args[1]], env))), s)
  {
  }

  /** The rest parameter plays no part in a call: a closure with one is
      applied exactly as the same closure without it, so it is checked by
      arity against its fixed parameters alone. */
  lemma RestParamIgnored(s: Store, fixed: seq<string>, rest: string, body: seq<Value>,
                         closureEnv: Env, argExprs: seq<Value>, env: Env, fuel: nat)
    ensures Apply(s, BuiltinFunction(UserDefined(fixed, Some(rest), body, closureEnv)), argExprs, env, fuel)
         == Apply(s, BuiltinFunction(UserDefined(fixed, None, body, closureEnv)), argExprs, env, fuel)
    ensures var a := EvalArgs(s, argExprs, env, fuel, []);
      a.result.Ok? && |a.result.value| != |fixed| ==>
        Apply(s, BuiltinFunction(UserDefined(fixed, Some(rest), body, closureEnv)), argExprs, env, fuel)
          == Outcome(Err(ArityMismatch(|fixed|, |a.result.value|)), a.store)
  {
  }

  /** Nor is the rest parameter bound in the call's scope: a body that
      names it finds whatever the captured scope binds to that name. */
  lemma RestParamUnbound(s: Store, fixed: seq<string>, rest: string, closureEnv: Env,
                         argExprs: seq<Value>, env: Env, fuel: nat)
    requires rest !in fixed && closureEnv.bindings < |s| && fuel >= 1
    ensures var a := EvalArgs(s, argExprs, env, fuel, []);
      a.result.Ok? && |a.result.value| == |fixed| ==>
        Apply(s, BuiltinFunction(UserDefined(fixed, Some(rest), [Symbol(rest)], closureEnv)), argExprs, env, fuel).result
          == (match EnvGet(a.store, closureEnv, rest) case Some(v) => Ok(v) case None => Err(NotFound(rest)))
  {
    var a := EvalArgs(s, argExprs, env, fuel, []);
    if a.result.Ok? && |a.result.value| == |fixed| {
      ClosureSeesCapturedScope(a.store, fixed, a.result.value, rest, closureEnv, fuel);
    }
  }
}
