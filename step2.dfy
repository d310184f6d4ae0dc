/** The earlier arithmetic evaluator of step2.rs. It has no error values:
    an unbound symbol, a list whose head is not an operation, a wrong
    argument count or a non-number argument all panic, so every failure
    here is `Panicked`. */
module Step2 {
  import opened Common
  import opened Values
  import opened Step2Table
  import E = Step2Eval

  /** `eval`. */
  function Eval(ast: Value): (r: Result<Value>)
    ensures r.Ok? && ast.Round? && ast.items != [] ==> r.value.Number?
    ensures r.Ok? && !(ast.Round? && ast.items != []) ==> SameShape(ast, r.value)
    decreases ast, 1
  {
    match ast
    case Round(list) =>
      if list == [] then Ok(ast)
      else
        var evalList :- EvalList(list);
        var name := evalList[0];
        var rest := evalList[1..];
        if name.Symbol? then
          if name.text in REPL_ENV then
            if |rest| != 2 then Err(Panicked("Expected exactly two arguments for binary function"))
            else if rest[0].Number? && rest[1].Number? then
              var n :- ApplyOp(REPL_ENV[name.text], rest[0].n, rest[1].n);
              Ok(Number(n))
            else Err(Panicked("Expected number arguments"))
          else Err(Panicked("Function not found: " + name.text))
        else Err(Panicked("First element is not a function symbol"))
    case _ => EvalAst(ast)
  }

  /** `eval_ast`. */
  function EvalAst(ast: Value): (r: Result<Value>)
    ensures r.Ok? ==> SameShape(ast, r.value)
    ensures ast.Symbol? ==> (r.Ok? <==> ast.text in REPL_ENV)
    decreases ast, 0
  {
    match ast
    case Symbol(s) =>
      if s in REPL_ENV then Ok(Symbol(s)) else Err(Panicked("Symbol not found in environment: " + s))
    case Round(list) => var xs :- EvalList(list); Ok(Round(xs))
    case Square(list) => var xs :- EvalList(list); Ok(Square(xs))
    case Curly(list) => var xs :- EvalList(list); Ok(Curly(xs))
    case Mal(list) => var xs :- EvalList(list); Ok(Mal(xs))
    case _ => Ok(ast)
  }

  /** `list.iter().map(|x| eval(x, env)).collect()`; the first panic ends
      the run. */
  function EvalList(xs: seq<Value>): (r: Result<seq<Value>>)
    ensures r.Ok? ==> |r.value| == |xs|
    decreases xs, 2
  {
    if xs == [] then Ok([])
    else
      var first :- Eval(xs[0]);
      var rest :- EvalList(xs[1..]);
      Ok([first] + rest)
  }

  /** `eval_all`. */
  function EvalAll(input: seq<Value>): (r: Result<seq<Value>>)
    ensures r.Ok? ==> |r.value| == |input|
  {
    EvalList(input)
  }

  /** Every failure of this evaluator is a panic. */
  lemma {:induction false} OnlyPanics(ast: Value)
    requires Eval(ast).Err?
    ensures Eval(ast).error.Panicked?
    decreases ast, 1
  {
    match ast
    case Round(list) =>
      OnlyPanicsList(list);
      if list != [] && EvalList(list).Ok? {
        var ev := EvalList(list).value;
        if ev[0].Symbol? && ev[0].text in REPL_ENV && |ev[1..]| == 2 && ev[1..][0].Number? && ev[1..][1].Number? {
          assert ApplyOp(REPL_ENV[ev[0].text], ev[1..][0].n, ev[1..][1].n).Err?;
        }
      }
    case Square(list) => OnlyPanicsList(list);
    case Curly(list) => OnlyPanicsList(list);
    case Mal(list) => OnlyPanicsList(list);
    case _ =>
  }

  lemma {:induction false} OnlyPanicsList(xs: seq<Value>)
    ensures EvalList(xs).Err? ==> EvalList(xs).error.Panicked?
    decreases xs, 2
  {
    if xs != [] {
      if Eval(xs[0]).Err? {
        OnlyPanics(xs[0]);
      } else {
        OnlyPanicsList(xs[1..]);
      }
    }
  }

  /** A symbol evaluates to itself exactly when the table binds it. */
  lemma SymbolLookup(s: string)
    ensures s in REPL_ENV ==> Eval(Symbol(s)) == Ok(Symbol(s))
    ensures s !in REPL_ENV ==> Eval(Symbol(s)) == Err(Panicked("Symbol not found in environment: " + s))
  {
  }

  /** Whatever evaluates to a symbol evaluates to a bound one, so the
      "Function not found" panic of `eval` is never reached. */
  lemma {:induction false} SymbolResultsAreBound(ast: Value)
    requires Eval(ast).Ok? && Eval(ast).value.Symbol?
    ensures Eval(ast).value.text in REPL_ENV
  {
  }

  /** The values this evaluator leaves as they are: empty round lists,
      bound symbols, atoms, and the other lists when all their elements
      are such values. */
  predicate Normal(v: Value)
    decreases v
  {
    match v
    case Round(xs) => xs == []
    case Symbol(s) => s in REPL_ENV
    case Square(xs) => forall i :: 0 <= i < |xs| ==> Normal(xs[i])
    case Curly(xs) => forall i :: 0 <= i < |xs| ==> Normal(xs[i])
    case Mal(xs) => forall i :: 0 <= i < |xs| ==> Normal(xs[i])
    case _ => true
  }

  /** Every value evaluation produces is normal. */
  lemma {:induction false} EvalGivesNormal(ast: Value)
    requires Eval(ast).Ok?
    ensures Normal(Eval(ast).value)
    decreases ast, 1
  {
    match ast
    case Square(list) => EvalListGivesNormal(list);
    case Curly(list) => EvalListGivesNormal(list);
    case Mal(list) => EvalListGivesNormal(list);
    case _ =>
  }

  lemma {:induction false} EvalListGivesNormal(xs: seq<Value>)
    requires EvalList(xs).Ok?
    ensures forall i :: 0 <= i < |xs| ==> Normal(EvalList(xs).value[i])
    decreases xs, 2
  {
    if xs != [] {
      EvalGivesNormal(xs[0]);
      EvalListGivesNormal(xs[1..]);
      var r := EvalList(xs).value;
      assert r == [Eval(xs[0]).value] + EvalList(xs[1..]).value;
      forall i | 0 <= i < |xs|
        ensures Normal(r[i])
      {
        if i > 0 {
          assert r[i] == EvalList(xs[1..]).value[i - 1];
        }
      }
    }
  }

  /** A normal value evaluates to itself. */
  lemma {:induction false} NormalIsFixed(v: Value)
    requires Normal(v)
    ensures Eval(v) == Ok(v)
    decreases v, 1
  {
    match v
    case Square(xs) => NormalListIsFixed(xs);
    case Curly(xs) => NormalListIsFixed(xs);
    case Mal(xs) => NormalListIsFixed(xs);
    case _ =>
  }

  lemma {:induction false} NormalListIsFixed(xs: seq<Value>)
    requires forall i :: 0 <= i < |xs| ==> Normal(xs[i])
    ensures EvalList(xs) == Ok(xs)
    decreases xs, 2
  {
    if xs != [] {
      NormalIsFixed(xs[0]);
      assert forall i :: 0 <= i < |xs[1..]| ==> xs[1..][i] == xs[i + 1];
      NormalListIsFixed(xs[1..]);
      assert [xs[0]] + xs[1..] == xs;
    }
  }

  /** Evaluation is idempotent: evaluating a result again gives it back. */
  lemma EvalIdempotent(ast: Value)
    requires Eval(ast).Ok?
    ensures Eval(Eval(ast).value) == Eval(ast)
  {
    EvalGivesNormal(ast);
    NormalIsFixed(Eval(ast).value);
  }

  /** Where this evaluator does not panic, the later step2_eval.rs evaluator
      computes the same value: that one only replaced panics by error
      values and let unbound symbols and non-call lists through. */
  lemma {:induction false} LaterEvaluatorAgrees(ast: Value)
    requires Eval(ast).Ok?
    ensures E.Eval(ast) == Eval(ast)
    decreases ast, 1
  {
    match ast
    case Round(list) => AgreesList(list);
    case Square(list) => AgreesList(list);
    case Curly(list) => AgreesList(list);
    case Mal(list) => AgreesList(list);
    case _ =>
  }

  lemma {:induction false} AgreesList(xs: seq<Value>)
    requires EvalList(xs).Ok?
    ensures E.EvalList(xs) == EvalList(xs)
    decreases xs, 2
  {
    if xs != [] {
      LaterEvaluatorAgrees(xs[0]);
      AgreesList(xs[1..]);
    }
  }
}
