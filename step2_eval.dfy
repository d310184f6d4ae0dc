/** The arithmetic-only evaluator of step2_eval.rs: symbols evaluate to
    themselves, a list whose evaluated head is a name in the table is a
    call, and any other list is returned with its elements evaluated.
    Argument errors are error values; the table's functions can panic. */
module Step2Eval {
  import opened Common
  import opened Values
  import opened Step2Table

  /** `eval`. */
  function Eval(ast: Value): (r: Result<Value>)
    ensures r.Ok? ==> SameShape(ast, r.value) || (ast.Round? && r.value.Number?)
    decreases ast, 1
  {
    match ast
    case Round(list) =>
      if list == [] then Ok(ast)
      else
        var evalList :- EvalList(list);
        var name := evalList[0];
        if name.Symbol? && name.text in REPL_ENV then EvalFunctionCall(REPL_ENV[name.text], evalList[1..])
        else Ok(Round(evalList))
    case _ => EvalAst(ast)
  }

  /** `eval_ast`. */
  function EvalAst(ast: Value): (r: Result<Value>)
    ensures r.Ok? ==> SameShape(ast, r.value)
    ensures !(ast.Round? || ast.Square? || ast.Curly? || ast.Mal?) ==> r == Ok(ast)
    decreases ast, 0
  {
    match ast
    case Symbol(s) => Ok(Symbol(s))
    case Round(list) => var xs :- EvalList(list); Ok(Round(xs))
    case Square(list) => var xs :- EvalList(list); Ok(Square(xs))
    case Curly(list) => var xs :- EvalList(list); Ok(Curly(xs))
    case Mal(list) => var xs :- EvalList(list); Ok(Mal(xs))
    case _ => Ok(ast)
  }

  /** `list.iter().map(|x| eval(x, env)).collect()`. */
  function EvalList(xs: seq<Value>): (r: Result<seq<Value>>)
    ensures r.Ok? ==> |r.value| == |xs|
    decreases xs, 2
  {
    if xs == [] then Ok([])
    else
      var first :- Eval(xs[0]);
      var rest :- EvalList(xs[1..]);
      Ok([first] + rest)
  }

  /** `eval_function_call`. */
  function EvalFunctionCall(op: BinaryOp, args: seq<Value>): (r: Result<Value>)
    ensures |args| != 2 ==> r == Err(Raised("Expected exactly two arguments for binary function"))
    ensures |args| == 2 && !(args[0].Number? && args[1].Number?) ==> r == Err(Raised("Expected number arguments"))
    ensures r.Ok? ==> |args| == 2 && args[0].Number? && args[1].Number?
    ensures |args| == 2 && args[0].Number? && args[1].Number? ==>
      var o := ApplyOp(op, args[0].n, args[1].n);
      (o.Ok? ==> r == Ok(Number(o.value))) && (o.Err? ==> r == Err(o.error))
  {
    if |args| != 2 then Err(Raised("Expected exactly two arguments for binary function"))
    else if args[0].Number? && args[1].Number? then
      var n :- ApplyOp(op, args[0].n, args[1].n);
      Ok(Number(n))
    else Err(Raised("Expected number arguments"))
  }

  /** `eval_all`. */
  function EvalAll(input: seq<Value>): (r: Result<seq<Value>>)
    ensures r.Ok? ==> |r.value| == |input|
  {
    EvalList(input)
  }

  /** A value evaluation leaves as it is: a list whose head is no name of
      the table, holding only such values, or a non-list. */
  predicate Normal(v: Value)
    decreases v
  {
    match v
    case Round(xs) =>
      (xs == [] || !(xs[0].Symbol? && xs[0].text in REPL_ENV))
      && forall i :: 0 <= i < |xs| ==> Normal(xs[i])
    case Square(xs) => forall i :: 0 <= i < |xs| ==> Normal(xs[i])
    case Curly(xs) => forall i :: 0 <= i < |xs| ==> Normal(xs[i])
    case Mal(xs) => forall i :: 0 <= i < |xs| ==> Normal(xs[i])
    case _ => true
  }

  /** Every value evaluation produces is normal. */
  lemma {:induction false} EvalGivesNormal(ast: Value)
    requires Eval(ast).Ok?
    ensures Normal(Eval(ast).value)
    decreases ast, 1
  {
    match ast
    case Round(list) =>
      if list != [] {
        EvalListGivesNormal(list);
      }
    case Square(list) => EvalListGivesNormal(list);
    case Curly(list) => EvalListGivesNormal(list);
    case Mal(list) => EvalListGivesNormal(list);
    case _ =>
  }

  lemma {:induction false} EvalListGivesNormal(xs: seq<Value>)
    requires EvalList(xs).Ok?
    ensures forall i :: 0 <= i < |xs| ==> Normal(EvalList(xs).value[i])
    decreases xs, 2
  {
    if xs != [] {
      EvalGivesNormal(xs[0]);
      EvalListGivesNormal(xs[1..]);
      var r := EvalList(xs).value;
      assert r == [Eval(xs[0]).value] + EvalList(xs[1..]).value;
      forall i | 0 <= i < |xs|
        ensures Normal(r[i])
      {
        if i > 0 {
          assert r[i] == EvalList(xs[1..]).value[i - 1];
        }
      }
    }
  }

  /** A normal value evaluates to itself. */
  lemma {:induction false} NormalIsFixed(v: Value)
    requires Normal(v)
    ensures Eval(v) == Ok(v)
    decreases v, 1
  {
    match v
    case Round(xs) => NormalListIsFixed(xs);
    case Square(xs) => NormalListIsFixed(xs);
    case Curly(xs) => NormalListIsFixed(xs);
    case Mal(xs) => NormalListIsFixed(xs);
    case _ =>
  }

  lemma {:induction false} NormalListIsFixed(xs: seq<Value>)
    requires forall i :: 0 <= i < |xs| ==> Normal(xs[i])
    ensures EvalList(xs) == Ok(xs)
    decreases xs, 2
  {
    if xs != [] {
      NormalIsFixed(xs[0]);
      assert forall i :: 0 <= i < |xs[1..]| ==> xs[1..][i] == xs[i + 1];
      NormalListIsFixed(xs[1..]);
      assert [xs[0]] + xs[1..] == xs;
    }
  }

  /** Evaluation is idempotent: evaluating a result again gives it back. */
  lemma EvalIdempotent(ast: Value)
    requires Eval(ast).Ok?
    ensures Eval(Eval(ast).value) == Eval(ast)
  {
    EvalGivesNormal(ast);
    NormalIsFixed(Eval(ast).value);
  }

  /** A symbol evaluates to itself whether or not the table binds it. */
  lemma SymbolsEvaluateToThemselves(s: string)
    ensures Eval(Symbol(s)) == Ok(Symbol(s))
  {
  }

  /** In a non-empty list every element is evaluated first; the list is a
      call exactly when the evaluated head names a table entry, and
      otherwise comes back as the list of evaluated elements. */
  lemma ListEvaluation(list: seq<Value>)
    requires list != [] && EvalList(list).Ok?
    ensures var ev := EvalList(list).value;
      var head := ev[0];
      && (head.Symbol? && head.text in REPL_ENV ==>
            Eval(Round(list)) == EvalFunctionCall(REPL_ENV[head.text], ev[1..]))
      && (!(head.Symbol? && head.text in REPL_ENV) ==> Eval(Round(list)) == Ok(Round(ev)))
  {
  }

  /** `(+ 1 2)`-shaped calls: two number arguments give the operation's
      value, or its panic. */
  lemma CallOfTwoNumbers(name: string, a: Int64, b: Int64)
    requires name in REPL_ENV
    ensures var r := Eval(Round([Symbol(name), Number(a), Number(b)]));
      var op := ApplyOp(REPL_ENV[name], a, b);
      (op.Ok? ==> r == Ok(Number(op.value))) && (op.Err? ==> r == Err(op.error))
  {
    EvalListCons(Number(b), []);
    assert [Number(b)] + [] == [Number(b)];
    EvalListCons(Number(a), [Number(b)]);
    EvalListCons(Symbol(name), [Number(a), Number(b)]);
    var list := [Symbol(name), Number(a), Number(b)];
    assert [Symbol(name)] + [Number(a), Number(b)] == list;
    assert list[1..] == [Number(a), Number(b)];
  }

  /** Evaluating a list evaluates its head and then its tail. */
  lemma EvalListCons(x: Value, xs: seq<Value>)
    requires Eval(x).Ok? && EvalList(xs).Ok?
    ensures EvalList([x] + xs) == Ok([Eval(x).value] + EvalList(xs).value)
  {
    assert ([x] + xs)[0] == x;
    assert ([x] + xs)[1..] == xs;
  }

  /** The element-wise lists keep their flavour. */
  lemma FlavourKept(xs: seq<Value>)
    requires EvalList(xs).Ok?
    ensures Eval(Square(xs)) == Ok(Square(EvalList(xs).value))
    ensures Eval(Curly(xs)) == Ok(Curly(EvalList(xs).value))
    ensures Eval(Mal(xs)) == Ok(Mal(EvalList(xs).value))
  {
  }
}
