/** The value model of the interpreter (`MalValue` in reader.rs and
    `Function` in env.rs) and the structural equality the source defines on
    both (`PartialEq for MalValue`, `PartialEq for Function`). The two types
    refer to each other, so they share this module. */
module Values {
  import opened Common

  /** Index of a scope in the scope arena (see module Environment). */
  type Handle = nat

  /** env.rs's `Env` wraps one shared handle to a scope; it never changes
      which scope it denotes, only that scope's contents change. */
  datatype Env = Env(bindings: Handle)

  /** The native primitives registered by `create_repl_env`. Rust `fn`
      values are modelled as tags, so address equality is tag equality. */
  datatype BuiltinFn =
    | Add | Sub | Mult | Divide
    | List | ListQuestion | EmptyQuestion | Count | Equals
    | Prn | PrStr | Str | Println
    | LessThan | LessThanOrEqual | GreaterThan | GreaterThanOrEqual

  /** The special forms registered by `create_repl_env`. */
  datatype SpecialFn = DefForm | LetForm | DoForm | FnForm | IfForm

  datatype Function =
    | Builtin(builtin: BuiltinFn)
    | SpecialForm(form: SpecialFn)
    | UserDefined(params: seq<string>, restParam: Option<string>, body: seq<Value>, env: Env)

  datatype Value =
    | String(text: string)
    | Symbol(text: string)
    | Number(n: Int64)
    | Bool(b: bool)
    | Nil
    | Round(items: seq<Value>)
    | Square(items: seq<Value>)
    | Curly(items: seq<Value>)
    | Mal(items: seq<Value>)
    | Comment(text: string)
    | NonSpecialSeq(text: string)
    | Atom(text: string)
    | BuiltinFunction(f: Function)
    | EOI

  /** `MalValue::eq`: Round and Square compare by contents in any
      combination; Mal, Comment and NonSpecialSeq equal nothing. */
  predicate ValueEq(a: Value, b: Value)
    ensures ValueEq(a, b) ==> Kind(a) == Kind(b)
    decreases a
  {
    match (a, b)
    case (String(s1), String(s2)) => s1 == s2
    case (Symbol(s1), Symbol(s2)) => s1 == s2
    case (Number(n1), Number(n2)) => n1 == n2
    case (Bool(b1), Bool(b2)) => b1 == b2
    case (Nil, Nil) => true
    case (Round(v1), Round(v2)) => ListEq(v1, v2)
    case (Square(v1), Square(v2)) => ListEq(v1, v2)
    case (Round(v1), Square(v2)) => ListEq(v1, v2)
    case (Square(v1), Round(v2)) => ListEq(v1, v2)
    case (Curly(v1), Curly(v2)) => ListEq(v1, v2)
    case (Atom(a1), Atom(a2)) => a1 == a2
    case (BuiltinFunction(f1), BuiltinFunction(f2)) => FunctionEq(f1, f2)
    case (EOI, EOI) => true
    case _ => false
  }

  /** `Vec<MalValue>` equality: same length, element-wise `ValueEq`. */
  predicate ListEq(xs: seq<Value>, ys: seq<Value>)
    ensures ListEq(xs, ys) ==> |xs| == |ys| && forall i :: 0 <= i < |xs| ==> Kind(xs[i]) == Kind(ys[i])
    decreases xs
  {
    |xs| == |ys| && forall i :: 0 <= i < |xs| ==> ValueEq(xs[i], ys[i])
  }

  /** `Function::eq`: primitives by identity; closures by parameters, rest
      parameter and body, ignoring the captured environment. */
  predicate FunctionEq(f: Function, g: Function)
    ensures FunctionEq(f, g) ==>
      (f.Builtin? && g.Builtin?) || (f.SpecialForm? && g.SpecialForm?) || (f.UserDefined? && g.UserDefined?)
    decreases f
  {
    match (f, g)
    case (Builtin(b1), Builtin(b2)) => b1 == b2
    case (SpecialForm(s1), SpecialForm(s2)) => s1 == s2
    case (UserDefined(p1, rp1, b1, _), UserDefined(p2, rp2, b2, _)) =>
      p1 == p2 && ListEq(b1, b2) && rp1 == rp2
    case _ => false
  }

  /** The variant of a value, with Round and Square as one list kind. */
  function Kind(v: Value): nat {
    match v
    case String(_) => 0
    case Symbol(_) => 1
    case Number(_) => 2
    case Bool(_) => 3
    case Nil => 4
    case Round(_) => 5
    case Square(_) => 5
    case Curly(_) => 6
    case Mal(_) => 7
    case Comment(_) => 8
    case NonSpecialSeq(_) => 9
    case Atom(_) => 10
    case BuiltinFunction(_) => 11
    case EOI => 12
  }

  /** `b` has the shape of `a`: a list of the same flavour and length, or
      else the very same value. */
  predicate SameShape(a: Value, b: Value) {
    match a
    case Round(xs) => b.Round? && |b.items| == |xs|
    case Square(xs) => b.Square? && |b.items| == |xs|
    case Curly(xs) => b.Curly? && |b.items| == |xs|
    case Mal(xs) => b.Mal? && |b.items| == |xs|
    case _ => b == a
  }

  /** A value in which equality can see no Mal, Comment or NonSpecialSeq. */
  predicate Comparable(v: Value)
    decreases v
  {
    match v
    case Mal(_) => false
    case Comment(_) => false
    case NonSpecialSeq(_) => false
    case Round(xs) => forall i :: 0 <= i < |xs| ==> Comparable(xs[i])
    case Square(xs) => forall i :: 0 <= i < |xs| ==> Comparable(xs[i])
    case Curly(xs) => forall i :: 0 <= i < |xs| ==> Comparable(xs[i])
    case BuiltinFunction(f) =>
      f.UserDefined? ==> forall i :: 0 <= i < |f.body| ==> Comparable(f.body[i])
    case _ => true
  }

  /** Primitives are equal exactly when they are the same primitive. */
  lemma PrimitiveEq(f: Function, g: Function)
    ensures f.Builtin? && g.Builtin? ==> (FunctionEq(f, g) <==> f == g)
    ensures f.SpecialForm? && g.SpecialForm? ==> (FunctionEq(f, g) <==> f == g)
  {
  }

  /** Round and Square are interchangeable for equality. */
  lemma RoundSquareInterchangeable(xs: seq<Value>, ys: seq<Value>)
    ensures ValueEq(Round(xs), Square(ys)) == ListEq(xs, ys)
    ensures ValueEq(Square(xs), Round(ys)) == ListEq(xs, ys)
    ensures ValueEq(Round(xs), Round(ys)) == ValueEq(Square(xs), Square(ys))
  {
  }

  /** Mal, Comment and NonSpecialSeq equal nothing, not even themselves. */
  lemma NeverEqual(a: Value, b: Value)
    requires a.Mal? || a.Comment? || a.NonSpecialSeq?
    ensures !ValueEq(a, b) && !ValueEq(b, a)
  {
  }

  /** Two closures differing only in their captured scope are equal exactly
      when the closures themselves are. */
  lemma ClosureEqIgnoresEnv(f: Function, g: Function, e1: Env, e2: Env)
    requires f.UserDefined? && g.UserDefined?
    ensures FunctionEq(f.(env := e1), g.(env := e2)) == FunctionEq(f, g)
    ensures ValueEq(BuiltinFunction(f.(env := e1)), BuiltinFunction(g.(env := e2)))
         == ValueEq(BuiltinFunction(f), BuiltinFunction(g))
  {
  }

  lemma {:induction false} EqSymmetric(a: Value, b: Value)
    ensures ValueEq(a, b) == ValueEq(b, a)
    decreases a
  {
    match a
    case Round(xs) =>
      if b.Round? || b.Square? { ListEqSymmetric(xs, b.items); }
    case Square(xs) =>
      if b.Round? || b.Square? { ListEqSymmetric(xs, b.items); }
    case Curly(xs) =>
      if b.Curly? { ListEqSymmetric(xs, b.items); }
    case BuiltinFunction(f) =>
      if b.BuiltinFunction? { FunctionEqSymmetric(f, b.f); }
    case _ =>
  }

  lemma {:induction false} ListEqSymmetric(xs: seq<Value>, ys: seq<Value>)
    ensures ListEq(xs, ys) == ListEq(ys, xs)
    decreases xs
  {
    if |xs| == |ys| {
      forall i | 0 <= i < |xs|
        ensures ValueEq(xs[i], ys[i]) == ValueEq(ys[i], xs[i])
      {
        EqSymmetric(xs[i], ys[i]);
      }
    }
  }

  lemma {:induction false} FunctionEqSymmetric(f: Function, g: Function)
    ensures FunctionEq(f, g) == FunctionEq(g, f)
    decreases f
  {
    if f.UserDefined? && g.UserDefined? {
      ListEqSymmetric(f.body, g.body);
    }
  }

  /** Equality is reflexive exactly on the comparable values. */
  lemma {:induction false} EqReflexiveIff(v: Value)
    ensures ValueEq(v, v) <==> Comparable(v)
    decreases v
  {
    match v
    case Round(xs) => ListEqReflexiveIff(xs);
    case Square(xs) => ListEqReflexiveIff(xs);
    case Curly(xs) => ListEqReflexiveIff(xs);
    case BuiltinFunction(f) =>
      if f.UserDefined? { ListEqReflexiveIff(f.body); }
    case _ =>
  }

  lemma {:induction false} ListEqReflexiveIff(xs: seq<Value>)
    ensures ListEq(xs, xs) <==> forall i :: 0 <= i < |xs| ==> Comparable(xs[i])
    decreases xs
  {
    forall i | 0 <= i < |xs|
      ensures ValueEq(xs[i], xs[i]) <==> Comparable(xs[i])
    {
      EqReflexiveIff(xs[i]);
    }
  }

  lemma {:induction false} EqTransitive(a: Value, b: Value, c: Value)
    requires ValueEq(a, b) && ValueEq(b, c)
    ensures ValueEq(a, c)
    decreases a
  {
    match a
    case Round(xs) => ListEqTransitive(xs, b.items, c.items);
    case Square(xs) => ListEqTransitive(xs, b.items, c.items);
    case Curly(xs) => ListEqTransitive(xs, b.items, c.items);
    case BuiltinFunction(f) =>
      if f.UserDefined? { ListEqTransitive(f.body, b.f.body, c.f.body); }
    case _ =>
  }

  lemma {:induction false} ListEqTransitive(xs: seq<Value>, ys: seq<Value>, zs: seq<Value>)
    requires ListEq(xs, ys) && ListEq(ys, zs)
    ensures ListEq(xs, zs)
    decreases xs
  {
    forall i | 0 <= i < |xs|
      ensures ValueEq(xs[i], zs[i])
    {
      EqTransitive(xs[i], ys[i], zs[i]);
    }
  }
}
