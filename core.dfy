/** The builtin functions of core.rs and the table `create_repl_env`
    registers them under. The special forms of core.rs call `eval`, so they
    live with it in module Semantics. */
module Core {
  import opened Common
  import opened Values
  import opened Arithmetic
  import opened Environment
  import Printer
  import Reader

  /** `validate_and_extract`: exactly two arguments, both numbers. */
  function ValidateAndExtract(args: seq<Value>, funcName: string): (r: Result<(Int64, Int64)>)
    ensures r.Ok? <==> |args| == 2 && args[0].Number? && args[1].Number?
    ensures r.Ok? ==> r.value == (args[0].n, args[1].n)
    ensures |args| != 2 ==> r == Err(Raised("Expected exactly two arguments for " + funcName + " function"))
    ensures |args| == 2 && !(args[0].Number? && args[1].Number?) ==> r == Err(Raised("Expected number arguments"))
  {
    if |args| != 2 then Err(Raised("Expected exactly two arguments for " + funcName + " function"))
    else if args[0].Number? && args[1].Number? then Ok((args[0].n, args[1].n))
    else Err(Raised("Expected number arguments"))
  }

  /** Two number arguments: the shape every arithmetic builtin accepts. */
  predicate TwoNumbers(args: seq<Value>) {
    |args| == 2 && args[0].Number? && args[1].Number?
  }

  /** `add`. */
  function Add(args: seq<Value>): (r: Result<Value>)
    ensures !TwoNumbers(args) ==> r == ValidateAndExtract(args, "add").PropagateFailure()
    ensures TwoNumbers(args) ==> (r.Ok? <==> InI64(args[0].n + args[1].n))
    ensures TwoNumbers(args) && !InI64(args[0].n + args[1].n) ==>
      r == Err(Panicked("attempt to add with overflow"))
    ensures r.Ok? ==> r.value == Number(args[0].n + args[1].n)
  {
    var ab :- ValidateAndExtract(args, "add");
    var n :- CheckedAdd(ab.0, ab.1);
    Ok(Number(n))
  }

  /** `sub`. */
  function Sub(args: seq<Value>): (r: Result<Value>)
    ensures !TwoNumbers(args) ==> r == ValidateAndExtract(args, "subtract").PropagateFailure()
    ensures TwoNumbers(args) ==> (r.Ok? <==> InI64(args[0].n - args[1].n))
    ensures TwoNumbers(args) && !InI64(args[0].n - args[1].n) ==>
      r == Err(Panicked("attempt to subtract with overflow"))
    ensures r.Ok? ==> r.value == Number(args[0].n - args[1].n)
  {
    var ab :- ValidateAndExtract(args, "subtract");
    var n :- CheckedSub(ab.0, ab.1);
    Ok(Number(n))
  }

  /** `mult`. */
  function Mult(args: seq<Value>): (r: Result<Value>)
    ensures !TwoNumbers(args) ==> r == ValidateAndExtract(args, "multiply").PropagateFailure()
    ensures TwoNumbers(args) ==> (r.Ok? <==> InI64(args[0].n * args[1].n))
    ensures TwoNumbers(args) && !InI64(args[0].n * args[1].n) ==>
      r == Err(Panicked("attempt to multiply with overflow"))
    ensures r.Ok? ==> r.value == Number(args[0].n * args[1].n)
  {
    var ab :- ValidateAndExtract(args, "multiply");
    var n :- CheckedMul(ab.0, ab.1);
    Ok(Number(n))
  }

  /** `divide`: a zero divisor is an error value, not a panic. */
  function Divide(args: seq<Value>): (r: Result<Value>)
    ensures !TwoNumbers(args) ==> r == ValidateAndExtract(args, "divide").PropagateFailure()
    ensures TwoNumbers(args) && args[1].n == 0 ==> r == Err(Raised("Division by 0"))
    ensures TwoNumbers(args) && args[1].n != 0 ==>
      (r.Ok? <==> !(args[0].n == I64_MIN && args[1].n == -1))
    ensures TwoNumbers(args) && args[0].n == I64_MIN && args[1].n == -1 ==>
      r == Err(Panicked("attempt to divide with overflow"))
    ensures r.Ok? ==> args[1].n != 0 && r.value == Number(TruncDiv(args[0].n, args[1].n))
  {
    var ab :- ValidateAndExtract(args, "divide");
    if ab.1 != 0 then
      DivOverflowOnlyMinByMinusOne(ab.0, ab.1);
      var n :- CheckedDiv(ab.0, ab.1);
      Ok(Number(n))
    else
      Err(Raised("Division by 0"))
  }

  /** Subtraction undoes addition. */
  lemma SubUndoesAdd(a: Int64, b: Int64)
    requires Add([Number(a), Number(b)]).Ok?
    ensures var c := Add([Number(a), Number(b)]).value;
      Sub([c, Number(b)]) == Ok(Number(a))
  {
  }

  lemma MulMagnitude(a: int, b: int)
    ensures Abs(a * b) == Abs(a) * Abs(b)
  {
    NegMul(a, b);
    NegMul(-a, b);
  }

  lemma DivMulCancel(A: nat, B: nat)
    requires B > 0
    ensures (A * B) / B == A
  {
    MagnitudeDivision(A * B, B);
    var q := (A * B) / B;
    var r := (A * B) % B;
    assert (A - q) * B == r by {
      assert A * B - q * B == r;
    }
    if A > q {
      MulAtLeast(A - q, B);
    } else if A < q {
      NegMul(q - A, B);
      MulAtLeast(q - A, B);
    }
  }

  /** Division undoes a multiplication that did not overflow. */
  lemma DivideUndoesMult(a: Int64, b: Int64)
    requires b != 0 && Mult([Number(a), Number(b)]).Ok?
    ensures var c := Mult([Number(a), Number(b)]).value;
      Divide([c, Number(b)]) == Ok(Number(a))
  {
    MulMagnitude(a, b);
    DivMulCancel(Abs(a), Abs(b));
    NegMul(a, b);
    assert TruncDiv(a * b, b) == a;
  }

  /** `+` and `*` do not depend on the order of their arguments. */
  lemma AddMultCommute(x: Value, y: Value)
    requires x.Number? && y.Number?
    ensures Add([x, y]) == Add([y, x])
    ensures Mult([x, y]) == Mult([y, x])
  {
    var a, b := x.n, y.n;
    assert ValidateAndExtract([x, y], "add") == Ok((a, b));
    assert ValidateAndExtract([y, x], "add") == Ok((b, a));
    assert CheckedAdd(a, b) == CheckedAdd(b, a);
    assert ValidateAndExtract([x, y], "multiply") == Ok((a, b));
    assert ValidateAndExtract([y, x], "multiply") == Ok((b, a));
    assert (a as int) * (b as int) == (b as int) * (a as int);
    assert CheckedMul(a, b) == CheckedMul(b, a);
  }

  /** `comparison_operator`: the relation named by `op` on two numbers. */
  function ComparisonOperator(op: string, args: seq<Value>): (r: Result<Value>)
    ensures |args| != 2 ==> r == Err(Raised(op + " requires exactly two arguments"))
    ensures |args| == 2 && !TwoNumbers(args) ==> r == Err(Raised("Arguments must be numbers"))
    ensures TwoNumbers(args) && op !in ["<", "<=", ">", ">="] ==> r == Err(Raised("Unsupported operator: " + op))
    ensures TwoNumbers(args) && op in ["<", "<=", ">", ">="] ==> r.Ok? && r.value.Bool?
    ensures r.Ok? ==> var a, b := args[0].n, args[1].n;
      r.value.Bool? &&
      (r.value.b <==> ((op == "<" && a < b) || (op == "<=" && a <= b)
                   || (op == ">" && a > b) || (op == ">=" && a >= b)))
  {
    if |args| != 2 then Err(Raised(op + " requires exactly two arguments"))
    else if !(args[0].Number? && args[1].Number?) then Err(Raised("Arguments must be numbers"))
    else
      var a, b := args[0].n, args[1].n;
      if op == "<" then Ok(Bool(a < b))
      else if op == "<=" then Ok(Bool(a <= b))
      else if op == ">" then Ok(Bool(a > b))
      else if op == ">=" then Ok(Bool(a >= b))
      else Err(Raised("Unsupported operator: " + op))
  }

  /** The four wrappers `create_repl_env` defines around `comparison_operator`. */
  function LessThan(args: seq<Value>): (r: Result<Value>)
    ensures TwoNumbers(args) ==> r == Ok(Bool(args[0].n < args[1].n))
    ensures |args| != 2 ==> r == Err(Raised("<" + " requires exactly two arguments"))
    ensures |args| == 2 && !TwoNumbers(args) ==> r == Err(Raised("Arguments must be numbers"))
  {
    ComparisonOperator("<", args)
  }

  function LessThanOrEqual(args: seq<Value>): (r: Result<Value>)
    ensures TwoNumbers(args) ==> r == Ok(Bool(args[0].n <= args[1].n))
    ensures |args| != 2 ==> r == Err(Raised("<=" + " requires exactly two arguments"))
    ensures |args| == 2 && !TwoNumbers(args) ==> r == Err(Raised("Arguments must be numbers"))
  {
    ComparisonOperator("<=", args)
  }

  function GreaterThan(args: seq<Value>): (r: Result<Value>)
    ensures TwoNumbers(args) ==> r == Ok(Bool(args[0].n > args[1].n))
    ensures |args| != 2 ==> r == Err(Raised(">" + " requires exactly two arguments"))
    ensures |args| == 2 && !TwoNumbers(args) ==> r == Err(Raised("Arguments must be numbers"))
  {
    ComparisonOperator(">", args)
  }

  function GreaterThanOrEqual(args: seq<Value>): (r: Result<Value>)
    ensures TwoNumbers(args) ==> r == Ok(Bool(args[0].n >= args[1].n))
    ensures |args| != 2 ==> r == Err(Raised(">=" + " requires exactly two arguments"))
    ensures |args| == 2 && !TwoNumbers(args) ==> r == Err(Raised("Arguments must be numbers"))
  {
    ComparisonOperator(">=", args)
  }

  /** On two numbers the comparisons agree with one another: `<` is `>`
      with the arguments swapped, and `<=` is the negation of `>`. */
  lemma ComparisonsAgree(x: Value, y: Value)
    requires x.Number? && y.Number?
    ensures LessThan([x, y]).Ok? && GreaterThan([y, x]).Ok?
    ensures LessThan([x, y]) == GreaterThan([y, x])
    ensures LessThanOrEqual([x, y]) == GreaterThanOrEqual([y, x])
    ensures LessThanOrEqual([x, y]).value.b == !GreaterThan([x, y]).value.b
  {
  }

  /** `list`. */
  function List(args: seq<Value>): (r: Result<Value>)
    ensures r.Ok? && r.value.Round? && r.value.items == args
  {
    Ok(Round(args))
  }

  /** `list?`: true only for Round; a Square vector is not a list. */
  function ListQuestion(args: seq<Value>): (r: Result<Value>)
    ensures |args| != 1 ==> r == Err(Raised("list? requires at least one argument"))
    ensures |args| == 1 ==> r == Ok(Bool(args[0].Round?))
  {
    if |args| != 1 then Err(Raised("list? requires at least one argument"))
    else Ok(Bool(args[0].Round?))
  }

  /** Whatever `list` builds, `list?` recognises, and `count` counts. */
  lemma ListThenListQuestion(args: seq<Value>)
    requires |args| <= I64_MAX
    ensures ListQuestion([List(args).value]) == Ok(Bool(true))
    ensures Count([List(args).value]) == Ok(Number(|args|))
  {
    AsI64Small(|args|);
  }

  /** `empty?`: true exactly for an empty Round, Square or String. */
  function EmptyQuestion(args: seq<Value>): (r: Result<Value>)
    ensures |args| != 1 ==> r == Err(Raised("empty? requires exactly one argument"))
    ensures |args| == 1 ==> r.Ok? && r.value.Bool?
    ensures r.Ok? ==> (r.value.b <==>
      ((args[0].Round? || args[0].Square?) && args[0].items == []) || (args[0].String? && args[0].text == []))
  {
    if |args| != 1 then Err(Raised("empty? requires exactly one argument"))
    else match args[0]
      case Round(list) => Ok(Bool(list == []))
      case Square(list) => Ok(Bool(list == []))
      case String(s) => Ok(Bool(s == []))
      case _ => Ok(Bool(false))
  }

  /** Bytes of one character in UTF-8. */
  function Utf8Width(c: char): nat {
    var v := c as int;
    if v < 0x80 then 1 else if v < 0x800 then 2 else if v < 0x10000 then 3 else 4
  }

  /** `String::len`: the length of the UTF-8 encoding. */
  function Utf8Len(s: string): nat
    decreases |s|
  {
    if s == [] then 0 else Utf8Width(s[0]) + Utf8Len(s[1..])
  }

  /** `n as i64` for a `usize` `n`: two's-complement truncation. */
  function AsI64(n: nat): Int64 {
    var m := n % 0x1_0000_0000_0000_0000;
    if m <= I64_MAX then m else m - 0x1_0000_0000_0000_0000
  }

  lemma AsI64Small(n: nat)
    requires n <= I64_MAX
    ensures AsI64(n) == n
  {
  }

  /** `count`: the length of a Round, Square or String (in bytes), 0 for
      nil, and nil for anything else. */
  function Count(args: seq<Value>): (r: Result<Value>)
    ensures |args| != 1 ==> r == Err(Raised("Count requires exactly one argument"))
    ensures |args| == 1 ==> r.Ok?
    ensures r.Ok? && (args[0].Round? || args[0].Square?) ==> r.value == Number(AsI64(|args[0].items|))
    ensures r.Ok? && args[0].String? ==> r.value == Number(AsI64(Utf8Len(args[0].text)))
    ensures r.Ok? && args[0].Nil? ==> r.value == Number(0)
    ensures r.Ok? && !(args[0].Round? || args[0].Square? || args[0].String? || args[0].Nil?) ==> r.value == Nil
  {
    if |args| != 1 then Err(Raised("Count requires exactly one argument"))
    else match args[0]
      case Round(list) => Ok(Number(AsI64(|list|)))
      case Square(list) => Ok(Number(AsI64(|list|)))
      case String(s) => Ok(Number(AsI64(Utf8Len(s))))
      case Nil => Ok(Number(0))
      case _ => Ok(Nil)
  }

  /** A string of `n` characters takes between `n` and `4n` bytes, exactly
      `n` when every character is ASCII. */
  lemma {:induction false} Utf8LenBounds(s: string)
    ensures |s| <= Utf8Len(s) <= 4 * |s|
    ensures (forall i :: 0 <= i < |s| ==> s[i] as int < 0x80) ==> Utf8Len(s) == |s|
    decreases |s|
  {
    if s != [] {
      Utf8LenBounds(s[1..]);
    }
  }

  /** `empty?` and `count` agree on the collections both measure: empty
      exactly when the count is 0 (for any length a host value can have). */
  lemma EmptyIffCountZero(v: Value)
    requires v.Round? || v.Square? || v.String?
    requires (v.Round? || v.Square?) ==> |v.items| <= I64_MAX
    requires v.String? ==> 4 * |v.text| <= I64_MAX
    ensures EmptyQuestion([v]) == Ok(Bool(true)) <==> Count([v]) == Ok(Number(0))
  {
    if v.String? {
      Utf8LenBounds(v.text);
      AsI64Small(Utf8Len(v.text));
    } else {
      AsI64Small(|v.items|);
    }
  }

  /** `equals`: the structural equality of module Values. */
  function Equals(args: seq<Value>): (r: Result<Value>)
    ensures |args| != 2 ==> r == Err(Raised("= requires exactly two argument"))
    ensures |args| == 2 ==> r == Ok(Bool(ValueEq(args[0], args[1])))
  {
    if |args| != 2 then Err(Raised("= requires exactly two argument"))
    else Ok(Bool(ValueEq(args[0], args[1])))
  }

  /** `=` is symmetric, and `(= x x)` is true exactly for comparable `x`. */
  lemma EqualsSymmetricReflexive(x: Value, y: Value)
    ensures Equals([x, y]) == Equals([y, x])
    ensures Equals([x, x]) == Ok(Bool(Comparable(x)))
  {
    EqSymmetric(x, y);
    EqReflexiveIff(x);
  }

  /** The rendering `pr-str` returns and `prn` prints. */
  function ReadableLine(args: seq<Value>): string {
    Printer.Join(Printer.Renderings(args, true), " ")
  }

  /** The rendering `println` prints. */
  function DisplayLine(args: seq<Value>): string {
    Printer.Join(Printer.Renderings(args, false), " ")
  }

  /** `prn`: the result together with the line written to standard output. */
  function Prn(args: seq<Value>): (r: (Result<Value>, string))
    ensures r.0 == Ok(Nil)
    ensures PrStrFn(args) == Ok(String(r.1))
  {
    (Ok(Nil), ReadableLine(args))
  }

  /** `pr-str`: the readable renderings joined by spaces. */
  function PrStrFn(args: seq<Value>): (r: Result<Value>)
    ensures r.Ok? && r.value.String?
    ensures |args| == 1 ==> r.value.text == Printer.PrStr(args[0], true)
  {
    Ok(String(ReadableLine(args)))
  }

  /** `str`: the display renderings concatenated. */
  function StrFn(args: seq<Value>): (r: Result<Value>)
    ensures r.Ok? && r.value.String?
    ensures |args| == 1 ==> r.value.text == Printer.PrStr(args[0], false)
  {
    Ok(String(Printer.Join(Printer.Renderings(args, false), "")))
  }

  /** `println`: the result together with the line written to standard output. */
  function Println(args: seq<Value>): (r: (Result<Value>, string))
    ensures r.0 == Ok(Nil)
    ensures |args| == 1 ==> r.1 == Printer.PrStr(args[0], false)
  {
    (Ok(Nil), DisplayLine(args))
  }

  /** `str` returns a String argument's text as it is, while `pr-str`
      returns a token the reader turns back into the same String. */
  lemma StrAndPrStrOfString(s: string)
    ensures StrFn([String(s)]) == Ok(String(s))
    ensures var t := PrStrFn([String(s)]).value.text;
      |t| >= 2 && Reader.StringToken(t) == String(s)
  {
    Printer.ReadablyPrintedStringReadsBack(s);
  }

  /** `pr-str` puts one space between readable renderings, and renders no
      arguments as "". */
  lemma PrStrSeparators(xs: seq<Value>, y: Value)
    requires xs != []
    ensures PrStrFn([]) == Ok(String(""))
    ensures PrStrFn(xs + [y]).value.text == PrStrFn(xs).value.text + " " + Printer.PrStr(y, true)
  {
    Printer.RenderingsAppend(xs, y, true);
    Printer.JoinAppend(Printer.Renderings(xs, true), Printer.PrStr(y, true), " ");
  }

  /** `str` concatenates display renderings with nothing between them, and
      renders no arguments as "". */
  lemma StrSeparators(xs: seq<Value>, y: Value)
    requires xs != []
    ensures StrFn([]) == Ok(String(""))
    ensures StrFn(xs + [y]).value.text == StrFn(xs).value.text + Printer.PrStr(y, false)
  {
    Printer.RenderingsAppend(xs, y, false);
    Printer.JoinAppend(Printer.Renderings(xs, false), Printer.PrStr(y, false), "");
  }

  /** `println` prints one space between display renderings, and an empty
      line for no arguments. */
  lemma PrintlnSeparators(xs: seq<Value>, y: Value)
    requires xs != []
    ensures Println([]).1 == ""
    ensures Println(xs + [y]).1 == Println(xs).1 + " " + Printer.PrStr(y, false)
  {
    Printer.RenderingsAppend(xs, y, false);
    Printer.JoinAppend(Printer.Renderings(xs, false), Printer.PrStr(y, false), " ");
  }

  /** Calling a builtin by its tag. `prn` and `println` give only their
      result; their output line is `Prn(args).1` and `Println(args).1`. */
  function ApplyBuiltin(f: BuiltinFn, args: seq<Value>): (r: Result<Value>)
    ensures f == BuiltinFn.List ==> r == Ok(Round(args))
    ensures f.Prn? || f.Println? ==> r == Ok(Nil)
  {
    match f
    case Add => Add(args)
    case Sub => Sub(args)
    case Mult => Mult(args)
    case Divide => Divide(args)
    case List => List(args)
    case ListQuestion => ListQuestion(args)
    case EmptyQuestion => EmptyQuestion(args)
    case Count => Count(args)
    case Equals => Equals(args)
    case Prn => Prn(args).0
    case PrStr => PrStrFn(args)
    case Str => StrFn(args)
    case Println => Println(args).0
    case LessThan => LessThan(args)
    case LessThanOrEqual => LessThanOrEqual(args)
    case GreaterThan => GreaterThan(args)
    case GreaterThanOrEqual => GreaterThanOrEqual(args)
  }

  /** The `builtins` array of `create_repl_env`, in registration order. */
  const BUILTINS: seq<(string, BuiltinFn)> := [
    ("+", BuiltinFn.Add), ("-", BuiltinFn.Sub), ("*", BuiltinFn.Mult), ("/", BuiltinFn.Divide),
    ("list", BuiltinFn.List), ("list?", BuiltinFn.ListQuestion),
    ("empty?", BuiltinFn.EmptyQuestion), ("count", BuiltinFn.Count), ("=", BuiltinFn.Equals),
    ("prn", BuiltinFn.Prn), ("pr-str", BuiltinFn.PrStr), ("str", BuiltinFn.Str),
    ("println", BuiltinFn.Println),
    ("<", BuiltinFn.LessThan), ("<=", BuiltinFn.LessThanOrEqual),
    (">", BuiltinFn.GreaterThan), (">=", BuiltinFn.GreaterThanOrEqual)
  ]

  /** The `special_forms` array of `create_repl_env`, in registration order. */
  const SPECIAL_FORMS: seq<(string, SpecialFn)> := [
    ("def!", DefForm), ("let*", LetForm), ("do", DoForm), ("fn*", FnForm), ("if", IfForm)
  ]

  /** The scope level after setting every entry of `entries` in order. */
  function TableLevel(entries: seq<(string, Value)>): (m: map<string, Value>)
    ensures m.Keys == set i | 0 <= i < |entries| :: entries[i].0
    decreases |entries|
  {
    if entries == [] then map[]
    else
      var last := entries[|entries| - 1];
      TableLevel(entries[..|entries| - 1])[last.0 := last.1]
  }

  function BuiltinEntries(): seq<(string, Value)> {
    seq(|BUILTINS|, i requires 0 <= i < |BUILTINS| => (BUILTINS[i].0, BuiltinFunction(Builtin(BUILTINS[i].1))))
  }

  function SpecialFormEntries(): seq<(string, Value)> {
    seq(|SPECIAL_FORMS|, i requires 0 <= i < |SPECIAL_FORMS| =>
      (SPECIAL_FORMS[i].0, BuiltinFunction(SpecialForm(SPECIAL_FORMS[i].1))))
  }

  /** The level of the REPL's root scope. */
  function ReplLevel(): map<string, Value> {
    TableLevel(BuiltinEntries() + SpecialFormEntries())
  }

  /** When no name occurs twice, every entry is found under its name. */
  lemma {:induction false} TableLevelLookup(entries: seq<(string, Value)>, i: nat)
    requires forall j, k :: 0 <= j < k < |entries| ==> entries[j].0 != entries[k].0
    requires i < |entries|
    ensures TableLevel(entries)[entries[i].0] == entries[i].1
    decreases |entries|
  {
    if i < |entries| - 1 {
      TableLevelLookup(entries[..|entries| - 1], i);
    }
  }

  /** No name is registered twice. */
  lemma ReplNamesDistinct()
    ensures var entries := BuiltinEntries() + SpecialFormEntries();
      forall j, k :: 0 <= j < k < |entries| ==> entries[j].0 != entries[k].0
  {
  }

  /** The root scope binds exactly the builtin and special-form names,
      each to its own tag. */
  lemma ReplLevelContents()
    ensures forall k :: k in ReplLevel() <==>
      (exists i :: 0 <= i < |BUILTINS| && BUILTINS[i].0 == k)
      || (exists i :: 0 <= i < |SPECIAL_FORMS| && SPECIAL_FORMS[i].0 == k)
    ensures forall i :: 0 <= i < |BUILTINS| ==>
      ReplLevel()[BUILTINS[i].0] == BuiltinFunction(Builtin(BUILTINS[i].1))
    ensures forall i :: 0 <= i < |SPECIAL_FORMS| ==>
      ReplLevel()[SPECIAL_FORMS[i].0] == BuiltinFunction(SpecialForm(SPECIAL_FORMS[i].1))
  {
    ReplLevelBuiltins();
    ReplLevelSpecialForms();
    ReplLevelNoOthers();
  }

  lemma ReplLevelBuiltins()
    ensures forall i :: 0 <= i < |BUILTINS| ==>
      BUILTINS[i].0 in ReplLevel() && ReplLevel()[BUILTINS[i].0] == BuiltinFunction(Builtin(BUILTINS[i].1))
  {
    var entries := BuiltinEntries() + SpecialFormEntries();
    ReplNamesDistinct();
    forall i | 0 <= i < |BUILTINS|
      ensures BUILTINS[i].0 in ReplLevel()
      ensures ReplLevel()[BUILTINS[i].0] == BuiltinFunction(Builtin(BUILTINS[i].1))
    {
      assert entries[i] == BuiltinEntries()[i];
      TableLevelLookup(entries, i);
    }
  }

  lemma ReplLevelSpecialForms()
    ensures forall i :: 0 <= i < |SPECIAL_FORMS| ==>
      SPECIAL_FORMS[i].0 in ReplLevel()
      && ReplLevel()[SPECIAL_FORMS[i].0] == BuiltinFunction(SpecialForm(SPECIAL_FORMS[i].1))
  {
    var entries := BuiltinEntries() + SpecialFormEntries();
    ReplNamesDistinct();
    forall i | 0 <= i < |SPECIAL_FORMS|
      ensures SPECIAL_FORMS[i].0 in ReplLevel()
      ensures ReplLevel()[SPECIAL_FORMS[i].0] == BuiltinFunction(SpecialForm(SPECIAL_FORMS[i].1))
    {
      assert entries[|BUILTINS| + i] == SpecialFormEntries()[i];
      TableLevelLookup(entries, |BUILTINS| + i);
    }
  }

  lemma ReplLevelNoOthers()
    ensures forall k :: k in ReplLevel() ==>
      (exists i :: 0 <= i < |BUILTINS| && BUILTINS[i].0 == k)
      || (exists i :: 0 <= i < |SPECIAL_FORMS| && SPECIAL_FORMS[i].0 == k)
  {
    var entries := BuiltinEntries() + SpecialFormEntries();
    forall k | k in ReplLevel()
      ensures (exists i :: 0 <= i < |BUILTINS| && BUILTINS[i].0 == k)
           || (exists i :: 0 <= i < |SPECIAL_FORMS| && SPECIAL_FORMS[i].0 == k)
    {
      var n :| 0 <= n < |entries| && entries[n].0 == k;
      if n < |BUILTINS| {
        assert BuiltinEntries()[n].0 == k;
      } else {
        assert SpecialFormEntries()[n - |BUILTINS|].0 == k;
      }
    }
  }

  /** One more `set` extends the level by the next entry. */
  lemma TableLevelStep(entries: seq<(string, Value)>, i: nat)
    requires i < |entries|
    ensures TableLevel(entries[..i + 1]) == TableLevel(entries[..i])[entries[i].0 := entries[i].1]
  {
    assert entries[..i + 1][..i] == entries[..i];
  }

  /** Setting entry `i` into the root scope that holds the entries before
      it gives the root scope holding the entries up to `i`. */
  lemma SetNextEntry(s0: Store, env: Env, entries: seq<(string, Value)>, i: nat)
    requires env.bindings == |s0| && i < |entries|
    ensures EnvSet(s0 + [Bindings(TableLevel(entries[..i]), None)], env, entries[i].0, entries[i].1)
         == s0 + [Bindings(TableLevel(entries[..i + 1]), None)]
  {
    TableLevelStep(entries, i);
  }

  /** `create_repl_env`: a fresh root scope, then two loops that `set` each
      builtin and each special form into it. */
  method CreateReplEnv(arena: Arena) returns (env: Env)
    modifies arena
    ensures env == Env(|old(arena.scopes)|)
    ensures arena.scopes == old(arena.scopes) + [Bindings(ReplLevel(), None)]
  {
    env := arena.NewEnv(None);
    var s0 := old(arena.scopes);
    var builtins := BuiltinEntries();
    var i := 0;
    while i < |BUILTINS|
      invariant 0 <= i <= |BUILTINS|
      invariant arena.scopes == s0 + [Bindings(TableLevel(builtins[..i]), None)]
    {
      var (name, func) := BUILTINS[i];
      SetNextEntry(s0, env, builtins, i);
      arena.Set(env, name, BuiltinFunction(Builtin(func)));
      i := i + 1;
    }
    var forms := SpecialFormEntries();
    var all := builtins + forms;
    assert all[..|BUILTINS|] == builtins;
    assert builtins[..i] == all[..|BUILTINS| + 0];
    var j := 0;
    while j < |SPECIAL_FORMS|
      invariant 0 <= j <= |SPECIAL_FORMS|
      invariant arena.scopes == s0 + [Bindings(TableLevel(all[..|BUILTINS| + j]), None)]
    {
      var (name, func) := SPECIAL_FORMS[j];
      assert all[|BUILTINS| + j] == forms[j];
      SetNextEntry(s0, env, all, |BUILTINS| + j);
      arena.Set(env, name, BuiltinFunction(SpecialForm(func)));
      j := j + 1;
    }
    assert all[..|BUILTINS| + j] == all;
  }
}
