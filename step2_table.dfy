/** The binary-operation table that step2_eval.rs and step2.rs both build
    in their `create_repl_env`: `+ - * /` on `i64`, each a plain function
    that panics on overflow and, for `/`, on a zero divisor. */
module Step2Table {
  import opened Common
  import opened Arithmetic

  /** The four functions `add`, `sub`, `mult` and `divide`. */
  datatype BinaryOp = Plus | Minus | Times | Over

  /** Calling one of them: `Panicked` where the function panics. */
  function ApplyOp(op: BinaryOp, a: Int64, b: Int64): (r: Result<Int64>)
    ensures r.Err? ==> r.error.Panicked?
    ensures op == Over && b == 0 ==> r == Err(Panicked("Division by 0"))
    ensures r.Ok? ==> r.value == match op
      case Plus => a + b
      case Minus => a - b
      case Times => a * b
      case Over => TruncDiv(a, b)
  {
    match op
    case Plus => CheckedAdd(a, b)
    case Minus => CheckedSub(a, b)
    case Times => CheckedMul(a, b)
    case Over => if b != 0 then CheckedDiv(a, b) else Err(Panicked("Division by 0"))
  }

  /** `create_repl_env`: the four names and nothing else. */
  const REPL_ENV: map<string, BinaryOp> := map["+" := Plus, "-" := Minus, "*" := Times, "/" := Over]

  /** The table binds exactly `+ - * /`, each to the operation of its name,
      and an operation fails only by panicking: on overflow, on `i64::MIN
      / -1` and on a zero divisor. */
  lemma TableContents(a: Int64, b: Int64)
    ensures REPL_ENV.Keys == {"+", "-", "*", "/"}
    ensures ApplyOp(REPL_ENV["+"], a, b).Ok? <==> InI64(a + b)
    ensures ApplyOp(REPL_ENV["-"], a, b).Ok? <==> InI64(a - b)
    ensures ApplyOp(REPL_ENV["*"], a, b).Ok? <==> InI64(a * b)
    ensures ApplyOp(REPL_ENV["/"], a, b).Ok? <==> b != 0 && !(a == I64_MIN && b == -1)
  {
    if b != 0 {
      DivOverflowOnlyMinByMinusOne(a, b);
    }
  }
}
