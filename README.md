# rust-dotshix Make-a-Lisp core in Dafny

This project models the evaluation core of rust-dotshix. rust-dotshix is a
"Make-a-Lisp" (MAL) interpreter written in Rust. The model covers:

- **Values and equality** (`reader.rs`, `env.rs`). `Values.Value` is
  `MalValue` and `Values.Function` is `Function`. `ValueEq`, `ListEq` and
  `FunctionEq` are the two hand-written `PartialEq` implementations.
  Round and Square lists compare equal to each other. `Mal`, `Comment` and
  `NonSpecialSeq` equal nothing, not even themselves. Closures are compared
  without their captured environment. Rust `fn` values are tags
  (`BuiltinFn`, `SpecialFn`), so address equality is tag equality.
- **String escapes.** `Reader.Unescape` and its loop
  `Reader.UnescapeString` are `unescape_string`. `Printer.Escape` and its
  loop `Printer.EscapeString` are `escape_string`. `Printer.PrStr` is
  `pr_str`.
- **Environments** (`env.rs`). Scopes shared through `Rc<RefCell<Bindings>>`
  become an arena:
  - `Environment.Store` is a sequence of `Bindings`, each a level map plus
    an optional parent handle.
  - An `Env` holds one handle.
  - The class `Environment.Arena` holds the store and updates it in place,
    as `RefCell::borrow_mut` does.
  - A `def!` into a captured scope therefore stays visible to every closure
    and child scope that shares it.
- **Builtins** (`core.rs`). `Core` holds the arithmetic, the comparisons,
  `list`, `list?`, `empty?`, `count`, `=`, `prn`, `pr-str`, `str` and
  `println`. It also holds the REPL table and the imperative
  `create_repl_env` (`Core.CreateReplEnv`).
- **Evaluator and special forms** (`step4_if_fn_do.rs`, `core.rs`). They
  come in two layers:
  - `Semantics` holds state-passing functions. Each returns the result and
    the arena afterwards.
  - `Interpreter` holds methods over an `Arena`. They loop where the source
    loops: the argument loop, the parameter-binding loop, the body loop of
    closures and `do`, and the `chunks(2)` loop of `let*`.
  - Every `Interpreter` method is proved to compute exactly what its
    `Semantics` namesake describes.
  - `EvalProperties` proves what the language promises about the
    `Semantics` functions: lookup, dispatch, arity, lexical capture,
    shadowing, `def!`, `let*`, `if`, `do` and `fn*`.
- **The two arithmetic-only evaluators.**
  - `step2_eval.rs` is `Step2Eval`. Its argument errors are error values.
  - `step2.rs` is `Step2`. Every failure there is a panic.
  - Both use the four-operation table `Step2Table`.

Failures are `Common.Error`:

- `Raised(msg)` is a Rust `Err(String)`, with the source's exact message.
- `Panicked(msg)` is a Rust panic. That covers `panic!` in step2 and i64
  overflow. Overflow panics as in a debug build.
- `OutOfFuel` is the evaluator's step budget being used up. It stands for
  stack exhaustion and for programs that do not terminate.

Numbers are `Int64`, the range of Rust's `i64`. Rust's `/` truncates toward
zero and is written out as `Arithmetic.TruncDiv`.

## Model

| member | source | states |
|---|---|---|
| Values.ValueEq | impls/rust-dotshix/src/reader.rs:31-55 | `MalValue::eq`: equal values have the same variant, with Round and Square counted as one |
| Values.ListEq | impls/rust-dotshix/src/reader.rs:40-44 | `Vec<MalValue>` equality: equal lists have the same length and, position by position, elements of the same variant |
| Values.FunctionEq | impls/rust-dotshix/src/env.rs:56-78 | `Function::eq`: equal functions are of the same variant |
| Values.RoundSquareInterchangeable | impls/rust-dotshix/src/reader.rs:40-43 | Round and Square compare equal, in every combination, exactly when their elements are element-wise equal |
| Values.NeverEqual | impls/rust-dotshix/src/reader.rs:45-52 | Mal, Comment and NonSpecialSeq are unequal to every value, themselves included |
| Values.PrimitiveEq | impls/rust-dotshix/src/env.rs:58-60 | functions of different variants are unequal; builtins and special forms are equal iff they are the same primitive |
| Values.ClosureEqIgnoresEnv | impls/rust-dotshix/src/env.rs:61-74 | replacing the captured environments of two closures does not change whether they are equal, as functions or as values |
| Values.EqSymmetric | impls/rust-dotshix/src/reader.rs:31-55 | value equality is symmetric |
| Values.ListEqSymmetric | impls/rust-dotshix/src/reader.rs:40-44 | list equality is symmetric |
| Values.FunctionEqSymmetric | impls/rust-dotshix/src/env.rs:56-78 | function equality is symmetric |
| Values.EqReflexiveIff | impls/rust-dotshix/src/reader.rs:31-55 | a value equals itself iff no Mal, Comment or NonSpecialSeq occurs in it |
| Values.ListEqReflexiveIff | impls/rust-dotshix/src/reader.rs:40-44 | a list equals itself iff all its elements do |
| Values.EqTransitive | impls/rust-dotshix/src/reader.rs:31-55 | value equality is transitive |
| Values.ListEqTransitive | impls/rust-dotshix/src/reader.rs:40-44 | list equality is transitive |
| Reader.UnescapeString | impls/rust-dotshix/src/reader.rs:243-271 | the `while let` loop returns exactly `Unescape(s)` |
| Reader.UnescapePlain | impls/rust-dotshix/src/reader.rs:247-268 | a string without a backslash is returned unchanged |
| Reader.Unescape | impls/rust-dotshix/src/reader.rs:243-271 | the output is never longer than the input |
| Reader.StringToken | impls/rust-dotshix/src/reader.rs:98-105 | the STRING rule gives a String no longer than the text between the quotes, and exactly that text when it has no backslash |
| Reader.UnknownEscapeKept | impls/rust-dotshix/src/reader.rs:255-259 | an unknown escape keeps both the backslash and the character |
| Reader.UnescapeAppend | impls/rust-dotshix/src/reader.rs:243-271 | unescaping distributes over concatenation when the first part ends on an escape boundary |
| Reader.TrailingBackslashKept | impls/rust-dotshix/src/reader.rs:260-263 | a lone trailing backslash is kept after any text made of whole escapes |
| Printer.Escape | impls/rust-dotshix/src/printer.rs:5-18 | escaping keeps or doubles each character, so the length grows by at most the input length |
| Printer.EscapeString | impls/rust-dotshix/src/printer.rs:5-18 | the loop returns exactly `Escape(s)` |
| Printer.EscapeNoControl | impls/rust-dotshix/src/printer.rs:5-18 | escaped text holds no raw newline, carriage return or tab |
| Printer.UnescapeEscape | impls/rust-dotshix/src/printer.rs:5-18 | round trip: unescaping the escaped string gives the string back |
| Printer.EscapeIsWhole | impls/rust-dotshix/src/printer.rs:5-18 | escaped text is made of whole escapes: every backslash has its partner |
| Printer.EscapedThenTrailingBackslash | impls/rust-dotshix/src/printer.rs:5-18 | an escaped string followed by a lone backslash unescapes to the string and the backslash |
| Printer.PrStr | impls/rust-dotshix/src/printer.rs:21-74 | a readable String prints inside double quotes; Round, Square and Curly print inside their own brackets |
| Printer.ReadablyPrintedStringReadsBack | impls/rust-dotshix/src/printer.rs:23-30 | a String printed readably is a quoted token that the reader's STRING rule turns back into the same String |
| Printer.ReadablyIrrelevant | impls/rust-dotshix/src/printer.rs:21-74 | for a value holding no String, readable and plain printing agree |
| Printer.RenderingsReadablyIrrelevant | impls/rust-dotshix/src/printer.rs:36-66 | the same, element by element, for a list of such values |
| Printer.ListFlavours | impls/rust-dotshix/src/printer.rs:36-66 | Round, Square and Curly print as Mal's space-joined renderings inside `()`, `[]` and `{}` |
| Printer.FunctionPlaceholder | impls/rust-dotshix/src/printer.rs:67-71 | functions of one variant print identically, whatever their contents and whatever the readably flag |
| Printer.NatToStringDigits | impls/rust-dotshix/src/printer.rs:32 | a natural number prints as a non-empty string of decimal digits whose value is the number |
| Printer.NumberRoundTrip | impls/rust-dotshix/src/printer.rs:32 | the decimal rendering of any i64, sign included, reads back as the same number |
| Printer.JoinAppend | impls/rust-dotshix/src/printer.rs:37-41 | joining one more part adds exactly one separator and the part |
| Printer.RenderingsAppend | impls/rust-dotshix/src/printer.rs:37-40 | rendering one more element appends its rendering |
| Environment.BindingsNew | impls/rust-dotshix/src/env.rs:87-92 | a new scope has an empty level and the given parent |
| Environment.BindingsSet | impls/rust-dotshix/src/env.rs:94-96 | `set` inserts or overwrites only the key, keeps the other keys and the parent |
| Environment.BindingsGet | impls/rust-dotshix/src/env.rs:98-109 | a key in the scope's own level gives its value; any value found is bound at that scope or an earlier one |
| Environment.EnvGet | impls/rust-dotshix/src/env.rs:129-131 | `Env::get` answers from the env's own scope first, and only with a value bound at that scope or an earlier one |
| Environment.Arena.Get | impls/rust-dotshix/src/env.rs:129-131 | the same, read from the in-place arena |
| Environment.EnvNew | impls/rust-dotshix/src/env.rs:119-123 | `Env::new` allocates one fresh scope after the existing ones and returns its handle |
| Environment.EnvSet | impls/rust-dotshix/src/env.rs:125-127 | `Env::set` changes only the env's own scope, by `BindingsSet` |
| Environment.Arena.NewEnv | impls/rust-dotshix/src/env.rs:119-123 | the in-place arena grows as `EnvNew` says |
| Environment.Arena.Set | impls/rust-dotshix/src/env.rs:125-127 | the in-place arena changes as `EnvSet` says |
| Environment.GetDependsOnlyBelow | impls/rust-dotshix/src/env.rs:98-109 | a lookup reads only the scope and its ancestors |
| Environment.GetAfterSet | impls/rust-dotshix/src/env.rs:125-131 | `get` right after `set` of a key returns the value set |
| Environment.SetLeavesOtherKeys | impls/rust-dotshix/src/env.rs:94-96 | `set` of one key leaves every lookup of another key unchanged |
| Environment.Shadowing | impls/rust-dotshix/src/env.rs:99-100 | a key bound in a scope's own level hides the same key in every ancestor |
| Environment.MissDelegates | impls/rust-dotshix/src/env.rs:101-107 | on a miss, `get` asks the parent, and a root without the key gives None |
| Environment.FreshEnvDelegates | impls/rust-dotshix/src/env.rs:119-123 | a fresh env answers every lookup as its parent does |
| Environment.ChildSeesLaterParentSet | impls/rust-dotshix/src/env.rs:133-135 | a child made on the parent's shared bindings sees a `set` made on the parent afterwards |
| Environment.WellFormedPreserved | impls/rust-dotshix/src/env.rs:86-110 | creating and updating scopes keeps every parent link pointing to an older scope |
| Arithmetic.TruncDivRoundsTowardZero | impls/rust-dotshix/src/core.rs:46 | i64 `/` truncates: the remainder is smaller than the divisor, has the dividend's sign, and the quotient is no larger than the dividend |
| Arithmetic.DivOverflowOnlyMinByMinusOne | impls/rust-dotshix/src/core.rs:46 | a quotient leaves the i64 range exactly for `i64::MIN / -1` |
| Core.ValidateAndExtract | impls/rust-dotshix/src/core.rs:14-24 | succeeds iff there are exactly two Number arguments and returns them; otherwise fails with the arity message naming the function, or "Expected number arguments" |
| Core.Add | impls/rust-dotshix/src/core.rs:28-31 | `+` propagates the validation error, panics "attempt to add with overflow" exactly on overflow, and otherwise returns the sum |
| Core.Sub | impls/rust-dotshix/src/core.rs:33-36 | `-` propagates the validation error, panics "attempt to subtract with overflow" exactly on overflow, and otherwise returns the difference |
| Core.Mult | impls/rust-dotshix/src/core.rs:38-41 | `*` propagates the validation error, panics "attempt to multiply with overflow" exactly on overflow, and otherwise returns the product |
| Core.Divide | impls/rust-dotshix/src/core.rs:43-50 | `/` propagates the validation error, fails with "Division by 0" on a zero divisor, panics "attempt to divide with overflow" exactly on `i64::MIN / -1`, and otherwise returns the truncated quotient |
| Core.SubUndoesAdd | impls/rust-dotshix/src/core.rs:28-36 | subtracting b from a successful a + b gives a back |
| Core.DivideUndoesMult | impls/rust-dotshix/src/core.rs:38-50 | dividing a successful a * b by a non-zero b gives a back |
| Core.AddMultCommute | impls/rust-dotshix/src/core.rs:28-41 | `+` and `*` give the same outcome, overflow included, for swapped arguments |
| Core.ComparisonOperator | impls/rust-dotshix/src/core.rs:283-302 | arity and type errors with the source's messages; for the four known operators a Bool that holds iff the relation holds |
| Core.LessThan | impls/rust-dotshix/src/core.rs:345-347 | on two numbers, `Bool(a < b)`; the arity and type errors of `comparison_operator` otherwise |
| Core.LessThanOrEqual | impls/rust-dotshix/src/core.rs:349-351 | on two numbers, `Bool(a <= b)`; the arity and type errors otherwise |
| Core.GreaterThan | impls/rust-dotshix/src/core.rs:353-355 | on two numbers, `Bool(a > b)`; the arity and type errors otherwise |
| Core.GreaterThanOrEqual | impls/rust-dotshix/src/core.rs:357-359 | on two numbers, `Bool(a >= b)`; the arity and type errors otherwise |
| Core.ComparisonsAgree | impls/rust-dotshix/src/core.rs:345-360 | `<` is `>` with swapped arguments, `<=` is `>=` swapped, and `<=` is the negation of `>` |
| Core.List | impls/rust-dotshix/src/core.rs:236-238 | `list` returns a Round of exactly its arguments |
| Core.ListQuestion | impls/rust-dotshix/src/core.rs:240-248 | `list?` needs exactly one argument and is true only for Round |
| Core.ListThenListQuestion | impls/rust-dotshix/src/core.rs:236-273 | a list built by `list` satisfies `list?` and its `count` is the number of arguments |
| Core.EmptyQuestion | impls/rust-dotshix/src/core.rs:250-260 | `empty?` needs exactly one argument and is true iff it is an empty Round, Square or String |
| Core.Count | impls/rust-dotshix/src/core.rs:262-273 | `count` needs exactly one argument; the element count of Round/Square, the UTF-8 byte length of a String, 0 for Nil and Nil otherwise |
| Core.AsI64Small | impls/rust-dotshix/src/core.rs:268 | `len() as i64` is the length itself for every length up to `i64::MAX` |
| Core.Utf8LenBounds | impls/rust-dotshix/src/core.rs:269 | a string's UTF-8 length is between its character count and four times it, and equals it for ASCII |
| Core.EmptyIffCountZero | impls/rust-dotshix/src/core.rs:250-273 | for lists and strings, `empty?` is true iff `count` is 0 |
| Core.Equals | impls/rust-dotshix/src/core.rs:275-281 | `=` needs exactly two arguments and returns their structural equality |
| Core.EqualsSymmetricReflexive | impls/rust-dotshix/src/core.rs:275-281 | `=` is symmetric, and `(= x x)` is true iff x is comparable |
| Core.Prn | impls/rust-dotshix/src/core.rs:304-311 | `prn` returns Nil; the line it writes, before `println!` adds its newline, is exactly the text `pr-str` returns |
| Core.PrStrFn | impls/rust-dotshix/src/core.rs:313-319 | `pr-str` returns a String, the readable rendering for one argument |
| Core.StrFn | impls/rust-dotshix/src/core.rs:321-328 | `str` returns a String, the plain rendering for one argument |
| Core.Println | impls/rust-dotshix/src/core.rs:330-337 | `println` returns Nil and prints the plain rendering |
| Core.StrAndPrStrOfString | impls/rust-dotshix/src/core.rs:313-328 | `str` returns a String's text as is; `pr-str` returns a token that reads back as the same String |
| Core.PrStrSeparators | impls/rust-dotshix/src/core.rs:313-319 | `pr-str` of several arguments joins the readable renderings with one space; of none it is "" |
| Core.StrSeparators | impls/rust-dotshix/src/core.rs:321-328 | `str` of several arguments concatenates the plain renderings with nothing between them; of none it is "" |
| Core.PrintlnSeparators | impls/rust-dotshix/src/core.rs:330-337 | `println` prints the plain renderings joined with one space; for no arguments an empty line |
| Core.ApplyBuiltin | impls/rust-dotshix/src/core.rs:362-380 | calling a registered builtin by its tag; `list` returns its arguments and `prn`/`println` return Nil |
| Core.TableLevel | impls/rust-dotshix/src/core.rs:393-407 | the registration loops bind exactly the names of the entries |
| Core.TableLevelLookup | impls/rust-dotshix/src/core.rs:393-399 | with distinct names, every entry's name is bound to its own function |
| Core.TableLevelStep | impls/rust-dotshix/src/core.rs:394-399 | one registration step adds one name to the level |
| Core.ReplLevelContents | impls/rust-dotshix/src/core.rs:362-391 | the root level binds exactly the 17 builtin and 5 special-form names, each to its own primitive |
| Core.CreateReplEnv | impls/rust-dotshix/src/core.rs:341-410 | `create_repl_env` allocates one root scope without parent, holding exactly the REPL level |
| Semantics.Eval | impls/rust-dotshix/src/step4_if_fn_do.rs:49-130 | `eval` may create scopes and change only the current scope, never its parent link |
| Semantics.Apply | impls/rust-dotshix/src/step4_if_fn_do.rs:67-124 | the dispatch on the head changes only the current scope |
| Semantics.EvalArgs | impls/rust-dotshix/src/step4_if_fn_do.rs:84-87 | argument evaluation returns one value per expression after those already collected |
| Semantics.EvalAst | impls/rust-dotshix/src/step4_if_fn_do.rs:25-47 | `eval_ast` changes only the current scope |
| Semantics.EvalAll | impls/rust-dotshix/src/step4_if_fn_do.rs:132-134 | `eval_all` returns one value per input form |
| Semantics.EvalBody | impls/rust-dotshix/src/core.rs:67-75 | the body loop returns its initial value for an empty body and changes only the current scope |
| Semantics.ApplyClosure | impls/rust-dotshix/src/step4_if_fn_do.rs:105-121 | a closure call leaves every pre-existing scope as it was |
| Semantics.BindParams | impls/rust-dotshix/src/step4_if_fn_do.rs:111-113 | parameter binding changes only the new scope and allocates nothing |
| Semantics.ApplySpecialForm | impls/rust-dotshix/src/step4_if_fn_do.rs:70-73 | a special form changes only the caller's scope |
| Semantics.DefBang | impls/rust-dotshix/src/core.rs:52-65 | `def!` changes only the current scope |
| Semantics.Do | impls/rust-dotshix/src/core.rs:67-75 | `do` with no arguments returns Nil and changes nothing |
| Semantics.If | impls/rust-dotshix/src/core.rs:77-110 | `if` changes only the current scope |
| Semantics.LetStar | impls/rust-dotshix/src/core.rs:186-234 | `let*` leaves every pre-existing scope as it was |
| Semantics.LetBindings | impls/rust-dotshix/src/core.rs:213-229 | the binding loop changes only the `let*` scope |
| Semantics.FnStar | impls/rust-dotshix/src/core.rs:112-184 | `fn*` arity and parameter-list errors with their messages, a parameter-list error returned unchanged; a success is a closure over the parsed parameters, the one body form and the current env |
| Semantics.FirstAmp | impls/rust-dotshix/src/core.rs:130 | `position` of `&`: the first `&`, or none at all |
| Semantics.SymbolNames | impls/rust-dotshix/src/core.rs:163-169 | the names of a parameter list, succeeding iff every parameter is a symbol |
| Interpreter.Eval | impls/rust-dotshix/src/step4_if_fn_do.rs:49-130 | the in-place `eval` returns and leaves exactly what `Semantics.Eval` describes |
| Interpreter.EvalCall | impls/rust-dotshix/src/step4_if_fn_do.rs:61-124 | the call arm of `eval` (head, then dispatch) matches `Semantics.Eval` on a non-empty Round |
| Interpreter.Apply | impls/rust-dotshix/src/step4_if_fn_do.rs:67-124 | in-place dispatch matches `Semantics.Apply` |
| Interpreter.CallBuiltin | impls/rust-dotshix/src/step4_if_fn_do.rs:82-89 | the builtin arm evaluates the arguments first, stops at the first error, and otherwise returns the builtin's result, as `Semantics.Apply` describes |
| Interpreter.CallClosure | impls/rust-dotshix/src/step4_if_fn_do.rs:90-122 | the closure arm evaluates the arguments, rejects a count other than the number of parameters, then applies the closure, as `Semantics.Apply` describes |
| Interpreter.EvalArgs | impls/rust-dotshix/src/step4_if_fn_do.rs:84-87 | the argument loop matches `Semantics.EvalArgs` |
| Interpreter.EvalAst | impls/rust-dotshix/src/step4_if_fn_do.rs:25-47 | in-place `eval_ast` matches `Semantics.EvalAst` |
| Interpreter.EvalAll | impls/rust-dotshix/src/step4_if_fn_do.rs:132-134 | in-place `eval_all` matches `Semantics.EvalAll` |
| Interpreter.EvalBody | impls/rust-dotshix/src/core.rs:67-75 | the `res` loop of `do` and of closure bodies matches `Semantics.EvalBody` |
| Interpreter.ApplyClosure | impls/rust-dotshix/src/step4_if_fn_do.rs:105-121 | new scope, parameter loop and body loop match `Semantics.ApplyClosure` |
| Interpreter.ApplySpecialForm | impls/rust-dotshix/src/step4_if_fn_do.rs:70-73 | matches `Semantics.ApplySpecialForm` |
| Interpreter.DefBang | impls/rust-dotshix/src/core.rs:52-65 | in-place `def!` matches `Semantics.DefBang` |
| Interpreter.If | impls/rust-dotshix/src/core.rs:77-110 | in-place `if` matches `Semantics.If` |
| Interpreter.LetStar | impls/rust-dotshix/src/core.rs:186-234 | `let_star` gives the result and arena `Semantics.LetStar` describes, including its three argument errors |
| Interpreter.LetBindings | impls/rust-dotshix/src/core.rs:213-229 | the `chunks(2)` loop gives the result and arena `Semantics.LetBindings` describes: each value is evaluated in the new scope and set there before the next pair, and the first error stops the loop |
| Interpreter.BindPair | impls/rust-dotshix/src/core.rs:214-228 | one chunk: not a pair, or not starting with a symbol, is an error that changes nothing; otherwise the value is evaluated in the new scope and, if it succeeds, set there |
| EvalProperties.SymbolEvaluation | impls/rust-dotshix/src/step4_if_fn_do.rs:52-58 | a symbol evaluates to its binding anywhere in the chain, or to "Symbol '…' not found in environment", and changes nothing |
| EvalProperties.SelfEvaluatingIsFixed | impls/rust-dotshix/src/step4_if_fn_do.rs:25-47 | atoms, functions, the empty Round, and Square, Curly and Mal lists of such values evaluate to themselves and change nothing |
| EvalProperties.ArgsSelfEvaluating | impls/rust-dotshix/src/step4_if_fn_do.rs:35-43 | such values evaluate element-wise to themselves |
| EvalProperties.EvalArgsAppend | impls/rust-dotshix/src/step4_if_fn_do.rs:84-87 | arguments are evaluated left to right and the first error stops the rest |
| EvalProperties.CallDispatch | impls/rust-dotshix/src/step4_if_fn_do.rs:61-124 | the head is evaluated first; its error is returned; a special form receives the unevaluated tail; a non-function head is "First element is not a function" |
| EvalProperties.CallEvaluatesArguments | impls/rust-dotshix/src/step4_if_fn_do.rs:82-122 | for a builtin or closure head the arguments are evaluated left to right and the first error ends the call; a builtin gets their values; a closure given as many values as parameters is applied |
| EvalProperties.FlavourKept | impls/rust-dotshix/src/step4_if_fn_do.rs:35-43 | Square, Curly and Mal are evaluated element-wise, left to right, and keep their flavour; the first error ends it |
| EvalProperties.ClosureArityChecked | impls/rust-dotshix/src/step4_if_fn_do.rs:97-103 | a closure called with the wrong argument count fails with "Expected n arguments but got m" |
| EvalProperties.BindParamsLevel | impls/rust-dotshix/src/step4_if_fn_do.rs:111-113 | binding parameters adds exactly the parameter names to the new scope |
| EvalProperties.BindParamsPositional | impls/rust-dotshix/src/step4_if_fn_do.rs:111-113 | with distinct names the i-th parameter is bound to the i-th argument |
| EvalProperties.ClosureSeesCapturedScope | impls/rust-dotshix/src/step4_if_fn_do.rs:105-108 | a free name in a closure body is looked up in the captured scope, not at the call site |
| EvalProperties.ClosureBindsParameters | impls/rust-dotshix/src/step4_if_fn_do.rs:105-121 | a parameter in the body evaluates to its argument |
| EvalProperties.ClosureCallLeavesScopes | impls/rust-dotshix/src/step4_if_fn_do.rs:105-121 | after a closure call every earlier scope answers every lookup as before |
| EvalProperties.DefBangArgumentErrors | impls/rust-dotshix/src/core.rs:53-60 | "def! requires exactly two arguments" and "def! first argument must be a symbol", before anything is evaluated |
| EvalProperties.IfArgumentErrors | impls/rust-dotshix/src/core.rs:78-81 | "if requires two or three arguments", before anything is evaluated |
| EvalProperties.LetStarArgumentErrors | impls/rust-dotshix/src/core.rs:186-201 | "let* requires exactly two arguments", "let* first argument must be a list of bindings" and "Bindings must be pairs", before any scope is made |
| EvalProperties.LetBindingsErrors | impls/rust-dotshix/src/core.rs:213-221 | no pairs bind nothing; an unpaired item is "Bindings must be pairs"; a pair not starting with a symbol is "Bindings must start with a symbol" |
| EvalProperties.DefBangBinds | impls/rust-dotshix/src/core.rs:62-64 | `def!` returns the value and binds it in the current scope; on an error nothing is bound |
| EvalProperties.DefBangLeavesOtherNames | impls/rust-dotshix/src/core.rs:63 | `def!` changes no other name's lookup |
| EvalProperties.LetStarLeavesOuterScopes | impls/rust-dotshix/src/core.rs:208-210 | `let*` binds nothing in any pre-existing scope |
| EvalProperties.LetStarBodySeesBinding | impls/rust-dotshix/src/core.rs:226-233 | the body of `let*` sees the value bound to its key |
| EvalProperties.LetBindingsAppend | impls/rust-dotshix/src/core.rs:213-229 | binding one more pair binds the earlier pairs, then evaluates the new value in the scope they left, then sets the name; an error stops it |
| EvalProperties.LetStarSequential | impls/rust-dotshix/src/core.rs:213-229 | after any pairs, `a x b a` binds `b` to the value just bound to `a`: a later binding sees an earlier one |
| EvalProperties.IfTakesOneBranch | impls/rust-dotshix/src/core.rs:91-109 | the condition is evaluated first; only the taken branch is evaluated; a falsy condition without else is Nil |
| EvalProperties.Truthiness | impls/rust-dotshix/src/core.rs:94-98 | for every value: falsy iff it is Nil or false; so 0, "" and () are truthy |
| EvalProperties.EvalBodyAppend | impls/rust-dotshix/src/core.rs:67-75 | the body loop evaluates forms in order and stops at the first error |
| EvalProperties.DoReturnsLast | impls/rust-dotshix/src/core.rs:67-75 | `do` returns its last form's value, and Nil with no forms |
| EvalProperties.ParseParamsWithoutAmp | impls/rust-dotshix/src/core.rs:161-171 | without `&`, parsing succeeds iff all parameters are symbols, with no rest parameter; otherwise "fn* Parameters must be Symbols" |
| EvalProperties.ParseParamsWithAmp | impls/rust-dotshix/src/core.rs:134-160 | with `&`, exactly one symbol must follow it and becomes the rest parameter; "Expected symbol after &" when nothing or a non-symbol follows, "Unexpected parameter after rest parameter" for more, "fn* Parameters must be Symbols" for a non-symbol before it |
| EvalProperties.ParseParamsRoundTrip | impls/rust-dotshix/src/core.rs:129-172 | a parameter list written from names (and `& rest`) parses back to those names |
| EvalProperties.FnStarCaptures | impls/rust-dotshix/src/core.rs:174-183 | `fn*` builds a closure over the parsed parameters, its single body form and the current env, and changes nothing |
| EvalProperties.RestParamIgnored | impls/rust-dotshix/src/step4_if_fn_do.rs:90-103 | a closure with a rest parameter is applied exactly as one without it, so the count is checked against the fixed parameters alone |
| EvalProperties.RestParamUnbound | impls/rust-dotshix/src/step4_if_fn_do.rs:105-121 | the rest parameter is not bound in the call's scope: the body finds whatever the captured scope binds to that name |
| Step2Table.ApplyOp | impls/rust-dotshix/src/step2_eval.rs:20-38 | the four functions; every failure is a panic and a zero divisor panics "Division by 0" |
| Step2Table.TableContents | impls/rust-dotshix/src/step2_eval.rs:40-47 | the table binds exactly `+ - * /`; each fails only on overflow, `i64::MIN / -1` or a zero divisor |
| Step2Eval.Eval | impls/rust-dotshix/src/step2_eval.rs:87-112 | a result keeps the shape of its form (list flavour and length, or the value itself), except that a Round call gives a Number |
| Step2Eval.EvalAst | impls/rust-dotshix/src/step2_eval.rs:53-85 | `eval_ast` keeps the shape of its form and returns every non-list, symbols included, unchanged |
| Step2Eval.EvalList | impls/rust-dotshix/src/step2_eval.rs:93-96 | element-wise evaluation returns one value per element |
| Step2Eval.EvalFunctionCall | impls/rust-dotshix/src/step2_eval.rs:114-123 | exactly two Number arguments are required, with the source's messages; otherwise the operation's value or panic |
| Step2Eval.EvalAll | impls/rust-dotshix/src/step2_eval.rs:125-127 | one value per input form |
| Step2Eval.EvalGivesNormal | impls/rust-dotshix/src/step2_eval.rs:53-112 | every result of evaluation is in normal form |
| Step2Eval.EvalListGivesNormal | impls/rust-dotshix/src/step2_eval.rs:93-96 | every element of an evaluated list is in normal form |
| Step2Eval.NormalIsFixed | impls/rust-dotshix/src/step2_eval.rs:53-112 | a normal value evaluates to itself |
| Step2Eval.NormalListIsFixed | impls/rust-dotshix/src/step2_eval.rs:93-96 | a list of normal values evaluates to itself |
| Step2Eval.EvalIdempotent | impls/rust-dotshix/src/step2_eval.rs:53-112 | evaluating a result again gives it back |
| Step2Eval.SymbolsEvaluateToThemselves | impls/rust-dotshix/src/step2_eval.rs:55-62 | a symbol evaluates to itself, bound or not |
| Step2Eval.ListEvaluation | impls/rust-dotshix/src/step2_eval.rs:89-108 | a non-empty Round is a call iff its evaluated head is a bound symbol, and is otherwise the Round of evaluated elements |
| Step2Eval.CallOfTwoNumbers | impls/rust-dotshix/src/step2_eval.rs:100-123 | `(op a b)` with number literals gives the operation's value or panic |
| Step2Eval.EvalListCons | impls/rust-dotshix/src/step2_eval.rs:93-96 | list evaluation evaluates the head, then the tail |
| Step2Eval.FlavourKept | impls/rust-dotshix/src/step2_eval.rs:64-82 | Square, Curly and Mal are evaluated element-wise and keep their flavour |
| Step2.Eval | impls/rust-dotshix/src/step2.rs:76-106 | a non-empty Round that evaluates gives a Number; every other form keeps its shape |
| Step2.EvalAst | impls/rust-dotshix/src/step2.rs:50-74 | `eval_ast` keeps the shape of its form; a symbol evaluates iff the table binds it |
| Step2.EvalList | impls/rust-dotshix/src/step2.rs:82 | element-wise evaluation returns one value per element |
| Step2.EvalAll | impls/rust-dotshix/src/step2.rs:108-110 | one value per input form |
| Step2.OnlyPanics | impls/rust-dotshix/src/step2.rs:50-106 | every failure of this evaluator is a panic |
| Step2.OnlyPanicsList | impls/rust-dotshix/src/step2.rs:60 | the same for element-wise evaluation |
| Step2.SymbolLookup | impls/rust-dotshix/src/step2.rs:52-57 | a bound symbol evaluates to itself and an unbound one panics |
| Step2.SymbolResultsAreBound | impls/rust-dotshix/src/step2.rs:96-98 | whatever evaluates to a symbol gives a bound one, so "Function not found" is never reached |
| Step2.EvalGivesNormal | impls/rust-dotshix/src/step2.rs:50-106 | every result is in normal form |
| Step2.EvalListGivesNormal | impls/rust-dotshix/src/step2.rs:60 | every element of an evaluated list is in normal form |
| Step2.NormalIsFixed | impls/rust-dotshix/src/step2.rs:50-106 | a normal value evaluates to itself |
| Step2.NormalListIsFixed | impls/rust-dotshix/src/step2.rs:60 | a list of normal values evaluates to itself |
| Step2.EvalIdempotent | impls/rust-dotshix/src/step2.rs:50-106 | evaluating a result again gives it back |
| Step2.LaterEvaluatorAgrees | impls/rust-dotshix/src/step2.rs:76-106 | where step2 does not panic, step2_eval computes the same value |
| Step2.AgreesList | impls/rust-dotshix/src/step2.rs:60 | the same for element-wise evaluation |

## Left out

- The reader's parser (`parse_input`, `build_ast`, `format_pest_error`) is
  not modelled. It runs a pest grammar that is not part of this model. Only
  the STRING rule's unquote-and-unescape step is modelled
  (`Reader.StringToken`).
- The REPL drivers are not modelled: `main`, `rep`, `read` and `print`,
  line editing, and all of step0 and step1.
- `prn` and `println` write to standard output. `Core.Prn` and
  `Core.Println` return the written line beside their Nil result. The
  newline that `println!` appends is not part of that returned line.
- step4_if_fn_do.rs:13 imports `create_repl_env` from env, but env.rs
  defines none; the only `create_repl_env` over this `Env` is core.rs:341.
  The model pairs step4 with that one (`Core.CreateReplEnv`).
- step3_env.rs is not part of this model. It calls an `env::Function`
  enum as if it were a function, and it imports a `create_repl_env` that
  env.rs does not have.
- `Rc`/`RefCell` reference counting, borrowing and lifetimes are not
  modelled. Scopes live in an arena and are never freed.
- Rust `fn` values are modelled as tags; their addresses are not. Two builtins are equal iff they
  are the same registered primitive.
- Stack depth and non-termination are not modelled. The evaluator takes a
  `fuel` budget, and running out gives `OutOfFuel`. The properties above
  hold for every fuel. That a result other than `OutOfFuel` is the one the
  source computes is an unproved observation: the model does not relate
  fuel to the host's stack, so a run the source aborts with a stack
  overflow may still finish here with enough fuel.
- Core.Add: i64 overflow is modelled as the panic of a debug build. A
  release build wraps around; that is not modelled. The same holds for
  Core.Sub, Core.Mult and the `+ - *` of Step2Table.ApplyOp. Division is
  different: Rust's `/` panics on `i64::MIN / -1` in every build, so
  Core.Divide and the `/` of Step2Table.ApplyOp are exact.
- Core.Count: Dafny characters are Unicode scalar values. The byte length
  Rust's `String::len` returns is computed from them by `Utf8Len`.
- Core.PrStrFn: the contract states the one-argument rendering. The
  several-argument case is stated by `Core.PrStrSeparators`, one argument
  at a time. The same holds for Core.StrFn (`Core.StrSeparators`) and
  Core.Println (`Core.PrintlnSeparators`).
- Semantics.Eval: the contract states only the frame (which scopes may
  change). The value it computes is stated by the EvalProperties lemmas and
  matched by `Interpreter.Eval`. The same holds for the other `Semantics`
  functions.
- Closure application never binds `rest_param`, as in the source. A
  variadic closure accepts exactly its fixed parameters.
- step4_if_fn_do.rs:90 matches `Function::UserDefined { params, body, env:
  func_env }` without `..`, although the variant also has `rest_param`. The
  model reads it as the pattern with `..`.
- The `list?` error message says "at least one argument", but the arity
  test `args.len() != 1` (core.rs:241) requires exactly one. The model keeps the message and the check as
  written.
- The members of Step2Eval and Step2 repeat one another because
  step2_eval.rs and step2.rs are near-copies of each other.
- step2_eval.rs and step2.rs use an older reader module. They are modelled
  over the same `Value` type, and their printing is not modelled.
