/** The printer (printer.rs): `escape_string` and `pr_str`, and the number
    rendering `i64::to_string` that `pr_str` relies on. */
module Printer {
  import opened Common
  import opened Values
  import Reader

  /** The rendering of one character inside a readable string. */
  function EscapeChar(c: char): string {
    match c
    case '\\' => "\\\\"
    case '"' => "\\\""
    case '\n' => "\\n"
    case '\r' => "\\r"
    case '\t' => "\\t"
    case _ => [c]
  }

  /** What `escape_string` computes. */
  function Escape(s: string): (r: string)
    ensures |s| <= |r| <= 2 * |s|
    decreases |s|
  {
    if s == [] then [] else EscapeChar(s[0]) + Escape(s[1..])
  }

  /** `escape_string`: a loop that appends each character's rendering to
      the `escaped` buffer. */
  method EscapeString(s: string) returns (escaped: string)
    ensures escaped == Escape(s)
  {
    escaped := [];
    var i := 0;
    while i < |s|
      invariant 0 <= i <= |s|
      invariant escaped + Escape(s[i..]) == Escape(s)
      decreases |s| - i
    {
      var c := s[i];
      EscapeUnfold(s, i);
      assert escaped + EscapeChar(c) + Escape(s[i + 1..]) == Escape(s);
      var piece: string;
      match c {
        case '\\' => piece := "\\\\";
        case '"' => piece := "\\\"";
        case '\n' => piece := "\\n";
        case '\r' => piece := "\\r";
        case '\t' => piece := "\\t";
        case _ => piece := [c];
      }
      assert piece == EscapeChar(c);
      escaped := escaped + piece;
      i := i + 1;
    }
  }

  lemma EscapeUnfold(s: string, i: nat)
    requires i < |s|
    ensures Escape(s[i..]) == EscapeChar(s[i]) + Escape(s[i + 1..])
  {
    assert s[i..][1..] == s[i + 1..];
  }

  function DigitChar(d: nat): char
    requires d < 10
  {
    "0123456789"[d]
  }

  lemma DigitCharValue(d: nat)
    requires d < 10
    ensures '0' <= DigitChar(d) <= '9' && DigitChar(d) as int - '0' as int == d
  {
  }

  function NatToString(n: nat): string
    decreases n
  {
    if n < 10 then [DigitChar(n)] else NatToString(n / 10) + [DigitChar(n % 10)]
  }

  /** `i64::to_string`: decimal, with a leading '-' when negative. */
  function IntToString(n: int): string {
    if n < 0 then "-" + NatToString(-n) else NatToString(n)
  }

  /** `join(sep)` of Rust's slices of strings. */
  function Join(parts: seq<string>, sep: string): string
    decreases |parts|
  {
    if parts == [] then []
    else if |parts| == 1 then parts[0]
    else parts[0] + sep + Join(parts[1..], sep)
  }

  /** `pr_str(node, print_readably)`. */
  function PrStr(v: Value, readably: bool): (r: string)
    ensures v.String? && readably ==> |r| >= 2 && r[0] == '"' && r[|r| - 1] == '"'
    ensures v.Round? ==> |r| >= 2 && r[0] == '(' && r[|r| - 1] == ')'
    ensures v.Square? ==> |r| >= 2 && r[0] == '[' && r[|r| - 1] == ']'
    ensures v.Curly? ==> |r| >= 2 && r[0] == '{' && r[|r| - 1] == '}'
    decreases v
  {
    match v
    case String(s) => if readably then "\"" + Escape(s) + "\"" else s
    case Symbol(s) => s
    case Number(n) => IntToString(n)
    case Bool(b) => if b then "true" else "false"
    case Nil => "nil"
    case Atom(a) => a
    case Round(r) => "(" + Join(Renderings(r, readably), " ") + ")"
    case Square(r) => "[" + Join(Renderings(r, readably), " ") + "]"
    case Curly(r) => "{" + Join(Renderings(r, readably), " ") + "}"
    case Comment(c) => c
    case NonSpecialSeq(s) => s
    case Mal(content) => Join(Renderings(content, readably), " ")
    case BuiltinFunction(f) =>
      (match f
       case Builtin(_) => "<#builtin function>"
       case SpecialForm(_) => "<#special form>"
       case UserDefined(_, _, _, _) => "<#function>")
    case EOI => ""
  }

  /** `iter().map(|v| pr_str(v, print_readably))`. */
  function Renderings(items: seq<Value>, readably: bool): (r: seq<string>)
    ensures |r| == |items|
    decreases items
  {
    if items == [] then [] else [PrStr(items[0], readably)] + Renderings(items[1..], readably)
  }

  /** Joining one more part puts exactly one separator before it. */
  lemma {:induction false} JoinAppend(parts: seq<string>, p: string, sep: string)
    requires parts != []
    ensures Join(parts + [p], sep) == Join(parts, sep) + sep + p
    decreases |parts|
  {
    if |parts| == 1 {
      assert (parts + [p])[1..] == [p];
    } else {
      assert (parts + [p])[1..] == parts[1..] + [p];
      JoinAppend(parts[1..], p, sep);
    }
  }

  /** Rendering one more item appends its rendering. */
  lemma {:induction false} RenderingsAppend(items: seq<Value>, x: Value, readably: bool)
    ensures Renderings(items + [x], readably) == Renderings(items, readably) + [PrStr(x, readably)]
    decreases |items|
  {
    if items == [] {
      assert ([] + [x])[1..] == [];
    } else {
      assert (items + [x])[1..] == items[1..] + [x];
      RenderingsAppend(items[1..], x, readably);
    }
  }

  /** A value whose printed form contains a String somewhere. */
  predicate HasString(v: Value)
    decreases v
  {
    match v
    case String(_) => true
    case Round(xs) => exists i :: 0 <= i < |xs| && HasString(xs[i])
    case Square(xs) => exists i :: 0 <= i < |xs| && HasString(xs[i])
    case Curly(xs) => exists i :: 0 <= i < |xs| && HasString(xs[i])
    case Mal(xs) => exists i :: 0 <= i < |xs| && HasString(xs[i])
    case _ => false
  }

  /** Escaping never leaves a raw newline, carriage return or tab. */
  lemma {:induction false} EscapeNoControl(s: string)
    ensures forall i :: 0 <= i < |Escape(s)| ==> Escape(s)[i] !in "\n\r\t"
    decreases |s|
  {
    if s != [] {
      EscapeNoControl(s[1..]);
      var e := Escape(s);
      assert e == EscapeChar(s[0]) + Escape(s[1..]);
      forall i | 0 <= i < |e|
        ensures e[i] !in "\n\r\t"
      {
        if i >= |EscapeChar(s[0])| {
          assert e[i] == Escape(s[1..])[i - |EscapeChar(s[0])|];
        }
      }
    }
  }

  /** Round trip: decoding an escaped string gives the string back. */
  lemma {:induction false} UnescapeEscape(s: string)
    ensures Reader.Unescape(Escape(s)) == s
    decreases |s|
  {
    if s != [] {
      var c, rest := s[0], Escape(s[1..]);
      var e := EscapeChar(c) + rest;
      assert Escape(s) == e;
      UnescapeEscape(s[1..]);
      if c in "\\\"\n\r\t" {
        assert e[2..] == rest;
      } else {
        assert e[1..] == rest;
      }
    }
  }

  /** An escaped string consists of whole escape units. */
  lemma {:induction false} EscapeIsWhole(s: string)
    ensures Reader.WholeEscapes(Escape(s))
    decreases |s|
  {
    if s != [] {
      var c, rest := s[0], Escape(s[1..]);
      var e := EscapeChar(c) + rest;
      assert Escape(s) == e;
      EscapeIsWhole(s[1..]);
      if c in "\\\"\n\r\t" {
        assert e[2..] == rest;
      } else {
        assert e[1..] == rest;
      }
    }
  }

  /** Whatever string an escaped text ends with, a backslash after it is
      read back as a backslash. */
  lemma EscapedThenTrailingBackslash(s: string)
    ensures Reader.Unescape(Escape(s) + ['\\']) == s + ['\\']
  {
    EscapeIsWhole(s);
    Reader.TrailingBackslashKept(Escape(s));
    UnescapeEscape(s);
  }

  /** A String printed readably is quoted, and reading the token back (the
      reader's STRING rule) yields the same String. */
  lemma ReadablyPrintedStringReadsBack(s: string)
    ensures var p := PrStr(String(s), true);
      |p| >= 2 && p[0] == '"' && p[|p| - 1] == '"' && Reader.StringToken(p) == String(s)
  {
    var p := PrStr(String(s), true);
    assert p[1..|p| - 1] == Escape(s);
    UnescapeEscape(s);
  }

  /** When no String is inside, readable and display renderings agree. */
  lemma {:induction false} ReadablyIrrelevant(v: Value)
    requires !HasString(v)
    ensures PrStr(v, true) == PrStr(v, false)
    decreases v
  {
    match v
    case Round(xs) => RenderingsReadablyIrrelevant(xs);
    case Square(xs) => RenderingsReadablyIrrelevant(xs);
    case Curly(xs) => RenderingsReadablyIrrelevant(xs);
    case Mal(xs) => RenderingsReadablyIrrelevant(xs);
    case _ =>
  }

  lemma {:induction false} RenderingsReadablyIrrelevant(xs: seq<Value>)
    requires forall i :: 0 <= i < |xs| ==> !HasString(xs[i])
    ensures Renderings(xs, true) == Renderings(xs, false)
    decreases xs
  {
    if xs != [] {
      ReadablyIrrelevant(xs[0]);
      RenderingsReadablyIrrelevant(xs[1..]);
    }
  }

  /** The three list flavours print the same element renderings, Mal with
      no delimiters and the others inside (), [] and {}. */
  lemma ListFlavours(xs: seq<Value>, readably: bool)
    ensures var inner := PrStr(Mal(xs), readably);
      && PrStr(Round(xs), readably) == "(" + inner + ")"
      && PrStr(Square(xs), readably) == "[" + inner + "]"
      && PrStr(Curly(xs), readably) == "{" + inner + "}"
  {
  }

  /** Callables print as a fixed placeholder per kind, whatever they hold. */
  lemma FunctionPlaceholder(f: Function, g: Function, r1: bool, r2: bool)
    requires (f.Builtin? && g.Builtin?) || (f.SpecialForm? && g.SpecialForm?)
          || (f.UserDefined? && g.UserDefined?)
    ensures PrStr(BuiltinFunction(f), r1) == PrStr(BuiltinFunction(g), r2)
  {
  }

  /** Decimal reading of a digit string (the inverse the number round trip
      is stated against). */
  function DigitsValue(s: string): nat
    decreases |s|
  {
    if s == [] then 0
    else
      var d := s[|s| - 1];
      DigitsValue(s[..|s| - 1]) * 10 + (if '0' <= d <= '9' then d as int - '0' as int else 0)
  }

  /** A signed decimal numeral's value. */
  function NumeralValue(s: string): int {
    if |s| > 0 && s[0] == '-' then -(DigitsValue(s[1..]) as int) else DigitsValue(s)
  }

  lemma {:induction false} NatToStringDigits(n: nat)
    ensures |NatToString(n)| > 0
    ensures forall i :: 0 <= i < |NatToString(n)| ==> '0' <= NatToString(n)[i] <= '9'
    ensures DigitsValue(NatToString(n)) == n
    decreases n
  {
    if n < 10 {
      DigitCharValue(n);
    } else {
      NatToStringDigits(n / 10);
      DigitCharValue(n % 10);
      var s := NatToString(n);
      assert s == NatToString(n / 10) + [DigitChar(n % 10)];
      assert s[..|s| - 1] == NatToString(n / 10);
    }
  }

  /** Numbers print as decimal numerals that read back to the same number. */
  lemma NumberRoundTrip(n: Int64, readably: bool)
    ensures NumeralValue(PrStr(Number(n), readably)) == n
  {
    if n < 0 {
      var m: nat := -(n as int);
      NatToStringDigits(m);
      assert ("-" + NatToString(m))[1..] == NatToString(m);
    } else {
      NatToStringDigits(n);
    }
  }
}
