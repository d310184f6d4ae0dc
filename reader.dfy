/** The string-literal part of the reader (reader.rs): `unescape_string`,
    which decodes the escapes of a string literal's body, and the STRING
    rule of `build_ast`, which strips the quotes and decodes the rest. */
module Reader {
  import opened Common
  import opened Values

  /** The character an escape `\c` stands for, if `c` is a known escape. */
  function DecodeEscape(c: char): Option<char> {
    match c
    case 'n' => Some('\n')
    case 'r' => Some('\r')
    case 't' => Some('\t')
    case '\\' => Some('\\')
    case '"' => Some('"')
    case _ => None
  }

  /** What `unescape_string` computes: the five known escapes become one
      character; an unknown escape keeps the backslash and the character;
      a lone trailing backslash is kept. */
  function Unescape(s: string): (r: string)
    ensures |r| <= |s|
    decreases |s|
  {
    if s == [] then []
    else if s[0] != '\\' then [s[0]] + Unescape(s[1..])
    else if |s| == 1 then ['\\']
    else match DecodeEscape(s[1])
      case Some(d) => [d] + Unescape(s[2..])
      case None => ['\\', s[1]] + Unescape(s[2..])
  }

  /** `unescape_string`: a loop over the characters that pushes into a
      result buffer, looking one character past each backslash. */
  method UnescapeString(s: string) returns (result: string)
    ensures result == Unescape(s)
  {
    result := [];
    var i := 0;
    while i < |s|
      invariant 0 <= i <= |s|
      invariant result + Unescape(s[i..]) == Unescape(s)
      decreases |s| - i
    {
      ghost var start := i;
      UnescapeAt(s, i);
      var c := s[i];
      i := i + 1;
      if c == '\\' {
        if i < |s| {
          var next := s[i];
          i := i + 1;
          match DecodeEscape(next) {
            case Some(d) =>
              UnescapeAdvance(s, start, i, result, [d]);
              result := result + [d];
            case None =>
              UnescapeAdvance(s, start, i, result, ['\\', next]);
              result := result + ['\\', next];
          }
        } else {
          UnescapeAdvance(s, start, i, result, ['\\']);
          result := result + ['\\'];
        }
      } else {
        UnescapeAdvance(s, start, i, result, [c]);
        result := result + [c];
      }
    }
  }

  /** Appending what `Unescape` makes of `s[i..j]` keeps the loop invariant
      of `UnescapeString`. */
  lemma UnescapeAdvance(s: string, i: nat, j: nat, result: string, piece: string)
    requires i <= j <= |s|
    requires result + Unescape(s[i..]) == Unescape(s)
    requires Unescape(s[i..]) == piece + Unescape(s[j..])
    ensures (result + piece) + Unescape(s[j..]) == Unescape(s)
  {
    assert (result + piece) + Unescape(s[j..]) == result + (piece + Unescape(s[j..]));
  }

  /** `Unescape` from position `i` on: one character, or a backslash with
      what follows it, then the rest. */
  lemma UnescapeAt(s: string, i: nat)
    requires i < |s|
    ensures s[i] != '\\' ==> Unescape(s[i..]) == [s[i]] + Unescape(s[i + 1..])
    ensures s[i] == '\\' && i + 1 == |s| ==> Unescape(s[i..]) == ['\\'] + Unescape(s[i + 1..])
    ensures s[i] == '\\' && i + 1 < |s| ==>
      Unescape(s[i..]) == (match DecodeEscape(s[i + 1]) case Some(d) => [d] case None => ['\\', s[i + 1]])
                          + Unescape(s[i + 2..])
  {
    assert s[i..][1..] == s[i + 1..];
    if i + 1 < |s| {
      assert s[i..][2..] == s[i + 2..];
    }
  }

  /** The STRING rule of `build_ast`: the token includes its quotes. */
  function StringToken(token: string): (r: Value)
    requires |token| >= 2
    ensures r.String? && |r.text| <= |token| - 2
    ensures (forall i :: 1 <= i < |token| - 1 ==> token[i] != '\\') ==> r.text == token[1..|token| - 1]
  {
    var inner := token[1..|token| - 1];
    if forall i :: 0 <= i < |inner| ==> inner[i] != '\\' then
      UnescapePlain(inner);
      String(Unescape(inner))
    else
      String(Unescape(inner))
  }

  /** A string without backslashes is returned unchanged. */
  lemma {:induction false} UnescapePlain(s: string)
    requires forall i :: 0 <= i < |s| ==> s[i] != '\\'
    ensures Unescape(s) == s
    decreases |s|
  {
    if s != [] {
      UnescapePlain(s[1..]);
    }
  }

  /** An unknown escape keeps both its characters. */
  lemma UnknownEscapeKept(c: char, rest: string)
    requires c !in "nrt\\\""
    ensures Unescape(['\\', c] + rest) == ['\\', c] + Unescape(rest)
  {
    var s := ['\\', c] + rest;
    assert s[2..] == rest;
  }

  /** `s` splits into whole units of `Unescape`: single characters other
      than a backslash, and a backslash with the character after it. No
      backslash is left waiting for a partner at the end. */
  predicate WholeEscapes(s: string)
    decreases |s|
  {
    s == []
    || (s[0] != '\\' && WholeEscapes(s[1..]))
    || (s[0] == '\\' && |s| >= 2 && WholeEscapes(s[2..]))
  }

  /** Unescaping works unit by unit: after a string of whole units it
      starts afresh on whatever follows. */
  lemma {:induction false} UnescapeAppend(p: string, q: string)
    requires WholeEscapes(p)
    ensures Unescape(p + q) == Unescape(p) + Unescape(q)
    decreases |p|
  {
    if p == [] {
      assert p + q == q;
    } else if p[0] != '\\' {
      assert (p + q)[1..] == p[1..] + q;
      UnescapeAppend(p[1..], q);
    } else {
      assert (p + q)[1] == p[1];
      assert (p + q)[2..] == p[2..] + q;
      UnescapeAppend(p[2..], q);
    }
  }

  /** A lone trailing backslash is kept after any string of whole units. */
  lemma TrailingBackslashKept(s: string)
    requires WholeEscapes(s)
    ensures Unescape(s + ['\\']) == Unescape(s) + ['\\']
  {
    UnescapeAppend(s, ['\\']);
  }
}
