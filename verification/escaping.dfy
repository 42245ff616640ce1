/**
  Escaping of dates for the MarkdownV2 target, where `-` is a reserved
  character: every `-` is written as `\-`, every other character as itself.
 */
module Escaping {

  /** The number of `-` characters in `s`. */
  function Hyphens(s: string): nat
  {
    if s == [] then 0 else (if s[0] == '-' then 1 else 0) + Hyphens(s[1..])
  }

  function Escape(s: string): (r: string)
  {
    if s == [] then []
    else (if s[0] == '-' then "\\-" else [s[0]]) + Escape(s[1..])
  }

  /** Drops the backslash in front of every `-` that has one. */
  function Unescape(r: string): (s: string)
  {
    if r == [] then []
    else if |r| >= 2 && r[0] == '\\' && r[1] == '-' then "-" + Unescape(r[2..])
    else [r[0]] + Unescape(r[1..])
  }

  /** Escaping grows the text by one character per `-`. */
  lemma {:induction false} EscapeLength(s: string)
    ensures |Escape(s)| == |s| + Hyphens(s)
  {
    if s != [] {
      EscapeLength(s[1..]);
    }
  }

  /** In escaped text every `-` is preceded by a backslash. */
  lemma {:induction false} EscapeGuardsHyphens(s: string)
    ensures forall i | 0 <= i < |Escape(s)| && Escape(s)[i] == '-' :: i > 0 && Escape(s)[i - 1] == '\\'
  {
    if s != [] {
      EscapeGuardsHyphens(s[1..]);
      var head := if s[0] == '-' then "\\-" else [s[0]];
      var rest := Escape(s[1..]);
      assert Escape(s) == head + rest;
      if rest != [] {
        EscapeHead(s[1..]);
      }
      forall i | 0 <= i < |Escape(s)| && Escape(s)[i] == '-'
        ensures i > 0 && Escape(s)[i - 1] == '\\'
      {
        if i >= |head| {
          assert rest[i - |head|] == '-';
        }
      }
    }
  }

  /** Escaped text never starts with `-`. */
  lemma EscapeHead(s: string)
    requires Escape(s) != []
    ensures Escape(s)[0] != '-'
  {
  }

  /** Removing the inserted backslashes recovers the original date. */
  lemma {:induction false} UnescapeEscape(s: string)
    ensures Unescape(Escape(s)) == s
  {
    if s != [] {
      UnescapeEscape(s[1..]);
      var rest := Escape(s[1..]);
      if s[0] == '-' {
        assert Escape(s) == "\\-" + rest;
        assert Escape(s)[2..] == rest;
      } else {
        assert Escape(s) == [s[0]] + rest;
        assert Escape(s)[1..] == rest;
        if s[0] == '\\' && rest != [] {
          EscapeHead(s[1..]);
        }
      }
    }
  }

  /** Text without `-` is left as it is. */
  lemma {:induction false} EscapeWithoutHyphens(s: string)
    requires Hyphens(s) == 0
    ensures Escape(s) == s
  {
    if s != [] {
      EscapeWithoutHyphens(s[1..]);
    }
  }
}
