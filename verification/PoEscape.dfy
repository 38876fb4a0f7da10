/** The escaping of translations: two passes that amount to one, undone by reading the PO string. */
module PoEscape {
  import opened Wrappers
  import opened Text
  import opened Substrings
  import opened PoCatalog

  function EscapedChar(c: char): string {
    if c == '\\' then "\\\\" else if c == '"' then "\\\"" else [c]
  }

  /** Each character escaped on its own. */
  function OnePass(s: string): string {
    if s == "" then "" else EscapedChar(s[0]) + OnePass(s[1..])
  }

  /** The text of a quoted PO string; a bare quote or an unknown escape is none. */
  function Unescaped(s: string): Option<string> {
    if s == "" then Some("")
    else if s[0] == '"' then None
    else if s[0] == '\\' then
      if |s| < 2 || EscapeOf(s[1]).None? then None
      else match Unescaped(s[2..]) { case None => None case Some(t) => Some([EscapeOf(s[1]).value] + t) }
    else match Unescaped(s[1..]) { case None => None case Some(t) => Some([s[0]] + t) }
  }

  function EscapeOf(c: char): Option<char> {
    if c == '\\' || c == '"' then Some(c)
    else if c == 'n' then Some('\n')
    else if c == 't' then Some('\t')
    else if c == 'r' then Some('\r')
    else None
  }

  lemma {:induction false} ReplaceHead(s: string, c: char, repl: string)
    requires s != ""
    ensures Replace(s, [c], repl) == (if s[0] == c then repl else [s[0]]) + Replace(s[1..], [c], repl)
  {
    assert [c] <= s <==> s[0] == c;
    assert s[|[c]|..] == s[1..];
  }

  lemma {:induction false} ReplaceCharConcat(a: string, b: string, c: char, repl: string)
    ensures Replace(a + b, [c], repl) == Replace(a, [c], repl) + Replace(b, [c], repl)
  {
    if a == "" {
      assert a + b == b;
    } else {
      var head := if a[0] == c then repl else [a[0]];
      assert (a + b)[1..] == a[1..] + b && (a + b)[0] == a[0];
      ReplaceHead(a + b, c, repl);
      ReplaceHead(a, c, repl);
      ReplaceCharConcat(a[1..], b, c, repl);
      Associate(head, Replace(a[1..], [c], repl), Replace(b, [c], repl));
    }
  }

  lemma {:induction false} Associate(a: string, b: string, c: string)
    ensures a + (b + c) == (a + b) + c
  {
  }

  lemma {:induction false} ReplaceOneChar(x: char, c: char, repl: string)
    ensures Replace([x], [c], repl) == if x == c then repl else [x]
  {
    ReplaceHead([x], c, repl);
    assert [x][1..] == "" && Replace("", [c], repl) == "";
    assert repl + "" == repl && [x] + "" == [x];
  }

  lemma {:induction false} TwoPassesOnOne(c: char)
    ensures Escaped([c]) == EscapedChar(c)
  {
    ReplaceOneChar(c, '\\', "\\\\");
    if c == '\\' {
      assert "\\\\" == ['\\'] + ['\\'];
      ReplaceCharConcat(['\\'], ['\\'], '"', "\\\"");
      ReplaceOneChar('\\', '"', "\\\"");
    } else {
      ReplaceOneChar(c, '"', "\\\"");
    }
  }

  /** The second pass does not touch what the first produced. */
  lemma {:induction false} EscapedIsOnePass(s: string)
    ensures Escaped(s) == OnePass(s)
  {
    if s != "" {
      assert s == [s[0]] + s[1..];
      EscapedIsOnePass(s[1..]);
      ReplaceCharConcat([s[0]], s[1..], '\\', "\\\\");
      ReplaceCharConcat(Replace([s[0]], "\\", "\\\\"), Replace(s[1..], "\\", "\\\\"), '"', "\\\"");
      TwoPassesOnOne(s[0]);
    }
  }

  /** Every translation is read back as it was. */
  lemma {:induction false} EscapeRoundTrips(s: string)
    ensures Unescaped(Escaped(s)) == Some(s)
  {
    EscapedIsOnePass(s);
    if s != "" {
      EscapeRoundTrips(s[1..]);
      EscapedIsOnePass(s[1..]);
      var rest := OnePass(s[1..]);
      if s[0] == '\\' || s[0] == '"' {
        assert OnePass(s)[2..] == rest;
      } else {
        assert OnePass(s)[1..] == rest;
      }
      assert [s[0]] + s[1..] == s;
    }
  }

  /** Every quote stands behind a backslash. */
  predicate QuotesEscaped(s: string) {
    forall i :: 0 <= i < |s| && s[i] == '"' ==> i > 0 && s[i - 1] == '\\'
  }

  /** An escaped translation has no bare quote, and as many lines as it had. */
  lemma {:induction false} EscapedIsQuotable(s: string)
    ensures QuotesEscaped(Escaped(s))
    ensures Free(Escaped(s), '\n') <==> Free(s, '\n')
    ensures Escaped(s) == "" <==> s == ""
  {
    EscapedIsOnePass(s);
    if s != "" {
      EscapedIsQuotable(s[1..]);
      EscapedIsOnePass(s[1..]);
      var head, rest := EscapedChar(s[0]), OnePass(s[1..]);
      assert s == [s[0]] + s[1..];
      forall i | 0 <= i < |OnePass(s)| && OnePass(s)[i] == '"'
        ensures i > 0 && OnePass(s)[i - 1] == '\\'
      {
        if i >= |head| {
          assert rest[i - |head|] == '"';
        }
      }
    }
  }

  // ── What may stand between quotes ──

  /** A backslash takes the character after it along, and no other quote occurs. */
  predicate IsQuotable(s: string) {
    s == "" || (if s[0] == '\\' then |s| >= 2 && IsQuotable(s[2..]) else s[0] != '"' && IsQuotable(s[1..]))
  }

  /** The text up to its first quote. */
  function UpToQuote(s: string): (t: string)
    ensures t <= s && Free(t, '"')
    ensures t == s || s[|t|] == '"'
  {
    if s == "" || s[0] == '"' then "" else [s[0]] + UpToQuote(s[1..])
  }

  lemma {:induction false} QuotableQuotes(s: string)
    requires IsQuotable(s)
    ensures QuotesEscaped(s)
  {
    if s != "" {
      var n := if s[0] == '\\' then 2 else 1;
      QuotableQuotes(s[n..]);
      forall i | 0 <= i < |s| && s[i] == '"'
        ensures i > 0 && s[i - 1] == '\\'
      {
        if i >= n {
          assert s[n..][i - n] == '"';
        }
      }
    }
  }

  lemma {:induction false} UpToQuoteWhole(s: string)
    ensures UpToQuote(s) == s <==> Free(s, '"')
  {
    if s != "" && s[0] != '"' {
      UpToQuoteWhole(s[1..]);
      assert s == [s[0]] + s[1..];
    }
  }

  /** Cut off at an escaped quote, a text ends in the middle of an escape. */
  lemma {:induction false} CutIsUnquotable(s: string)
    requires IsQuotable(s) && !Free(s, '"')
    ensures UpToQuote(s) != "" && !IsQuotable(UpToQuote(s))
  {
    var t := UpToQuote(s);
    assert s == [s[0]] + s[1..];
    assert t == [s[0]] + UpToQuote(s[1..]);
    if s[0] != '\\' {
      CutIsUnquotable(s[1..]);
      assert t[1..] == UpToQuote(s[1..]);
    } else if s[1] == '"' {
      assert t == "\\";
    } else {
      assert s == [s[0], s[1]] + s[2..];
      CutIsUnquotable(s[2..]);
      assert s[1..][1..] == s[2..];
      assert t[2..] == UpToQuote(s[2..]);
    }
  }
}
