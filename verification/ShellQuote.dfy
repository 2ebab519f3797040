/** Quoting arguments for a shell command line. */
module ShellQuote {
  import opened Wrappers

  predicate IsSafe(c: char) {
    '0' <= c <= '9' || 'A' <= c <= 'Z' || 'a' <= c <= 'z' || c in {'_', '-', '.', '/', '='}
  }

  /** Every single quote becomes `'\''`. */
  function EscapeQuotes(s: string): string {
    if s == "" then "" else (if s[0] == '\'' then "'\\''" else [s[0]]) + EscapeQuotes(s[1..])
  }

  function Quote(s: string): string {
    if s == "" then "''"
    else if forall c :: c in s ==> IsSafe(c) then s
    else "'" + EscapeQuotes(s) + "'"
  }

  /** Only strings of letters, digits and a few other characters stay as they are. */
  lemma QuotesOnlyIfNeeded(s: string)
    ensures Quote(s) == s <==>
            s != "" && forall c :: c in s ==>
              || '0' <= c <= '9' || 'A' <= c <= 'Z' || 'a' <= c <= 'z'
              || c == '_' || c == '-' || c == '.' || c == '/' || c == '='
  {
    if s != "" && !(forall c :: c in s ==> IsSafe(c)) {
      EscapesGrow(s);
      assert |Quote(s)| > |s|;
    }
  }

  lemma {:induction false} EscapesGrow(s: string)
    ensures |EscapeQuotes(s)| >= |s|
  {
    if s != "" {
      EscapesGrow(s[1..]);
    }
  }

  // ----- The shell's side -----

  /** Characters that end or change a word when they stand unquoted: section 2.2 of the Shell
      Command Language, IEEE Std 1003.1-2017. Backslash and single quote are handled apart. */
  predicate IsSpecial(c: char) {
    c in {'|', '&', ';', '<', '>', '(', ')', '$', '`', '"', '\n', '*', '?', '[', '#', '~', '\0'}
  }

  /** Splits a command line into words and removes their quoting; `word` is the word being read.
      Fails on an unquoted special character, an unterminated quote or a NUL. */
  function Split(line: string, word: Option<string>): Option<seq<string>>
    decreases |line|
  {
    if line == "" then
      Some(if word.Some? then [word.value] else [])
    else if line[0] == ' ' || line[0] == '\t' then
      match word
      case None => Split(line[1..], None)
      case Some(w) => Prepend(w, Split(line[1..], None))
    else if line[0] == '\'' then
      SplitQuoted(line[1..], Begun(word))
    else if line[0] == '\\' then
      // Section 2.2.1: the next character stands for itself, and a newline disappears.
      if |line| == 1 || line[1] == '\0' then None
      else if line[1] == '\n' then Split(line[2..], word)
      else Split(line[2..], Some(Begun(word) + [line[1]]))
    else if IsSpecial(line[0]) then None
    else Split(line[1..], Some(Begun(word) + [line[0]]))
  }

  /** Section 2.2.2: up to the next single quote every character stands for itself. */
  function SplitQuoted(line: string, word: string): Option<seq<string>>
    decreases |line|
  {
    if line == "" || line[0] == '\0' then None
    else if line[0] == '\'' then Split(line[1..], Some(word))
    else SplitQuoted(line[1..], word + [line[0]])
  }

  function Begun(word: Option<string>): string {
    if word.Some? then word.value else ""
  }

  function Prepend(w: string, ws: Option<seq<string>>): Option<seq<string>> {
    if ws.Some? then Some([w] + ws.value) else None
  }

  // ----- The round trip -----

  lemma {:induction false} SafeIsRead(s: string, rest: string, word: Option<string>)
    requires s != "" && forall c :: c in s ==> IsSafe(c)
    ensures Split(s + rest, word) == Split(rest, Some(Begun(word) + s))
  {
    assert (s + rest)[1..] == s[1..] + rest;
    assert s[0] in s;
    assert Split(s + rest, word) == Split(s[1..] + rest, Some(Begun(word) + [s[0]]));
    if |s| == 1 {
      assert s[1..] + rest == rest;
      assert s == [s[0]];
    } else {
      SafeIsRead(s[1..], rest, Some(Begun(word) + [s[0]]));
      assert Begun(word) + [s[0]] + s[1..] == Begun(word) + s;
    }
  }

  lemma {:induction false} QuotedIsRead(s: string, rest: string, word: string)
    requires '\0' !in s
    ensures SplitQuoted(EscapeQuotes(s) + "'" + rest, word) == Split(rest, Some(word + s))
  {
    if s == "" {
      assert "" + "'" + rest == ['\''] + rest;
      assert word + s == word;
    } else {
      var tail := EscapeQuotes(s[1..]) + "'" + rest;
      QuotedIsRead(s[1..], rest, word + [s[0]]);
      assert word + [s[0]] + s[1..] == word + s;
      if s[0] == '\'' {
        EscapedQuoteIsRead(tail, word);
        assert EscapeQuotes(s) + "'" + rest == "'\\''" + tail;
      } else {
        assert EscapeQuotes(s) + "'" + rest == [s[0]] + tail;
      }
    }
  }

  /** Leaving the quotes for one escaped quote and entering them again. */
  lemma EscapedQuoteIsRead(tail: string, word: string)
    ensures SplitQuoted("'\\''" + tail, word) == SplitQuoted(tail, word + ['\''])
  {
    var line := "'\\''" + tail;
    assert line[1..] == "\\''" + tail;
    assert ("\\''" + tail)[2..] == "'" + tail;
    assert ("'" + tail)[1..] == tail;
    calc {
      SplitQuoted(line, word);
      Split("\\''" + tail, Some(word));
      Split("'" + tail, Some(word + ['\'']));
      SplitQuoted(tail, word + ['\'']);
    }
  }

  /** A quoted string is read back as the original, whatever follows it. */
  lemma QuoteIsRead(s: string, rest: string)
    requires '\0' !in s
    ensures Split(Quote(s) + rest, None) == Split(rest, Some(s))
  {
    if s == "" {
      EmptyIsRead(rest);
    } else if forall c :: c in s ==> IsSafe(c) {
      SafeIsRead(s, rest, None);
      assert "" + s == s;
    } else {
      assert Quote(s) == "'" + EscapeQuotes(s) + "'";
      hide *;
      UnsafeIsRead(s, rest);
    }
  }

  lemma EmptyIsRead(rest: string)
    ensures Split("''" + rest, None) == Split(rest, Some(""))
  {
    assert ("''" + rest)[1..] == "'" + rest;
    assert ("'" + rest)[1..] == rest;
  }

  lemma UnsafeIsRead(s: string, rest: string)
    requires '\0' !in s
    ensures Split("'" + EscapeQuotes(s) + "'" + rest, None) == Split(rest, Some(s))
  {
    var line := "'" + EscapeQuotes(s) + "'" + rest;
    assert line[1..] == EscapeQuotes(s) + "'" + rest;
    QuotedIsRead(s, rest, "");
    assert "" + s == s;
  }

  function QuoteAll(args: seq<string>): string {
    if args == [] then ""
    else if |args| == 1 then Quote(args[0])
    else Quote(args[0]) + " " + QuoteAll(args[1..])
  }

  /** A command line of quoted arguments splits into exactly those arguments. */
  lemma {:induction false} QuoteAllRoundTrips(args: seq<string>)
    requires forall a :: a in args ==> '\0' !in a
    ensures Split(QuoteAll(args), None) == Some(args)
  {
    if args != [] {
      var a := args[0];
      assert args == [a] + args[1..];
      if |args| == 1 {
        assert Quote(a) + "" == Quote(a);
        QuoteIsRead(a, "");
        assert Split("", Some(a)) == Some([a]);
        assert args == [a];
      } else {
        QuoteAllRoundTrips(args[1..]);
        var rest := " " + QuoteAll(args[1..]);
        QuoteIsRead(a, rest);
        assert rest[1..] == QuoteAll(args[1..]);
        assert Quote(a) + " " + QuoteAll(args[1..]) == Quote(a) + rest;
      }
    }
  }
}
