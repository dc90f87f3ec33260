/** Quoting of command arguments for a POSIX shell, and a reader for the quoting
    rules of sections 2.2.2 and 2.2.3 of the POSIX.1-2017 Shell Command Language. */
module ShellQuote {
  import opened Collections
  import opened TextOps

  const NUL: char := '\0'

  /** Characters that are left unquoted: word characters and @%+=:,./- */
  predicate Safe(c: char) {
    'a' <= c <= 'z' || 'A' <= c <= 'Z' || '0' <= c <= '9' || c in "_@%+=:,./-"
  }

  predicate AllSafe(s: string) {
    forall k :: 0 <= k < |s| ==> Safe(s[k])
  }

  /** Every single quote becomes: close quote, double-quoted single quote, open quote. */
  function Escape(s: string): string {
    if s == [] then []
    else (if s[0] == '\'' then "'\"'\"'" else [s[0]]) + Escape(s[1..])
  }

  function Quote(s: string): string {
    if s == [] then "''" else if AllSafe(s) then s else "'" + Escape(s) + "'"
  }

  /** Arguments are left as they are exactly if they are not empty and consist of
      letters, digits and _@%+=:,./- only; all others are enclosed in single quotes. */
  lemma QuotesOnlyWhenNeeded(s: string)
    ensures Quote(s) == s <==>
              s != [] && forall k :: 0 <= k < |s| ==>
                s[k] in "_@%+=:,./-" || 'a' <= s[k] <= 'z' || 'A' <= s[k] <= 'Z' || '0' <= s[k] <= '9'
    ensures Quote(s) != s ==> 2 <= |Quote(s)| && Quote(s)[0] == '\'' && Quote(s)[|Quote(s)| - 1] == '\''
  {
    EscapeIsNoShorter(s);
  }

  lemma {:induction false} EscapeIsNoShorter(s: string)
    ensures |s| <= |Escape(s)|
  {
    if s != [] {
      EscapeIsNoShorter(s[1..]);
    }
  }

  function Quoted(args: seq<string>): (r: seq<string>)
    ensures |r| == |args|
  {
    seq(|args|, k requires 0 <= k < |args| => Quote(args[k]))
  }

  method QuoteCommand(args: seq<string>) returns (cmd: string)
    ensures cmd == Join(Quoted(args), ' ')
    ensures Tokenize(cmd) == Some(args) <==> forall k :: 0 <= k < |args| ==> NUL !in args[k]
  {
    var l: seq<string> := [];
    for i := 0 to |args|
      invariant l == Quoted(args[..i])
    {
      l := l + [Quote(args[i])];
    }
    assert args[..|args|] == args;
    cmd := Join(l, ' ');
    QuoteCommandReadsBack(args);
  }

  // ---- Reading ----

  datatype Mode = Between | InWord | InSingle | InDouble

  /** Unquoted characters that stand for more than themselves; reading stops at them. */
  predicate Special(c: char) {
    c in "|&;<>()$`\\\n*?[#~!{}"
  }

  predicate Blank(c: char) {
    c == ' ' || c == '\t'
  }

  /** Splits a line into words. `word` is the word so far, `done` the words before it. */
  function Scan(s: string, mode: Mode, word: string, done: seq<string>): Option<seq<string>> {
    if s == [] then
      match mode
      case Between => Some(done)
      case InWord => Some(done + [word])
      case _ => None
    else
      var c, rest := s[0], s[1..];
      match mode
      case InSingle =>
        if c == '\'' then Scan(rest, InWord, word, done) else Scan(rest, InSingle, word + [c], done)
      case InDouble =>
        if c == '"' then Scan(rest, InWord, word, done)
        else if c in "$`\\" then None
        else Scan(rest, InDouble, word + [c], done)
      case _ =>
        if Blank(c) then Scan(rest, Between, "", if mode.InWord? then done + [word] else done)
        else if c == '\'' then Scan(rest, InSingle, word, done)
        else if c == '"' then Scan(rest, InDouble, word, done)
        else if Special(c) then None
        else Scan(rest, InWord, word + [c], done)
  }

  function Tokenize(s: string): Option<seq<string>> {
    if NUL in s then None else Scan(s, Between, "", [])
  }

  // ---- Reading what was quoted ----

  lemma SafeIsPlain(c: char)
    requires Safe(c)
    ensures !Blank(c) && !Special(c) && c != '\'' && c != '"'
  {
  }

  lemma ReadPlain(c: char, rest: string, mode: Mode, word: string, done: seq<string>)
    requires !Blank(c) && !Special(c) && c != '\'' && c != '"' && (mode == Between || mode == InWord)
    ensures Scan([c] + rest, mode, word, done) == Scan(rest, InWord, word + [c], done)
  {
    assert ([c] + rest)[1..] == rest;
  }

  lemma {:induction false} ReadSafe(s: string, rest: string, mode: Mode, word: string, done: seq<string>)
    requires AllSafe(s) && s != [] && (mode == Between || mode == InWord)
    ensures Scan(s + rest, mode, word, done) == Scan(rest, InWord, word + s, done)
  {
    var c := s[0];
    SafeIsPlain(c);
    assert s + rest == [c] + (s[1..] + rest);
    ReadPlain(c, s[1..] + rest, mode, word, done);
    if |s| == 1 {
      assert s[1..] + rest == rest && word + [c] == word + s;
    } else {
      ReadSafe(s[1..], rest, InWord, word + [c], done);
      assert word + [c] + s[1..] == word + s;
    }
  }

  /** The five characters that stand for a single quote inside single quotes. */
  lemma ReadEscapedQuote(rest: string, word: string, done: seq<string>)
    ensures Scan("'\"'\"'" + rest, InSingle, word, done) == Scan(rest, InSingle, word + "'", done)
  {
    var q := "'\"'\"'" + rest;
    assert q[1..] == "\"'\"'" + rest;
    assert q[2..] == q[1..][1..] == "'\"'" + rest;
    assert q[3..] == q[2..][1..] == "\"'" + rest;
    assert q[4..] == q[3..][1..] == "'" + rest;
    assert q[5..] == q[4..][1..] == rest;
    assert Scan(q, InSingle, word, done) == Scan(q[1..], InWord, word, done);
    assert Scan(q[1..], InWord, word, done) == Scan(q[2..], InDouble, word, done);
    assert Scan(q[2..], InDouble, word, done) == Scan(q[3..], InDouble, word + "'", done);
    assert Scan(q[3..], InDouble, word + "'", done) == Scan(q[4..], InWord, word + "'", done);
    assert Scan(q[4..], InWord, word + "'", done) == Scan(q[5..], InSingle, word + "'", done);
  }

  lemma {:induction false} ReadEscaped(s: string, rest: string, word: string, done: seq<string>)
    ensures Scan(Escape(s) + "'" + rest, InSingle, word, done) == Scan(rest, InWord, word + s, done)
  {
    if s == [] {
      assert Escape(s) + "'" + rest == "'" + rest && ("'" + rest)[1..] == rest;
      assert word + s == word;
    } else {
      var tail := Escape(s[1..]) + "'" + rest;
      ReadEscaped(s[1..], rest, word + [s[0]], done);
      assert word + [s[0]] + s[1..] == word + s;
      if s[0] == '\'' {
        assert Escape(s) + "'" + rest == "'\"'\"'" + tail;
        ReadEscapedQuote(tail, word, done);
      } else {
        assert Escape(s) + "'" + rest == [s[0]] + tail && ([s[0]] + tail)[1..] == tail;
      }
    }
  }

  /** One quoted argument reads as exactly that argument. */
  lemma ReadQuoted(s: string, rest: string, done: seq<string>)
    ensures Scan(Quote(s) + rest, Between, "", done) == Scan(rest, InWord, s, done)
  {
    assert "" + s == s;
    if s != [] && AllSafe(s) {
      ReadSafe(s, rest, Between, "", done);
    } else {
      assert Quote(s) == "'" + Escape(s) + "'";
      var line := Quote(s) + rest;
      assert line[1..] == Escape(s) + "'" + rest;
      ReadEscaped(s, rest, "", done);
    }
  }

  lemma {:induction false} ReadCommand(args: seq<string>, done: seq<string>)
    ensures Scan(Join(Quoted(args), ' '), Between, "", done) == Some(done + args)
  {
    if args == [] {
      assert done + args == done;
    } else {
      var first, others := args[0], args[1..];
      assert Quoted(args)[1..] == Quoted(others);
      ReadCommand(others, done + [first]);
      assert done + [first] + others == done + args;
      if |args| == 1 {
        ReadQuoted(first, "", done);
        assert Quote(first) + "" == Quote(first);
        assert Scan("", InWord, first, done) == Some(done + [first]);
      } else {
        var rest := " " + Join(Quoted(others), ' ');
        assert Join(Quoted(args), ' ') == Quote(first) + rest;
        ReadQuoted(first, rest, done);
        assert rest[1..] == Join(Quoted(others), ' ');
      }
    }
  }

  // ---- NUL ----

  lemma {:induction false} EscapeKeepsNul(s: string)
    ensures NUL in Escape(s) <==> NUL in s
  {
    if s != [] {
      EscapeKeepsNul(s[1..]);
      assert s == [s[0]] + s[1..];
    }
  }

  lemma QuoteKeepsNul(s: string)
    ensures NUL in Quote(s) <==> NUL in s
  {
    EscapeKeepsNul(s);
  }

  lemma {:induction false} CommandKeepsNul(args: seq<string>)
    ensures NUL in Join(Quoted(args), ' ') <==> exists k :: 0 <= k < |args| && NUL in args[k]
  {
    if args != [] {
      QuoteKeepsNul(args[0]);
      CommandKeepsNul(args[1..]);
      assert Quoted(args)[1..] == Quoted(args[1..]);
      if exists k :: 0 <= k < |args[1..]| && NUL in args[1..][k] {
        var k :| 0 <= k < |args[1..]| && NUL in args[1..][k];
        assert NUL in args[k + 1];
      }
      if exists k :: 0 < k < |args| && NUL in args[k] {
        var k :| 0 < k < |args| && NUL in args[k];
        assert NUL in args[1..][k - 1];
      }
    }
  }

  /** A shell reads a quoted command as exactly the arguments, empty ones and
      embedded quotes included, if and only if no argument contains a NUL. */
  lemma QuoteCommandReadsBack(args: seq<string>)
    ensures Tokenize(Join(Quoted(args), ' ')) == Some(args) <==> forall k :: 0 <= k < |args| ==> NUL !in args[k]
  {
    ReadCommand(args, []);
    CommandKeepsNul(args);
    assert [] + args == args;
  }
}
