/**
 * How the job scheduler turns a job's command line into the program and its
 * arguments: split on spaces, except inside single or double quotes, the
 * quotes themselves being dropped. There is no escaping and no shell.
 */
module CommandParser {
  import opened JsBuiltins

  /** The tokenizer's state: finished tokens, the token being read, and the open quote if any. */
  datatype Tokenizer = Tokenizer(parts: seq<string>, current: string, inQuote: bool, quoteChar: Option<char>)

  const Start := Tokenizer([], "", false, None)

  predicate IsQuote(c: char) {
    c == '"' || c == '\''
  }

  /** The token being read, if it is not empty. */
  function Pending(current: string): seq<string> {
    if current != "" then [current] else []
  }

  function Step(st: Tokenizer, c: char): Tokenizer {
    if IsQuote(c) && !st.inQuote then st.(inQuote := true, quoteChar := Some(c))
    else if st.quoteChar == Some(c) && st.inQuote then st.(inQuote := false, quoteChar := None)
    else if c == ' ' && !st.inQuote then
      st.(parts := st.parts + Pending(st.current), current := "")
    else st.(current := st.current + [c])
  }

  /** The tokenizer after reading `s` from state `st`. */
  function Run(st: Tokenizer, s: string): Tokenizer
    decreases |s|
  {
    if s == [] then st else Step(Run(st, s[..|s| - 1]), s[|s| - 1])
  }

  /** The arguments of a command line: the program first, then its arguments. */
  function Tokens(command: string): seq<string> {
    var st := Run(Start, command);
    st.parts + Pending(st.current)
  }

  method ParseCommand(command: string) returns (parts: seq<string>)
    ensures parts == Tokens(command)
  {
    parts := [];
    var current := "";
    var inQuote := false;
    var quoteChar: Option<char> := None;
    for i := 0 to |command|
      invariant Tokenizer(parts, current, inQuote, quoteChar) == Run(Start, command[..i])
    {
      var c := command[i];
      assert command[..i + 1][..i] == command[..i];
      if (c == '"' || c == '\'') && !inQuote {
        inQuote := true;
        quoteChar := Some(c);
      } else if quoteChar == Some(c) && inQuote {
        inQuote := false;
        quoteChar := None;
      } else if c == ' ' && !inQuote {
        if current != "" {
          parts := parts + [current];
          current := "";
        }
      } else {
        current := current + [c];
      }
    }
    assert command[..|command|] == command;
    if current != "" {
      parts := parts + [current];
    }
  }

  // --- properties -------------------------------------------------------

  /** The state is consistent: a quote character is remembered exactly while a quote is open, and no finished token is empty. */
  ghost predicate Consistent(st: Tokenizer) {
    (st.inQuote <==> st.quoteChar.Some?)
    && (st.quoteChar.Some? ==> IsQuote(st.quoteChar.value))
    && forall k :: 0 <= k < |st.parts| ==> st.parts[k] != ""
  }

  lemma {:induction false} RunConsistent(st: Tokenizer, s: string)
    requires Consistent(st)
    ensures Consistent(Run(st, s))
    decreases |s|
  {
    if s != [] {
      RunConsistent(st, s[..|s| - 1]);
    }
  }

  /** No token is empty. */
  lemma NoEmptyToken(command: string)
    ensures forall k :: 0 <= k < |Tokens(command)| ==> Tokens(command)[k] != ""
  {
    RunConsistent(Start, command);
  }

  lemma {:induction false} RunAppend(st: Tokenizer, s: string, t: string)
    ensures Run(st, s + t) == Run(Run(st, s), t)
    decreases |t|
  {
    if t == [] {
      assert s + t == s;
    } else {
      assert (s + t)[..|s + t| - 1] == s + t[..|t| - 1];
      RunAppend(st, s, t[..|t| - 1]);
    }
  }

  /** The non-empty pieces of a sequence of strings, in order. */
  function NonEmpty(pieces: seq<string>): seq<string>
    decreases |pieces|
  {
    if pieces == [] then [] else NonEmpty(pieces[..|pieces| - 1]) + Pending(pieces[|pieces| - 1])
  }

  predicate QuoteFree(s: string) {
    forall k :: 0 <= k < |s| ==> !IsQuote(s[k])
  }

  lemma {:induction false} QuoteFreeRun(s: string)
    requires QuoteFree(s)
    ensures var pieces := Split(s, ' '); var st := Run(Start, s);
      !st.inQuote && st.quoteChar.None?
      && st.parts == NonEmpty(pieces[..|pieces| - 1])
      && st.current == pieces[|pieces| - 1]
    decreases |s|
  {
    if s != [] {
      var init := s[..|s| - 1];
      assert QuoteFree(init) by {
        forall k | 0 <= k < |init| ensures !IsQuote(init[k]) {
          assert init[k] == s[k];
        }
      }
      QuoteFreeRun(init);
      var pieces := Split(init, ' ');
      if s[|s| - 1] == ' ' {
        var pieces' := pieces + [""];
        assert Split(s, ' ') == pieces';
        assert pieces'[..|pieces'| - 1] == pieces;
        assert pieces == pieces[..|pieces| - 1] + [pieces[|pieces| - 1]];
      } else {
        var pieces' := pieces[..|pieces| - 1] + [pieces[|pieces| - 1] + [s[|s| - 1]]];
        assert Split(s, ' ') == pieces';
        assert pieces'[..|pieces'| - 1] == pieces[..|pieces| - 1];
      }
    }
  }

  /** Without quotes, the tokens are the non-empty pieces of splitting on single spaces. */
  lemma QuoteFreeIsSplit(command: string)
    requires QuoteFree(command)
    ensures Tokens(command) == NonEmpty(Split(command, ' '))
  {
    QuoteFreeRun(command);
    var pieces := Split(command, ' ');
    assert pieces == pieces[..|pieces| - 1] + [pieces[|pieces| - 1]];
  }

  /** Text inside quotes of kind `q`: it contains no `q`. */
  predicate Unquoted(text: string, q: char) {
    forall k :: 0 <= k < |text| ==> text[k] != q
  }

  /** Inside an open quote every character other than the closing quote is kept, spaces and the other quote kind included. */
  lemma {:induction false} InsideQuote(st: Tokenizer, text: string)
    requires st.inQuote && st.quoteChar.Some? && Unquoted(text, st.quoteChar.value)
    ensures Run(st, text) == st.(current := st.current + text)
    decreases |text|
  {
    if text == [] {
      assert st.current + text == st.current;
    } else {
      var init := text[..|text| - 1];
      assert Unquoted(init, st.quoteChar.value) by {
        forall k | 0 <= k < |init| ensures init[k] != st.quoteChar.value {
          assert init[k] == text[k];
        }
      }
      InsideQuote(st, init);
      assert st.current + init + [text[|text| - 1]] == st.current + text;
    }
  }

  /**
   * A quoted segment `q text q`, read outside any quote, appends `text` to the
   * token being read, whatever spaces or quotes of the other kind it holds, and
   * leaves the tokenizer outside any quote.
   */
  lemma QuotedSegment(st: Tokenizer, q: char, text: string)
    requires !st.inQuote && IsQuote(q) && Unquoted(text, q)
    ensures Run(st, [q] + text + [q]) == st.(current := st.current + text, inQuote := false, quoteChar := None)
  {
    var quoted := Step(st, q);
    assert Run(st, [q]) == quoted by {
      assert [q][..0] == [];
    }
    RunAppend(st, [q], text);
    InsideQuote(quoted, text);
    RunAppend(st, [q] + text, [q]);
    assert Run(Run(st, [q] + text), [q]) == Step(Run(st, [q] + text), q) by {
      assert [q][..0] == [];
    }
  }

  /** An unterminated quote runs to the end of the command: everything after it is one token. */
  lemma UnterminatedQuote(st: Tokenizer, q: char, text: string)
    requires !st.inQuote && IsQuote(q) && Unquoted(text, q)
    ensures Run(st, [q] + text) == st.(current := st.current + text, inQuote := true, quoteChar := Some(q))
  {
    var quoted := Step(st, q);
    assert Run(st, [q]) == quoted by {
      assert [q][..0] == [];
    }
    RunAppend(st, [q], text);
    InsideQuote(quoted, text);
  }

  /** `prog "a b"` gives the program and one argument with the space kept. */
  lemma QuotedArgument(prog: string, arg: string)
    requires prog != "" && QuoteFree(prog) && forall k :: 0 <= k < |prog| ==> prog[k] != ' '
    requires arg != "" && Unquoted(arg, '"')
    ensures Tokens(prog + " " + ("\"" + arg + "\"")) == [prog, arg]
  {
    QuoteFreeRun(prog);
    SplitWithoutSeparator(prog, ' ');
    assert [prog][..0] == [];
    var st := Run(Start, prog);
    assert st == Tokenizer([], prog, false, None);
    var s1 := prog + " ";
    assert s1[..|s1| - 1] == prog;
    var afterSpace := Run(Start, s1);
    assert afterSpace == Tokenizer([prog], "", false, None);
    var seg := "\"" + arg + "\"";
    assert seg == ['"'] + arg + ['"'];
    RunAppend(Start, s1, seg);
    QuotedSegment(afterSpace, '"', arg);
    assert Run(Start, s1 + seg) == Tokenizer([prog], "" + arg, false, None);
    assert "" + arg == arg;
  }

  /** A string without the separator splits into itself alone. */
  lemma {:induction false} SplitWithoutSeparator(s: string, sep: char)
    requires forall k :: 0 <= k < |s| ==> s[k] != sep
    ensures Split(s, sep) == [s]
    decreases |s|
  {
    if s != [] {
      SplitWithoutSeparator(s[..|s| - 1], sep);
      assert s[..|s| - 1] + [s[|s| - 1]] == s;
    }
  }
}
