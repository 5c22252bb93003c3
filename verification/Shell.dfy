/** Quoting for a POSIX shell (src/agent/claude.rs), read back as sections
    2.2.1, 2.2.2 and 2.3 of the POSIX Shell Command Language say. */
module Shell {
  import opened Basics

  // ----- Writing -----

  predicate IsAlphanumeric(c: char) {
    'a' <= c <= 'z' || 'A' <= c <= 'Z' || '0' <= c <= '9'
  }

  /** What is left unquoted. */
  predicate IsSafe(c: char) {
    IsAlphanumeric(c) || c in "/._-+=:,@%"
  }

  predicate AllSafe(s: string) {
    forall i :: 0 <= i < |s| ==> IsSafe(s[i])
  }

  /** Every `'` closes the quotes, is escaped, and opens them again. */
  function Escaped(s: string): string {
    if s == "" then "" else (if s[0] == '\'' then "'\\''" else [s[0]]) + Escaped(s[1..])
  }

  function ShellQuote(s: string): string {
    if s != "" && AllSafe(s) then s else "'" + Escaped(s) + "'"
  }

  /** The hook command line. */
  function HookCommand(bin: string, socket: string): string {
    ShellQuote(bin) + " agent-hook --socket " + ShellQuote(socket)
  }

  // ----- Reading -----

  predicate EndsWord(c: char) {
    c == ' ' || c == '\t'
  }

  /** Unquoted, these are not the characters themselves: operators, the start
      of an expansion or a comment, double quotes, pattern characters. */
  predicate IsSpecial(c: char) {
    c in "|&;<>()$`\"*?[#~\n"
  }

  /** A word read and what is left of the line. */
  datatype Read = Read(word: string, rest: string)

  function Prepend(c: char, tail: Option<Read>): Option<Read> {
    match tail
    case None => None
    case Some(r) => Some(Read([c] + r.word, r.rest))
  }

  /** The rest of a word, outside quotes: up to a blank or the end. `None` for
      a line that means anything but its words. */
  function ReadWord(s: string): Option<Read>
    decreases |s|
  {
    if s == "" || EndsWord(s[0]) then Some(Read("", s))
    else if s[0] == '\'' then ReadQuoted(s[1..])
    else if s[0] == '\\' then
      if |s| < 2 then None
      else if s[1] == '\n' then ReadWord(s[2..])
      else Prepend(s[1], ReadWord(s[2..]))
    else if IsSpecial(s[0]) then None
    else Prepend(s[0], ReadWord(s[1..]))
  }

  /** The rest of a word, within single quotes: every character is itself. */
  function ReadQuoted(s: string): Option<Read>
    decreases |s|
  {
    if s == "" then None
    else if s[0] == '\'' then ReadWord(s[1..])
    else Prepend(s[0], ReadQuoted(s[1..]))
  }

  lemma {:induction false} ReadWordShrinks(s: string)
    ensures ReadWord(s).Some? ==> |ReadWord(s).value.rest| <= |s|
    ensures ReadWord(s).Some? && s != "" && !EndsWord(s[0]) ==> |ReadWord(s).value.rest| < |s|
    ensures ReadQuoted(s).Some? ==> |ReadQuoted(s).value.rest| <= |s|
    decreases |s|
  {
    if s != "" {
      ReadWordShrinks(s[1..]);
      if |s| >= 2 {
        ReadWordShrinks(s[2..]);
      }
    }
  }

  /** The words of a line. */
  function Words(s: string): Option<seq<string>>
    decreases |s|
  {
    if s == "" then Some([])
    else if EndsWord(s[0]) then Words(s[1..])
    else
      ReadWordShrinks(s);
      match ReadWord(s)
      case None => None
      case Some(r) =>
        match Words(r.rest)
        case None => None
        case Some(more) => Some([r.word] + more)
  }

  // ----- Round trip -----

  lemma SafeIsPlain(c: char)
    requires IsSafe(c)
    ensures !EndsWord(c) && c != '\'' && c != '\\' && !IsSpecial(c)
  {
  }

  lemma {:induction false} ReadSafe(s: string, rest: string)
    requires AllSafe(s) && (rest == "" || EndsWord(rest[0]))
    ensures ReadWord(s + rest) == Some(Read(s, rest))
  {
    hide IsSafe, IsSpecial;
    if s == "" {
      assert s + rest == rest;
    } else {
      assert (s + rest)[1..] == s[1..] + rest;
      ReadSafe(s[1..], rest);
      SafeIsPlain(s[0]);
      assert s == [s[0]] + s[1..];
    }
  }

  /** The way out of the quotes and back: reads as the quote itself. */
  lemma ReadQuoteMark(tail: string)
    ensures ReadQuoted("'\\''" + tail) == Prepend('\'', ReadQuoted(tail))
  {
    var s := "'\\''" + tail;
    var out := s[1..];
    var back := out[2..];
    assert out == "\\''" + tail && back == "'" + tail && back[1..] == tail;
    assert ReadWord(back) == ReadQuoted(tail);
    assert ReadWord(out) == Prepend('\'', ReadWord(back));
  }

  lemma ReadPlain(c: char, tail: string)
    requires c != '\''
    ensures ReadQuoted([c] + tail) == Prepend(c, ReadQuoted(tail))
  {
    assert ([c] + tail)[1..] == tail;
  }

  lemma {:induction false} ReadEscaped(s: string, rest: string)
    requires rest == "" || EndsWord(rest[0])
    ensures ReadQuoted(Escaped(s) + "'" + rest) == Some(Read(s, rest))
  {
    var line := Escaped(s) + "'" + rest;
    if s == "" {
      assert line[1..] == rest;
    } else {
      hide ReadQuoted;
      var tail := Escaped(s[1..]) + "'" + rest;
      ReadEscaped(s[1..], rest);
      assert s == [s[0]] + s[1..];
      if s[0] == '\'' {
        assert line == "'\\''" + tail;
        ReadQuoteMark(tail);
      } else {
        assert line == [s[0]] + tail;
        ReadPlain(s[0], tail);
      }
    }
  }

  /** Any string is read back as one word equal to it. */
  lemma QuoteRoundTrip(s: string, rest: string)
    requires rest == "" || EndsWord(rest[0])
    ensures ReadWord(ShellQuote(s) + rest) == Some(Read(s, rest))
  {
    hide ReadQuoted, IsSafe, Escaped;
    if s != "" && AllSafe(s) {
      ReadSafe(s, rest);
    } else {
      assert (ShellQuote(s) + rest)[1..] == Escaped(s) + "'" + rest;
      ReadEscaped(s, rest);
    }
  }

  /** Letters, digits and a few signs are left as they are; anything else is
      put between quotes. */
  lemma QuotedExactlyWhen(s: string)
    ensures ShellQuote(s) == s <==>
              s != "" && forall c :: c in s ==> 'a' <= c <= 'z' || 'A' <= c <= 'Z' || '0' <= c <= '9' || c in "/._-+=:,@%"
    ensures ShellQuote(s) != s ==> |ShellQuote(s)| >= 2 && ShellQuote(s)[0] == '\'' == ShellQuote(s)[|ShellQuote(s)| - 1]
  {
    hide Escaped;
    EscapedGrows(s);
    assert AllSafe(s) <==> forall c :: c in s ==> IsSafe(c);
  }

  lemma {:induction false} EscapedGrows(s: string)
    ensures |Escaped(s)| >= |s|
  {
    if s != "" {
      EscapedGrows(s[1..]);
    }
  }

  /** A quoted word at the start of a line is its first word. */
  lemma QuotedFirst(s: string, rest: string, more: seq<string>)
    requires rest == "" || EndsWord(rest[0])
    requires Words(rest) == Some(more)
    ensures Words(ShellQuote(s) + rest) == Some([s] + more)
  {
    hide ReadWord;
    QuoteRoundTrip(s, rest);
    assert ShellQuote(s) != "" && !EndsWord(ShellQuote(s)[0]);
  }

  /** The hook command is always four words, both paths intact. */
  lemma HookCommandIsFourWords(bin: string, socket: string)
    ensures Words(HookCommand(bin, socket)) == Some([bin, "agent-hook", "--socket", socket])
  {
    hide Words, ShellQuote;
    var last := ShellQuote(socket);
    NoWords();
    assert last + "" == last;
    QuotedFirst(socket, "", []);
    assert [socket] + [] == [socket];
    var third := ShellQuote("--socket") + (" " + last);
    SkipBlank(last);
    QuotedFirst("--socket", " " + last, [socket]);
    assert ["--socket"] + [socket] == ["--socket", socket];
    SkipBlank(third);
    var second := ShellQuote("agent-hook") + (" " + third);
    QuotedFirst("agent-hook", " " + third, ["--socket", socket]);
    assert ["agent-hook"] + ["--socket", socket] == ["agent-hook", "--socket", socket];
    SkipBlank(second);
    QuotedFirst(bin, " " + second, ["agent-hook", "--socket", socket]);
    PlainWord("agent-hook");
    PlainWord("--socket");
    assert HookCommand(bin, socket) == ShellQuote(bin) + (" " + second);
    assert [bin] + ["agent-hook", "--socket", socket] == [bin, "agent-hook", "--socket", socket];
  }

  lemma NoWords()
    ensures Words("") == Some([])
  {
  }

  lemma SkipBlank(s: string)
    ensures Words(" " + s) == Words(s)
  {
    assert (" " + s)[1..] == s;
  }

  lemma PlainWord(s: string)
    requires s != "" && forall i :: 0 <= i < |s| ==> 'a' <= s[i] <= 'z' || s[i] == '-'
    ensures ShellQuote(s) == s
  {
    assert "/._-+=:,@%"[3] == '-';
  }
}
