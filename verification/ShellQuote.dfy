/** `shell_quote` of crates/acp-client/src/driver.rs against the shell's own reading of words. */
module ShellQuote {
  import opened Collections

  /** Each interior quote becomes `'\''`. */
  function EscapeQuotes(s: string): string {
    if s == "" then "" else (if s[0] == '\'' then "'\\''" else [s[0]]) + EscapeQuotes(s[1..])
  }

  function Quote(s: string): string {
    "'" + EscapeQuotes(s) + "'"
  }

  /** The arguments quoted and joined by single spaces. */
  function QuoteAll(args: seq<string>): string {
    if args == [] then ""
    else if |args| == 1 then Quote(args[0])
    else Quote(args[0]) + " " + QuoteAll(args[1..])
  }

  // ---------------------------------------------------------------------------------------
  // Token recognition and quote removal, sections 2.2.1 to 2.2.3 and 2.3 of the POSIX.1-2017
  // Shell Command Language, for input that is a plain list of words

  datatype Mode = Unquoted | InSingle | InDouble

  predicate IsBlankChar(c: char) { c == ' ' || c == '\t' }

  predicate StartsOperator(c: char) {
    c in ['|', '&', ';', '<', '>', '(', ')']
  }

  predicate StartsExpansion(c: char) { c == '$' || c == '`' }

  /** Characters that make an unquoted word a pattern, or its start a home directory. */
  predicate StartsPattern(c: char) { c in ['*', '?', '[', '~'] }

  predicate IsNameChar(c: char) {
    'a' <= c <= 'z' || 'A' <= c <= 'Z' || '0' <= c <= '9' || c == '_'
  }

  /** What follows a dollar sign is the name PATH and no longer name. */
  predicate NamesPath(rest: string) {
    |rest| >= 4 && rest[..4] == "PATH" && (|rest| == 4 || !IsNameChar(rest[4]))
  }

  function ExtendAll(word: Option<string>, text: string): Option<string> {
    Some((if word.Some? then word.value else "") + text)
  }

  function Extend(word: Option<string>, c: char): Option<string> {
    Some((if word.Some? then word.value else "") + [c])
  }

  /** A quote starts a word even if nothing is quoted. */
  function Started(word: Option<string>): Option<string> {
    if word.Some? then word else Some("")
  }

  function Delimited(word: Option<string>, rest: Option<seq<string>>): Option<seq<string>> {
    match rest
    case None => None
    case Some(words) => Some((if word.Some? then [word.value] else []) + words)
  }

  /**
   * The words of the first line of `s`, given the word read so far and the value of PATH; None if
   * the line is more than a list of words (an operator, a pattern, a quote that is not closed, a backslash with nothing
   * to quote, an expansion other than "$PATH" in double quotes, where no word is split).
   */
  function Scan(s: string, word: Option<string>, mode: Mode, path: string): Option<seq<string>>
    decreases |s|
  {
    if s == "" then
      if mode == Unquoted then Delimited(word, Some([])) else None
    else
      var c, rest := s[0], s[1..];
      match mode
      case InSingle =>
        if c == '\'' then Scan(rest, word, Unquoted, path) else Scan(rest, Extend(word, c), InSingle, path)
      case InDouble =>
        if c == '"' then Scan(rest, word, Unquoted, path)
        else if c == '$' && NamesPath(rest) then Scan(rest[4..], ExtendAll(word, path), InDouble, path)
        else if StartsExpansion(c) then None
        else if c == '\\' && rest != "" && rest[0] == '\n' then Scan(rest[1..], word, InDouble, path)
        else if c == '\\' && rest != "" && rest[0] in ['$', '`', '"', '\\']
        then Scan(rest[1..], Extend(word, rest[0]), InDouble, path)
        else Scan(rest, Extend(word, c), InDouble, path)
      case Unquoted =>
        if c == '\\' then
          if rest == "" then None
          else if rest[0] == '\n' then Scan(rest[1..], word, Unquoted, path)  // line continuation
          else Scan(rest[1..], Extend(word, rest[0]), Unquoted, path)
        else if c == '\'' then Scan(rest, Started(word), InSingle, path)
        else if c == '"' then Scan(rest, Started(word), InDouble, path)
        else if StartsExpansion(c) || StartsPattern(c) || StartsOperator(c) then None
        else if IsBlankChar(c) then Delimited(word, Scan(rest, None, Unquoted, path))
        else if c == '\n' || (c == '#' && word == None) then Delimited(word, Some([]))
        else Scan(rest, Extend(word, c), Unquoted, path)
  }

  function Tokenize(s: string, path: string): Option<seq<string>> {
    Scan(s, None, Unquoted, path)
  }

  // ---------------------------------------------------------------------------------------

  lemma StepInSingle(c: char, rest: string, word: string, path: string)
    requires c != '\''
    ensures Scan([c] + rest, Some(word), InSingle, path) == Scan(rest, Some(word + [c]), InSingle, path)
  {
    assert ([c] + rest)[1..] == rest;
  }

  lemma StepEscapedQuote(rest: string, word: string, path: string)
    ensures Scan("'\\''" + rest, Some(word), InSingle, path) == Scan(rest, Some(word + "'"), InSingle, path)
  {
    var s0, s1, s2 := "'\\''" + rest, "\\''" + rest, "'" + rest;
    assert s0[1..] == s1 && s1[1..][1..] == s2 && s2[1..] == rest && s1[1..][0] == '\'';
    assert Scan(s0, Some(word), InSingle, path) == Scan(s1, Some(word), Unquoted, path);
    assert Scan(s1, Some(word), Unquoted, path) == Scan(s2, Some(word + "'"), Unquoted, path);
  }

  /** Letters, "=" and ":" stand for themselves. */
  predicate IsLiteral(text: string) {
    forall i | 0 <= i < |text| :: 'a' <= text[i] <= 'z' || 'A' <= text[i] <= 'Z' || text[i] == '=' || text[i] == ':'
  }

  lemma {:induction false} ScanLiteral(text: string, rest: string, word: Option<string>, path: string)
    requires text != "" && IsLiteral(text)
    ensures Scan(text + rest, word, Unquoted, path) == Scan(rest, ExtendAll(word, text), Unquoted, path)
    decreases text
  {
    var c, tail := text[0], text[1..];
    assert (text + rest)[1..] == tail + rest;
    assert Scan(text + rest, word, Unquoted, path) == Scan(tail + rest, Extend(word, c), Unquoted, path);
    if tail == "" {
      assert tail + rest == rest && text == [c];
    } else {
      ScanLiteral(tail, rest, Extend(word, c), path);
      assert Extend(word, c).value + tail == ExtendAll(word, text).value;
    }
  }

  /** Inside the quotes, the escaped text reads back as the text. */
  lemma {:induction false} ScanEscaped(text: string, rest: string, word: string, path: string)
    ensures Scan(EscapeQuotes(text) + "'" + rest, Some(word), InSingle, path) ==
            Scan(rest, Some(word + text), Unquoted, path)
    decreases text
  {
    if text == "" {
      assert "" + "'" + rest == "'" + rest && ("'" + rest)[1..] == rest;
      assert word + text == word;
    } else {
      var c, tail := text[0], EscapeQuotes(text[1..]) + "'" + rest;
      assert word + [c] + text[1..] == word + text;
      ScanEscaped(text[1..], rest, word + [c], path);
      if c == '\'' {
        assert EscapeQuotes(text) + "'" + rest == "'\\''" + tail;
        StepEscapedQuote(tail, word, path);
      } else {
        assert EscapeQuotes(text) + "'" + rest == [c] + tail;
        StepInSingle(c, tail, word, path);
      }
    }
  }

  lemma ScanQuoted(text: string, rest: string, word: Option<string>, path: string)
    ensures Scan(Quote(text) + rest, word, Unquoted, path) == Scan(rest, ExtendAll(word, text), Unquoted, path)
  {
    var s := Quote(text) + rest;
    assert s[1..] == EscapeQuotes(text) + "'" + rest;
    ScanEscaped(text, rest, Started(word).value, path);
  }

  /** The line ends with the text, or with a newline that the words of the next line follow. */
  predicate EndsLine(tail: string) {
    tail == "" || tail[0] == '\n'
  }

  lemma ScanEnd(tail: string, word: Option<string>, path: string)
    requires EndsLine(tail)
    ensures Scan(tail, word, Unquoted, path) == Some(if word.Some? then [word.value] else [])
  {
    assert (if word.Some? then [word.value] else []) + [] == if word.Some? then [word.value] else [];
  }

  /** The shell reads back exactly the strings that were quoted, whatever characters they contain. */
  lemma {:induction false} QuoteRoundTrip(args: seq<string>, tail: string, path: string)
    requires EndsLine(tail)
    ensures Tokenize(QuoteAll(args) + tail, path) == Some(args)
    decreases args
  {
    if args == [] {
      ScanEnd(tail, None, path);
      assert "" + tail == tail;
    } else if |args| == 1 {
      ScanQuoted(args[0], tail, None, path);
      assert "" + args[0] == args[0] && args == [args[0]];
      ScanEnd(tail, Some(args[0]), path);
    } else {
      var rest := QuoteAll(args[1..]) + tail;
      QuoteRoundTrip(args[1..], tail, path);
      QuotedThenRest(args[0], rest, path);
      assert QuoteAll(args) + tail == Quote(args[0]) + " " + rest;
      assert args == [args[0]] + args[1..];
    }
  }

  lemma ScanBlank(rest: string, word: string, path: string)
    ensures Scan(" " + rest, Some(word), Unquoted, path) == Delimited(Some(word), Tokenize(rest, path))
  {
    assert (" " + rest)[1..] == rest && (" " + rest)[0] == ' ';
  }

  /** A quoted word, a space, and what comes after. */
  lemma QuotedThenRest(text: string, rest: string, path: string)
    ensures Tokenize(Quote(text) + " " + rest, path) == Delimited(Some(text), Tokenize(rest, path))
  {
    ScanQuoted(text, " " + rest, None, path);
    assert Quote(text) + " " + rest == Quote(text) + (" " + rest) && "" + text == text;
    ScanBlank(rest, text, path);
  }

  /** Different argument lists are never written the same. */
  lemma QuoteInjective(a: seq<string>, b: seq<string>)
    requires QuoteAll(a) == QuoteAll(b)
    ensures a == b
  {
    QuoteRoundTrip(a, "", "");
    QuoteRoundTrip(b, "", "");
    assert QuoteAll(a) + "" == QuoteAll(a) && QuoteAll(b) + "" == QuoteAll(b);
  }

  // ---------------------------------------------------------------------------------------

  /** The assignment that puts the binary's directory in front of the search path. */
  function PathWord(dir: string): string {
    "PATH=" + Quote(dir) + ":\"$PATH\""
  }

  /** The line written to the login shell. */
  function ExecLine(dir: Option<string>, binary: string, args: seq<string>): string {
    match dir
    case Some(d) => "exec env " + PathWord(d) + " " + Quote(binary) + " " + QuoteAll(args) + "\n"
    case None => "exec " + Quote(binary) + " " + QuoteAll(args) + "\n"
  }

  lemma LiteralThenRest(text: string, rest: string, path: string)
    requires text != "" && IsLiteral(text)
    ensures Tokenize(text + " " + rest, path) == Delimited(Some(text), Tokenize(rest, path))
  {
    ScanLiteral(text, " " + rest, None, path);
    assert text + " " + rest == text + (" " + rest) && "" + text == text;
    ScanBlank(rest, text, path);
  }

  lemma PathWordThenRest(dir: string, rest: string, path: string)
    ensures Tokenize(PathWord(dir) + " " + rest, path) ==
            Delimited(Some("PATH=" + dir + ":" + path), Tokenize(rest, path))
  {
    var inner := "$PATH\" " + rest;
    var s1 := "\"" + inner;
    var s2 := ":" + s1;
    var s3 := Quote(dir) + s2;
    assert PathWord(dir) + " " + rest == "PATH=" + s3;
    ScanLiteral("PATH=", s3, None, path);
    ScanQuoted(dir, s2, Some("PATH="), path);
    ScanLiteral(":", s1, Some("PATH=" + dir), path);
    var word := "PATH=" + dir + ":";
    assert "" + "PATH=" == "PATH=";
    assert s1[1..] == inner;
    assert Scan(s1, Some(word), Unquoted, path) == Scan(inner, Some(word), InDouble, path);
    ExpandPath(rest, word, path);
  }

  lemma ExpandPath(rest: string, word: string, path: string)
    ensures Scan("$PATH\" " + rest, Some(word), InDouble, path) == Delimited(Some(word + path), Tokenize(rest, path))
  {
    var s := "$PATH\" " + rest;
    var name := s[1..];
    assert name == "PATH" + ("\" " + rest);
    assert name[..4] == "PATH" && name[4] == '"' && name[4..] == "\" " + rest;
    assert name[4..][1..] == " " + rest;
    ScanBlank(rest, word + path, path);
    assert Scan(s, Some(word), InDouble, path) == Scan(name[4..], Some(word + path), InDouble, path);
    assert Scan(name[4..], Some(word + path), InDouble, path) == Scan(" " + rest, Some(word + path), Unquoted, path);
  }

  /** The words that come before the binary's own. */
  function ExecPrefix(dir: Option<string>, path: string): seq<string> {
    match dir
    case Some(d) => ["exec", "env", "PATH=" + d + ":" + path]
    case None => ["exec"]
  }

  function Front(dir: Option<string>): string {
    if dir.Some? then "exec env " + PathWord(dir.value) else "exec"
  }

  lemma PrefixThenRest(dir: Option<string>, rest: string, path: string, words: seq<string>)
    requires Tokenize(rest, path) == Some(words)
    ensures Tokenize(Front(dir) + " " + rest, path) ==
            Some(ExecPrefix(dir, path) + words)
  {
    if dir.Some? {
      var word := PathWord(dir.value);
      var withPath := word + " " + rest;
      PathWordThenRest(dir.value, rest, path);
      LiteralThenRest("env", withPath, path);
      LiteralThenRest("exec", "env" + " " + withPath, path);
      assert "exec env " + word + " " + rest == "exec" + " " + ("env" + " " + withPath);
      var last := "PATH=" + dir.value + ":" + path;
      assert Tokenize(withPath, path) == Some([last] + words);
      assert Tokenize("env" + " " + withPath, path) == Some(["env"] + ([last] + words));
      assert ["exec"] + (["env"] + ([last] + words)) == ExecPrefix(dir, path) + words;
    } else {
      LiteralThenRest("exec", rest, path);
    }
  }

  lemma Regroup(f: string, a: string, b: string, input: string)
    ensures f + " " + a + " " + b + "\n" + input == f + " " + (a + " " + (b + ("\n" + input)))
  {
    assert f + " " + a + " " + b == f + " " + (a + " " + b);
    assert a + " " + b + "\n" + input == a + " " + (b + ("\n" + input));
  }

  lemma ExecLineParts(dir: Option<string>, binary: string, args: seq<string>, input: string)
    ensures ExecLine(dir, binary, args) + input ==
            Front(dir) + " " + (Quote(binary) + " " + (QuoteAll(args) + ("\n" + input)))
  {
    assert "exec " == "exec" + " ";
    assert ExecLine(dir, binary, args) == Front(dir) + " " + Quote(binary) + " " + QuoteAll(args) + "\n";
    Regroup(Front(dir), Quote(binary), QuoteAll(args), input);
  }

  /**
   * What the shell executes, whatever follows on its input: the binary with its arguments, its own
   * directory first in PATH.
   */
  lemma ExecLineWords(dir: Option<string>, binary: string, args: seq<string>, input: string, path: string)
    ensures Tokenize(ExecLine(dir, binary, args) + input, path) == Some(ExecPrefix(dir, path) + ([binary] + args))
  {
    ExecLineParts(dir, binary, args, input);
    QuoteRoundTrip(args, "\n" + input, path);
    QuotedThenRest(binary, QuoteAll(args) + ("\n" + input), path);
    PrefixThenRest(dir, Quote(binary) + " " + (QuoteAll(args) + ("\n" + input)), path, [binary] + args);
  }
}
