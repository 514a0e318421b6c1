/** Quoting a string for the shell (internal/sandbox/nspawn.go), splitting a command line into tokens
    (internal/tools/exec.go), and what a POSIX shell makes of the quoted text. */
module ShellWords {
  import opened Options
  import opened Text

  // ---------------------------------------------------------------- the printer

  /** ReplaceAll(value, "'", "'\''"). */
  function Escaped(value: string): (r: string) {
    if value == "" then ""
    else (if value[0] == '\'' then "'\\''" else [value[0]]) + Escaped(value[1..])
  }

  function ShellQuote(value: string): (r: string) {
    if value == "" then "''" else "'" + Escaped(value) + "'"
  }

  /** The quoted strings, separated by single spaces. */
  function Line(args: seq<string>): (r: string) {
    if args == [] then ""
    else if |args| == 1 then ShellQuote(args[0])
    else ShellQuote(args[0]) + " " + Line(args[1..])
  }

  // ---------------------------------------------------------------- the tokenizer

  datatype Scanner = Scanner(tokens: seq<string>, current: string, inSingle: bool, inDouble: bool, escaped: bool)

  const FRESH := Scanner([], "", false, false, false)

  function Flush(s: Scanner): (r: Scanner) {
    if s.current == "" then s else s.(tokens := s.tokens + [s.current], current := "")
  }

  function ScanChar(s: Scanner, c: char): (r: Scanner) {
    if s.escaped then s.(current := s.current + [c], escaped := false)
    else if c == '\\' && !s.inSingle then s.(escaped := true)
    else if c == '\'' && !s.inDouble then s.(inSingle := !s.inSingle)
    else if c == '"' && !s.inSingle then s.(inDouble := !s.inDouble)
    else if IsSpace(c) && !s.inSingle && !s.inDouble then Flush(s)
    else s.(current := s.current + [c])
  }

  function Scan(s: Scanner, input: string): (r: Scanner)
    decreases |input|
  {
    if input == "" then s else Scan(ScanChar(s, input[0]), input[1..])
  }

  function Tokens(input: string): (r: seq<string>) {
    Flush(Scan(FRESH, input)).tokens
  }

  lemma {:induction false} ScanConcat(s: Scanner, a: string, b: string)
    ensures Scan(s, a + b) == Scan(Scan(s, a), b)
    decreases |a|
  {
    hide ScanChar;
    if a == "" {
      assert a + b == b;
    } else {
      assert (a + b)[1..] == a[1..] + b;
      ScanConcat(ScanChar(s, a[0]), a[1..], b);
    }
  }

  method SplitCommandTokens(input: string) returns (tokens: seq<string>)
    ensures tokens == Tokens(input)
  {
    tokens := [];
    var current := "";
    var inSingle, inDouble, escaped := false, false, false;
    for i := 0 to |input|
      invariant Scan(FRESH, input[..i]) == Scanner(tokens, current, inSingle, inDouble, escaped)
    {
      var r := input[i];
      ScanNext(FRESH, input, i);
      if escaped {
        current := current + [r];
        escaped := false;
      } else if r == '\\' && !inSingle {
        escaped := true;
      } else if r == '\'' && !inDouble {
        inSingle := !inSingle;
      } else if r == '"' && !inSingle {
        inDouble := !inDouble;
      } else if IsSpace(r) && !inSingle && !inDouble {
        if |current| != 0 {
          tokens := tokens + [current];
          current := "";
        }
      } else {
        current := current + [r];
      }
    }
    assert input[..|input|] == input;
    if |current| != 0 {
      tokens := tokens + [current];
    }
  }

  lemma ScanNext(s: Scanner, input: string, i: nat)
    requires i < |input|
    ensures Scan(s, input[..i + 1]) == ScanChar(Scan(s, input[..i]), input[i])
  {
    hide ScanChar;
    assert input[..i + 1] == input[..i] + [input[i]];
    ScanConcat(s, input[..i], [input[i]]);
    assert [input[i]][1..] == "";
  }

  // ---------------------------------------------------------------- printing, then tokenizing

  /** Between words: nothing open, nothing pending. */
  predicate Outside(s: Scanner) {
    !s.inSingle && !s.inDouble && !s.escaped
  }

  /** Inside single quotes an escaped string adds itself and stays inside. */
  lemma {:induction false} ScanEscaped(s: Scanner, value: string)
    requires s.inSingle && !s.inDouble && !s.escaped
    ensures Scan(s, Escaped(value)) == s.(current := s.current + value)
    decreases |value|
  {
    if value != "" {
      var head := if value[0] == '\'' then "'\\''" else [value[0]];
      assert Scan(s, head) == s.(current := s.current + [value[0]]) by {
        ScanHead(s, value[0]);
      }
      ScanConcat(s, head, Escaped(value[1..]));
      ScanEscaped(s.(current := s.current + [value[0]]), value[1..]);
      assert s.current + [value[0]] + value[1..] == s.current + value;
    } else {
      assert s.current + value == s.current;
    }
  }

  lemma ScanHead(s: Scanner, c: char)
    requires s.inSingle && !s.inDouble && !s.escaped
    ensures Scan(s, if c == '\'' then "'\\''" else [c]) == s.(current := s.current + [c])
  {
    if c == '\'' {
      var s1 := ScanChar(s, '\'');
      var s2 := ScanChar(s1, '\\');
      var s3 := ScanChar(s2, '\'');
      ScanOne(s, '\'');
      ScanOne(s1, '\\');
      ScanOne(s2, '\'');
      ScanOne(s3, '\'');
      ScanConcat(s, "'", "\\''");
      ScanConcat(s1, "\\", "''");
      ScanConcat(s2, "'", "'");
      assert "'" + "\\''" == "'\\''" && "\\" + "''" == "\\''" && "'" + "'" == "''";
    } else {
      ScanOne(s, c);
    }
  }

  lemma ScanOne(s: Scanner, c: char)
    ensures Scan(s, [c]) == ScanChar(s, c)
  {
    hide ScanChar;
    assert [c][1..] == "";
  }

  /** A quoted string adds exactly the string to the token at hand. */
  lemma ScanQuoted(s: Scanner, value: string)
    requires Outside(s)
    ensures Scan(s, ShellQuote(value)) == s.(current := s.current + value)
  {
    var inside := s.(inSingle := true);
    ScanOne(s, '\'');
    ScanConcat(s, "'", Escaped(value) + "'");
    assert "'" + (Escaped(value) + "'") == "'" + Escaped(value) + "'";
    ScanConcat(inside, Escaped(value), "'");
    ScanEscaped(inside, value);
    ScanOne(inside.(current := s.current + value), '\'');
    if value == "" {
      assert "'" + Escaped("") + "'" == "''";
    }
  }

  function NonEmpty(args: seq<string>): (r: seq<string>) {
    if args == [] then [] else (if args[0] == "" then [] else [args[0]]) + NonEmpty(args[1..])
  }

  lemma LineCons(args: seq<string>)
    requires |args| > 1
    ensures Line(args) == ShellQuote(args[0]) + (" " + Line(args[1..]))
  {
    hide ShellQuote;
    assert ShellQuote(args[0]) + " " + Line(args[1..]) == ShellQuote(args[0]) + (" " + Line(args[1..]));
  }

  /** One quoted string and the space after it make one token, or none. */
  lemma ScanQuotedSpace(s: Scanner, value: string, rest: string)
    requires Outside(s) && s.current == ""
    ensures Scan(s, ShellQuote(value) + (" " + rest)) == Scan(s.(tokens := s.tokens + NonEmpty([value])), rest)
  {
    hide ShellQuote, Scan;
    ScanQuoted(s, value);
    ScanConcat(s, ShellQuote(value), " " + rest);
    var mid := s.(current := s.current + value);
    ScanConcat(mid, " ", rest);
    ScanOne(mid, ' ');
    assert s.current + value == value;
    NonEmptyOne(value);
    assert ScanChar(mid, ' ') == s.(tokens := s.tokens + NonEmpty([value])) by {
      assert value == "" ==> s.tokens + [] == s.tokens;
    }
  }

  lemma {:induction false} ScanLine(s: Scanner, args: seq<string>)
    requires Outside(s) && s.current == ""
    ensures Flush(Scan(s, Line(args))).tokens == s.tokens + NonEmpty(args)
    decreases |args|
  {
    if args == [] {
      assert s.tokens + [] == s.tokens;
    } else if |args| == 1 {
      ScanLastWord(s, args[0]);
      assert args == [args[0]];
    } else {
      hide ShellQuote, Scan, Line, NonEmpty, Flush, IsSpace;
      ScanFirstWord(s, args);
      ScanLine(s.(tokens := s.tokens + NonEmpty([args[0]])), args[1..]);
      NonEmptyCons(args);
      Associates(s.tokens, NonEmpty([args[0]]), NonEmpty(args[1..]));
    }
  }

  lemma Associates(a: seq<string>, b: seq<string>, c: seq<string>)
    ensures (a + b) + c == a + (b + c)
  {
  }

  lemma ScanFirstWord(s: Scanner, args: seq<string>)
    requires Outside(s) && s.current == "" && |args| > 1
    ensures Scan(s, Line(args)) == Scan(s.(tokens := s.tokens + NonEmpty([args[0]])), Line(args[1..]))
  {
    LineCons(args);
    hide ShellQuote, Scan, Line, NonEmpty;
    ScanQuotedSpace(s, args[0], Line(args[1..]));
  }

  lemma ScanLastWord(s: Scanner, value: string)
    requires Outside(s) && s.current == ""
    ensures Flush(Scan(s, Line([value]))).tokens == s.tokens + NonEmpty([value])
  {
    assert Line([value]) == ShellQuote(value);
    hide ShellQuote, Scan, Line;
    ScanQuoted(s, value);
    assert s.current + value == value;
    NonEmptyOne(value);
    assert s.tokens + [] == s.tokens;
  }

  lemma NonEmptyCons(args: seq<string>)
    requires args != []
    ensures NonEmpty(args) == NonEmpty([args[0]]) + NonEmpty(args[1..])
  {
    NonEmptyOne(args[0]);
  }

  lemma NonEmptyOne(value: string)
    ensures NonEmpty([value]) == if value == "" then [] else [value]
  {
    assert [value][1..] == [];
    assert NonEmpty([value]) == (if value == "" then [] else [value]) + [];
  }

  /** Tokenizing the quoted strings gives them back, without the empty ones. */
  lemma TokensOfLine(args: seq<string>)
    ensures Tokens(Line(args)) == NonEmpty(args)
  {
    ScanLine(FRESH, args);
  }

  lemma {:induction false} NonEmptyAll(args: seq<string>)
    ensures |NonEmpty(args)| <= |args|
    ensures NonEmpty(args) == args <==> "" !in args
  {
    if args != [] {
      NonEmptyAll(args[1..]);
      assert args == [args[0]] + args[1..];
    }
  }

  /** Printer and tokenizer undo each other exactly on lists without an empty string. */
  lemma RoundTripIff(args: seq<string>)
    ensures Tokens(Line(args)) == args <==> "" !in args
  {
    TokensOfLine(args);
    NonEmptyAll(args);
  }

  /** The quoted empty string is no token at all. */
  lemma EmptyStringIsLost()
    ensures ShellQuote("") == "''" && Tokens(ShellQuote("")) == []
  {
    TokensOfLine([""]);
    assert Line([""]) == ShellQuote("");
    assert [""][1..] == [];
  }

  // ---------------------------------------------------------------- what the shell reads

  datatype Mode = Plain | Single | Double | Escape(inDouble: bool)

  /** The word at hand, which exists as soon as a character or a quote belongs to it. */
  datatype Reader = Reader(words: seq<string>, word: Option<string>, mode: Mode)

  const UNREAD := Reader([], None, Plain)

  function Add(r: Reader, text: string): (r': Reader) {
    r.(word := Some((if r.word.Some? then r.word.value else "") + text))
  }

  function EndWord(r: Reader): (r': Reader) {
    if r.word.Some? then r.(words := r.words + [r.word.value], word := None) else r
  }

  predicate IsBlank(c: char) {
    c == ' ' || c == '\t' || c == '\n'
  }

  /** Quoting by section 2.2 of the POSIX.1-2017 Shell Command Language: a backslash keeps the next character, except
      that a following newline goes; single quotes keep everything up to the next one; in double quotes a backslash
      escapes only $, `, ", backslash and newline. Operators and expansions outside quotes are read as ordinary
      characters. */
  function ReadChar(r: Reader, c: char): (r': Reader) {
    match r.mode
    case Single => if c == '\'' then r.(mode := Plain) else Add(r, [c])
    case Double =>
      if c == '"' then r.(mode := Plain)
      else if c == '\\' then r.(mode := Escape(true))
      else Add(r, [c])
    case Escape(inDouble) =>
      if c == '\n' then r.(mode := if inDouble then Double else Plain)
      else if !inDouble then Add(r, [c]).(mode := Plain)
      else if c in "$`\"\\" then Add(r, [c]).(mode := Double)
      else Add(r, ['\\', c]).(mode := Double)
    case Plain =>
      if c == '\'' then Add(r, "").(mode := Single)
      else if c == '"' then Add(r, "").(mode := Double)
      else if c == '\\' then r.(mode := Escape(false))
      else if IsBlank(c) then EndWord(r)
      else Add(r, [c])
  }

  function Read(r: Reader, input: string): (r': Reader)
    decreases |input|
  {
    if input == "" then r else Read(ReadChar(r, input[0]), input[1..])
  }

  function Words(input: string): (r: seq<string>) {
    EndWord(Read(UNREAD, input)).words
  }

  lemma {:induction false} ReadConcat(r: Reader, a: string, b: string)
    ensures Read(r, a + b) == Read(Read(r, a), b)
    decreases |a|
  {
    hide ReadChar;
    if a == "" {
      assert a + b == b;
    } else {
      assert (a + b)[1..] == a[1..] + b;
      ReadConcat(ReadChar(r, a[0]), a[1..], b);
    }
  }

  lemma ReadOne(r: Reader, c: char)
    ensures Read(r, [c]) == ReadChar(r, c)
  {
    hide ReadChar;
    assert [c][1..] == "";
  }

  lemma ReadHead(r: Reader, c: char)
    requires r.mode.Single? && r.word.Some?
    ensures Read(r, if c == '\'' then "'\\''" else [c]) == Add(r, [c])
  {
    if c == '\'' {
      var r1 := ReadChar(r, '\'');
      var r2 := ReadChar(r1, '\\');
      var r3 := ReadChar(r2, '\'');
      ReadOne(r, '\'');
      ReadOne(r1, '\\');
      ReadOne(r2, '\'');
      ReadOne(r3, '\'');
      ReadConcat(r, "'", "\\''");
      ReadConcat(r1, "\\", "''");
      ReadConcat(r2, "'", "'");
      assert "'" + "\\''" == "'\\''" && "\\" + "''" == "\\''" && "'" + "'" == "''";
      assert r.word.value + "'" + "" == r.word.value + "'";
    } else {
      ReadOne(r, c);
    }
  }

  lemma {:induction false} ReadEscaped(r: Reader, value: string)
    requires r.mode.Single? && r.word.Some?
    ensures Read(r, Escaped(value)) == Add(r, value)
    decreases |value|
  {
    if value != "" {
      var head := if value[0] == '\'' then "'\\''" else [value[0]];
      ReadHead(r, value[0]);
      hide Read, ReadChar;
      ReadConcat(r, head, Escaped(value[1..]));
      ReadEscaped(Add(r, [value[0]]), value[1..]);
      assert r.word.value + [value[0]] + value[1..] == r.word.value + value;
    } else {
      assert r.word.value + value == r.word.value;
    }
  }

  /** Wherever an unquoted word may go on, a quoted string is read as itself, and what follows is read unquoted. */
  lemma ReadQuoted(r: Reader, value: string)
    requires r.mode.Plain?
    ensures Read(r, ShellQuote(value)) == Add(r, value)
  {
    var inside := Add(r, "").(mode := Single);
    ReadOne(r, '\'');
    ReadConcat(r, "'", Escaped(value) + "'");
    assert "'" + (Escaped(value) + "'") == "'" + Escaped(value) + "'";
    ReadConcat(inside, Escaped(value), "'");
    ReadEscaped(inside, value);
    ReadOne(Add(inside, value), '\'');
    assert inside.word.value + value == Add(r, value).word.value;
    if value == "" {
      assert "'" + Escaped("") + "'" == "''";
    }
  }

  /** One quoted string and the space after it are one word, even if it is empty. */
  lemma ReadQuotedSpace(r: Reader, value: string, rest: string)
    requires r.mode.Plain? && r.word.None?
    ensures Read(r, ShellQuote(value) + (" " + rest)) == Read(r.(words := r.words + [value]), rest)
  {
    hide ShellQuote, Read;
    ReadQuoted(r, value);
    ReadConcat(r, ShellQuote(value), " " + rest);
    ReadConcat(Add(r, value), " ", rest);
    ReadOne(Add(r, value), ' ');
    assert "" + value == value;
  }

  lemma {:induction false} ReadLine(r: Reader, args: seq<string>)
    requires r.mode.Plain? && r.word.None?
    ensures EndWord(Read(r, Line(args))).words == r.words + args
    decreases |args|
  {
    if args == [] {
      assert r.words + [] == r.words;
    } else if |args| == 1 {
      ReadLastWord(r, args[0]);
      assert args == [args[0]];
    } else {
      LineCons(args);
      hide ShellQuote, Read, Line, EndWord;
      ReadQuotedSpace(r, args[0], Line(args[1..]));
      ReadLine(r.(words := r.words + [args[0]]), args[1..]);
      Associates(r.words, [args[0]], args[1..]);
      assert [args[0]] + args[1..] == args;
    }
  }

  lemma ReadLastWord(r: Reader, value: string)
    requires r.mode.Plain? && r.word.None?
    ensures EndWord(Read(r, Line([value]))).words == r.words + [value]
  {
    assert Line([value]) == ShellQuote(value);
    hide ShellQuote, Read, Line;
    ReadQuoted(r, value);
    assert "" + value == value;
  }

  /** The shell reads every quoted list back, empty strings included. */
  lemma ShellReadsLine(args: seq<string>)
    ensures Words(Line(args)) == args
  {
    ReadLine(UNREAD, args);
  }

  /** So on quoted lines the tokenizer agrees with the shell up to empty words. */
  lemma TokenizerDropsEmptyWords(args: seq<string>)
    ensures Tokens(Line(args)) == NonEmpty(Words(Line(args)))
  {
    ShellReadsLine(args);
    TokensOfLine(args);
  }
}
