/**
 Quoting for the shell, and a reference tokenizer for what quoting is about: words
 separated by blanks, backslashes outside quotes, and single quotes, as in sections
 2.2.1 and 2.2.2 of the POSIX Shell Command Language.
 */
module Shell {
  import opened Wrappers

  const QUOTE := '\''
  const BACKSLASH := '\\'
  const BLANK := ' '
  const NEWLINE := '\n'
  const NUL := '\0'

  const MAX_COMMAND := 100000

  datatype Refusal = ContainsNul | TooLong

  // ----- the quoter -----

  /** Each quote is replaced by: close, an escaped quote, open again. */
  function Replaced(value: string): string {
    if value == "" then ""
    else (if value[0] == QUOTE then [QUOTE, BACKSLASH, QUOTE, QUOTE] else [value[0]]) + Replaced(value[1..])
  }

  function Quote(value: string): Result<string, Refusal> {
    if NUL in value then Failure(ContainsNul) else Success([QUOTE] + Replaced(value) + [QUOTE])
  }

  function QuoteAll(values: seq<string>): Result<seq<string>, Refusal> {
    if values == [] then Success([])
    else
      var first :- Quote(values[0]);
      var rest :- QuoteAll(values[1..]);
      Success([first] + rest)
  }

  function JoinWords(words: seq<string>): string
    requires words != []
  {
    if |words| == 1 then words[0] else words[0] + [BLANK] + JoinWords(words[1..])
  }

  /** The bytes of a string in UTF-8. */
  function ByteLength(s: string): nat {
    if s == "" then 0
    else
      (if s[0] < '\U{80}' then 1 else if s[0] < '\U{800}' then 2 else if s[0] < '\U{10000}' then 3 else 4)
      + ByteLength(s[1..])
  }

  function ShellCommand(script: string, args: seq<string>, privileged: bool): Result<string, Refusal> {
    var quoted :- Quote(script);
    var name :- Quote("qiln");
    var rest :- QuoteAll(args);
    var command := (if privileged then "sudo -n " else "") + JoinWords(["/bin/sh", "-c", quoted, name] + rest);
    if ByteLength(command) > MAX_COMMAND then Failure(TooLong) else Success(command)
  }

  // ----- the reference tokenizer -----

  /** Outside quotes these are operators, other quotes, or start an expansion, a pattern or a comment. */
  const SPECIAL := "|&;<>()$`\"\t\n*?[#~=%!{}"

  /** Inside quotes, outside of them in a word, or between words. */
  datatype Mode = Between | InWord | InQuotes

  /**
   The words of a command line, and none if a quote or a backslash is left open, or
   if anything but words and blanks is active. `word` is what the current word holds.
   A backslash before a newline continues the line.
   */
  function Tokens(s: string, mode: Mode, word: string): Option<seq<string>> {
    if s == "" then
      match mode
      case Between => Some([])
      case InWord => Some([word])
      case InQuotes => None
    else
      match mode
      case InQuotes => if s[0] == QUOTE then Tokens(s[1..], InWord, word) else Tokens(s[1..], InQuotes, word + [s[0]])
      case _ =>
        if s[0] == QUOTE then Tokens(s[1..], InQuotes, word)
        else if s[0] == BACKSLASH then
          if |s| == 1 then None
          else if s[1] == NEWLINE then Tokens(s[2..], mode, word)
          else Tokens(s[2..], InWord, word + [s[1]])
        else if s[0] in SPECIAL then None
        else if s[0] == BLANK then Ended(mode, word, Tokens(s[1..], Between, ""))
        else Tokens(s[1..], InWord, word + [s[0]])
  }

  /** A blank ends the current word, if there is one. */
  function Ended(mode: Mode, word: string, rest: Option<seq<string>>): Option<seq<string>> {
    if mode == Between then rest
    else if rest.None? then None
    else Some([word] + rest.value)
  }

  function Words(s: string): Option<seq<string>> {
    Tokens(s, Between, "")
  }

  // ----- the round trip -----

  /** Inside quotes, a replaced value is read back up to its closing quote. */
  lemma {:induction false} ReplacedIsRead(value: string, rest: string, word: string)
    ensures Tokens(Replaced(value) + [QUOTE] + rest, InQuotes, word) == Tokens(rest, InWord, word + value)
  {
    var s := Replaced(value) + [QUOTE] + rest;
    if value == "" {
      assert s[1..] == rest && word + value == word;
    } else {
      var tail := Replaced(value[1..]) + [QUOTE] + rest;
      ReplacedIsRead(value[1..], rest, word + [value[0]]);
      assert word + value == (word + [value[0]]) + value[1..];
      if value[0] == QUOTE {
        assert s == [QUOTE, BACKSLASH, QUOTE, QUOTE] + tail;
        QuoteIsRead(tail, word);
      } else {
        assert s == [value[0]] + tail && s[1..] == tail;
      }
    }
  }

  /** The replacement of a quote, inside quotes, adds a quote to the word and stays inside. */
  lemma QuoteIsRead(tail: string, word: string)
    ensures Tokens([QUOTE, BACKSLASH, QUOTE, QUOTE] + tail, InQuotes, word) == Tokens(tail, InQuotes, word + [QUOTE])
  {
    var s := [QUOTE, BACKSLASH, QUOTE, QUOTE] + tail;
    var escaped := [BACKSLASH, QUOTE, QUOTE] + tail;
    var reopened := [QUOTE] + tail;
    assert s[1..] == escaped && escaped[2..] == reopened && reopened[1..] == tail;
    assert Tokens(s, InQuotes, word) == Tokens(escaped, InWord, word);
    assert Tokens(escaped, InWord, word) == Tokens(reopened, InWord, word + [QUOTE]);
  }

  /** A quoted value between words starts a word that holds the value. */
  lemma QuotedIsRead(value: string, rest: string)
    requires NUL !in value
    ensures Tokens(Quote(value).value + rest, Between, "") == Tokens(rest, InWord, value)
  {
    var s := Quote(value).value + rest;
    assert s[1..] == Replaced(value) + [QUOTE] + rest;
    ReplacedIsRead(value, rest, "");
    assert "" + value == value;
  }

  predicate IsPlain(s: string) {
    forall i :: 0 <= i < |s| ==> s[i] != QUOTE && s[i] != BACKSLASH && s[i] != BLANK && s[i] !in SPECIAL
  }

  /** A plain word is read as it is. */
  lemma {:induction false} PlainIsRead(plain: string, rest: string, mode: Mode, word: string)
    requires mode != InQuotes && plain != ""
    requires IsPlain(plain)
    ensures Tokens(plain + rest, mode, word) == Tokens(rest, InWord, word + plain)
  {
    var s := plain + rest;
    assert s[1..] == plain[1..] + rest;
    assert word + plain == (word + [plain[0]]) + plain[1..];
    if |plain| > 1 {
      PlainIsRead(plain[1..], rest, InWord, word + [plain[0]]);
    } else {
      assert plain[1..] + rest == rest && plain == [plain[0]];
    }
  }

  /** The text reads as one word and nothing else. */
  ghost predicate ReadsAs(text: string, word: string) {
    forall rest :: Tokens(text + rest, Between, "") == Tokens(rest, InWord, word)
  }

  /** Texts that read as words, joined by blanks, are read as those words. */
  lemma {:induction false} JoinedIsRead(texts: seq<string>, words: seq<string>)
    requires texts != [] && |texts| == |words|
    requires forall i :: 0 <= i < |texts| ==> ReadsAs(texts[i], words[i])
    ensures Words(JoinWords(texts)) == Some(words)
  {
    if |texts| == 1 {
      assert texts[0] + "" == texts[0];
      assert Tokens(texts[0] + "", Between, "") == Tokens("", InWord, words[0]);
      assert words == [words[0]];
    } else {
      var rest := [BLANK] + JoinWords(texts[1..]);
      assert JoinWords(texts) == texts[0] + rest && rest[1..] == JoinWords(texts[1..]);
      assert Tokens(texts[0] + rest, Between, "") == Tokens(rest, InWord, words[0]);
      JoinedIsRead(texts[1..], words[1..]);
      assert words == [words[0]] + words[1..];
    }
  }

  lemma QuotedReadsAs(value: string)
    requires NUL !in value
    ensures ReadsAs(Quote(value).value, value)
  {
    forall rest ensures Tokens(Quote(value).value + rest, Between, "") == Tokens(rest, InWord, value) {
      QuotedIsRead(value, rest);
    }
  }

  lemma PlainReadsAs(plain: string)
    requires plain != ""
    requires IsPlain(plain)
    ensures ReadsAs(plain, plain)
  {
    forall rest ensures Tokens(plain + rest, Between, "") == Tokens(rest, InWord, plain) {
      PlainIsRead(plain, rest, Between, "");
      assert "" + plain == plain;
    }
  }

  lemma {:induction false} AllQuoted(values: seq<string>)
    ensures QuoteAll(values).Success? <==> forall i :: 0 <= i < |values| ==> NUL !in values[i]
    ensures QuoteAll(values).Failure? ==> QuoteAll(values).error == ContainsNul
    ensures QuoteAll(values).Success? ==>
      var quoted := QuoteAll(values).value;
      |quoted| == |values| && forall i :: 0 <= i < |values| ==> ReadsAs(quoted[i], values[i])
  {
    hide ReadsAs;
    if values != [] {
      AllQuoted(values[1..]);
      if NUL !in values[0] {
        QuotedReadsAs(values[0]);
      }
      assert forall i :: 0 < i < |values| ==> values[i] == values[1..][i - 1];
    }
  }

  // ----- the length -----

  function QuoteCount(value: string): nat {
    if value == "" then 0 else (if value[0] == QUOTE then 1 else 0) + QuoteCount(value[1..])
  }

  /** Two bytes for the quotes around a value, and three for each quote inside, beside the value itself. */
  function QuotedBytes(value: string): nat {
    ByteLength(value) + 3 * QuoteCount(value) + 2
  }

  /** Each argument comes after a blank. */
  function ArgumentBytes(args: seq<string>): nat {
    if args == [] then 0 else 1 + QuotedBytes(args[0]) + ArgumentBytes(args[1..])
  }

  /** The length of a command, from its parts. */
  function CommandBytes(script: string, args: seq<string>, privileged: bool): nat {
    (if privileged then |"sudo -n "| else 0) + |"/bin/sh -c "| + QuotedBytes(script) + |" 'qiln'"|
    + ArgumentBytes(args)
  }

  lemma {:induction false} BytesConcat(a: string, b: string)
    ensures ByteLength(a + b) == ByteLength(a) + ByteLength(b)
  {
    if a == "" {
      assert a + b == b;
    } else {
      assert (a + b)[1..] == a[1..] + b;
      BytesConcat(a[1..], b);
    }
  }

  lemma {:induction false} ReplacedBytes(value: string)
    ensures ByteLength(Replaced(value)) == ByteLength(value) + 3 * QuoteCount(value)
  {
    if value != "" {
      var first := if value[0] == QUOTE then [QUOTE, BACKSLASH, QUOTE, QUOTE] else [value[0]];
      BytesConcat(first, Replaced(value[1..]));
      ReplacedBytes(value[1..]);
      assert ByteLength([QUOTE, BACKSLASH, QUOTE, QUOTE]) == 4 by {
        AsciiBytes([QUOTE, BACKSLASH, QUOTE, QUOTE]);
      }
      assert [value[0]][1..] == "";
    }
  }

  lemma {:induction false} AsciiBytes(s: string)
    requires forall i :: 0 <= i < |s| ==> s[i] < '\U{80}'
    ensures ByteLength(s) == |s|
  {
    if s != "" {
      AsciiBytes(s[1..]);
    }
  }

  lemma QuotedLength(value: string)
    requires NUL !in value
    ensures ByteLength(Quote(value).value) == QuotedBytes(value)
  {
    var inner := Replaced(value);
    BytesConcat([QUOTE] + inner, [QUOTE]);
    BytesConcat([QUOTE], inner);
    ReplacedBytes(value);
    AsciiBytes([QUOTE]);
  }

  lemma {:induction false} JoinedBytes(words: seq<string>)
    requires words != []
    ensures ByteLength(JoinWords(words)) == ByteLength(words[0]) + WordBytes(words[1..])
  {
    if |words| > 1 {
      var rest := JoinWords(words[1..]);
      BytesConcat(words[0] + [BLANK], rest);
      BytesConcat(words[0], [BLANK]);
      AsciiBytes([BLANK]);
      JoinedBytes(words[1..]);
    }
  }

  /** The length of words that each come after a blank. */
  function WordBytes(words: seq<string>): nat {
    if words == [] then 0 else 1 + ByteLength(words[0]) + WordBytes(words[1..])
  }

  lemma {:induction false} QuotedArguments(args: seq<string>)
    requires QuoteAll(args).Success?
    ensures WordBytes(QuoteAll(args).value) == ArgumentBytes(args)
  {
    if args != [] {
      QuotedLength(args[0]);
      QuotedArguments(args[1..]);
      assert QuoteAll(args).value[1..] == QuoteAll(args[1..]).value;
    }
  }

  lemma FixedBytes()
    ensures ByteLength("/bin/sh") == 7 && ByteLength("-c") == 2
    ensures QuotedBytes("qiln") == 6 && ByteLength(Quote("qiln").value) == 6
  {
    AsciiBytes("/bin/sh");
    AsciiBytes("-c");
    AsciiBytes("qiln");
    var rest := "qiln"[1..];
    assert rest == "iln" && rest[1..] == "ln" && rest[1..][1..] == "n" && rest[1..][1..][1..] == "";
    assert QuoteCount("qiln") == 0;
    QuotedLength("qiln");
  }

  lemma FourWords(a: string, b: string, c: string, d: string, rest: seq<string>)
    ensures ByteLength(JoinWords([a, b, c, d] + rest))
         == ByteLength(a) + ByteLength(b) + ByteLength(c) + ByteLength(d) + 3 + WordBytes(rest)
  {
    var words := [a, b, c, d] + rest;
    JoinedBytes(words);
    hide ByteLength, JoinWords;
    assert words[1..] == [b, c, d] + rest && words[1..][1..] == [c, d] + rest && words[1..][1..][1..] == [d] + rest;
    assert ([d] + rest)[1..] == rest;
    assert WordBytes([d] + rest) == 1 + ByteLength(d) + WordBytes(rest);
    assert WordBytes([c, d] + rest) == 1 + ByteLength(c) + WordBytes([d] + rest);
  }

  lemma CommandLength(script: string, args: seq<string>, privileged: bool)
    requires NUL !in script && QuoteAll(args).Success?
    ensures var words := ["/bin/sh", "-c", Quote(script).value, Quote("qiln").value] + QuoteAll(args).value;
            ByteLength((if privileged then "sudo -n " else "") + JoinWords(words)) == CommandBytes(script, args, privileged)
  {
    hide ByteLength, QuoteAll, JoinWords, QuotedBytes, Replaced;
    var rest := QuoteAll(args).value;
    var prefix := if privileged then "sudo -n " else "";
    BytesConcat(prefix, JoinWords(["/bin/sh", "-c", Quote(script).value, Quote("qiln").value] + rest));
    AsciiBytes(prefix);
    FixedBytes();
    FourWords("/bin/sh", "-c", Quote(script).value, Quote("qiln").value, rest);
    QuotedLength(script);
    QuotedArguments(args);
  }

  // ----- the theorem -----

  /**
   A command is built exactly if there is no NUL and its length, counted from its
   parts, is within the limit, and then it reads as exactly the intended words.
   */
  lemma CommandReadsAsIntended(script: string, args: seq<string>, privileged: bool)
    ensures var command := ShellCommand(script, args, privileged);
            var clean := NUL !in script && forall i :: 0 <= i < |args| ==> NUL !in args[i];
            && (command.Success? <==> clean && CommandBytes(script, args, privileged) <= 100000)
            && (command == Failure(ContainsNul) <==> !clean)
            && (command.Success? ==>
                  Words(command.value)
                  == Some((if privileged then ["sudo", "-n"] else []) + ["/bin/sh", "-c", script, "qiln"] + args))
  {
    AllQuoted(args);
    if NUL !in script && QuoteAll(args).Success? {
      CommandLength(script, args, privileged);
    }
    if NUL !in script && QuoteAll(args).Success? {
      var quoted := ["/bin/sh", "-c", Quote(script).value, Quote("qiln").value] + QuoteAll(args).value;
      var intended := ["/bin/sh", "-c", script, "qiln"] + args;
      BaseReadsAs(script);
      hide ReadsAs, Tokens, Quote, JoinWords, QuoteAll, ByteLength;
      WithPrefixIsRead(quoted, intended, privileged);
      assert (if privileged then ["sudo", "-n"] else []) + intended
          == (if privileged then ["sudo", "-n"] else []) + ["/bin/sh", "-c", script, "qiln"] + args;
    }
  }

  /** A privileged command has two plain words in front. */
  lemma WithPrefixIsRead(texts: seq<string>, words: seq<string>, privileged: bool)
    requires texts != [] && |texts| == |words|
    requires forall i :: 0 <= i < |texts| ==> ReadsAs(texts[i], words[i])
    ensures Words((if privileged then "sudo -n " else "") + JoinWords(texts))
         == Some((if privileged then ["sudo", "-n"] else []) + words)
  {
    hide ReadsAs, JoinWords, Words;
    if privileged {
      SudoReadsAs();
      PrivilegedJoin(texts);
      JoinedIsRead(["sudo", "-n"] + texts, ["sudo", "-n"] + words);
    } else {
      JoinedIsRead(texts, words);
      assert [] + words == words && "" + JoinWords(texts) == JoinWords(texts);
    }
  }

  lemma BaseReadsAs(script: string)
    requires NUL !in script
    ensures ReadsAs("/bin/sh", "/bin/sh") && ReadsAs("-c", "-c")
    ensures ReadsAs(Quote(script).value, script) && Quote("qiln").Success? && ReadsAs(Quote("qiln").value, "qiln")
  {
    hide ReadsAs;
    PlainReadsAs("/bin/sh");
    PlainReadsAs("-c");
    QuotedReadsAs(script);
    QuotedReadsAs("qiln");
  }

  lemma SudoReadsAs()
    ensures ReadsAs("sudo", "sudo") && ReadsAs("-n", "-n")
  {
    hide ReadsAs;
    PlainReadsAs("sudo");
    PlainReadsAs("-n");
  }

  lemma PrivilegedJoin(words: seq<string>)
    requires words != []
    ensures JoinWords(["sudo", "-n"] + words) == "sudo -n " + JoinWords(words)
  {
    var all := ["sudo", "-n"] + words;
    assert all[1..] == ["-n"] + words && all[1..][1..] == words;
    assert JoinWords(all) == "sudo" + [BLANK] + JoinWords(all[1..]);
    assert JoinWords(all[1..]) == "-n" + [BLANK] + JoinWords(words);
    assert "sudo -n " == "sudo" + [BLANK] + "-n" + [BLANK];
  }
}
