/** What the lines that a user types mean, word for word: the parser of the group messenger from the outside. */
module GroupLines {
  import opened Decimal
  import opened GroupCommands
  import opened Optional

  /** strtok, on the text alone: the delimiters in front go, the token reaches up to the next delimiter, and the cursor
      is left behind that one. */
  lemma StrtokSplits(s: string, d: char) returns (k: nat)
    ensures k <= |s| && forall i :: 0 <= i < k ==> s[i] == d
    ensures match Strtok(s, d)
            case (None, rest) => k == |s| && rest == ""
            case (Some(token), rest) =>
              && token != "" && d !in token && s[k..] == token + (if k + |token| < |s| then [d] + rest else "")
              && (k + |token| == |s| ==> rest == "")
  {
    k := Skips(s, d);
    assert SkipDelims(s, d) == s[k..];
  }

  lemma {:induction false} Skips(s: string, d: char) returns (k: nat)
    ensures k <= |s| && SkipDelims(s, d) == s[k..] && forall i :: 0 <= i < k ==> s[i] == d
  {
    if s != "" && s[0] == d {
      k := Skips(s[1..], d);
      k := k + 1;
    } else {
      k := 0;
    }
  }

  // ---- the words ----

  lemma WordsOfTheLanguage()
    ensures KeywordOf("create-group") == CreateWord && KeywordOf("join-group") == JoinWord
    ensures KeywordOf("leave-group") == LeaveWord && KeywordOf("find-group") == FindWord
    ensures KeywordOf("send-message") == SendWord && KeywordOf("init-poll") == PollWord
    ensures KeywordOf("list-groups") == GroupsWord && KeywordOf("list-files") == FilesWord
    ensures KeywordOf("request-file") == RequestWord && KeywordOf("help") == HelpWord && KeywordOf("exit") == ExitWord
  {
    assert "request-file"[0] != "create-group"[0] && "request-file"[0] != "send-message"[0];
    assert "send-message"[0] != "create-group"[0];
    assert "find-group"[0] != "join-group"[0];
  }

  // ---- one lemma per command ----

  lemma TooLong(line: string)
    requires line != "" && line[0] != '\n' && |line| >= 1024
    ensures Parse(line + "\n") == Undefined
  {
    assert Trimmed(line + "\n") == line;
  }

  /** `send-message NAME "TEXT"`, also when the text has blanks. */
  lemma SendLine(name: string, text: string)
    requires name != "" && ' ' !in name && text != "" && '"' !in text
    ensures Parse("send-message" + " " + (name + " " + ("\"" + (text + "\""))) + "\n") ==
            if |name| < 20 && |text| < 100 then Parsed(SendMessage(name, text)) else Undefined
  {
    var rest := name + " " + ("\"" + (text + "\""));
    if |rest| + 13 >= 1024 {
      TooLong("send-message" + " " + rest);
    } else {
      WordsOfTheLanguage();
      LineParsesAs("send-message", rest);
      SendArguments(name, text);
    }
  }

  lemma SendArguments(name: string, text: string)
    requires name != "" && ' ' !in name && text != "" && '"' !in text
    ensures ParseSend(name + " " + ("\"" + (text + "\""))) ==
            if |name| < 20 && |text| < 100 then Parsed(SendMessage(name, text)) else Undefined
  {
    StrtokTakes(name, ' ', "\"" + (text + "\""));
    StrtokSkips(text + "\"", '"');
    StrtokTakes(text, '"', "");
    assert text + ['"'] + "" == text + "\"";
  }

  /** `find-group QUERY`, `join-group NAME`, `leave-group NAME`. */
  lemma OneWordLines(x: string)
    requires x != "" && ' ' !in x
    ensures Parse("find-group" + " " + x + "\n") == if |x| < 20 then Parsed(FindGroup(x)) else Undefined
    ensures Parse("join-group" + " " + x + "\n") == if |x| < 20 then Parsed(JoinGroup(x)) else Undefined
    ensures Parse("leave-group" + " " + x + "\n") == if |x| < 20 then Parsed(LeaveGroup(x)) else Undefined
  {
    WordsOfTheLanguage();
    StrtokTakes(x, ' ', "");
    if |x| + 12 < 1024 { LineParsesAs("leave-group", x); } else { TooLong("leave-group" + " " + x); }
    if |x| + 11 < 1024 {
      LineParsesAs("find-group", x);
      LineParsesAs("join-group", x);
    } else {
      TooLong("find-group" + " " + x);
      TooLong("join-group" + " " + x);
    }
  }

  /** `request-file FILE`: the length check lets a name of 20 characters through, which does not fit. */
  lemma RequestLine(file: string)
    requires file != "" && ' ' !in file
    ensures Parse("request-file" + " " + file + "\n") ==
            if |file| < 20 then Parsed(RequestFile(file))
            else if |file| == 20 || |file| + 13 >= 1024 then Undefined
            else Rejected
  {
    WordsOfTheLanguage();
    StrtokTakes(file, ' ', "");
    if |file| + 13 < 1024 { LineParsesAs("request-file", file); } else { TooLong("request-file" + " " + file); }
  }

  /** `create-group NAME IP PORT`: any port that an int can hold. */
  lemma CreateLine(name: string, ip: string, port: int)
    requires name != "" && ' ' !in name && ip != "" && ' ' !in ip
    ensures Parse("create-group" + " " + (name + " " + (ip + " " + IntText(port))) + "\n") ==
            if |name| < 20 && |ip| < 20 && -0x8000_0000 <= port <= 0x7fff_ffff then Parsed(CreateGroup(name, ip, port))
            else Undefined
  {
    var rest := name + " " + (ip + " " + IntText(port));
    if |rest| + 13 >= 1024 {
      TooLong("create-group" + " " + rest);
      if -0x8000_0000 <= port <= 0x7fff_ffff { IntTextLength(port); }
    } else {
      WordsOfTheLanguage();
      LineParsesAs("create-group", rest);
      CreateArguments(name, ip, port);
    }
  }

  lemma CreateArguments(name: string, ip: string, port: int)
    requires name != "" && ' ' !in name && ip != "" && ' ' !in ip
    ensures ParseCreate(name + " " + (ip + " " + IntText(port))) ==
            if |name| < 20 && |ip| < 20 && -0x8000_0000 <= port <= 0x7fff_ffff then Parsed(CreateGroup(name, ip, port))
            else Undefined
  {
    IntTextReadsBack(port);
    StrtokTakes(name, ' ', ip + " " + IntText(port));
    StrtokTakes(ip, ' ', IntText(port));
    StrtokTakes(IntText(port), ' ', "");
  }

  /** The options of a poll, each in quotes, with a blank in front. */
  function Quoted(options: seq<string>): string {
    if options == [] then "" else " \"" + options[0] + "\"" + Quoted(options[1..])
  }

  lemma {:induction false} QuotedAsPrinted(options: seq<string>)
    ensures Quoted(options) == QuotedOptions(options)
  {
    if options != [] { QuotedAsPrinted(options[1..]); }
  }

  /** `init-poll NAME "QUESTION" COUNT "OPTION" ...` with as many options as counted, up to five. */
  lemma PollLine(name: string, question: string, options: seq<string>)
    requires name != "" && ' ' !in name && |name| < 20 && question != "" && '"' !in question && |question| < 100
    requires |options| <= 5 && forall k :: 0 <= k < |options| ==>
               options[k] != "" && '"' !in options[k] && |options[k]| < 100
    ensures var tail := " " + IntText(|options|) + Quoted(options);
            Parse("init-poll" + " " + (name + " " + ("\"" + (question + "\"" + tail))) + "\n")
            == Parsed(InitPoll(name, question, |options|, options))
  {
    var c := InitPoll(name, question, |options|, options);
    QuotedAsPrinted(options);
    PollArguments(c, name + " " + ("\"" + (question + "\"" + (" " + IntText(|options|) + QuotedOptions(options)))));
  }

  lemma PollArguments(c: Command, rest: string)
    requires Representable(c) && Printable(c) && c.InitPoll? && rest == Arguments(c)
    ensures Parse("init-poll" + " " + rest + "\n") == Parsed(c)
  {
    WordsOfTheLanguage();
    ArgumentsFit(c);
    LineParsesAs("init-poll", rest);
    PollArgumentsReadBack(c);
    PollWordParses(PollWord, rest);
  }

  lemma BareLine(word: string, k: Keyword)
    requires KeywordOf(word) == k && k != UnknownWord
    ensures Parse(word + "\n") == ParseAs(k, "")
  {
    KnownWordIsShort(word);
    BareLineParsesAs(word);
  }

  lemma KnownWordIsShort(word: string)
    requires KeywordOf(word) != UnknownWord
    ensures Word(word) && word[0] != '\n' && |word| < 20
  {
  }

  /** The commands of one word. */
  lemma BareLines(word: string)
    ensures word == "list-groups" ==> Parse(word + "\n") == Parsed(ListGroups)
    ensures word == "list-files" ==> Parse(word + "\n") == Parsed(ListFiles)
    ensures word == "help" ==> Parse(word + "\n") == Parsed(Help)
    ensures word == "exit" ==> Parse(word + "\n") == Parsed(Exit)
  {
    WordsOfTheLanguage();
    if word == "list-groups" { BareLine(word, GroupsWord); }
    if word == "list-files" { BareLine(word, FilesWord); }
    if word == "help" { BareLine(word, HelpWord); }
    if word == "exit" { BareLine(word, ExitWord); }
  }

  predicate NeedsArguments(word: string) {
    || word == "create-group" || word == "join-group" || word == "leave-group" || word == "find-group"
    || word == "send-message" || word == "init-poll" || word == "request-file"
  }

  lemma KeywordNeedsArguments(word: string)
    requires NeedsArguments(word)
    ensures KeywordOf(word) in {CreateWord, JoinWord, LeaveWord, FindWord, SendWord, PollWord, RequestWord}
  {
    WordsOfTheLanguage();
  }

  /** A command whose arguments are missing is rejected. */
  lemma MissingArguments(word: string)
    requires NeedsArguments(word)
    ensures Parse(word + "\n") == Rejected
  {
    KeywordNeedsArguments(word);
    BareLine(word, KeywordOf(word));
    NothingToRead(KeywordOf(word));
  }

  lemma NothingToRead(k: Keyword)
    requires k in {CreateWord, JoinWord, LeaveWord, FindWord, SendWord, PollWord, RequestWord}
    ensures ParseAs(k, "") == Rejected
  {
  }

  predicate IsCommandWord(word: string) {
    NeedsArguments(word) || word == "list-groups" || word == "list-files" || word == "help" || word == "exit"
  }

  lemma OtherKeyword(word: string)
    requires !IsCommandWord(word)
    ensures KeywordOf(word) == UnknownWord
  {
  }

  lemma UnknownIsRejected(word: string, rest: string)
    requires Word(word) && word[0] != '\n' && |word| + 1 + |rest| < 1024 && KeywordOf(word) == UnknownWord
    ensures Parse(word + " " + rest + "\n") == Rejected
  {
    LineParsesAs(word, rest);
  }

  /** Any other first word is rejected, whatever follows it. */
  lemma OtherWordIsRejected(word: string, rest: string)
    requires word != "" && ' ' !in word && word[0] != '\n' && |word| + 1 + |rest| < 1024 && !IsCommandWord(word)
    ensures Parse(word + " " + rest + "\n") == Rejected
  {
    OtherKeyword(word);
    UnknownIsRejected(word, rest);
  }

  /** An empty line is rejected. */
  lemma EmptyLine()
    ensures Parse("\n") == Rejected
  {
  }

  /** What printCommand writes for the two commands whose words the parser does not know: no quotes, either. */
  lemma MisspelledPrints(query: string, name: string, msg: string)
    ensures Print(FindGroup(query)) == "find-groups " + query + "\n"
    ensures Print(SendMessage(name, msg)) == "sned-message " + name + " " + msg + "\n"
  {
    assert "find-groups" + " " + query == "find-groups " + query;
    assert "sned-message" + " " + (name + " " + msg) == "sned-message " + name + " " + msg;
  }
}
