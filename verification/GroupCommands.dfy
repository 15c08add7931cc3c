/** The command language of the group messenger: parseCommand, a parser built on strtok's hidden
    cursor and changing delimiters, and printCommand. */
module GroupCommands {
  import opened Decimal
  import opened Optional

  const GROUP_NAME_LEN := 20
  const IP_LEN := 20
  const MESSAGE_LEN := 100
  const NUM_OPTIONS := 5
  const COMMAND_LEN := 1024
  const FILE_NAME_LEN := 20

  datatype Command =
    | CreateGroup(name: string, ip: string, port: int)
    | JoinGroup(name: string)
    | LeaveGroup(name: string)
    | FindGroup(query: string)
    | SendMessage(name: string, msg: string)
    | InitPoll(name: string, question: string, count: int, options: seq<string>)
    | ListGroups
    | ListFiles
    | RequestFile(file: string)
    | Help
    | Exit

  /** Undefined: the C code would write past a fixed array, pass NULL to strcmp, read before the
      line, or convert a number that does not fit. */
  datatype Outcome = Undefined | Rejected | Parsed(cmd: Command)

  // ---- strtok ----

  function SkipDelims(s: string, d: char): (r: string)
    ensures r == "" || r[0] != d
  {
    if s != "" && s[0] == d then SkipDelims(s[1..], d) else s
  }

  function TokenEnd(s: string, d: char): (e: nat)
    ensures e <= |s| && d !in s[..e]
    ensures e < |s| ==> s[e] == d
    ensures s != "" && s[0] != d ==> e > 0
  {
    if s == "" || s[0] == d then 0 else
      var e := 1 + TokenEnd(s[1..], d);
      assert s[..e] == [s[0]] + s[1..][..e - 1];
      e
  }

  /** The next token and what the cursor is left with. */
  function Strtok(s: string, d: char): (r: (Option<string>, string))
    ensures r.0.Some? ==> r.0.value != "" && d !in r.0.value
  {
    var t := SkipDelims(s, d);
    if t == "" then (None, "") else
      var e := TokenEnd(t, d);
      (Some(t[..e]), if e < |t| then t[e + 1..] else "")
  }

  /** strtok's static state. */
  class Cursor {
    var rest: string

    constructor (s: string)
      ensures rest == s
    {
      rest := s;
    }

    method Next(d: char) returns (token: Option<string>)
      modifies this
      ensures (token, rest) == Strtok(old(rest), d)
    {
      var t := Skipped(rest, d);
      if t == "" {
        token, rest := None, "";
        return;
      }
      var e := EndOf(t, d);
      token := Some(t[..e]);
      rest := if e < |t| then t[e + 1..] else "";
    }
  }

  /** The two scans inside strtok. */
  method Skipped(s: string, d: char) returns (t: string)
    ensures t == SkipDelims(s, d)
  {
    var from := 0;
    while from < |s| && s[from] == d
      invariant 0 <= from <= |s|
      invariant SkipDelims(s[from..], d) == SkipDelims(s, d)
    {
      assert s[from..][1..] == s[from + 1..];
      from := from + 1;
    }
    t := s[from..];
  }

  method EndOf(t: string, d: char) returns (e: nat)
    ensures e == TokenEnd(t, d)
  {
    e := 0;
    while e < |t| && t[e] != d
      invariant 0 <= e <= |t|
      invariant TokenEnd(t, d) == e + TokenEnd(t[e..], d)
    {
      assert t[e..][1..] == t[e + 1..];
      e := e + 1;
    }
  }

  // ---- parseCommand ----

  predicate Fits(n: int) { INT_MIN <= n <= INT_MAX }

  /** The options of a poll: each is followed by the blank between two quoted strings. */
  function ReadOptions(s: string, i: nat, count: int): (failure: Option<Outcome>)
    ensures failure.Some? ==> !failure.value.Parsed?
    decreases count - i
  {
    if i >= count then None else
      var (opt, s1) := Strtok(s, '"');
      var (_, s2) := Strtok(s1, '"');
      if opt == None then Some(Rejected)
      else if i >= NUM_OPTIONS || |opt.value| >= MESSAGE_LEN then Some(Undefined)
      else ReadOptions(s2, i + 1, count)
  }

  /** The same options, when ReadOptions finds nothing wrong. */
  function Options(s: string, i: nat, count: int): seq<string>
    requires ReadOptions(s, i, count) == None
    decreases count - i
  {
    if i >= count then [] else
      var (opt, s1) := Strtok(s, '"');
      var (_, s2) := Strtok(s1, '"');
      [opt.value] + Options(s2, i + 1, count)
  }

  function ParseCreate(s: string): Outcome {
    var (name, s1) := Strtok(s, ' ');
    var (ip, s2) := Strtok(s1, ' ');
    var (port, _) := Strtok(s2, ' ');
    if name == None || ip == None || port == None then Rejected
    else if |name.value| >= GROUP_NAME_LEN || |ip.value| >= IP_LEN || !Fits(Atoi(port.value)) then Undefined
    else Parsed(CreateGroup(name.value, ip.value, Atoi(port.value)))
  }

  function ParseJoin(s: string): Outcome {
    var (name, _) := Strtok(s, ' ');
    if name == None then Rejected
    else if |name.value| >= GROUP_NAME_LEN then Undefined
    else Parsed(JoinGroup(name.value))
  }

  function ParseLeave(s: string): Outcome {
    var (name, _) := Strtok(s, ' ');
    if name == None then Rejected
    else if |name.value| >= GROUP_NAME_LEN then Undefined
    else Parsed(LeaveGroup(name.value))
  }

  function ParseFind(s: string): Outcome {
    var (query, _) := Strtok(s, ' ');
    if query == None then Rejected
    else if |query.value| >= GROUP_NAME_LEN then Undefined
    else Parsed(FindGroup(query.value))
  }

  function ParseSend(s: string): Outcome {
    var (name, s1) := Strtok(s, ' ');
    var (msg, _) := Strtok(s1, '"');
    if name == None || msg == None then Rejected
    else if |name.value| >= GROUP_NAME_LEN || |msg.value| >= MESSAGE_LEN then Undefined
    else Parsed(SendMessage(name.value, msg.value))
  }

  function ParsePoll(s: string): Outcome {
    var (name, s1) := Strtok(s, ' ');
    var (question, s2) := Strtok(s1, '"');
    var (number, s3) := Strtok(s2, ' ');
    if name == None || question == None || number == None then Rejected
    else FinishPoll(name.value, question.value, Atoi(number.value), s3)
  }

  function FinishPoll(name: string, question: string, count: int, s: string): Outcome {
    if |name| >= GROUP_NAME_LEN || |question| >= MESSAGE_LEN || !Fits(count) then Undefined
    else match ReadOptions(s, 0, count)
         case Some(failure) => failure
         case None => Parsed(InitPoll(name, question, count, Options(s, 0, count)))
  }

  /** The length check lets one character too many through. */
  function ParseRequest(s: string): Outcome {
    var (file, _) := Strtok(s, ' ');
    if file == None || |file.value| > FILE_NAME_LEN then Rejected
    else if |file.value| == FILE_NAME_LEN then Undefined
    else Parsed(RequestFile(file.value))
  }

  datatype Keyword =
    | CreateWord | JoinWord | LeaveWord | FindWord | SendWord | PollWord | GroupsWord | FilesWord | RequestWord
    | HelpWord | ExitWord | UnknownWord

  function KeywordOf(word: string): Keyword {
    if word == "create-group" then CreateWord
    else if word == "join-group" then JoinWord
    else if word == "leave-group" then LeaveWord
    else if word == "find-group" then FindWord
    else if word == "send-message" then SendWord
    else if word == "init-poll" then PollWord
    else if word == "list-groups" then GroupsWord
    else if word == "help" then HelpWord
    else if word == "exit" then ExitWord
    else if word == "list-files" then FilesWord
    else if word == "request-file" then RequestWord
    else UnknownWord
  }

  function ParseAs(k: Keyword, s: string): Outcome {
    match k
    case CreateWord => ParseCreate(s)
    case JoinWord => ParseJoin(s)
    case LeaveWord => ParseLeave(s)
    case FindWord => ParseFind(s)
    case SendWord => ParseSend(s)
    case PollWord => ParsePoll(s)
    case GroupsWord => Parsed(ListGroups)
    case FilesWord => Parsed(ListFiles)
    case RequestWord => ParseRequest(s)
    case HelpWord => Parsed(Help)
    case ExitWord => Parsed(Exit)
    case UnknownWord => Rejected
  }

  /** A trailing newline goes, and so does a leading one. */
  function Trimmed(raw: string): string
    requires raw != ""
  {
    var len := if raw[|raw| - 1] == '\n' then |raw| - 1 else |raw|;
    if len > 0 && raw[0] == '\n' then raw[1..len] else raw[..len]
  }

  function Parse(raw: string): Outcome {
    if raw == "" then Undefined
    else if raw == "\n" then Rejected
    else
      var line := Trimmed(raw);
      var (word, rest) := Strtok(line, ' ');
      if |line| >= COMMAND_LEN || word == None then Undefined
      else ParseAs(KeywordOf(word.value), rest)
  }

  // ---- printCommand ----

  function QuotedOptions(options: seq<string>): string {
    if options == [] then "" else " \"" + options[0] + "\"" + QuotedOptions(options[1..])
  }

  function KeywordFor(c: Command): Keyword {
    match c
    case CreateGroup(_, _, _) => CreateWord
    case JoinGroup(_) => JoinWord
    case LeaveGroup(_) => LeaveWord
    case FindGroup(_) => FindWord
    case SendMessage(_, _) => SendWord
    case InitPoll(_, _, _, _) => PollWord
    case ListGroups => GroupsWord
    case ListFiles => FilesWord
    case RequestFile(_) => RequestWord
    case Help => HelpWord
    case Exit => ExitWord
  }

  /** The words printCommand writes, two of which the parser does not know. */
  function PrintedWord(k: Keyword): string {
    match k
    case CreateWord => "create-group"
    case JoinWord => "join-group"
    case LeaveWord => "leave-group"
    case FindWord => "find-groups"
    case SendWord => "sned-message"
    case PollWord => "init-poll"
    case GroupsWord => "list-groups"
    case FilesWord => "list-files"
    case RequestWord => "request-file"
    case HelpWord => "help"
    case ExitWord => "exit"
    case UnknownWord => "Command not recognized."
  }

  predicate Bare(c: Command) { c.ListGroups? || c.ListFiles? || c.Help? || c.Exit? }

  function Arguments(c: Command): string {
    match c
    case CreateGroup(name, ip, port) => name + " " + (ip + " " + IntText(port))
    case JoinGroup(name) => name
    case LeaveGroup(name) => name
    case FindGroup(query) => query
    case SendMessage(name, msg) => name + " " + msg
    case InitPoll(name, question, count, options) =>
      name + " " + ("\"" + (question + "\"" + (" " + IntText(count) + QuotedOptions(options))))
    case RequestFile(file) => file
    case _ => ""
  }

  function PrintLine(c: Command): string {
    var word := PrintedWord(KeywordFor(c));
    if Bare(c) then word else word + " " + Arguments(c)
  }

  function Print(c: Command): string { PrintLine(c) + "\n" }

  /** What the C structure can hold: strings with their terminators in their arrays, numbers in an int. */
  predicate Representable(c: Command) {
    match c
    case CreateGroup(name, ip, port) => |name| < GROUP_NAME_LEN && |ip| < IP_LEN && Fits(port)
    case JoinGroup(name) => |name| < GROUP_NAME_LEN
    case LeaveGroup(name) => |name| < GROUP_NAME_LEN
    case FindGroup(query) => |query| < GROUP_NAME_LEN
    case SendMessage(name, msg) => |name| < GROUP_NAME_LEN && |msg| < MESSAGE_LEN
    case InitPoll(name, question, count, options) =>
      && |name| < GROUP_NAME_LEN && |question| < MESSAGE_LEN && Fits(count) && count <= NUM_OPTIONS
      && |options| == (if count > 0 then count else 0)
      && forall i :: 0 <= i < |options| ==> |options[i]| < MESSAGE_LEN
    case RequestFile(file) => |file| < FILE_NAME_LEN
    case _ => true
  }

  predicate Word(s: string) { s != "" && ' ' !in s }

  predicate Quotable(s: string) { s != "" && '"' !in s }

  /** The commands that survive printing and parsing. */
  predicate Printable(c: Command) {
    match c
    case CreateGroup(name, ip, _) => Word(name) && Word(ip)
    case JoinGroup(name) => Word(name)
    case LeaveGroup(name) => Word(name)
    case FindGroup(_) => false
    case SendMessage(_, _) => false
    case InitPoll(name, question, _, options) =>
      Word(name) && Quotable(question) && forall i :: 0 <= i < |options| ==> Quotable(options[i])
    case RequestFile(file) => Word(file)
    case _ => true
  }

  // ---- tokens of printed text ----

  lemma {:induction false} TokenEndAt(x: string, d: char, r: string)
    requires d !in x
    ensures TokenEnd(x + [d] + r, d) == |x| && TokenEnd(x, d) == |x|
  {
    if x != "" {
      assert (x + [d] + r)[1..] == x[1..] + [d] + r;
      TokenEndAt(x[1..], d, r);
    }
  }

  /** A clean text is the next token, whether the delimiter or the end follows it. */
  lemma StrtokTakes(x: string, d: char, r: string)
    requires x != "" && d !in x
    ensures Strtok(x + [d] + r, d) == (Some(x), r)
    ensures Strtok(x, d) == (Some(x), "")
  {
    TokenEndAt(x, d, r);
    var s := x + [d] + r;
    assert s[..|x|] == x && s[|x| + 1..] == r && x[..|x|] == x;
  }

  /** One delimiter in front makes no difference. */
  lemma StrtokSkips(s: string, d: char)
    ensures Strtok([d] + s, d) == Strtok(s, d)
  {
    assert ([d] + s)[1..] == s;
  }

  // ---- printing, then parsing ----

  lemma CreateReadsBack(name: string, ip: string, port: int)
    requires Word(name) && Word(ip) && |name| < GROUP_NAME_LEN && |ip| < IP_LEN && Fits(port)
    ensures ParseCreate(name + " " + (ip + " " + IntText(port))) == Parsed(CreateGroup(name, ip, port))
  {
    IntTextReadsBack(port);
    StrtokTakes(name, ' ', ip + " " + IntText(port));
    StrtokTakes(ip, ' ', IntText(port));
    StrtokTakes(IntText(port), ' ', "");
  }

  lemma TwoTokens(s: string, o: string, s1: string, s2: string, i: nat, count: int)
    requires i < count <= NUM_OPTIONS && |o| < MESSAGE_LEN
    requires Strtok(s, '"') == (Some(o), s1) && Strtok(s1, '"').1 == s2
    ensures ReadOptions(s, i, count) == ReadOptions(s2, i + 1, count)
    ensures ReadOptions(s, i, count) == None ==> Options(s, i, count) == [o] + Options(s2, i + 1, count)
  {
  }

  lemma QuotedFirst(o: string, more: seq<string>)
    ensures QuotedOptions([o] + more)[1..] == ['"'] + (o + ['"'] + QuotedOptions(more))
  {
    assert ([o] + more)[1..] == more;
  }

  lemma QuotedToken(o: string, rest: string)
    requires Quotable(o)
    ensures Strtok(['"'] + (o + ['"'] + rest), '"') == (Some(o), rest)
  {
    StrtokSkips(o + ['"'] + rest, '"');
    StrtokTakes(o, '"', rest);
  }

  /** One round of the option loop on a text whose leading quote is still there. */
  lemma OneOption(o: string, more: seq<string>, i: nat, count: int)
    requires i < count <= NUM_OPTIONS && Quotable(o) && |o| < MESSAGE_LEN
    ensures var s, t := QuotedOptions([o] + more)[1..], if more == [] then "" else QuotedOptions(more)[1..];
            && ReadOptions(s, i, count) == ReadOptions(t, i + 1, count)
            && (ReadOptions(s, i, count) == None ==> Options(s, i, count) == [o] + Options(t, i + 1, count))
  {
    var s, q := QuotedOptions([o] + more)[1..], QuotedOptions(more);
    QuotedFirst(o, more);
    QuotedToken(o, q);
    if more == [] {
      TwoTokens(s, o, "", "", i, count);
    } else {
      AfterBlank(more);
      TwoTokens(s, o, q, q[1..][1..], i, count);
      SameOptions(q[1..], q[1..][1..], i + 1, count);
    }
  }

  /** Between two options the second strtok of each round eats exactly the blank. */
  lemma {:induction false} OptionsReadBack(options: seq<string>, i: nat, count: int)
    requires count - i == |options| && count <= NUM_OPTIONS
    requires forall k :: 0 <= k < |options| ==> Quotable(options[k]) && |options[k]| < MESSAGE_LEN
    ensures var s := if options == [] then "" else QuotedOptions(options)[1..];
            ReadOptions(s, i, count) == None && Options(s, i, count) == options
    decreases |options|
  {
    if options != [] {
      OptionsReadBack(options[1..], i + 1, count);
      assert options == [options[0]] + options[1..];
      OneOption(options[0], options[1..], i, count);
    }
  }

  /** From the end of one option, the blank is a token of its own. */
  lemma AfterBlank(more: seq<string>)
    requires more != []
    ensures QuotedOptions(more)[1..] != "" && QuotedOptions(more)[1..][0] == '"'
    ensures Strtok(QuotedOptions(more), '"') == (Some(" "), QuotedOptions(more)[1..][1..])
  {
    var q := QuotedOptions(more);
    var t := q[1..][1..];
    assert q == " " + ['"'] + t;
    StrtokTakes(" ", '"', t);
  }

  /** A leading quote in front of the first option is skipped anyway. */
  lemma SameOptions(s: string, t: string, i: nat, count: int)
    requires s != "" && s[0] == '"' && t == s[1..]
    ensures ReadOptions(s, i, count) == ReadOptions(t, i, count)
    ensures ReadOptions(s, i, count) == None ==> Options(s, i, count) == Options(t, i, count)
  {
    assert s == ['"'] + t;
    StrtokSkips(t, '"');
  }

  /** From the option count on. */
  lemma CountReadsBack(count: int, options: seq<string>)
    requires count <= NUM_OPTIONS && |options| == (if count > 0 then count else 0)
    requires forall k :: 0 <= k < |options| ==> Quotable(options[k]) && |options[k]| < MESSAGE_LEN
    ensures var (number, s) := Strtok(" " + IntText(count) + QuotedOptions(options), ' ');
            && number == Some(IntText(count))
            && ReadOptions(s, 0, count) == None && Options(s, 0, count) == options
  {
    var n, q := IntText(count), QuotedOptions(options);
    IntTextReadsBack(count);
    assert " " + n + q == [' '] + (n + q);
    StrtokSkips(n + q, ' ');
    if options == [] {
      assert n + q == n;
      StrtokTakes(n, ' ', "");
    } else {
      assert n + q == n + [' '] + q[1..];
      StrtokTakes(n, ' ', q[1..]);
      OptionsReadBack(options, 0, count);
    }
  }

  lemma PollHeadReadsBack(name: string, question: string, tail: string)
    requires Word(name) && Quotable(question) && Strtok(tail, ' ').0.Some?
    ensures var (number, s) := Strtok(tail, ' ');
            ParsePoll(name + " " + ("\"" + (question + "\"" + tail)))
            == FinishPoll(name, question, Atoi(number.value), s)
  {
    StrtokTakes(name, ' ', "\"" + (question + "\"" + tail));
    StrtokSkips(question + "\"" + tail, '"');
    StrtokTakes(question, '"', tail);
  }

  lemma PollReadsBack(name: string, question: string, count: int, options: seq<string>)
    requires Representable(InitPoll(name, question, count, options))
    requires Printable(InitPoll(name, question, count, options))
    ensures ParsePoll(name + " " + ("\"" + (question + "\"" + (" " + IntText(count) + QuotedOptions(options)))))
            == Parsed(InitPoll(name, question, count, options))
  {
    IntTextReadsBack(count);
    CountReadsBack(count, options);
    PollHeadReadsBack(name, question, " " + IntText(count) + QuotedOptions(options));
  }

  /** The line splits into the command word and the rest. */
  lemma LineParsesAs(word: string, rest: string)
    requires Word(word) && word[0] != '\n' && |word| + 1 + |rest| < COMMAND_LEN
    ensures Parse(word + " " + rest + "\n") == ParseAs(KeywordOf(word), rest)
  {
    var line := word + " " + rest;
    assert Trimmed(line + "\n") == line;
    StrtokTakes(word, ' ', rest);
  }

  lemma BareLineParsesAs(word: string)
    requires Word(word) && word[0] != '\n' && |word| < COMMAND_LEN
    ensures Parse(word + "\n") == ParseAs(KeywordOf(word), "")
  {
    assert Trimmed(word + "\n") == word;
    StrtokTakes(word, ' ', "");
  }

  lemma {:induction false} QuotedLength(options: seq<string>)
    requires forall i :: 0 <= i < |options| ==> |options[i]| < MESSAGE_LEN
    ensures |QuotedOptions(options)| <= 102 * |options|
  {
    if options != [] { QuotedLength(options[1..]); }
  }

  /** Commands that fit the structure print to lines that fit the parser's buffer. */
  lemma ArgumentsFit(c: Command)
    requires Representable(c)
    ensures |Arguments(c)| < 700
  {
    match c
    case CreateGroup(_, _, port) => IntTextLength(port);
    case InitPoll(_, _, count, options) => IntTextLength(count); QuotedLength(options);
    case _ =>
  }

  lemma WordReadsBack(x: string)
    requires Word(x) && |x| < GROUP_NAME_LEN
    ensures ParseJoin(x) == Parsed(JoinGroup(x)) && ParseLeave(x) == Parsed(LeaveGroup(x))
    ensures ParseRequest(x) == Parsed(RequestFile(x))
  {
    StrtokTakes(x, ' ', "");
  }

  lemma ShortArgumentsReadBack(c: Command)
    requires Representable(c) && Printable(c) && !c.InitPoll?
    ensures ParseAs(KeywordFor(c), Arguments(c)) == Parsed(c)
  {
    match c
    case CreateGroup(name, ip, port) => CreateReadsBack(name, ip, port);
    case JoinGroup(name) => WordReadsBack(name);
    case LeaveGroup(name) => WordReadsBack(name);
    case RequestFile(file) => WordReadsBack(file);
    case _ =>
  }

  lemma PollArgumentsReadBack(c: Command)
    requires Representable(c) && Printable(c) && c.InitPoll?
    ensures ParsePoll(Arguments(c)) == Parsed(c)
  {
    match c
    case InitPoll(name, question, count, options) =>
      PollReadsBack(name, question, count, options);
      assert Arguments(c) == name + " " + ("\"" + (question + "\"" + (" " + IntText(count) + QuotedOptions(options))));
  }

  lemma PollWordParses(k: Keyword, s: string)
    requires k == PollWord
    ensures ParseAs(k, s) == ParsePoll(s)
  {
  }

  lemma ArgumentsReadBack(c: Command)
    requires Representable(c) && Printable(c)
    ensures ParseAs(KeywordFor(c), Arguments(c)) == Parsed(c)
  {
    if c.InitPoll? {
      PollArgumentsReadBack(c);
      PollWordParses(KeywordFor(c), Arguments(c));
    } else {
      ShortArgumentsReadBack(c);
    }
  }

  /** What the parser makes of a printed command word. */
  function Heard(k: Keyword): Keyword { if k == FindWord || k == SendWord then UnknownWord else k }

  lemma PrintedWordShape(k: Keyword)
    requires k != UnknownWord
    ensures Word(PrintedWord(k)) && PrintedWord(k)[0] != '\n' && |PrintedWord(k)| < 20
  {
  }

  lemma PrintedWordHeard(k: Keyword)
    requires k != UnknownWord
    ensures KeywordOf(PrintedWord(k)) == Heard(k)
  {
    match k
    case RequestWord => assert "request-file"[0] != "create-group"[0] && "request-file"[0] != "send-message"[0];
    case SendWord =>
      assert "sned-message"[1] != "send-message"[1] && "sned-message"[0] != "create-group"[0]
          && "sned-message"[0] != "request-file"[0];
    case FindWord => assert "find-groups"[0] != "leave-group"[0] && "find-groups"[0] != "list-groups"[0];
    case _ =>
  }

  /** The printed line splits into its word and its arguments. */
  lemma PrintedParsesAs(c: Command)
    requires Representable(c)
    ensures Parse(Print(c)) == ParseAs(Heard(KeywordFor(c)), Arguments(c))
  {
    var k := KeywordFor(c);
    PrintedWordShape(k);
    PrintedWordHeard(k);
    ArgumentsFit(c);
    if Bare(c) { BareLineParsesAs(PrintedWord(k)); } else { LineParsesAs(PrintedWord(k), Arguments(c)); }
  }

  // ---- what a parsed command looks like ----

  lemma {:induction false} OptionsAreQuotable(s: string, i: nat, count: int)
    requires ReadOptions(s, i, count) == None
    ensures |Options(s, i, count)| == if count > i then count - i else 0
    ensures count > i ==> count <= NUM_OPTIONS
    ensures forall k :: 0 <= k < |Options(s, i, count)| ==>
              Quotable(Options(s, i, count)[k]) && |Options(s, i, count)[k]| < MESSAGE_LEN
    decreases count - i
  {
    if i < count {
      var (opt, s1) := Strtok(s, '"');
      var (_, s2) := Strtok(s1, '"');
      OptionsAreQuotable(s2, i + 1, count);
    }
  }

  predicate Misspelled(c: Command) { c.FindGroup? || c.SendMessage? }

  predicate Clean(c: Command) { Representable(c) && (Misspelled(c) || Printable(c)) }

  lemma FinishedPollIsClean(name: string, question: string, count: int, s: string)
    requires FinishPoll(name, question, count, s).Parsed? && Word(name) && Quotable(question)
    ensures Clean(FinishPoll(name, question, count, s).cmd)
  {
    OptionsAreQuotable(s, 0, count);
  }

  lemma PollIsClean(s: string)
    requires ParsePoll(s).Parsed?
    ensures Clean(ParsePoll(s).cmd)
  {
    var (name, s1) := Strtok(s, ' ');
    var (question, s2) := Strtok(s1, '"');
    var (number, s3) := Strtok(s2, ' ');
    FinishedPollIsClean(name.value, question.value, Atoi(number.value), s3);
  }

  lemma CreateIsClean(s: string)
    requires ParseCreate(s).Parsed?
    ensures Clean(ParseCreate(s).cmd)
  {
  }

  lemma WordIsClean(s: string)
    ensures ParseJoin(s).Parsed? ==> Clean(ParseJoin(s).cmd)
    ensures ParseLeave(s).Parsed? ==> Clean(ParseLeave(s).cmd)
    ensures ParseFind(s).Parsed? ==> Clean(ParseFind(s).cmd)
    ensures ParseRequest(s).Parsed? ==> Clean(ParseRequest(s).cmd)
  {
  }

  lemma SendIsClean(s: string)
    requires ParseSend(s).Parsed?
    ensures Clean(ParseSend(s).cmd)
  {
  }

  lemma ParsedAsIsClean(k: Keyword, s: string)
    requires ParseAs(k, s).Parsed?
    ensures Clean(ParseAs(k, s).cmd)
  {
    match k
    case CreateWord => CreateIsClean(s);
    case SendWord => SendIsClean(s);
    case PollWord => PollIsClean(s);
    case JoinWord => WordIsClean(s);
    case LeaveWord => WordIsClean(s);
    case FindWord => WordIsClean(s);
    case RequestWord => WordIsClean(s);
    case _ =>
  }

  /** Whatever line it came from, a parsed command fits its structure, and its fields are clean. */
  lemma ParsedIsClean(raw: string)
    ensures Parse(raw).Parsed? ==> Clean(Parse(raw).cmd)
  {
    if Parse(raw).Parsed? {
      var (word, rest) := Strtok(Trimmed(raw), ' ');
      ParsedAsIsClean(KeywordOf(word.value), rest);
    }
  }

  lemma PrintableReadsBack(c: Command)
    requires Representable(c) && Printable(c)
    ensures Parse(Print(c)) == Parsed(c)
  {
    PrintedParsesAs(c);
    ArgumentsReadBack(c);
  }

  lemma MisspelledIsUnheard(c: Command)
    requires Misspelled(c)
    ensures ParseAs(Heard(KeywordFor(c)), Arguments(c)) == Rejected
  {
  }

  /** The two commands whose printed word the parser does not know. */
  lemma MisspelledIsRejected(c: Command)
    requires Representable(c)
    ensures Misspelled(c) ==> Parse(Print(c)) == Rejected
  {
    PrintedParsesAs(c);
    if Misspelled(c) { MisspelledIsUnheard(c); }
  }

  /** parseCommand undoes printCommand exactly on the printable commands. */
  lemma RoundTripIffPrintable(c: Command)
    requires Representable(c)
    ensures Parse(Print(c)) == Parsed(c) <==> Printable(c)
  {
    if Printable(c) {
      PrintableReadsBack(c);
    } else if Misspelled(c) {
      MisspelledIsRejected(c);
    } else if Parse(Print(c)).Parsed? {
      ParsedIsClean(Print(c));
    }
  }

  /** Printing normalises: what was parsed once is parsed again from its own printout. */
  lemma PrintingNormalises(raw: string)
    requires Parse(raw).Parsed? && !Misspelled(Parse(raw).cmd)
    ensures Parse(Print(Parse(raw).cmd)) == Parse(raw)
  {
    ParsedIsClean(raw);
    PrintableReadsBack(Parse(raw).cmd);
  }

  // ---- parseCommand with its cursor ----

  lemma OneMoreOption(options: seq<string>, opt: string, rest: seq<string>)
    ensures options + ([opt] + rest) == options + [opt] + rest
  {
  }

  method ParseOptions(cursor: Cursor, count: int) returns (failure: Option<Outcome>, options: seq<string>)
    modifies cursor
    ensures failure == ReadOptions(old(cursor.rest), 0, count)
    ensures failure == None ==> options == Options(old(cursor.rest), 0, count)
  {
    ghost var goal := ReadOptions(cursor.rest, 0, count);
    ghost var all := if goal == None then Options(cursor.rest, 0, count) else [];
    var i := 0;
    options := [];
    while i < count
      invariant ReadOptions(cursor.rest, i, count) == goal
      invariant goal == None ==> all == options + Options(cursor.rest, i, count)
    {
      var opt := cursor.Next('"');
      var skipped := cursor.Next('"');
      if opt == None { return Some(Rejected), options; }
      if i >= NUM_OPTIONS || |opt.value| >= MESSAGE_LEN { return Some(Undefined), options; }
      if ReadOptions(cursor.rest, i + 1, count) == None {
        OneMoreOption(options, opt.value, Options(cursor.rest, i + 1, count));
      }
      options := options + [opt.value];
      i := i + 1;
    }
    failure := None;
  }

  method ParsePollWith(cursor: Cursor) returns (r: Outcome)
    modifies cursor
    ensures r == ParsePoll(old(cursor.rest))
  {
    var name := cursor.Next(' ');
    var question := cursor.Next('"');
    var number := cursor.Next(' ');
    if name == None || question == None || number == None { return Rejected; }
    var count := Atoi(number.value);
    if |name.value| >= GROUP_NAME_LEN || |question.value| >= MESSAGE_LEN || !Fits(count) { return Undefined; }
    var failure, options := ParseOptions(cursor, count);
    r := if failure.Some? then failure.value else Parsed(InitPoll(name.value, question.value, count, options));
  }

  method ParseCreateWith(cursor: Cursor) returns (r: Outcome)
    modifies cursor
    ensures r == ParseCreate(old(cursor.rest))
  {
    var name := cursor.Next(' ');
    var ip := cursor.Next(' ');
    var port := cursor.Next(' ');
    if name == None || ip == None || port == None { return Rejected; }
    if |name.value| >= GROUP_NAME_LEN || |ip.value| >= IP_LEN || !Fits(Atoi(port.value)) { return Undefined; }
    return Parsed(CreateGroup(name.value, ip.value, Atoi(port.value)));
  }

  method ParseWordWith(k: Keyword, cursor: Cursor) returns (r: Outcome)
    requires k in {JoinWord, LeaveWord, FindWord, RequestWord}
    modifies cursor
    ensures r == ParseAs(k, old(cursor.rest))
  {
    var word := cursor.Next(' ');
    if word == None || (k == RequestWord && |word.value| > FILE_NAME_LEN) { return Rejected; }
    if |word.value| >= GROUP_NAME_LEN { return Undefined; }
    match k
    case JoinWord => r := Parsed(JoinGroup(word.value));
    case LeaveWord => r := Parsed(LeaveGroup(word.value));
    case FindWord => r := Parsed(FindGroup(word.value));
    case RequestWord => r := Parsed(RequestFile(word.value));
  }

  method ParseSendWith(cursor: Cursor) returns (r: Outcome)
    modifies cursor
    ensures r == ParseSend(old(cursor.rest))
  {
    var name := cursor.Next(' ');
    var msg := cursor.Next('"');
    if name == None || msg == None { return Rejected; }
    if |name.value| >= GROUP_NAME_LEN || |msg.value| >= MESSAGE_LEN { return Undefined; }
    r := Parsed(SendMessage(name.value, msg.value));
  }

  /** The branches of parseCommand once the command word is known. */
  method ParseAsWith(k: Keyword, cursor: Cursor) returns (r: Outcome)
    modifies cursor
    ensures r == ParseAs(k, old(cursor.rest))
  {
    match k
    case CreateWord => r := ParseCreateWith(cursor);
    case SendWord => r := ParseSendWith(cursor);
    case PollWord => r := ParsePollWith(cursor);
    case GroupsWord => r := Parsed(ListGroups);
    case FilesWord => r := Parsed(ListFiles);
    case HelpWord => r := Parsed(Help);
    case ExitWord => r := Parsed(Exit);
    case UnknownWord => r := Rejected;
    case _ => r := ParseWordWith(k, cursor);
  }

  method ParseCommand(raw: string) returns (r: Outcome)
    ensures r == Parse(raw)
  {
    if raw == "" { return Undefined; }
    if raw == "\n" { return Rejected; }
    var line := Trimmed(raw);
    if |line| >= COMMAND_LEN { return Undefined; }
    var cursor := new Cursor(line);
    var word := cursor.Next(' ');
    if word == None { return Undefined; }
    r := ParseAsWith(KeywordOf(word.value), cursor);
  }
}
