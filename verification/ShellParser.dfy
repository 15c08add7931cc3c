/** createCmdPipe: from a command line to the flat list of commands. */
module ShellParser {
  import opened Optional
  import opened ShellPipeline

  // ---- strsep ----

  function IndexOf(s: string, c: char): (i: nat)
    ensures i <= |s| && (i < |s| ==> s[i] == c)
    ensures c !in s[..i]
  {
    if s == "" || s[0] == c then 0 else
      var i := 1 + IndexOf(s[1..], c);
      assert s[..i] == [s[0]] + s[1..][..i - 1];
      i
  }

  /** The token up to the delimiter and what follows it; NULL when there is no delimiter left. */
  function Strsep(s: string, c: char): (string, Option<string>) {
    var i := IndexOf(s, c);
    (s[..i], if i < |s| then Some(s[i + 1..]) else None)
  }

  function Split(s: string, c: char): (tokens: seq<string>)
    ensures |tokens| >= 1
    decreases |s|
  {
    var (token, rest) := Strsep(s, c);
    [token] + if rest.Some? then Split(rest.value, c) else []
  }

  lemma SplitStep(s: string, c: char)
    ensures var (token, rest) := Strsep(s, c);
            Split(s, c)[0] == token && Split(s, c)[1..] == if rest.Some? then Split(rest.value, c) else []
  {
  }

  // ---- reading a line as a tree ----

  datatype Parsed = Rejected | Parsed(background: bool, stages: seq<Stage>)

  predicate Blank(c: char) { c == ' ' || c == '\n' }

  /** The last character that is not blank; -1 if there is none. */
  function LastSolid(t: string): (k: int)
    ensures -1 <= k < |t|
    ensures forall j :: k < j < |t| ==> Blank(t[j])
    ensures k >= 0 ==> !Blank(t[k])
  {
    if t == "" then -1 else if !Blank(t[|t| - 1]) then |t| - 1 else LastSolid(t[..|t| - 1])
  }

  predicate EndsInAmpersand(t: string) {
    LastSolid(t) >= 0 && t[LastSolid(t)] == '&'
  }

  /** A trailing `&` is cut off together with the blanks behind it, but an `&` that is the very
      last character stays. */
  function WithoutAmpersand(t: string): string {
    if EndsInAmpersand(t) && LastSolid(t) < |t| - 1 then t[..LastSolid(t)] else t
  }

  function StageOf(t: string, bars: nat): Option<Stage> {
    var fields := Split(t, ',');
    if bars == 1 then Some(Single(t))
    else if bars == 2 && |fields| >= 2 then Some(Double(fields[0], fields[1]))
    else if bars == 3 && |fields| >= 3 then Some(Triple(fields[0], fields[1], fields[2]))
    else None
  }

  /** Tokens between bars; an empty token is one more bar before the next command. */
  function ReadTokens(tokens: seq<string>, bars: nat): Parsed {
    if tokens == [] then Parsed(false, [])
    else if tokens[0] == "" then ReadTokens(tokens[1..], bars + 1)
    else
      match StageOf(WithoutAmpersand(tokens[0]), bars)
      case None => Rejected
      case Some(stage) =>
        match ReadTokens(tokens[1..], 1)
        case Rejected => Rejected
        case Parsed(bg, stages) => Parsed(EndsInAmpersand(tokens[0]) || bg, [stage] + stages)
  }

  function ReadPipeline(line: string): Parsed { ReadTokens(Split(line, '|'), 1) }

  /** Lines that createCmdPipe takes for a command of the shortcut table; they build no pipeline. */
  predicate IsShortcut(line: string) { |line| > 2 && line[..2] == "sc" }

  datatype Line = Shortcut | Pipeline(tree: Parsed)

  function ReadLine(line: string): Line { if IsShortcut(line) then Shortcut else Pipeline(ReadPipeline(line)) }

  // ---- the loops ----

  /** The backwards scan of createCmdPipe, which reads the last character twice. */
  method StripBackground(temp: string) returns (background: bool, text: string)
    requires temp != ""
    ensures background == EndsInAmpersand(temp)
    ensures text == WithoutAmpersand(temp)
  {
    var k := |temp| - 1;
    var last := temp[k];
    while Blank(last) && k >= 0
      invariant -1 <= k < |temp|
      invariant last == (if k == |temp| - 1 then temp[k] else temp[k + 1])
      invariant forall j :: k + 2 <= j < |temp| ==> Blank(temp[j])
      invariant k < |temp| - 1 ==> Blank(temp[|temp| - 1])
      decreases k
    {
      last := temp[k];
      k := k - 1;
    }
    LastSolidIs(temp, if k == |temp| - 1 then k else k + 1);
    background, text := false, temp;
    if last == '&' {
      background := true;
      text := temp[..k + 1];
      assert temp[..|temp|] == temp;
    }
  }

  lemma {:induction false} LastSolidIs(t: string, k: nat)
    requires k < |t| && forall j :: k < j < |t| ==> Blank(t[j])
    requires k == 0 || !Blank(t[k])
    ensures LastSolid(t) == if Blank(t[k]) then -1 else k
  {
    if |t| - 1 > k {
      assert Blank(t[|t| - 1]);
      LastSolidIs(t[..|t| - 1], k);
    } else if Blank(t[k]) {
      assert t[..|t| - 1] == "";
    }
  }

  /** The commands one token contributes, with its offsets. */
  method InsertStage(text: string, bars: nat, pipe: CommandPipe) returns (ok: bool)
    requires pipe.Valid()
    modifies pipe`head, pipe`tail, pipe`count, pipe`nodes, pipe`cmds, pipe.tail
    ensures pipe.Valid() && (pipe.tail == old(pipe.tail) || fresh(pipe.tail))
    ensures match StageOf(text, bars)
            case None => !ok
            case Some(stage) => ok && pipe.cmds == old(pipe.cmds) + FlatStage(stage)
  {
    var fields := Split(text, ',');
    ok := true;
    if bars == 1 {
      pipe.Insert(Cmd(text, 0, SINGLE_PIPE));
    } else if bars == 2 && |fields| >= 2 {
      pipe.Insert(Cmd(fields[0], -1, DOUBLE_PIPE));
      pipe.Insert(Cmd(fields[1], -2, DOUBLE_PIPE));
    } else if bars == 3 && |fields| >= 3 {
      pipe.Insert(Cmd(fields[0], -1, TRIPLE_PIPE));
      pipe.Insert(Cmd(fields[1], -2, TRIPLE_PIPE));
      pipe.Insert(Cmd(fields[2], -3, TRIPLE_PIPE));
    } else {
      ok := false;
    }
  }

  /** What is read so far, followed by what is still to be read. */
  function Followed(background: bool, stages: seq<Stage>, rest: Parsed): Parsed {
    match rest
    case Rejected => Rejected
    case Parsed(bg, more) => Parsed(background || bg, stages + more)
  }

  lemma FollowedNothing(p: Parsed)
    ensures Followed(false, [], p) == p
  {
    if p.Parsed? { assert [] + p.stages == p.stages; }
  }

  lemma FollowedByOne(background: bool, stages: seq<Stage>, tokens: seq<string>, bars: nat)
    requires tokens != [] && tokens[0] != ""
    ensures Followed(background, stages, ReadTokens(tokens, bars)) ==
            match StageOf(WithoutAmpersand(tokens[0]), bars)
            case None => Rejected
            case Some(stage) =>
              Followed(background || EndsInAmpersand(tokens[0]), stages + [stage], ReadTokens(tokens[1..], 1))
  {
    match StageOf(WithoutAmpersand(tokens[0]), bars)
    case None =>
    case Some(stage) =>
      match ReadTokens(tokens[1..], 1)
      case Rejected =>
      case Parsed(bg, more) => assert stages + ([stage] + more) == stages + [stage] + more;
  }

  lemma {:induction false} FlattenAppend(stages: seq<Stage>, s: Stage)
    ensures Flatten(stages + [s]) == Flatten(stages) + FlatStage(s)
  {
    if stages == [] {
      assert [s][1..] == [] && Flatten([s]) == FlatStage(s) + [];
    } else {
      assert (stages + [s])[1..] == stages[1..] + [s];
      FlattenAppend(stages[1..], s);
    }
  }

  /** One token between bars, its background sign taken off. */
  method InsertToken(temp: string, bars: nat, pipe: CommandPipe) returns (ok: bool)
    requires pipe.Valid() && temp != ""
    modifies pipe, pipe.tail
    ensures pipe.Valid() && (pipe.tail == old(pipe.tail) || fresh(pipe.tail))
    ensures match StageOf(WithoutAmpersand(temp), bars)
            case None => !ok
            case Some(stage) =>
              && ok && pipe.cmds == old(pipe.cmds) + FlatStage(stage)
              && pipe.isBackground == (old(pipe.isBackground) || EndsInAmpersand(temp))
  {
    var background, text := StripBackground(temp);
    if background { pipe.isBackground := true; }
    ok := InsertStage(text, bars, pipe);
  }

  /** Built is createCmdPipe's true, ForShortcut its false; Exited is a failed assertion. */
  datatype Created = Built | ForShortcut | Exited

  /** createCmdPipe, the shortcut branch only recognised: it emits, command by command, the flat list of the tree
      the line stands for, and every group is a complete run of offsets. */
  method CreateCmdPipe(line: string, pipe: CommandPipe) returns (r: Created)
    requires pipe.Valid() && pipe.cmds == [] && !pipe.isBackground && pipe.tail == null
    modifies pipe
    ensures pipe.Valid()
    ensures match ReadLine(line)
            case Shortcut => r == ForShortcut
            case Pipeline(Rejected) => r == Exited
            case Pipeline(Parsed(background, stages)) =>
              r == Built && pipe.isBackground == background && pipe.cmds == Flatten(stages)
  {
    if |line| > 2 && line[..2] == "sc" { return ForShortcut; }
    var ok := BuildPipeline(line, pipe);
    r := if ok then Built else Exited;
  }

  /** The branch for pipelines. */
  method BuildPipeline(line: string, pipe: CommandPipe) returns (ok: bool)
    requires pipe.Valid() && pipe.cmds == [] && !pipe.isBackground && pipe.tail == null
    modifies pipe
    ensures pipe.Valid()
    ensures match ReadPipeline(line)
            case Rejected => !ok
            case Parsed(background, stages) => ok && pipe.isBackground == background && pipe.cmds == Flatten(stages)
  {
    ok := true;
    var bars: nat := 1;
    var rest := Some(line);
    ghost var left, stages, tree := Split(line, '|'), [], ReadPipeline(line);
    FollowedNothing(tree);
    while rest.Some?
      invariant left == (if rest.Some? then Split(rest.value, '|') else [])
      invariant tree == Followed(pipe.isBackground, stages, ReadTokens(left, bars))
      invariant ok && pipe.Valid() && (pipe.tail == null || fresh(pipe.tail)) && pipe.cmds == Flatten(stages)
      decreases if rest.Some? then 1 + |rest.value| else 0
    {
      var (temp, after) := Strsep(rest.value, '|');
      SplitStep(rest.value, '|');
      rest := after;
      if temp == "" {
        bars := bars + 1;
      } else {
        FollowedByOne(pipe.isBackground, stages, left, bars);
        ghost var stage := StageOf(WithoutAmpersand(temp), bars);
        ok := InsertToken(temp, bars, pipe);
        if !ok { return; }
        FlattenAppend(stages, stage.value);
        stages, bars := stages + [stage.value], 1;
      }
      left := left[1..];
    }
    assert stages + [] == stages;
  }

  // ---- rendering a tree and reading it back ----

  function BarsOf(s: Stage): nat {
    match s
    case Single(_) => 1
    case Double(_, _) => 2
    case Triple(_, _, _) => 3
  }

  function TextOf(s: Stage): string {
    match s
    case Single(c) => c
    case Double(a, b) => a + "," + b
    case Triple(a, b, c) => a + "," + (b + "," + c)
  }

  function Bars(n: nat): string { if n == 0 then "" else "|" + Bars(n - 1) }

  /** One bar separates two stages; a group adds one or two more in front of itself. */
  function Render(stages: seq<Stage>): string {
    if stages == [] then ""
    else Bars(BarsOf(stages[0]) - 1) + (TextOf(stages[0]) + if |stages| == 1 then "" else "|" + Render(stages[1..]))
  }

  /** Texts that survive: non-empty, free of the delimiters in use, and not ending in `&`. */
  predicate Clean(s: Stage) {
    && TextOf(s) != ""
    && '|' !in TextOf(s)
    && !EndsInAmpersand(TextOf(s))
    && match s
       case Single(_) => true
       case Double(a, b) => ',' !in a && ',' !in b
       case Triple(a, b, c) => ',' !in a && ',' !in b && ',' !in c
  }

  lemma {:induction false} IndexOfFirst(a: string, c: char, b: string)
    requires c !in a
    ensures IndexOf(a + [c] + b, c) == |a|
    ensures IndexOf(a, c) == |a|
  {
    if a != "" {
      assert (a + [c] + b)[1..] == a[1..] + [c] + b;
      IndexOfFirst(a[1..], c, b);
    }
  }

  lemma SplitFirst(a: string, c: char, b: string)
    requires c !in a
    ensures Split(a + [c] + b, c) == [a] + Split(b, c)
    ensures Split(a, c) == [a]
  {
    IndexOfFirst(a, c, b);
    assert (a + [c] + b)[..|a|] == a && (a + [c] + b)[|a| + 1..] == b;
    assert a[..|a|] == a && [a] + [] == [a];
  }

  lemma SplitTwo(a: string, b: string)
    requires ',' !in a && ',' !in b
    ensures Split(a + "," + b, ',') == [a, b]
  {
    SplitFirst(a, ',', b);
    SplitFirst(b, ',', "");
  }

  lemma SplitThree(a: string, b: string, c: string)
    requires ',' !in a && ',' !in b && ',' !in c
    ensures Split(a + "," + (b + "," + c), ',') == [a, b, c]
  {
    SplitFirst(a, ',', b + "," + c);
    SplitTwo(b, c);
  }

  lemma DoubleReadsBack(a: string, b: string)
    requires ',' !in a && ',' !in b
    ensures StageOf(a + "," + b, 2) == Some(Double(a, b))
  {
    SplitTwo(a, b);
  }

  lemma TripleReadsBack(a: string, b: string, c: string)
    requires ',' !in a && ',' !in b && ',' !in c
    ensures StageOf(a + "," + (b + "," + c), 3) == Some(Triple(a, b, c))
  {
    SplitThree(a, b, c);
  }

  lemma StageReadsBack(s: Stage)
    requires Clean(s)
    ensures StageOf(TextOf(s), BarsOf(s)) == Some(s)
  {
    match s
    case Single(_) =>
    case Double(a, b) => DoubleReadsBack(a, b);
    case Triple(a, b, c) => TripleReadsBack(a, b, c);
  }

  lemma HeadReadsBack(s: Stage, rest: seq<string>)
    requires Clean(s)
    ensures ReadTokens([TextOf(s)] + rest, BarsOf(s)) == Followed(false, [s], ReadTokens(rest, 1))
  {
    StageReadsBack(s);
    assert ([TextOf(s)] + rest)[1..] == rest;
  }

  /** Reading past the extra bars of a group only counts them. */
  lemma {:induction false} BarsAreCounted(n: nat, bars: nat, text: string)
    ensures ReadTokens(Split(Bars(n) + text, '|'), bars) == ReadTokens(Split(text, '|'), bars + n)
  {
    if n == 0 {
      assert Bars(0) + text == text;
    } else {
      assert Bars(n) + text == "" + ['|'] + (Bars(n - 1) + text);
      SplitFirst("", '|', Bars(n - 1) + text);
      BarsAreCounted(n - 1, bars + 1, text);
    }
  }

  /** Every tree of clean texts is read back from its rendering, unless that looks like a shortcut command. */
  lemma LineReadsBackIff(stages: seq<Stage>)
    requires stages != [] && forall s :: s in stages ==> Clean(s)
    ensures ReadLine(Render(stages)) == Pipeline(Parsed(false, stages)) <==> !IsShortcut(Render(stages))
  {
    RenderReadsBack(stages);
  }

  lemma {:induction false} RenderReadsBack(stages: seq<Stage>)
    requires stages != [] && forall s :: s in stages ==> Clean(s)
    ensures ReadPipeline(Render(stages)) == Parsed(false, stages)
  {
    var s, more := stages[0], stages[1..];
    assert stages == [s] + more;
    if more == [] {
      LastReadsBack(s);
    } else {
      RenderReadsBack(more);
      FirstReadsBack(s, Render(more));
    }
  }

  /** A line of one token, with n bars counting for it. */
  lemma OneToken(n: nat, t: string)
    requires n >= 1 && t != "" && '|' !in t
    ensures ReadPipeline(Bars(n - 1) + t) ==
            match StageOf(WithoutAmpersand(t), n)
            case None => Rejected
            case Some(stage) => Parsed(EndsInAmpersand(t), [stage])
  {
    BarsAreCounted(n - 1, 1, t);
    SplitFirst(t, '|', "");
    assert [t][1..] == [];
    match StageOf(WithoutAmpersand(t), n)
    case None =>
    case Some(stage) => assert [stage] + [] == [stage];
  }

  lemma LastReadsBack(s: Stage)
    requires Clean(s)
    ensures ReadPipeline(Bars(BarsOf(s) - 1) + (TextOf(s) + "")) == Parsed(false, [s])
  {
    assert TextOf(s) + "" == TextOf(s);
    StageReadsBack(s);
    OneToken(BarsOf(s), TextOf(s));
  }

  lemma LineSplits(n: nat, text: string, more: string)
    requires '|' !in text
    ensures ReadPipeline(Bars(n) + (text + ("|" + more))) == ReadTokens([text] + Split(more, '|'), 1 + n)
  {
    BarsAreCounted(n, 1, text + ("|" + more));
    assert text + ("|" + more) == text + ['|'] + more;
    SplitFirst(text, '|', more);
  }

  lemma FirstReadsBack(s: Stage, more: string)
    requires Clean(s)
    ensures ReadPipeline(Bars(BarsOf(s) - 1) + (TextOf(s) + ("|" + more))) == Followed(false, [s], ReadPipeline(more))
  {
    LineSplits(BarsOf(s) - 1, TextOf(s), more);
    HeadReadsBack(s, Split(more, '|'));
  }

  // ---- what counts as a shortcut, and as the sign ----

  /** Exactly the lines of at least three characters that start with `sc`. */
  lemma ShortcutIff(line: string)
    ensures ReadLine(line) == Shortcut <==> |line| >= 3 && line[0] == 's' && line[1] == 'c'
  {
    if |line| >= 3 && line[0] == 's' && line[1] == 'c' { assert line[..2] == "sc"; }
  }

  /** The sign is an `&` with nothing but blanks and newlines behind it; it goes with them if there are any. */
  lemma SignIff(t: string, k: nat)
    requires k < |t| && t[k] != ' ' && t[k] != '\n' && forall j :: k < j < |t| ==> t[j] == ' ' || t[j] == '\n'
    ensures EndsInAmpersand(t) <==> t[k] == '&'
    ensures WithoutAmpersand(t) == if t[k] == '&' && k < |t| - 1 then t[..k] else t
  {
    LastSolidIs(t, k);
  }

  /** A text of blanks and newlines has no sign. */
  lemma NoSign(t: string)
    requires forall j :: 0 <= j < |t| ==> t[j] == ' ' || t[j] == '\n'
    ensures !EndsInAmpersand(t) && WithoutAmpersand(t) == t
  {
  }

  // ---- the background sign ----

  lemma SignIsFound(text: string, blank: char)
    requires Blank(blank)
    ensures EndsInAmpersand(text + "&" + [blank]) && WithoutAmpersand(text + "&" + [blank]) == text
  {
    var t := text + "&" + [blank];
    assert t[..|t| - 1] == text + "&";
    assert LastSolid(t) == |text|;
  }

  /** `&` and a blank behind the last command put the pipeline into the background, and nothing else changes. */
  lemma {:induction false} BackgroundReadsBack(stages: seq<Stage>, blank: char)
    requires stages != [] && (forall s :: s in stages ==> Clean(s)) && (blank == ' ' || blank == '\n')
    ensures ReadPipeline(Render(stages) + ("&" + [blank])) == Parsed(true, stages)
  {
    var s, more, sign := stages[0], stages[1..], "&" + [blank];
    assert stages == [s] + more;
    var bars, text := Bars(BarsOf(s) - 1), TextOf(s);
    if more == [] {
      assert bars + (text + "") + sign == bars + (text + sign);
      LastInBackground(s, blank);
    } else {
      BackgroundReadsBack(more, blank);
      assert bars + (text + ("|" + Render(more))) + sign == bars + (text + ("|" + (Render(more) + sign)));
      FirstReadsBack(s, Render(more) + sign);
    }
  }

  lemma LastInBackground(s: Stage, blank: char)
    requires Clean(s) && (blank == ' ' || blank == '\n')
    ensures ReadPipeline(Bars(BarsOf(s) - 1) + (TextOf(s) + ("&" + [blank]))) == Parsed(true, [s])
  {
    var t := TextOf(s) + ("&" + [blank]);
    assert t == TextOf(s) + "&" + [blank];
    SignIsFound(TextOf(s), blank);
    StageReadsBack(s);
    OneToken(BarsOf(s), t);
    assert [s] + [] == [s];
  }

  /** An `&` that is the very last character counts as the sign, but stays in the text. */
  lemma LastCharacterStays(text: string)
    requires '|' !in text
    ensures ReadPipeline(text + "&") == Parsed(true, [Single(text + "&")])
  {
    OneToken(1, text + "&");
    assert Bars(0) + (text + "&") == text + "&";
  }

  // ---- groups that do not fit their bars ----

  lemma {:induction false} NoComma(t: string)
    requires ',' !in t
    ensures |Split(t, ',')| == 1
  {
    SplitFirst(t, ',', "");
  }

  /** Two bars demand two texts, and three bars three. */
  lemma MisfitsAreRejected(n: nat, a: string, b: string)
    requires '|' !in a && '|' !in b && ',' !in a && ',' !in b && a != "" && !EndsInAmpersand(a)
    requires !EndsInAmpersand(a + "," + b)
    ensures n >= 2 ==> ReadPipeline(Bars(n - 1) + a) == Rejected
    ensures n >= 3 ==> ReadPipeline(Bars(n - 1) + (a + "," + b)) == Rejected
  {
    NoComma(a);
    SplitTwo(a, b);
    if n >= 2 { OneToken(n, a); }
    if n >= 3 { OneToken(n, a + "," + b); }
  }

  lemma SplitMore(a: string, b: string, c: string, more: string)
    requires ',' !in a && ',' !in b && ',' !in c
    ensures Split(a + "," + (b + "," + (c + "," + more)), ',') == [a] + ([b] + ([c] + Split(more, ',')))
  {
    SplitFirst(a, ',', b + "," + (c + "," + more));
    SplitFirst(b, ',', c + "," + more);
    SplitFirst(c, ',', more);
  }

  lemma StageOfMore(t: string, a: string, b: string, c: string, rest: seq<string>)
    requires Split(t, ',') == [a] + ([b] + ([c] + rest))
    ensures StageOf(t, 2) == Some(Double(a, b)) && StageOf(t, 3) == Some(Triple(a, b, c))
  {
  }

  lemma DropsFrom(t: string, n: nat, stage: Stage)
    requires n >= 1 && t != "" && '|' !in t && !EndsInAmpersand(t) && StageOf(t, n) == Some(stage)
    ensures ReadPipeline(Bars(n - 1) + t) == Parsed(false, [stage])
  {
    OneToken(n, t);
  }

  /** Four or more bars before a command end the program, whatever the command. */
  lemma FourBarsAreRejected(n: nat, t: string)
    requires n >= 4 && t != "" && '|' !in t
    ensures ReadPipeline(Bars(n - 1) + t) == Rejected
  {
    OneToken(n, t);
  }

  /** Texts beyond the second or the third are dropped. */
  lemma MoreTextsAreDropped(a: string, b: string, c: string, more: string)
    requires '|' !in a && '|' !in b && '|' !in c && '|' !in more && ',' !in a && ',' !in b && ',' !in c
    requires !EndsInAmpersand(a + "," + (b + "," + (c + "," + more)))
    ensures var t := a + "," + (b + "," + (c + "," + more));
            ReadPipeline(Bars(1) + t) == Parsed(false, [Double(a, b)])
            && ReadPipeline(Bars(2) + t) == Parsed(false, [Triple(a, b, c)])
  {
    var t := a + "," + (b + "," + (c + "," + more));
    SplitMore(a, b, c, more);
    StageOfMore(t, a, b, c, Split(more, ','));
    DropsFrom(t, 2, Double(a, b));
    DropsFrom(t, 3, Triple(a, b, c));
  }

  // ---- from the text to the bytes ----

  /** What an accepted line prints. */
  function Prints(run: Program, line: string, input: Bytes): Option<Bytes> {
    match ReadPipeline(line)
    case Rejected => None
    case Parsed(_, stages) => Some(Meaning(run, stages, input))
  }

  lemma {:induction false} MeaningAppend(run: Program, stages: seq<Stage>, s: Stage, input: Bytes)
    ensures Meaning(run, stages + [s], input) == StageMeaning(run, s, Meaning(run, stages, input))
  {
    if stages == [] {
      assert [s][1..] == [];
    } else {
      assert (stages + [s])[1..] == stages[1..] + [s];
      MeaningAppend(run, stages[1..], s, StageMeaning(run, stages[0], input));
    }
  }

  /** What a rendering has behind its first stage. */
  function Tail(more: seq<Stage>): string { if more == [] then "" else "|" + Render(more) }

  lemma RenderMore(s: Stage, more: seq<Stage>)
    ensures Render([s] + more) == Bars(BarsOf(s) - 1) + (TextOf(s) + Tail(more))
  {
    assert ([s] + more)[1..] == more;
  }

  lemma LastRenders(s: Stage)
    ensures "|" + Render([s]) == Bars(BarsOf(s)) + TextOf(s)
  {
    RenderMore(s, []);
    assert [s] + [] == [s];
    assert "|" + (Bars(BarsOf(s) - 1) + (TextOf(s) + "")) == "|" + Bars(BarsOf(s) - 1) + TextOf(s);
  }

  lemma BehindText(bars: string, text: string, tail: string, last: string)
    ensures bars + (text + (tail + last)) == bars + (text + tail) + last
  {
  }

  lemma {:induction false} TailAppend(more: seq<Stage>, s: Stage)
    ensures Tail(more + [s]) == Tail(more) + (Bars(BarsOf(s)) + TextOf(s))
    decreases |more|, 0
  {
    var last := Bars(BarsOf(s)) + TextOf(s);
    if more == [] {
      LastRenders(s);
      assert more + [s] == [s] && "" + last == last;
    } else {
      RenderAppend(more[0], more[1..], s);
      assert more == [more[0]] + more[1..];
      assert "|" + (Render(more) + last) == "|" + Render(more) + last;
    }
  }

  lemma {:induction false} RenderAppend(first: Stage, more: seq<Stage>, s: Stage)
    ensures Render([first] + more + [s]) == Render([first] + more) + (Bars(BarsOf(s)) + TextOf(s))
    decreases |more|, 1
  {
    assert [first] + more + [s] == [first] + (more + [s]);
    RenderMore(first, more);
    RenderMore(first, more + [s]);
    TailAppend(more, s);
    BehindText(Bars(BarsOf(first) - 1), TextOf(first), Tail(more), Bars(BarsOf(s)) + TextOf(s));
  }

  lemma StageIsAdded(run: Program, stages: seq<Stage>, s: Stage, input: Bytes)
    requires stages != [] && (forall r :: r in stages ==> Clean(r)) && Clean(s)
    ensures Prints(run, Render(stages), input) == Some(Meaning(run, stages, input))
    ensures Prints(run, Render(stages) + (Bars(BarsOf(s)) + TextOf(s)), input) ==
            Some(StageMeaning(run, s, Meaning(run, stages, input)))
  {
    RenderReadsBack(stages);
    forall r | r in stages + [s] ensures Clean(r) { if r !in stages { assert r == s; } }
    RenderReadsBack(stages + [s]);
    assert stages == [stages[0]] + stages[1..];
    RenderAppend(stages[0], stages[1..], s);
    MeaningAppend(run, stages, s, input);
  }

  /** What the three kinds of bars behind a line do with what the line prints: all commands of a group read it, and what
      they write follows each other in their order. */
  lemma BarsMean(run: Program, stages: seq<Stage>, a: string, b: string, c: string, input: Bytes)
    requires stages != [] && forall r :: r in stages ==> Clean(r)
    requires Clean(Single(a)) && Clean(Double(a, b)) && Clean(Triple(a, b, c))
    ensures Prints(run, Render(stages), input).Some?
    ensures var line, out := Render(stages), Prints(run, Render(stages), input).value;
            && Prints(run, line + ("|" + a), input) == Some(run(a, out))
            && Prints(run, line + ("||" + (a + "," + b)), input) == Some(run(a, out) + run(b, out))
            && Prints(run, line + ("|||" + (a + "," + (b + "," + c))), input) ==
               Some(run(a, out) + run(b, out) + run(c, out))
  {
    assert Bars(1) == "|" && Bars(2) == "||" && Bars(3) == "|||";
    StageIsAdded(run, stages, Single(a), input);
    StageIsAdded(run, stages, Double(a, b), input);
    StageIsAdded(run, stages, Triple(a, b, c), input);
  }

  /** And a single command prints what it makes of the input. */
  lemma CommandPrints(run: Program, a: string, input: Bytes)
    requires Clean(Single(a))
    ensures Prints(run, a, input) == Some(run(a, input))
  {
    RenderReadsBack([Single(a)]);
    assert Render([Single(a)]) == a;
    MeaningAppend(run, [], Single(a), input);
    assert [] + [Single(a)] == [Single(a)];
  }

  /** Undefined: the pipe array would have a negative size, or the value of an entry outside it would be used. */
  datatype Shown = ProgramExit | Diverted | Undefined | Terminal(text: Bytes)

  /** From the text of a line to what it prints: the line of any tree that starts with a single command is
      parsed, wired up linearly and run, and the terminal shows the tree's meaning. */
  method RunLine(run: Program, line: string, stdin: Bytes, outside: Outside) returns (shown: Shown)
    ensures shown == Diverted <==> ReadLine(line) == Shortcut
    ensures shown == ProgramExit <==> ReadLine(line) == Pipeline(Rejected)
    ensures ReadLine(line).Pipeline? && ReadLine(line).tree.Parsed? ==>
              var stages := ReadLine(line).tree.stages;
              shown == if stages != [] && stages[0].Single? then Terminal(Meaning(run, stages, stdin)) else Undefined
  {
    var pipe := new CommandPipe();
    var r := CreateCmdPipe(line, pipe);
    if r == ForShortcut { return Diverted; }
    if r == Exited { return ProgramExit; }
    if pipe.count == 0 || pipe.head.cmd.parOffset != 0 { return Undefined; }
    FlatMeansTree(run, ReadPipeline(line).stages, stdin);
    var out := Execute(run, pipe, stdin, outside);
    shown := Terminal(out);
  }
}
