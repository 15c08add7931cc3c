/** The shell's pipelines: `|`, `||` and `|||` are parsed into a flat list of commands, and the
    list is run over one linear array of pipes. */
module ShellPipeline {

  type Bytes = seq<bv8>

  /** What a program does with its whole standard input. */
  type Program = (string, Bytes) -> Bytes

  const SINGLE_PIPE := 1
  const DOUBLE_PIPE := 2
  const TRIPLE_PIPE := 3

  /** A list element: its place in a comma-separated group, and the bars to the left of the group. */
  datatype Cmd = Cmd(text: string, parOffset: int, pipeCount: int)

  /** The tree reading of the same line. */
  datatype Stage =
    | Single(cmd: string)
    | Double(first: string, second: string)
    | Triple(first: string, second: string, third: string)

  // ---- the tree and the flat list ----

  function FlatStage(s: Stage): seq<Cmd> {
    match s
    case Single(c) => [Cmd(c, 0, SINGLE_PIPE)]
    case Double(a, b) => [Cmd(a, -1, DOUBLE_PIPE), Cmd(b, -2, DOUBLE_PIPE)]
    case Triple(a, b, c) => [Cmd(a, -1, TRIPLE_PIPE), Cmd(b, -2, TRIPLE_PIPE), Cmd(c, -3, TRIPLE_PIPE)]
  }

  function Flatten(stages: seq<Stage>): seq<Cmd> {
    if stages == [] then [] else FlatStage(stages[0]) + Flatten(stages[1..])
  }

  /** All members of a group read the same input; their outputs are concatenated in order. */
  function StageMeaning(run: Program, s: Stage, input: Bytes): Bytes {
    match s
    case Single(c) => run(c, input)
    case Double(a, b) => run(a, input) + run(b, input)
    case Triple(a, b, c) => run(a, input) + run(b, input) + run(c, input)
  }

  function Meaning(run: Program, stages: seq<Stage>, input: Bytes): Bytes {
    if stages == [] then input else Meaning(run, stages[1..], StageMeaning(run, stages[0], input))
  }

  // ---- running the flat list ----

  /** Contents of the count - 1 pipes, and what has reached the terminal. */
  datatype Machine = Machine(pipes: seq<Bytes>, terminal: Bytes)

  const TERMINAL := -1

  /** First of a group, or second of a triple: it must hand its input on to its right neighbour. */
  predicate HandsOn(cmds: seq<Cmd>, i: nat)
    requires i < |cmds|
  {
    i < |cmds| - 1 && (cmds[i].parOffset == -1 || (cmds[i].parOffset == -2 && cmds[i].pipeCount == TRIPLE_PIPE))
  }

  /** The pipe that becomes standard output. */
  function Target(cmds: seq<Cmd>, i: nat): int
    requires i < |cmds|
  {
    var n, c := |cmds|, cmds[i];
    if i == n - 1 then TERMINAL
    else if c.parOffset == -1 then
      if c.pipeCount == DOUBLE_PIPE then if i != n - 2 then i + 1 else TERMINAL
      else if c.pipeCount == TRIPLE_PIPE then if i != n - 3 then i + 2 else TERMINAL
      else i
    else if c.parOffset == -2 && c.pipeCount == TRIPLE_PIPE then
      if i != n - 2 then i + 1 else TERMINAL
    else i
  }

  /** Every descriptor that command i uses is an entry of the pipe array. */
  predicate InBounds(cmds: seq<Cmd>, i: nat)
    requires i < |cmds|
  {
    (HandsOn(cmds, i) ==> i >= 1) && TERMINAL <= Target(cmds, i) < |cmds| - 1
  }

  predicate AllInBounds(cmds: seq<Cmd>) {
    forall i :: 0 <= i < |cmds| ==> InBounds(cmds, i)
  }

  function Append(m: Machine, target: int, data: Bytes): Machine
    requires TERMINAL <= target < |m.pipes|
  {
    if target == TERMINAL then m.(terminal := m.terminal + data)
    else m.(pipes := m.pipes[target := m.pipes[target] + data])
  }

  /** One iteration of executeCmdPipe: fork, wire up, run to the end. */
  function RunOne(run: Program, cmds: seq<Cmd>, i: nat, stdin: Bytes, m: Machine): (m': Machine)
    requires i < |cmds| == |m.pipes| + 1 && InBounds(cmds, i)
    ensures |m'.pipes| == |m.pipes|
  {
    var input := if i == 0 then stdin else m.pipes[i - 1];
    var m1 := if i == 0 then m else m.(pipes := m.pipes[i - 1 := []]);
    var m2 := if HandsOn(cmds, i) then Append(m1, i, input) else m1;
    Append(m2, Target(cmds, i), run(cmds[i].text, input))
  }

  function RunFrom(run: Program, cmds: seq<Cmd>, i: nat, stdin: Bytes, m: Machine): Machine
    requires i <= |cmds| == |m.pipes| + 1 && AllInBounds(cmds)
    decreases |cmds| - i
  {
    if i == |cmds| then m else RunFrom(run, cmds, i + 1, stdin, RunOne(run, cmds, i, stdin, m))
  }

  function Blank(n: nat): Machine { Machine(seq(n, _ => []), []) }

  // ---- the command list ----

  /** `home` is the list a command is in. */
  class Command {
    const cmd: Cmd
    var next: Command?
    ghost const home: CommandPipe

    constructor (cmd: Cmd, ghost home: CommandPipe)
      ensures this.cmd == cmd && next == null && this.home == home
    {
      this.cmd, next, this.home := cmd, null, home;
    }
  }

  ghost function NodeAt(nodes: seq<Command>, i: nat): Command? {
    if i < |nodes| then nodes[i] else null
  }

  class CommandPipe {
    var head: Command?
    var tail: Command?
    var count: nat
    var isBackground: bool
    ghost var nodes: seq<Command>
    ghost var cmds: seq<Cmd>

    ghost predicate Valid()
      reads this, nodes
    {
      && count == |nodes| == |cmds|
      && head == NodeAt(nodes, 0) && tail == (if nodes == [] then null else nodes[|nodes| - 1])
      && (tail != null ==> tail.next == null)
      && (forall i :: 0 <= i < |nodes| ==> nodes[i].cmd == cmds[i] && nodes[i].home == this)
      && (forall i, j :: 0 <= i < |nodes| && 0 <= j < |nodes| && j == i + 1 ==> nodes[i].next == nodes[j])
      && (forall i, j :: 0 <= i < j < |nodes| ==> nodes[i] != nodes[j])
    }

    constructor ()
      ensures Valid() && cmds == [] && !isBackground && tail == null
    {
      head, tail, count, isBackground, nodes, cmds := null, null, 0, false, [], [];
    }

    /** insertCmdInPipe: behind the tail. */
    method Insert(cmd: Cmd)
      requires Valid()
      modifies this`head, this`tail, this`count, this`nodes, this`cmds, tail
      ensures Valid() && cmds == old(cmds) + [cmd] && tail != null && fresh(tail)
    {
      var node := new Command(cmd, this);
      if count == 0 {
        head, tail := node, node;
      } else {
        tail.next := node;
        tail := tail.next;
      }
      count := count + 1;
      nodes, cmds := nodes + [node], cmds + [cmd];
    }
  }

  // ---- descriptors ----

  /** NoFd is -1, which leaves a standard stream alone; Unknown is whatever lay outside pipe_fd. */
  datatype Fd = ReadEnd(pipe: nat) | WriteEnd(pipe: nat) | NoFd | Unknown(value: int)

  /** The memory around pipe_fd: what pipe_fd[k][end] gives for an index outside the array. */
  type Outside = (int, int) -> int

  function ReadEndAt(pipes: nat, k: int, outside: Outside): Fd {
    if 0 <= k < pipes then ReadEnd(k) else Unknown(outside(k, 0))
  }

  function WriteEndAt(pipes: nat, k: int, outside: Outside): Fd {
    if 0 <= k < pipes then WriteEnd(k) else Unknown(outside(k, 1))
  }

  /** Where a child reads, where it copies its input to, and where it writes. */
  datatype Wires = Wires(source: Fd, copyTo: Fd, output: Fd)

  predicate AllKnown(w: Wires) { !w.source.Unknown? && !w.copyTo.Unknown? && !w.output.Unknown? }

  /** The wiring of one child. write_fd and read_pipe are fetched before it is known whether they are needed,
      the last command's write_fd and the first command's read_pipe from outside the array. */
  method WireUp(cmd: Cmd, i: nat, count: nat, outside: Outside, ghost cmds: seq<Cmd>) returns (w: Wires)
    requires i < |cmds| == count && cmd == cmds[i]
    ensures AllKnown(w) <==> InBounds(cmds, i)
    ensures InBounds(cmds, i) ==>
              && w.source == (if i == 0 then NoFd else ReadEnd(i - 1))
              && w.copyTo == (if HandsOn(cmds, i) then WriteEnd(i) else NoFd)
              && w.output == (if Target(cmds, i) == TERMINAL then NoFd else WriteEnd(Target(cmds, i)))
  {
    var n := count - 1;
    var writeFd, readPipe := WriteEndAt(n, i, outside), ReadEndAt(n, i - 1, outside);
    var source, copyTo := NoFd, NoFd;
    if i < n && (cmd.parOffset == -1 || (cmd.parOffset == -2 && cmd.pipeCount == TRIPLE_PIPE)) {
      source, copyTo := ReadEndAt(n, i - 1, outside), WriteEndAt(n, i, outside);
      readPipe := NoFd;
    }
    if i != 0 && readPipe != NoFd { source := readPipe; }
    if i == n {
      writeFd := NoFd;
    } else if cmd.parOffset == -1 {
      if cmd.pipeCount == DOUBLE_PIPE {
        writeFd := if i != count - 2 then WriteEndAt(n, i + 1, outside) else NoFd;
      } else if cmd.pipeCount == TRIPLE_PIPE {
        writeFd := if i != count - 3 then WriteEndAt(n, i + 2, outside) else NoFd;
      }
    } else if cmd.parOffset == -2 && cmd.pipeCount == TRIPLE_PIPE {
      writeFd := if i != count - 2 then WriteEndAt(n, i + 1, outside) else NoFd;
    }
    w := Wires(source, copyTo, writeFd);
  }

  /** One round of the loop: what the child reads, what is handed on, and where its output goes, whatever lies
      outside the array. */
  method RunCommand(run: Program, cmd: Cmd, i: nat, count: nat, stdin: Bytes, pipes: array<Bytes>, terminal: Bytes,
                    outside: Outside, ghost cmds: seq<Cmd>)
    returns (newTerminal: Bytes)
    requires i < |cmds| == count == pipes.Length + 1 && cmd == cmds[i] && InBounds(cmds, i)
    modifies pipes
    ensures Machine(pipes[..], newTerminal) == RunOne(run, cmds, i, stdin, Machine(old(pipes[..]), terminal))
  {
    var w := WireUp(cmd, i, count, outside, cmds);
    var input := stdin;
    if w.source.ReadEnd? {
      input := pipes[w.source.pipe];
      pipes[w.source.pipe] := [];
    }
    if w.copyTo.WriteEnd? {
      pipes[w.copyTo.pipe] := pipes[w.copyTo.pipe] + input;
    }
    var output := run(cmd.text, input);
    newTerminal := terminal;
    if w.output == NoFd {
      newTerminal := terminal + output;
    } else {
      pipes[w.output.pipe] := pipes[w.output.pipe] + output;
    }
  }

  /** executeCmdPipe: commands run one after the other, since the parent waits for each child. */
  method Execute(run: Program, pipe: CommandPipe, stdin: Bytes, outside: Outside) returns (terminal: Bytes)
    requires pipe.Valid() && pipe.cmds != [] && AllInBounds(pipe.cmds)
    ensures terminal == RunFrom(run, pipe.cmds, 0, stdin, Blank(|pipe.cmds| - 1)).terminal
  {
    var currCmd, count := pipe.head, pipe.count;
    ghost var cmds := pipe.cmds;
    var pipes := new Bytes[count - 1](_ => []);
    terminal := [];
    ghost var m := Blank(count - 1);
    var i := 0;
    while i < count
      invariant 0 <= i <= count && pipe.Valid() && currCmd == NodeAt(pipe.nodes, i)
      invariant m == Machine(pipes[..], terminal)
      invariant RunFrom(run, cmds, i, stdin, m) == RunFrom(run, cmds, 0, stdin, Blank(count - 1))
    {
      assert InBounds(cmds, i);
      terminal := RunCommand(run, currCmd.cmd, i, count, stdin, pipes, terminal, outside, cmds);
      m := RunOne(run, cmds, i, stdin, m);
      i, currCmd := i + 1, currCmd.next;
    }
  }

  // ---- the flat wiring means the tree ----

  /** Position p is about to start with `input` waiting and nothing written yet further right. */
  predicate Ready(m: Machine, p: nat, stdin: Bytes, input: Bytes) {
    && p <= |m.pipes|
    && (if p == 0 then stdin == input else m.pipes[p - 1] == input)
    && (forall j :: p <= j < |m.pipes| ==> m.pipes[j] == [])
    && m.terminal == []
  }

  /** Running commands p to q leaves `out` in the pipe left of q, or on the terminal after the last command. */
  predicate Advances(run: Program, cmds: seq<Cmd>, p: nat, q: nat, stdin: Bytes, out: Bytes, m: Machine, m': Machine) {
    && p <= q <= |cmds| == |m.pipes| + 1 && |m'.pipes| == |m.pipes| && AllInBounds(cmds)
    && RunFrom(run, cmds, p, stdin, m) == RunFrom(run, cmds, q, stdin, m')
    && if q < |cmds| then Ready(m', q, stdin, out) else m'.terminal == out
  }

  /** The commands of a stage, one by one. */
  predicate StageAt(cmds: seq<Cmd>, p: nat, s: Stage) {
    && p + |FlatStage(s)| <= |cmds|
    && match s
       case Single(a) => cmds[p] == Cmd(a, 0, SINGLE_PIPE)
       case Double(a, b) => cmds[p] == Cmd(a, -1, DOUBLE_PIPE) && cmds[p + 1] == Cmd(b, -2, DOUBLE_PIPE)
       case Triple(a, b, c) =>
         && cmds[p] == Cmd(a, -1, TRIPLE_PIPE)
         && cmds[p + 1] == Cmd(b, -2, TRIPLE_PIPE)
         && cmds[p + 2] == Cmd(c, -3, TRIPLE_PIPE)
  }

  /** The stages from the p-th command on are still to be run. */
  predicate Remaining(cmds: seq<Cmd>, p: nat, stages: seq<Stage>)
    decreases |stages|
  {
    if stages == [] then p == |cmds|
    else StageAt(cmds, p, stages[0]) && Remaining(cmds, p + |FlatStage(stages[0])|, stages[1..])
  }

  lemma {:induction false} FlattenRemains(done: seq<Cmd>, stages: seq<Stage>)
    ensures Remaining(done + Flatten(stages), |done|, stages)
    decreases |stages|
  {
    if stages != [] {
      var f, rest := FlatStage(stages[0]), Flatten(stages[1..]);
      FlattenRemains(done + f, stages[1..]);
      assert done + (f + rest) == done + f + rest;
      StagePlaced(done, stages[0], rest);
    }
  }

  lemma StagePlaced(done: seq<Cmd>, s: Stage, rest: seq<Cmd>)
    ensures StageAt(done + (FlatStage(s) + rest), |done|, s)
  {
    var cmds := done + (FlatStage(s) + rest);
    assert cmds[|done| + 0] == FlatStage(s)[0];
    if !s.Single? { assert cmds[|done| + 1] == FlatStage(s)[1]; }
    if s.Triple? { assert cmds[|done| + 2] == FlatStage(s)[2]; }
  }

  lemma {:induction false} RemainingInBounds(cmds: seq<Cmd>, p: nat, stages: seq<Stage>)
    requires Remaining(cmds, p, stages) && (p == 0 && stages != [] ==> stages[0].Single?)
    ensures forall i :: p <= i < |cmds| ==> InBounds(cmds, i)
    decreases |stages|
  {
    if stages != [] { RemainingInBounds(cmds, p + |FlatStage(stages[0])|, stages[1..]); }
  }

  /** Inside a group: `input` waits to the left of command p, and the pipe (or terminal) t holds
      the outputs so far. */
  predicate Gathering(m: Machine, p: nat, t: int, stdin: Bytes, input: Bytes, sofar: Bytes) {
    && p <= |m.pipes|
    && (if p == 0 then stdin == input else m.pipes[p - 1] == input)
    && (forall j :: p <= j < |m.pipes| ==> m.pipes[j] == if j == t then sofar else [])
    && m.terminal == if t == TERMINAL then sofar else []
  }

  /** A command that hands its input on adds its output to the gathering place. */
  lemma HandOnStep(run: Program, cmds: seq<Cmd>, p: nat, t: int, stdin: Bytes, input: Bytes, sofar: Bytes, m: Machine)
    requires 0 < p < |cmds| == |m.pipes| + 1 && InBounds(cmds, p) && HandsOn(cmds, p)
    requires Gathering(m, p, t, stdin, input, sofar) && Target(cmds, p) == t && (t == TERMINAL || t > p)
    ensures Gathering(RunOne(run, cmds, p, stdin, m), p + 1, t, stdin, input, sofar + run(cmds[p].text, input))
  {
    assert [] + input == input;
  }

  /** The last command of a group completes the stage. */
  lemma LastStep(run: Program, cmds: seq<Cmd>, p: nat, t: int, stdin: Bytes, input: Bytes, sofar: Bytes, m: Machine)
    requires p < |cmds| == |m.pipes| + 1 && InBounds(cmds, p) && !HandsOn(cmds, p)
    requires Gathering(m, p, t, stdin, input, sofar) && Target(cmds, p) == t && (t == TERMINAL || t == p)
    ensures var m' := RunOne(run, cmds, p, stdin, m); var out := sofar + run(cmds[p].text, input);
            if t == p then Ready(m', p + 1, stdin, out) else m'.terminal == out
  {
  }

  lemma SingleRuns(run: Program, cmds: seq<Cmd>, p: nat, q: nat, stdin: Bytes, input: Bytes, out: Bytes, m: Machine)
    returns (m': Machine)
    requires p < |cmds| == |m.pipes| + 1 && AllInBounds(cmds) && Ready(m, p, stdin, input)
    requires cmds[p].parOffset == 0
    requires q == p + 1 && out == run(cmds[p].text, input)
    ensures Advances(run, cmds, p, q, stdin, out, m, m')
  {
    assert InBounds(cmds, p);
    m' := RunOne(run, cmds, p, stdin, m);
    LastStep(run, cmds, p, Target(cmds, p), stdin, input, [], m);
    assert [] + run(cmds[p].text, input) == run(cmds[p].text, input);
  }

  lemma DoubleRuns(run: Program, cmds: seq<Cmd>, p: nat, q: nat, stdin: Bytes, input: Bytes, out: Bytes, m: Machine)
    returns (m': Machine)
    requires 0 < p && p + 1 < |cmds| == |m.pipes| + 1 && AllInBounds(cmds) && Ready(m, p, stdin, input)
    requires cmds[p].parOffset == -1 && cmds[p].pipeCount == DOUBLE_PIPE
    requires cmds[p + 1].parOffset == -2 && cmds[p + 1].pipeCount == DOUBLE_PIPE
    requires q == p + 2 && out == run(cmds[p].text, input) + run(cmds[p + 1].text, input)
    ensures Advances(run, cmds, p, q, stdin, out, m, m')
  {
    assert InBounds(cmds, p) && InBounds(cmds, p + 1);
    var t := Target(cmds, p);
    HandOnStep(run, cmds, p, t, stdin, input, [], m);
    var m1 := RunOne(run, cmds, p, stdin, m);
    var o1 := run(cmds[p].text, input);
    assert [] + o1 == o1;
    LastStep(run, cmds, p + 1, t, stdin, input, o1, m1);
    m' := RunOne(run, cmds, p + 1, stdin, m1);
    RunTwo(run, cmds, p, stdin, m);
  }

  lemma RunTwo(run: Program, cmds: seq<Cmd>, p: nat, stdin: Bytes, m: Machine)
    requires p + 1 < |cmds| == |m.pipes| + 1 && AllInBounds(cmds)
    ensures InBounds(cmds, p) && InBounds(cmds, p + 1)
    ensures var m2 := RunOne(run, cmds, p + 1, stdin, RunOne(run, cmds, p, stdin, m));
            RunFrom(run, cmds, p, stdin, m) == RunFrom(run, cmds, p + 2, stdin, m2)
  {
    assert InBounds(cmds, p) && InBounds(cmds, p + 1);
  }

  lemma TripleRuns(run: Program, cmds: seq<Cmd>, p: nat, q: nat, stdin: Bytes, input: Bytes, out: Bytes, m: Machine)
    returns (m': Machine)
    requires 0 < p && p + 2 < |cmds| == |m.pipes| + 1 && AllInBounds(cmds) && Ready(m, p, stdin, input)
    requires cmds[p].parOffset == -1 && cmds[p].pipeCount == TRIPLE_PIPE
    requires cmds[p + 1].parOffset == -2 && cmds[p + 1].pipeCount == TRIPLE_PIPE
    requires cmds[p + 2].parOffset == -3
    requires q == p + 3
    requires out == run(cmds[p].text, input) + run(cmds[p + 1].text, input) + run(cmds[p + 2].text, input)
    ensures Advances(run, cmds, p, q, stdin, out, m, m')
  {
    assert InBounds(cmds, p) && InBounds(cmds, p + 1) && InBounds(cmds, p + 2);
    var t := Target(cmds, p);
    HandOnStep(run, cmds, p, t, stdin, input, [], m);
    var m1 := RunOne(run, cmds, p, stdin, m);
    var o1, o2 := run(cmds[p].text, input), run(cmds[p + 1].text, input);
    assert [] + o1 == o1;
    HandOnStep(run, cmds, p + 1, t, stdin, input, o1, m1);
    var m2 := RunOne(run, cmds, p + 1, stdin, m1);
    LastStep(run, cmds, p + 2, t, stdin, input, o1 + o2, m2);
    m' := RunOne(run, cmds, p + 2, stdin, m2);
    RunThree(run, cmds, p, stdin, m);
  }

  lemma RunThree(run: Program, cmds: seq<Cmd>, p: nat, stdin: Bytes, m: Machine)
    requires p + 2 < |cmds| == |m.pipes| + 1 && AllInBounds(cmds)
    ensures InBounds(cmds, p) && InBounds(cmds, p + 1) && InBounds(cmds, p + 2)
    ensures var m3 := RunOne(run, cmds, p + 2, stdin, RunOne(run, cmds, p + 1, stdin, RunOne(run, cmds, p, stdin, m)));
            RunFrom(run, cmds, p, stdin, m) == RunFrom(run, cmds, p + 3, stdin, m3)
  {
    assert InBounds(cmds, p) && InBounds(cmds, p + 1) && InBounds(cmds, p + 2);
    var m1 := RunOne(run, cmds, p, stdin, m);
    assert RunFrom(run, cmds, p, stdin, m) == RunFrom(run, cmds, p + 1, stdin, m1);
  }

  /** Running the commands of one stage: its meaning waits in the next pipe, or is printed. */
  lemma StageRuns(run: Program, cmds: seq<Cmd>, p: nat, s: Stage, stdin: Bytes, input: Bytes, m: Machine)
    returns (m': Machine)
    requires StageAt(cmds, p, s) && AllInBounds(cmds)
    requires |cmds| == |m.pipes| + 1 && Ready(m, p, stdin, input) && (p == 0 ==> s.Single?)
    ensures Advances(run, cmds, p, p + |FlatStage(s)|, stdin, StageMeaning(run, s, input), m, m')
  {
    var q, out := p + |FlatStage(s)|, StageMeaning(run, s, input);
    match s
    case Single(_) => m' := SingleRuns(run, cmds, p, q, stdin, input, out, m);
    case Double(_, _) => m' := DoubleRuns(run, cmds, p, q, stdin, input, out, m);
    case Triple(_, _, _) => m' := TripleRuns(run, cmds, p, q, stdin, input, out, m);
  }

  lemma NextStage(cmds: seq<Cmd>, p: nat, stages: seq<Stage>)
    requires Remaining(cmds, p, stages) && stages != []
    ensures StageAt(cmds, p, stages[0])
    ensures var q := p + |FlatStage(stages[0])|;
            p < q <= |cmds| && Remaining(cmds, q, stages[1..]) && (stages[1..] == [] ==> q == |cmds|)
  {
  }

  lemma {:induction false} FlatMeansTreeFrom(run: Program, cmds: seq<Cmd>, p: nat, stages: seq<Stage>, stdin: Bytes,
                                             input: Bytes, m: Machine)
    requires Remaining(cmds, p, stages) && stages != [] && AllInBounds(cmds)
    requires |cmds| == |m.pipes| + 1 && Ready(m, p, stdin, input)
    requires p == 0 ==> stages[0].Single?
    ensures RunFrom(run, cmds, p, stdin, m).terminal == Meaning(run, stages, input)
    decreases |stages|
  {
    NextStage(cmds, p, stages);
    var m' := StageRuns(run, cmds, p, stages[0], stdin, input, m);
    var q, out := p + |FlatStage(stages[0])|, StageMeaning(run, stages[0], input);
    if stages[1..] != [] { FlatMeansTreeFrom(run, cmds, q, stages[1..], stdin, out, m'); }
    MeaningAdvances(run, cmds, q, stages, stdin, input, m');
  }

  lemma MeaningAdvances(run: Program, cmds: seq<Cmd>, q: nat, stages: seq<Stage>, stdin: Bytes, input: Bytes,
                        m: Machine)
    requires stages != [] && q <= |cmds| == |m.pipes| + 1 && AllInBounds(cmds)
    requires var out := StageMeaning(run, stages[0], input);
             if stages[1..] != [] then RunFrom(run, cmds, q, stdin, m).terminal == Meaning(run, stages[1..], out)
             else q == |cmds| && m.terminal == out
    ensures RunFrom(run, cmds, q, stdin, m).terminal == Meaning(run, stages, input)
  {
  }

  /** For every pipeline that starts with a single command, running the flat list over the linear
      pipe array prints what the tree means. */
  lemma FlatMeansTree(run: Program, stages: seq<Stage>, stdin: Bytes)
    requires stages != [] && stages[0].Single?
    ensures var cmds := Flatten(stages);
            && cmds != [] && AllInBounds(cmds)
            && RunFrom(run, cmds, 0, stdin, Blank(|cmds| - 1)).terminal == Meaning(run, stages, stdin)
  {
    var cmds := Flatten(stages);
    assert [] + cmds == cmds;
    FlattenRemains([], stages);
    RemainingInBounds(cmds, 0, stages);
    FlatMeansTreeFrom(run, cmds, 0, stages, stdin, stdin, Blank(|cmds| - 1));
  }

  /** The output of every member of a group goes right of the whole group, or to the terminal after the last one. */
  lemma TargetIsRightOfGroup(cmds: seq<Cmd>, p: nat, s: Stage, i: nat)
    requires StageAt(cmds, p, s) && p <= i < p + |FlatStage(s)|
    ensures Target(cmds, i) == if p + |FlatStage(s)| == |cmds| then TERMINAL else p + |FlatStage(s)| - 1
  {
    assert cmds[i] == if i == p then cmds[p] else if i == p + 1 then cmds[p + 1] else cmds[p + 2];
  }

  /** Every descriptor that is used is an entry of the array exactly when the first stage is a single command: a
      leading group copies its input from the entry before the array. */
  lemma UsedInBoundsIffSingleFirst(stages: seq<Stage>)
    requires stages != []
    ensures AllInBounds(Flatten(stages)) <==> stages[0].Single?
  {
    var cmds := Flatten(stages);
    assert [] + cmds == cmds;
    FlattenRemains([], stages);
    if stages[0].Single? { RemainingInBounds(cmds, 0, stages); } else { assert !InBounds(cmds, 0); }
  }

  // ---- fetches outside the array ----

  /** The indices of pipe_fd that the code of child i names, in program order: write_fd, what is printed, read_pipe,
      the copy loop, and the new write_fd. */
  function Fetches(cmds: seq<Cmd>, i: nat): seq<int>
    requires i < |cmds|
  {
    [i] + (if i != 0 then [i - 1] else []) + [i - 1] + (if HandsOn(cmds, i) then [i - 1, i] else [])
    + (if Target(cmds, i) != TERMINAL && Target(cmds, i) != i then [Target(cmds, i)] else [])
  }

  /** And those that the parent names in the same round: write_fd and what is printed, which it fetches too, between
      the fork and the test of the pid, and the two ends that it closes. */
  function ParentFetches(cmds: seq<Cmd>, i: nat): seq<int>
    requires i < |cmds|
  {
    [i] + (if i != 0 then [i - 1] else []) + (if i != |cmds| - 1 then [i] else []) + (if i != 0 then [i - 1] else [])
  }

  function CountOutside(fetches: seq<int>, pipes: nat): nat {
    if fetches == [] then 0 else (if 0 <= fetches[0] < pipes then 0 else 1) + CountOutside(fetches[1..], pipes)
  }

  /** All fetches outside the array, of the children and of the parent, from round i on. */
  function OutsideFrom(cmds: seq<Cmd>, i: nat): nat
    requires i <= |cmds|
    decreases |cmds| - i
  {
    if i == |cmds| then 0 else
      CountOutside(Fetches(cmds, i), |cmds| - 1) + CountOutside(ParentFetches(cmds, i), |cmds| - 1)
      + OutsideFrom(cmds, i + 1)
  }

  lemma {:induction false} CountOutsideJoins(a: seq<int>, b: seq<int>, pipes: nat)
    ensures CountOutside(a + b, pipes) == CountOutside(a, pipes) + CountOutside(b, pipes)
  {
    if a == [] {
      assert a + b == b;
    } else {
      assert (a + b)[1..] == a[1..] + b;
      CountOutsideJoins(a[1..], b, pipes);
    }
  }

  function OneOutside(k: int, pipes: nat): nat { if 0 <= k < pipes then 0 else 1 }

  lemma CountOutsideOne(k: int, l: int, pipes: nat)
    ensures CountOutside([k], pipes) == OneOutside(k, pipes) && CountOutside([], pipes) == 0
    ensures CountOutside([k, l], pipes) == OneOutside(k, pipes) + OneOutside(l, pipes)
  {
    assert [k][1..] == [] && [k, l][1..] == [l] && [l][1..] == [];
  }

  lemma FetchesCounted(cmds: seq<Cmd>, i: nat)
    requires i < |cmds|
    ensures var n, t := |cmds| - 1, Target(cmds, i);
            CountOutside(Fetches(cmds, i), n) ==
            OneOutside(i, n) + (if i != 0 then OneOutside(i - 1, n) else 0) + OneOutside(i - 1, n)
            + (if HandsOn(cmds, i) then OneOutside(i - 1, n) + OneOutside(i, n) else 0)
            + (if t != TERMINAL && t != i then OneOutside(t, n) else 0)
  {
    var n, t := |cmds| - 1, Target(cmds, i);
    var p1, p2 := if i != 0 then [i - 1] else [], if HandsOn(cmds, i) then [i - 1, i] else [];
    var p3 := if t != TERMINAL && t != i then [t] else [];
    CountOutsideJoins([i] + p1 + [i - 1] + p2, p3, n);
    CountOutsideJoins([i] + p1 + [i - 1], p2, n);
    CountOutsideJoins([i] + p1, [i - 1], n);
    CountOutsideJoins([i], p1, n);
    CountOutsideOne(i, 0, n);
    CountOutsideOne(i - 1, i, n);
    CountOutsideOne(t, 0, n);
  }

  /** A child that uses only entries of the array fetches from outside only write_fd of the last command and
      read_pipe of the first. */
  lemma OutsideOfChild(cmds: seq<Cmd>, i: nat)
    requires i < |cmds|
    ensures var ends := (if i == 0 then 1 else 0) + (if i == |cmds| - 1 then 1 else 0);
            && CountOutside(Fetches(cmds, i), |cmds| - 1) >= ends
            && (InBounds(cmds, i) <==> CountOutside(Fetches(cmds, i), |cmds| - 1) == ends)
  {
    FetchesCounted(cmds, i);
  }

  /** The parent fetches from outside only write_fd of the last round. */
  lemma OutsideOfParent(cmds: seq<Cmd>, i: nat)
    requires i < |cmds|
    ensures CountOutside(ParentFetches(cmds, i), |cmds| - 1) == if i == |cmds| - 1 then 1 else 0
  {
    var n := |cmds| - 1;
    var p1, p2 := if i != 0 then [i - 1] else [], if i != n then [i] else [];
    CountOutsideJoins([i] + p1 + p2, p1, n);
    CountOutsideJoins([i] + p1, p2, n);
    CountOutsideJoins([i], p1, n);
    CountOutsideOne(i, 0, n);
    CountOutsideOne(i - 1, 0, n);
  }

  lemma {:induction false} OutsideOfRun(cmds: seq<Cmd>, i: nat)
    requires i <= |cmds|
    ensures var ends := (if i == 0 < |cmds| then 1 else 0) + (if i < |cmds| then 2 else 0);
            && OutsideFrom(cmds, i) >= ends
            && ((forall j :: i <= j < |cmds| ==> InBounds(cmds, j)) <==> OutsideFrom(cmds, i) == ends)
    decreases |cmds| - i
  {
    if i < |cmds| {
      OutsideOfChild(cmds, i);
      OutsideOfParent(cmds, i);
      OutsideOfRun(cmds, i + 1);
    }
  }

  /** Every pipeline fetches at least three times from outside the array: write_fd of the last round, by parent and
      child, and read_pipe of the first child. It does so exactly three times if and only if it starts with a single
      command, and then none of the three values is used. */
  lemma ThreeFetchesOutside(stages: seq<Stage>)
    requires stages != []
    ensures OutsideFrom(Flatten(stages), 0) >= 3
    ensures OutsideFrom(Flatten(stages), 0) == 3 <==> stages[0].Single?
  {
    var cmds := Flatten(stages);
    OutsideOfRun(cmds, 0);
    UsedInBoundsIffSingleFirst(stages);
  }
}
