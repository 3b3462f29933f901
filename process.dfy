/**
 * The host the hook runs on: its file system, the processes it starts and
 * what it prints. Child processes are foreign code, so what a command does is
 * given by an oracle that says how it ends.
 */
module Process {
  import opened Wrappers

  /** An argument vector, program first, executed without a shell. */
  type Command = seq<string>

  /** How the operating system reports one attempt to run a command. */
  datatype Exit =
    | Exited(code: int, stdout: string, stderr: string)
    | NoSuchProgram

  /** The exit of a command, given the commands started before it on the same host. */
  type Oracle = (seq<Command>, Command) -> Exit

  /** A finished process with exit status zero, as `subprocess.run(..., check=True)` returns it. */
  datatype Completed = Completed(args: Command, stdout: string, stderr: string)

  /** The exceptions the hook lets escape. */
  datatype Error =
    | CalledProcessError(cmd: Command, code: int, stdout: string, stderr: string)
    | FileNotFound(path: string)

  /** A regular file: its text and its permission bits. */
  datatype Inode = Inode(data: string, mode: nat)

  /** Everything the hook can change: files, the commands started so far, the lines printed. */
  datatype World = World(fs: map<string, Inode>, log: seq<Command>, out: seq<string>)

  /** A state change together with what the operation returned. */
  datatype Outcome = Outcome(world: World, result: Result<(), Error>)

  predicate Succeeds(e: Exit) {
    e.Exited? && e.code == 0
  }

  function Program(cmd: Command): string {
    if cmd == [] then "" else cmd[0]
  }

  /**
   * `subprocess.run(cmd, capture_output=True, check=True)`: the command is
   * passed on unchanged; a non-zero exit status raises with the captured
   * streams, a missing program raises FileNotFound.
   */
  function Spawn(oracle: Oracle, history: seq<Command>, cmd: Command): (r: Result<Completed, Error>)
    ensures r.Ok? <==> Succeeds(oracle(history, cmd))
    ensures r.Ok? ==> r.value.args == cmd
    ensures r.Ok? ==> r.value.stdout == oracle(history, cmd).stdout && r.value.stderr == oracle(history, cmd).stderr
    ensures r.Err? && oracle(history, cmd).Exited? ==>
              r.error == CalledProcessError(cmd, oracle(history, cmd).code, oracle(history, cmd).stdout, oracle(history, cmd).stderr)
    ensures oracle(history, cmd).NoSuchProgram? ==> r == Err(FileNotFound(Program(cmd)))
  {
    match oracle(history, cmd)
    case NoSuchProgram => Err(FileNotFound(Program(cmd)))
    case Exited(code, stdout, stderr) =>
      if code == 0 then Ok(Completed(cmd, stdout, stderr))
      else Err(CalledProcessError(cmd, code, stdout, stderr))
  }

  /** `' '.join(args)`. */
  function Join(args: seq<string>): string {
    if |args| == 0 then ""
    else if |args| == 1 then args[0]
    else args[0] + " " + Join(args[1..])
  }

  /** Index of the first space of `s`, or `|s|` when there is none. */
  function SpaceAt(s: string): (i: nat)
    ensures i <= |s|
    ensures i < |s| ==> s[i] == ' '
    ensures forall j :: 0 <= j < i ==> s[j] != ' '
  {
    if s == [] || s[0] == ' ' then 0 else 1 + SpaceAt(s[1..])
  }

  /** `s.split(' ')`: the pieces between single spaces, empty pieces kept. */
  function Split(s: string): (r: seq<string>)
    ensures |r| > 0
    decreases |s|
  {
    var i := SpaceAt(s);
    if i == |s| then [s] else [s[..i]] + Split(s[i + 1..])
  }

  /**
   * The printed command line gives back the command: when no argument holds
   * a space, cutting the joined line at its spaces returns the arguments.
   */
  lemma {:induction false} SplitJoin(args: seq<string>)
    requires |args| > 0
    requires forall k :: 0 <= k < |args| ==> ' ' !in args[k]
    ensures Split(Join(args)) == args
  {
    if |args| == 1 {
      assert SpaceAt(args[0]) == |args[0]|;
    } else {
      assert ' ' !in args[0];
      SplitCons(args[0], Join(args[1..]));
      SplitJoin(args[1..]);
      assert args == [args[0]] + args[1..];
    }
  }

  /** Splitting `a + " " + rest` cuts off `a` when `a` has no space. */
  lemma SplitCons(a: string, rest: string)
    requires ' ' !in a
    ensures Split(a + " " + rest) == [a] + Split(rest)
  {
    var line := a + " " + rest;
    assert line[|a|] == ' ';
    assert forall j :: 0 <= j < |a| ==> line[j] == a[j];
    assert SpaceAt(line) == |a|;
    assert line[..|a|] == a;
    assert line[|a| + 1..] == rest;
  }

  /** The machine: an oracle for its child processes and its current state. */
  class Host {
    const oracle: Oracle
    var w: World

    constructor (oracle: Oracle, w: World)
      ensures this.oracle == oracle && this.w == w
    {
      this.oracle := oracle;
      this.w := w;
    }
  }
}
