/**
 * The executor every certificate manager shares: build a list of commands
 * once, then run them in order and stop at the first that fails.
 */
module Base {
  import opened Wrappers
  import opened Process

  /** What `run` prints in verbose mode for a command that succeeded. */
  function ReportLines(c: Completed): (lines: seq<string>)
    ensures 2 <= |lines| <= 3
    ensures lines[0] == "command: " + Join(c.args)
    ensures lines[1] == "stdout: " + c.stdout
    ensures |lines| == 3 <==> c.stderr != []
    ensures |lines| == 3 ==> lines[2] == "stderr: " + c.stderr
  {
    ["command: " + Join(c.args), "stdout: " + c.stdout]
    + (if c.stderr != [] then ["stderr: " + c.stderr] else [])
  }

  /** Lines printed by `run` for one attempt; a failing command raises before printing. */
  function Printed(verbose: bool, r: Result<Completed, Error>): seq<string> {
    if verbose && r.Ok? then ReportLines(r.value) else []
  }

  /** The state after `run(cmd)`: the command is started and, if verbose and successful, reported. */
  function RunEffect(oracle: Oracle, w: World, verbose: bool, cmd: Command): (w': World)
    ensures w'.fs == w.fs && w'.log == w.log + [cmd]
    ensures !verbose ==> w'.out == w.out
  {
    w.(log := w.log + [cmd], out := w.out + Printed(verbose, Spawn(oracle, w.log, cmd)))
  }

  /**
   * `BaseCertManager.run`: hands `cmd` to the process runner unchanged and
   * returns what it returns.
   */
  method RunCommand(host: Host, verbose: bool, cmd: Command) returns (r: Result<Completed, Error>)
    modifies host
    ensures r == Spawn(host.oracle, old(host.w.log), cmd)
    ensures host.w.fs == old(host.w.fs)
    ensures host.w.log == old(host.w.log) + [cmd]
    ensures host.w.out == old(host.w.out) + Printed(verbose, r)
    ensures r.Err? ==> host.w.out == old(host.w.out)
  {
    r := Spawn(host.oracle, host.w.log, cmd);
    var lines := Printed(verbose, r);
    host.w := host.w.(log := host.w.log + [cmd], out := host.w.out + lines);
  }

  /** The commands started, the runs that succeeded, and how the sequence ended. */
  datatype Trace = Trace(ran: seq<Command>, completed: seq<Completed>, result: Result<(), Error>)

  /** Runs `cmds` in order after `history`, stopping at the first failure. */
  function Execute(oracle: Oracle, history: seq<Command>, cmds: seq<Command>): (t: Trace)
    decreases |cmds|
  {
    if cmds == [] then Trace([], [], Ok(()))
    else
      match Spawn(oracle, history, cmds[0])
      case Err(e) => Trace([cmds[0]], [], Err(e))
      case Ok(c) =>
        var rest := Execute(oracle, history + [cmds[0]], cmds[1..]);
        Trace([cmds[0]] + rest.ran, [c] + rest.completed, rest.result)
  }

  /**
   * What `Execute` starts is a prefix of `cmds`: all of it on success, and on
   * failure one command more than succeeded.
   */
  lemma {:induction false} ExecuteRanPrefix(oracle: Oracle, history: seq<Command>, cmds: seq<Command>)
    ensures var t := Execute(oracle, history, cmds);
            && |t.ran| <= |cmds| && t.ran == cmds[..|t.ran|]
            && (cmds != [] ==> |t.ran| > 0)
            && (t.result.Ok? ==> t.ran == cmds && |t.completed| == |cmds|)
            && (t.result.Err? ==> |t.ran| == |t.completed| + 1)
    decreases |cmds|
  {
    if cmds != [] && Spawn(oracle, history, cmds[0]).Ok? {
      ExecuteRanPrefix(oracle, history + [cmds[0]], cmds[1..]);
      var rest := Execute(oracle, history + [cmds[0]], cmds[1..]);
      assert [cmds[0]] + cmds[1..][..|rest.ran|] == cmds[..|rest.ran| + 1];
      assert rest.result.Ok? ==> [cmds[0]] + cmds[1..] == cmds;
    }
  }

  /** `t` after a prefix of commands that ran and succeeded. */
  function Extend(ran: seq<Command>, completed: seq<Completed>, t: Trace): Trace {
    Trace(ran + t.ran, completed + t.completed, t.result)
  }

  /** Every command of `cmds`, each started after `history` and the commands before it, exits with status zero. */
  ghost predicate AllSucceed(oracle: Oracle, history: seq<Command>, cmds: seq<Command>)
    decreases |cmds|
  {
    cmds == [] || (Succeeds(oracle(history, cmds[0])) && AllSucceed(oracle, history + [cmds[0]], cmds[1..]))
  }

  /** `AllSucceed` says of each command that it succeeds after the ones before it. */
  lemma {:induction false} AllSucceedAt(oracle: Oracle, history: seq<Command>, cmds: seq<Command>, i: nat)
    requires AllSucceed(oracle, history, cmds) && i < |cmds|
    ensures Succeeds(oracle(history + cmds[..i], cmds[i]))
    decreases i
  {
    if i == 0 {
      assert history + cmds[..0] == history;
    } else {
      AllSucceedAt(oracle, history + [cmds[0]], cmds[1..], i - 1);
      assert history + [cmds[0]] + cmds[1..][..i - 1] == history + cmds[..i];
    }
  }

  /** One step of `Execute`. */
  lemma ExecuteCons(oracle: Oracle, history: seq<Command>, cmds: seq<Command>)
    requires cmds != []
    ensures Spawn(oracle, history, cmds[0]).Err? ==>
              Execute(oracle, history, cmds) == Trace([cmds[0]], [], Err(Spawn(oracle, history, cmds[0]).error))
    ensures Spawn(oracle, history, cmds[0]).Ok? ==>
              Execute(oracle, history, cmds)
              == Extend([cmds[0]], [Spawn(oracle, history, cmds[0]).value], Execute(oracle, history + [cmds[0]], cmds[1..]))
  {
  }

  /** When every command succeeds, every command runs exactly once, in list order. */
  lemma {:induction false} ExecuteAllSucceed(oracle: Oracle, history: seq<Command>, cmds: seq<Command>)
    requires AllSucceed(oracle, history, cmds)
    ensures Execute(oracle, history, cmds).result == Ok(())
    ensures Execute(oracle, history, cmds).ran == cmds
    ensures |Execute(oracle, history, cmds).completed| == |cmds|
    ensures forall i :: 0 <= i < |cmds| ==> Execute(oracle, history, cmds).completed[i].args == cmds[i]
    decreases |cmds|
  {
    if cmds != [] {
      ExecuteCons(oracle, history, cmds);
      ExecuteAllSucceed(oracle, history + [cmds[0]], cmds[1..]);
      assert cmds == [cmds[0]] + cmds[1..];
    }
  }

  /**
   * When command `k` is the first to fail, commands `0..k` are started, no
   * later command is, and the failure of command `k` is what is raised.
   */
  lemma {:induction false} ExecuteStopsAtFailure(oracle: Oracle, history: seq<Command>, cmds: seq<Command>, k: nat)
    requires k < |cmds|
    requires AllSucceed(oracle, history, cmds[..k])
    requires !Succeeds(oracle(history + cmds[..k], cmds[k]))
    ensures Execute(oracle, history, cmds).ran == cmds[..k + 1]
    ensures Execute(oracle, history, cmds).result == Err(Spawn(oracle, history + cmds[..k], cmds[k]).error)
    ensures |Execute(oracle, history, cmds).completed| == k
    decreases k
  {
    ExecuteCons(oracle, history, cmds);
    if k == 0 {
      assert history + cmds[..0] == history;
    } else {
      var h' := history + [cmds[0]];
      var tail := cmds[1..];
      assert Succeeds(oracle(history, cmds[0])) && AllSucceed(oracle, h', tail[..k - 1]) by {
        assert cmds[..k][0] == cmds[0];
        assert cmds[..k][1..] == tail[..k - 1];
      }
      assert h' + tail[..k - 1] == history + cmds[..k];
      ExecuteStopsAtFailure(oracle, h', tail, k - 1);
      assert [cmds[0]] + tail[..k] == cmds[..k + 1];
    }
  }

  /**
   * The converse: a sequence that ends in failure failed at its last started
   * command, and every command started before it succeeded.
   */
  lemma {:induction false} ExecuteFailureIsFirst(oracle: Oracle, history: seq<Command>, cmds: seq<Command>, k: nat)
    requires Execute(oracle, history, cmds).result.Err?
    requires k + 1 == |Execute(oracle, history, cmds).ran|
    ensures k < |cmds|
    ensures AllSucceed(oracle, history, cmds[..k])
    ensures !Succeeds(oracle(history + cmds[..k], cmds[k]))
    decreases |cmds|
  {
    ExecuteCons(oracle, history, cmds);
    if k == 0 {
      assert history + cmds[..0] == history;
    } else {
      var h' := history + [cmds[0]];
      var tail := cmds[1..];
      ExecuteFailureIsFirst(oracle, h', tail, k - 1);
      assert cmds[..k][1..] == tail[..k - 1];
      assert h' + tail[..k - 1] == history + cmds[..k];
    }
  }

  /** The concatenation of what verbose `run` printed for each successful command. */
  function Reports(cs: seq<Completed>): seq<string> {
    if cs == [] then [] else Reports(cs[..|cs| - 1]) + ReportLines(cs[|cs| - 1])
  }

  function Header(certName: string): string {
    "Processing certificate " + certName
  }

  /** What `__call__` has printed once the runs `done` have succeeded. */
  function Transcript(verbose: bool, certName: string, done: seq<Completed>): seq<string> {
    if verbose then [Header(certName)] + Reports(done) else []
  }

  /**
   * `BaseCertManager.__call__` on a host in state `w`: announce the
   * certificate when verbose, then run `cmds` in order until one fails.
   */
  function RunAll(oracle: Oracle, w: World, verbose: bool, certName: string, cmds: seq<Command>): Outcome {
    var t := Execute(oracle, w.log, cmds);
    Outcome(w.(log := w.log + t.ran,
               out := w.out + Transcript(verbose, certName, t.completed)),
            t.result)
  }

  /** `verbose` changes only what is printed: the same commands run and the same result comes back. */
  lemma VerboseOnlyPrints(oracle: Oracle, w: World, certName: string, cmds: seq<Command>)
    ensures RunAll(oracle, w, true, certName, cmds).world.(out := w.out)
            == RunAll(oracle, w, false, certName, cmds).world
    ensures RunAll(oracle, w, true, certName, cmds).result == RunAll(oracle, w, false, certName, cmds).result
    ensures RunAll(oracle, w, false, certName, cmds).world.out == w.out
  {
  }

  /** On success every command is started once, in order; the file system is left to the commands. */
  lemma RunAllSucceeds(oracle: Oracle, w: World, verbose: bool, certName: string, cmds: seq<Command>)
    requires AllSucceed(oracle, w.log, cmds)
    ensures RunAll(oracle, w, verbose, certName, cmds).result == Ok(())
    ensures RunAll(oracle, w, verbose, certName, cmds).world.log == w.log + cmds
    ensures RunAll(oracle, w, verbose, certName, cmds).world.fs == w.fs
  {
    ExecuteAllSucceed(oracle, w.log, cmds);
  }

  /** A failure of command `k` propagates and nothing after it is started. */
  lemma RunAllStops(oracle: Oracle, w: World, verbose: bool, certName: string, cmds: seq<Command>, k: nat)
    requires k < |cmds|
    requires AllSucceed(oracle, w.log, cmds[..k])
    requires !Succeeds(oracle(w.log + cmds[..k], cmds[k]))
    ensures RunAll(oracle, w, verbose, certName, cmds).result == Err(Spawn(oracle, w.log + cmds[..k], cmds[k]).error)
    ensures RunAll(oracle, w, verbose, certName, cmds).world.log == w.log + cmds[..k + 1]
  {
    ExecuteStopsAtFailure(oracle, w.log, cmds, k);
  }

  /** A normal return means every command succeeded. */
  lemma {:induction false} ExecuteOkAllSucceed(oracle: Oracle, history: seq<Command>, cmds: seq<Command>)
    requires Execute(oracle, history, cmds).result.Ok?
    ensures AllSucceed(oracle, history, cmds)
    decreases |cmds|
  {
    if cmds != [] {
      ExecuteCons(oracle, history, cmds);
      ExecuteOkAllSucceed(oracle, history + [cmds[0]], cmds[1..]);
    }
  }

  /** `__call__` returns normally exactly when every command succeeds after the ones before it. */
  lemma RunAllOkIff(oracle: Oracle, w: World, verbose: bool, certName: string, cmds: seq<Command>)
    ensures RunAll(oracle, w, verbose, certName, cmds).result.Ok? <==> AllSucceed(oracle, w.log, cmds)
  {
    if AllSucceed(oracle, w.log, cmds) {
      ExecuteAllSucceed(oracle, w.log, cmds);
    } else if Execute(oracle, w.log, cmds).result.Ok? {
      ExecuteOkAllSucceed(oracle, w.log, cmds);
    }
  }

  /** The loop of `__call__`: `for cmd in cmds: run(cmd)`, an exception ending it. */
  method RunCommands(host: Host, verbose: bool, certName: string, cmds: seq<Command>) returns (r: Result<(), Error>)
    modifies host
    ensures Outcome(host.w, r) == RunAll(host.oracle, old(host.w), verbose, certName, cmds)
  {
    ghost var w0 := host.w;
    ghost var done: seq<Completed> := [];
    if verbose {
      host.w := host.w.(out := host.w.out + [Header(certName)]);
    }
    assert host.w.out == w0.out + Transcript(verbose, certName, done);
    var i := 0;
    while i < |cmds|
      invariant 0 <= i <= |cmds|
      invariant LoopState(host.oracle, w0, verbose, certName, cmds, i, done, host.w)
    {
      ghost var before := host.w;
      var res := RunCommand(host, verbose, cmds[i]);
      if res.Err? {
        r := Err(res.error);
        LoopFails(host.oracle, w0, verbose, certName, cmds, i, done, before, host.w);
        return;
      }
      LoopContinues(host.oracle, w0, verbose, certName, cmds, i, done, before, host.w);
      done := done + [res.value];
      i := i + 1;
    }
    r := Ok(());
    LoopEnds(host.oracle, w0, verbose, certName, cmds, i, done, host.w);
  }

  /** The invariant of the loop in `RunCommands` after `i` commands have succeeded. */
  ghost predicate LoopState(oracle: Oracle, w0: World, verbose: bool, certName: string,
                            cmds: seq<Command>, i: nat, done: seq<Completed>, w: World)
  {
    && i <= |cmds|
    && w.fs == w0.fs
    && w.log == w0.log + cmds[..i]
    && w.out == w0.out + Transcript(verbose, certName, done)
    && Execute(oracle, w0.log, cmds) == Extend(cmds[..i], done, Execute(oracle, w.log, cmds[i..]))
  }

  lemma LoopContinues(oracle: Oracle, w0: World, verbose: bool, certName: string,
                      cmds: seq<Command>, i: nat, done: seq<Completed>, before: World, w: World)
    requires LoopState(oracle, w0, verbose, certName, cmds, i, done, before) && i < |cmds|
    requires Spawn(oracle, before.log, cmds[i]).Ok?
    requires w.fs == before.fs && w.log == before.log + [cmds[i]]
    requires w.out == before.out + Printed(verbose, Spawn(oracle, before.log, cmds[i]))
    ensures LoopState(oracle, w0, verbose, certName, cmds, i + 1, done + [Spawn(oracle, before.log, cmds[i]).value], w)
  {
    var c := Spawn(oracle, before.log, cmds[i]).value;
    assert Spawn(oracle, before.log, cmds[i]) == Ok(c);
    ExecuteStep(oracle, w0.log, before.log, cmds, i, done);
    assert w.log == w0.log + cmds[..i + 1] by {
      assert cmds[..i] + [cmds[i]] == cmds[..i + 1];
      assert w0.log + cmds[..i] + [cmds[i]] == w0.log + (cmds[..i] + [cmds[i]]);
    }
    assert w.out == w0.out + Transcript(verbose, certName, done + [c]) by {
      TranscriptSnoc(verbose, certName, done, c);
    }
  }

  lemma LoopFails(oracle: Oracle, w0: World, verbose: bool, certName: string,
                  cmds: seq<Command>, i: nat, done: seq<Completed>, before: World, w: World)
    requires LoopState(oracle, w0, verbose, certName, cmds, i, done, before) && i < |cmds|
    requires Spawn(oracle, before.log, cmds[i]).Err?
    requires w.fs == before.fs && w.log == before.log + [cmds[i]] && w.out == before.out
    ensures Outcome(w, Err(Spawn(oracle, before.log, cmds[i]).error)) == RunAll(oracle, w0, verbose, certName, cmds)
  {
    ExecuteStep(oracle, w0.log, before.log, cmds, i, done);
    assert cmds[..i] + [cmds[i]] == cmds[..i + 1];
  }

  lemma LoopEnds(oracle: Oracle, w0: World, verbose: bool, certName: string,
                 cmds: seq<Command>, i: nat, done: seq<Completed>, w: World)
    requires LoopState(oracle, w0, verbose, certName, cmds, i, done, w) && i == |cmds|
    ensures Outcome(w, Ok(())) == RunAll(oracle, w0, verbose, certName, cmds)
  {
    ExecuteStep(oracle, w0.log, w.log, cmds, i, done);
    assert cmds[..i] == cmds;
  }

  lemma TranscriptSnoc(verbose: bool, certName: string, done: seq<Completed>, c: Completed)
    ensures Transcript(verbose, certName, done + [c]) == Transcript(verbose, certName, done) + Printed(verbose, Ok(c))
  {
    assert (done + [c])[..|done|] == done;
  }

  /** One turn of the loop in `RunCommands`, stated on the specification. */
  lemma ExecuteStep(oracle: Oracle, log0: seq<Command>, history: seq<Command>, cmds: seq<Command>, i: nat, done: seq<Completed>)
    requires i <= |cmds|
    requires Execute(oracle, log0, cmds) == Extend(cmds[..i], done, Execute(oracle, history, cmds[i..]))
    ensures i == |cmds| ==> Execute(oracle, log0, cmds) == Trace(cmds, done, Ok(()))
    ensures i < |cmds| && Spawn(oracle, history, cmds[i]).Err? ==>
              Execute(oracle, log0, cmds) == Trace(cmds[..i + 1], done, Err(Spawn(oracle, history, cmds[i]).error))
    ensures i < |cmds| && Spawn(oracle, history, cmds[i]).Ok? ==>
              Execute(oracle, log0, cmds)
              == Extend(cmds[..i + 1], done + [Spawn(oracle, history, cmds[i]).value],
                        Execute(oracle, history + [cmds[i]], cmds[i + 1..]))
  {
    if i == |cmds| {
      assert cmds[..i] == cmds && cmds[i..] == [];
      assert cmds + [] == cmds && done + [] == done;
    } else {
      ExecuteCons(oracle, history, cmds[i..]);
      assert cmds[i..][0] == cmds[i] && cmds[i..][1..] == cmds[i + 1..];
      assert cmds[..i] + [cmds[i]] == cmds[..i + 1];
      var rest := Execute(oracle, history + [cmds[i]], cmds[i + 1..]);
      assert cmds[..i] + ([cmds[i]] + rest.ran) == cmds[..i + 1] + rest.ran;
    }
  }

  /** The base manager: its `cert_cmds` hook adds nothing. */
  class BaseCertManager {
    var verbose: bool
    var certName: string
    var cmds: seq<Command>

    constructor (certName: string, verbose: bool := false)
      ensures this.certName == certName && this.verbose == verbose
      ensures cmds == []
    {
      this.verbose := verbose;
      this.certName := certName;
      cmds := [];
      new;
      CertCmds();
    }

    /** The hook subclasses override; here it leaves `cmds` alone. */
    method CertCmds()
    {
    }

    method Call(host: Host) returns (r: Result<(), Error>)
      modifies host
      ensures Outcome(host.w, r) == RunAll(host.oracle, old(host.w), verbose, certName, cmds)
    {
      r := RunCommands(host, verbose, certName, cmds);
    }
  }
}
