/**
 * Pi-hole v6 web panel: build `pihole.pem` (chain, a newline, then the
 * private key) next to the certificate by direct file operations, give it to
 * the Pi-hole user, make it readable by owner and group only, restart FTL.
 */
module PiHole {
  import opened Wrappers
  import opened Process
  import opened Paths
  import Base

  const DefaultUser: string := "pihole"
  const DefaultGroup: string := "ssl-certs"
  /** `0o640`: read-write for the owner, read for the group. */
  const CertMode: nat := 0x1A0
  const RestartCmd: Command := ["systemctl", "restart", "pihole-FTL"]

  /** The `pihole_cert` property: the combined file inside the certificate directory. */
  function CombinedCert(certDir: string): string {
    certDir + "/pihole.pem"
  }

  function Fullchain(certDir: string): string {
    certDir + "/fullchain.pem"
  }

  function Privkey(certDir: string): string {
    certDir + "/privkey.pem"
  }

  function ChownCmd(user: string, group: string, path: string): Command {
    ["chown", user + ":" + group, path]
  }

  /** A line printed only in verbose mode. */
  function Say(verbose: bool, line: string): seq<string> {
    if verbose then [line] else []
  }

  /** The combined file is `/etc/letsencrypt/live/<name>/pihole.pem`, and the three files differ. */
  lemma CombinedCertPath(name: string)
    ensures CombinedCert(LiveDir(name)) == LiveFile(name, "pihole.pem")
    ensures Fullchain(LiveDir(name)) == LiveFile(name, "fullchain.pem")
    ensures Privkey(LiveDir(name)) == LiveFile(name, "privkey.pem")
    ensures LiveFile(name, "pihole.pem") != LiveFile(name, "fullchain.pem")
    ensures LiveFile(name, "pihole.pem") != LiveFile(name, "privkey.pem")
    ensures LiveFile(name, "fullchain.pem") != LiveFile(name, "privkey.pem")
  {
    var d := LiveDir(name);
    assert d + "/pihole.pem" == d + "/" + "pihole.pem";
    assert d + "/fullchain.pem" == d + "/" + "fullchain.pem";
    assert d + "/privkey.pem" == d + "/" + "privkey.pem";
  }

  /** `delete_existing_cert`: remove `pihole.pem` if it exists. */
  function DeleteExisting(w: World, verbose: bool, certName: string, certDir: string): World {
    var w1 := w.(out := w.out + Say(verbose, "Deleting existing certificate files for " + certName));
    var cert := CombinedCert(certDir);
    if cert in w1.fs then w1.(fs := w1.fs - {cert}) else w1
  }

  /** Afterwards `pihole.pem` is gone, every other file is as it was, and no process ran. */
  lemma DeleteOnlyRemovesCert(w: World, verbose: bool, certName: string, certDir: string)
    ensures CombinedCert(certDir) !in DeleteExisting(w, verbose, certName, certDir).fs
    ensures DeleteExisting(w, verbose, certName, certDir).fs == w.fs - {CombinedCert(certDir)}
    ensures DeleteExisting(w, verbose, certName, certDir).log == w.log
  {
  }

  /** Deleting twice leaves the same files as deleting once: the second call finds nothing. */
  lemma DeleteIdempotent(w: World, verbose: bool, certName: string, certDir: string)
    ensures var once := DeleteExisting(w, verbose, certName, certDir);
            DeleteExisting(once, verbose, certName, certDir).fs == once.fs
  {
  }

  /**
   * `create_combined_cert`: `shutil.copy2` of the chain (data and mode bits)
   * onto `pihole.pem`, then a newline and the private key appended. The key
   * is opened after the copy, so a missing key leaves the bare copy behind.
   */
  function CreateCombined(w: World, verbose: bool, certDir: string): Outcome {
    var cert := CombinedCert(certDir);
    var fullchain := Fullchain(certDir);
    var privkey := Privkey(certDir);
    var w1 := w.(out := w.out + Say(verbose, "Creating combined certificate at " + cert));
    if fullchain !in w1.fs then Outcome(w1, Err(FileNotFound(fullchain)))
    else
      var w2 := w1.(fs := w1.fs[cert := w1.fs[fullchain]]);
      if privkey !in w2.fs then Outcome(w2, Err(FileNotFound(privkey)))
      else
        var copied := w2.fs[cert];
        Outcome(w2.(fs := w2.fs[cert := copied.(data := copied.data + "\n" + w2.fs[privkey].data)]), Ok(()))
  }

  /**
   * It succeeds exactly when both sources exist; then `pihole.pem` holds the
   * chain, a newline and the key, with the chain's mode, and only that file
   * changed. A missing chain changes nothing; a missing key leaves the copy.
   */
  lemma CreateCombinedSpec(w: World, verbose: bool, certDir: string)
    ensures var o := CreateCombined(w, verbose, certDir);
            && o.world.log == w.log
            && (o.result.Ok? <==> Fullchain(certDir) in w.fs && Privkey(certDir) in w.fs)
            && (o.result.Ok? ==>
                  o.world.fs == w.fs[CombinedCert(certDir) :=
                    Inode(w.fs[Fullchain(certDir)].data + "\n" + w.fs[Privkey(certDir)].data,
                          w.fs[Fullchain(certDir)].mode)])
            && (Fullchain(certDir) !in w.fs ==>
                  o.world.fs == w.fs && o.result == Err(FileNotFound(Fullchain(certDir))))
            && (Fullchain(certDir) in w.fs && Privkey(certDir) !in w.fs ==>
                  o.world.fs == w.fs[CombinedCert(certDir) := w.fs[Fullchain(certDir)]]
                  && o.result == Err(FileNotFound(Privkey(certDir))))
  {
    assert Privkey(certDir) != CombinedCert(certDir);
  }

  /** `set_permissions`: `chown user:group` through `run`, then `os.chmod(0o640)`. */
  function OwnAndProtect(oracle: Oracle, w: World, verbose: bool, user: string, group: string, certDir: string): Outcome {
    var cert := CombinedCert(certDir);
    var cmd := ChownCmd(user, group, cert);
    var w1 := w.(out := w.out + Say(verbose, "Setting ownership to " + user + ":" + group));
    var r := Spawn(oracle, w1.log, cmd);
    var w2 := Base.RunEffect(oracle, w1, verbose, cmd);
    if r.Err? then Outcome(w2, Err(r.error))
    else if cert !in w2.fs then Outcome(w2, Err(FileNotFound(cert)))
    else Outcome(w2.(fs := w2.fs[cert := w2.fs[cert].(mode := CertMode)]), Ok(()))
  }

  /**
   * chown runs first and exactly once; when it fails the mode is left alone;
   * when it succeeds only the mode of `pihole.pem` changes, to 0o640.
   */
  lemma OwnAndProtectSpec(oracle: Oracle, w: World, verbose: bool, user: string, group: string, certDir: string)
    ensures var o := OwnAndProtect(oracle, w, verbose, user, group, certDir);
            var cert := CombinedCert(certDir);
            var cmd := ["chown", user + ":" + group, cert];
            && o.world.log == w.log + [cmd]
            && (!Succeeds(oracle(w.log, cmd)) ==>
                  o.world.fs == w.fs && o.result == Err(Spawn(oracle, w.log, cmd).error))
            && (Succeeds(oracle(w.log, cmd)) && cert in w.fs ==>
                  o.result == Ok(()) && o.world.fs == w.fs[cert := Inode(w.fs[cert].data, CertMode)])
            && (Succeeds(oracle(w.log, cmd)) && cert !in w.fs ==>
                  o.world.fs == w.fs && o.result == Err(FileNotFound(cert)))
  {
  }

  /** `restart_service`: `systemctl restart pihole-FTL` through `run`. */
  function Restart(oracle: Oracle, w: World, verbose: bool): Outcome {
    var w1 := w.(out := w.out + Say(verbose, "Restarting pihole-FTL service"));
    var r := Spawn(oracle, w1.log, RestartCmd);
    Outcome(Base.RunEffect(oracle, w1, verbose, RestartCmd), if r.Ok? then Ok(()) else Err(r.error))
  }

  /** `__call__`: delete, create, set permissions, restart; an exception stops the rest. */
  function Deploy(oracle: Oracle, w: World, verbose: bool, certName: string,
                  user: string, group: string, certDir: string): Outcome
  {
    var w0 := w.(out := w.out + Say(verbose, "Setting up Pi-hole certificate for " + certName));
    var w1 := DeleteExisting(w0, verbose, certName, certDir);
    var created := CreateCombined(w1, verbose, certDir);
    if created.result.Err? then created
    else
      var owned := OwnAndProtect(oracle, created.world, verbose, user, group, certDir);
      if owned.result.Err? then owned
      else Restart(oracle, owned.world, verbose)
  }

  /**
   * The steps run in order and a failing step stops the later ones: a
   * missing source means no process at all, a failing chown means no
   * restart, and success means chown then restart, with `pihole.pem`
   * holding chain, newline and key under mode 0o640.
   */
  lemma DeployOrder(oracle: Oracle, w: World, verbose: bool, certName: string,
                    user: string, group: string, certDir: string)
    ensures var o := Deploy(oracle, w, verbose, certName, user, group, certDir);
            var chown := ChownCmd(user, group, CombinedCert(certDir));
            && (Fullchain(certDir) !in w.fs || Privkey(certDir) !in w.fs ==>
                  o.world.log == w.log && o.result.Err?)
            && (Fullchain(certDir) in w.fs && Privkey(certDir) in w.fs && !Succeeds(oracle(w.log, chown)) ==>
                  o.world.log == w.log + [chown] && o.result == Err(Spawn(oracle, w.log, chown).error))
            && (Fullchain(certDir) in w.fs && Privkey(certDir) in w.fs && Succeeds(oracle(w.log, chown)) ==>
                  o.world.log == w.log + [chown, RestartCmd]
                  && (o.result.Ok? <==> Succeeds(oracle(w.log + [chown], RestartCmd)))
                  && o.world.fs == w.fs[CombinedCert(certDir) :=
                       Inode(w.fs[Fullchain(certDir)].data + "\n" + w.fs[Privkey(certDir)].data, CertMode)])
  {
    var cert := CombinedCert(certDir);
    assert Fullchain(certDir) != cert && Privkey(certDir) != cert;
    var w0 := w.(out := w.out + Say(verbose, "Setting up Pi-hole certificate for " + certName));
    var w1 := DeleteExisting(w0, verbose, certName, certDir);
    DeleteOnlyRemovesCert(w0, verbose, certName, certDir);
    assert Fullchain(certDir) in w1.fs <==> Fullchain(certDir) in w.fs;
    assert Privkey(certDir) in w1.fs <==> Privkey(certDir) in w.fs;
    CreateCombinedSpec(w1, verbose, certDir);
    var created := CreateCombined(w1, verbose, certDir);
    if created.result.Ok? {
      OwnAndProtectSpec(oracle, created.world, verbose, user, group, certDir);
      var owned := OwnAndProtect(oracle, created.world, verbose, user, group, certDir);
      if owned.result.Ok? {
        assert owned.world.fs == w.fs[cert :=
          Inode(w.fs[Fullchain(certDir)].data + "\n" + w.fs[Privkey(certDir)].data, CertMode)];
        assert owned.world.log + [RestartCmd] == w.log + [ChownCmd(user, group, cert), RestartCmd];
      }
    }
  }

  /** Each step's files, commands and result depend on the files and commands before it, not on the output. */
  lemma DeleteIgnoresOutput(w1: World, w2: World, v1: bool, v2: bool, certName: string, certDir: string)
    requires w1.fs == w2.fs && w1.log == w2.log
    ensures DeleteExisting(w1, v1, certName, certDir).fs == DeleteExisting(w2, v2, certName, certDir).fs
    ensures DeleteExisting(w1, v1, certName, certDir).log == DeleteExisting(w2, v2, certName, certDir).log
  {
  }

  lemma CreateIgnoresOutput(w1: World, w2: World, v1: bool, v2: bool, certDir: string)
    requires w1.fs == w2.fs && w1.log == w2.log
    ensures var c1, c2 := CreateCombined(w1, v1, certDir), CreateCombined(w2, v2, certDir);
            c1.world.fs == c2.world.fs && c1.world.log == c2.world.log && c1.result == c2.result
  {
  }

  lemma OwnIgnoresOutput(oracle: Oracle, w1: World, w2: World, v1: bool, v2: bool, user: string, group: string, certDir: string)
    requires w1.fs == w2.fs && w1.log == w2.log
    ensures var c1, c2 := OwnAndProtect(oracle, w1, v1, user, group, certDir), OwnAndProtect(oracle, w2, v2, user, group, certDir);
            c1.world.fs == c2.world.fs && c1.world.log == c2.world.log && c1.result == c2.result
  {
  }

  lemma RestartIgnoresOutput(oracle: Oracle, w1: World, w2: World, v1: bool, v2: bool)
    requires w1.fs == w2.fs && w1.log == w2.log
    ensures var c1, c2 := Restart(oracle, w1, v1), Restart(oracle, w2, v2);
            c1.world.fs == c2.world.fs && c1.world.log == c2.world.log && c1.result == c2.result
  {
  }

  /** Without `verbose` no step prints. */
  lemma QuietStepsPrintNothing(oracle: Oracle, w: World, certName: string, user: string, group: string, certDir: string)
    ensures DeleteExisting(w, false, certName, certDir).out == w.out
    ensures CreateCombined(w, false, certDir).world.out == w.out
    ensures OwnAndProtect(oracle, w, false, user, group, certDir).world.out == w.out
    ensures Restart(oracle, w, false).world.out == w.out
  {
  }

  /** `verbose` changes only what is printed, and without it nothing is. */
  lemma VerboseOnlyPrints(oracle: Oracle, w: World, certName: string, user: string, group: string, certDir: string)
    ensures var loud, quiet := Deploy(oracle, w, true, certName, user, group, certDir),
                               Deploy(oracle, w, false, certName, user, group, certDir);
            && loud.world.fs == quiet.world.fs && loud.world.log == quiet.world.log
            && loud.result == quiet.result
            && quiet.world.out == w.out
  {
    var w0 := w.(out := w.out + Say(true, "Setting up Pi-hole certificate for " + certName));
    var d1, d2 := DeleteExisting(w0, true, certName, certDir), DeleteExisting(w, false, certName, certDir);
    DeleteIgnoresOutput(w0, w, true, false, certName, certDir);
    QuietStepsPrintNothing(oracle, w, certName, user, group, certDir);
    var c1, c2 := CreateCombined(d1, true, certDir), CreateCombined(d2, false, certDir);
    CreateIgnoresOutput(d1, d2, true, false, certDir);
    QuietStepsPrintNothing(oracle, d2, certName, user, group, certDir);
    if c1.result.Ok? {
      var p1, p2 := OwnAndProtect(oracle, c1.world, true, user, group, certDir),
                    OwnAndProtect(oracle, c2.world, false, user, group, certDir);
      OwnIgnoresOutput(oracle, c1.world, c2.world, true, false, user, group, certDir);
      QuietStepsPrintNothing(oracle, c2.world, certName, user, group, certDir);
      if p1.result.Ok? {
        RestartIgnoresOutput(oracle, p1.world, p2.world, true, false);
        QuietStepsPrintNothing(oracle, p2.world, certName, user, group, certDir);
      }
    }
  }

  class PiHoleCertManager {
    var verbose: bool
    var certName: string
    var cmds: seq<Command>
    var user: string
    var group: string
    var certDir: string

    /** The base constructor (with the no-op hook), then owner, group and directory. */
    constructor (certName: string, user: string := DefaultUser, group: string := DefaultGroup, verbose: bool := false)
      ensures this.certName == certName && this.verbose == verbose
      ensures this.user == user && this.group == group
      ensures certDir == LiveDir(certName)
      ensures PiholeCert() == LiveFile(certName, "pihole.pem")
      ensures cmds == []
    {
      this.verbose := verbose;
      this.certName := certName;
      cmds := [];
      new;
      CertCmds();
      this.user := user;
      this.group := group;
      certDir := LiveDir(certName);
      CombinedCertPath(certName);
    }

    /** No list of commands: the work is done by the steps below. */
    method CertCmds()
    {
    }

    function PiholeCert(): string
      reads this
    {
      CombinedCert(certDir)
    }

    method Run(host: Host, cmd: Command) returns (r: Result<Completed, Error>)
      modifies host
      ensures r == Spawn(host.oracle, old(host.w.log), cmd)
      ensures host.w == Base.RunEffect(host.oracle, old(host.w), verbose, cmd)
    {
      r := Base.RunCommand(host, verbose, cmd);
    }

    method DeleteExistingCert(host: Host)
      modifies host
      ensures host.w == DeleteExisting(old(host.w), verbose, certName, certDir)
    {
      if verbose {
        host.w := host.w.(out := host.w.out + ["Deleting existing certificate files for " + certName]);
      }
      if PiholeCert() in host.w.fs {
        host.w := host.w.(fs := host.w.fs - {PiholeCert()});
      }
    }

    method CreateCombinedCert(host: Host) returns (r: Result<(), Error>)
      modifies host
      ensures Outcome(host.w, r) == CreateCombined(old(host.w), verbose, certDir)
    {
      var fullchain := Fullchain(certDir);
      var privkey := Privkey(certDir);
      if verbose {
        host.w := host.w.(out := host.w.out + ["Creating combined certificate at " + PiholeCert()]);
      }
      if fullchain !in host.w.fs {
        return Err(FileNotFound(fullchain));
      }
      host.w := host.w.(fs := host.w.fs[PiholeCert() := host.w.fs[fullchain]]);
      if privkey !in host.w.fs {
        return Err(FileNotFound(privkey));
      }
      var dest := host.w.fs[PiholeCert()];
      dest := dest.(data := dest.data + "\n");
      dest := dest.(data := dest.data + host.w.fs[privkey].data);
      host.w := host.w.(fs := host.w.fs[PiholeCert() := dest]);
      r := Ok(());
    }

    method SetPermissions(host: Host) returns (r: Result<(), Error>)
      modifies host
      ensures Outcome(host.w, r) == OwnAndProtect(host.oracle, old(host.w), verbose, user, group, certDir)
    {
      if verbose {
        host.w := host.w.(out := host.w.out + ["Setting ownership to " + user + ":" + group]);
      }
      var res := Run(host, ["chown", user + ":" + group, PiholeCert()]);
      if res.Err? {
        return Err(res.error);
      }
      if PiholeCert() !in host.w.fs {
        return Err(FileNotFound(PiholeCert()));
      }
      host.w := host.w.(fs := host.w.fs[PiholeCert() := host.w.fs[PiholeCert()].(mode := CertMode)]);
      r := Ok(());
    }

    method RestartService(host: Host) returns (r: Result<(), Error>)
      modifies host
      ensures Outcome(host.w, r) == Restart(host.oracle, old(host.w), verbose)
    {
      if verbose {
        host.w := host.w.(out := host.w.out + ["Restarting pihole-FTL service"]);
      }
      var res := Run(host, RestartCmd);
      r := if res.Ok? then Ok(()) else Err(res.error);
    }

    method Call(host: Host) returns (r: Result<(), Error>)
      modifies host
      ensures Outcome(host.w, r) == Deploy(host.oracle, old(host.w), verbose, certName, user, group, certDir)
    {
      if verbose {
        host.w := host.w.(out := host.w.out + ["Setting up Pi-hole certificate for " + certName]);
      }
      DeleteExistingCert(host);
      r := CreateCombinedCert(host);
      if r.Err? {
        return;
      }
      r := SetPermissions(host);
      if r.Err? {
        return;
      }
      r := RestartService(host);
    }
  }
}
