/**
 * Emby Server: export the certificate to a password-less PKCS12 file, hand
 * it to the `ssl-certs` group, and restart the server.
 */
module Emby {
  import opened Wrappers
  import opened Process
  import opened Paths
  import Base

  const Owner: string := "root:ssl-certs"
  const Mode: string := "0770"
  const Service: string := "emby-server"

  /** The PKCS12 file Emby is configured to read. */
  function Bundle(name: string): string {
    LiveFile(name, "fullchain.p12")
  }

  function ExportBundle(name: string): Command {
    ["/usr/bin/openssl", "pkcs12", "-export",
     "-inkey", LiveFile(name, "privkey.pem"),
     "-in", LiveFile(name, "fullchain.pem"),
     "-out", Bundle(name),
     "-password", "pass:"]
  }

  function SetOwner(name: string): Command {
    ["/usr/bin/chown", Owner, Bundle(name)]
  }

  function SetMode(name: string): Command {
    ["/usr/bin/chmod", Mode, Bundle(name)]
  }

  function RestartServer(): Command {
    ["/usr/sbin/service", Service, "restart"]
  }

  /** The list `cert_cmds` appends: convert, chown, chmod, restart. */
  function Commands(name: string): (cmds: seq<Command>)
    ensures |cmds| == 4
  {
    [ExportBundle(name), SetOwner(name), SetMode(name), RestartServer()]
  }

  /** The export reads the key and chain of `<name>`, writes `fullchain.p12`, with an empty password. */
  lemma ExportPaths(name: string)
    ensures OptionValue(Commands(name)[0], "-inkey") == Some(LiveFile(name, "privkey.pem"))
    ensures OptionValue(Commands(name)[0], "-in") == Some(LiveFile(name, "fullchain.pem"))
    ensures OptionValue(Commands(name)[0], "-out") == Some(LiveFile(name, "fullchain.p12"))
    ensures OptionValue(Commands(name)[0], "-password") == Some("pass:")
  {
    var c := ExportBundle(name);
    OptionValueAt(c, "-inkey", 3);
    OptionValueAt(c, "-in", 5);
    OptionValueAt(c, "-out", 7);
    OptionValueAt(c, "-password", 9);
  }

  /** chown and chmod act on the very file the export wrote, after it and before the restart. */
  lemma PermissionsOnExport(name: string)
    ensures Some(Commands(name)[1][2]) == OptionValue(Commands(name)[0], "-out")
    ensures Some(Commands(name)[2][2]) == OptionValue(Commands(name)[0], "-out")
    ensures Commands(name)[1][..2] == ["/usr/bin/chown", "root:ssl-certs"]
    ensures Commands(name)[2][..2] == ["/usr/bin/chmod", "0770"]
    ensures Commands(name)[3] == ["/usr/sbin/service", "emby-server", "restart"]
  {
    ExportPaths(name);
  }

  /** Owner, mode and service are the same for every certificate. */
  lemma ConstantsIndependentOfName(n1: string, n2: string)
    ensures Commands(n1)[1][..2] == Commands(n2)[1][..2]
    ensures Commands(n1)[2][..2] == Commands(n2)[2][..2]
    ensures Commands(n1)[3] == Commands(n2)[3]
  {
  }

  /** The commands determine the certificate name. */
  lemma CommandsInjective(n1: string, n2: string)
    requires Commands(n1) == Commands(n2)
    ensures n1 == n2
  {
    assert ExportBundle(n1)[4] == ExportBundle(n2)[4];
    LiveFileInjective(n1, n2, "privkey.pem");
  }

  /**
   * Invoking the manager starts `run` once per command: when each command
   * succeeds the log grows by exactly the four commands, in order.
   */
  lemma CallRunsEachOnce(oracle: Oracle, w: World, verbose: bool, name: string)
    requires Base.AllSucceed(oracle, w.log, Commands(name))
    ensures Base.RunAll(oracle, w, verbose, name, Commands(name)).world.log == w.log + Commands(name)
    ensures |Base.RunAll(oracle, w, verbose, name, Commands(name)).world.log| == |w.log| + 4
    ensures Base.RunAll(oracle, w, verbose, name, Commands(name)).result == Ok(())
  {
    Base.RunAllSucceeds(oracle, w, verbose, name, Commands(name));
  }

  class EmbyCertManager {
    var verbose: bool
    var certName: string
    var cmds: seq<Command>

    /** The base constructor: store the arguments, empty the list, then run the hook. */
    constructor (certName: string, verbose: bool := false)
      ensures this.certName == certName && this.verbose == verbose
      ensures cmds == Commands(certName)
    {
      this.verbose := verbose;
      this.certName := certName;
      cmds := [];
      new;
      CertCmds();
    }

    /** `cert_cmds`: four appends to whatever the list already holds. */
    method CertCmds()
      modifies this`cmds
      ensures cmds == old(cmds) + Commands(certName)
    {
      cmds := cmds + [ExportBundle(certName)];
      cmds := cmds + [SetOwner(certName)];
      cmds := cmds + [SetMode(certName)];
      cmds := cmds + [RestartServer()];
    }

    /** The inherited `__call__`. */
    method Call(host: Host) returns (r: Result<(), Error>)
      modifies host
      ensures Outcome(host.w, r) == Base.RunAll(host.oracle, old(host.w), verbose, certName, cmds)
    {
      r := Base.RunCommands(host, verbose, certName, cmds);
    }
  }
}
