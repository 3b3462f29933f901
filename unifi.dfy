/**
 * Unifi OS: export the certificate to PKCS12, import it into the Unifi
 * Network keystore, restart Unifi Core and then Unifi Network.
 */
module Unifi {
  import opened Wrappers
  import opened Process
  import opened Paths
  import Base

  const Keystore: string := "/data/unifi/data/keystore"
  const KeystorePass: string := "aircontrolenterprise"
  /** Alias and password of the intermediate PKCS12 bundle. */
  const BundleAlias: string := "unifi"
  const BundlePass: string := "unifi"

  function ExportBundle(name: string): Command {
    ["/usr/bin/openssl", "pkcs12", "-export",
     "-inkey", LiveFile(name, "privkey.pem"),
     "-in", LiveFile(name, "fullchain.pem"),
     "-out", LiveFile(name, "fullchain.p12"),
     "-name", BundleAlias, "-password", "pass:" + BundlePass]
  }

  function ImportKeystore(name: string): Command {
    ["/usr/bin/keytool", "-importkeystore",
     "-deststorepass", KeystorePass,
     "-destkeypass", KeystorePass,
     "-destkeystore", Keystore,
     "-srckeystore", LiveFile(name, "fullchain.p12"),
     "-srcstoretype", "PKCS12", "-srcstorepass", BundlePass, "-noprompt"]
  }

  function ServiceRestart(service: string): Command {
    ["/usr/sbin/service", service, "restart"]
  }

  /** The list `cert_cmds` appends, as a function of the certificate name. */
  function Commands(name: string): (cmds: seq<Command>)
    ensures |cmds| == 4
  {
    [ExportBundle(name), ImportKeystore(name), ServiceRestart("unifi-core"), ServiceRestart("unifi")]
  }

  /** The export reads the key and chain of `<name>` and writes `fullchain.p12` beside them. */
  lemma ExportPaths(name: string)
    ensures OptionValue(Commands(name)[0], "-inkey") == Some(LiveFile(name, "privkey.pem"))
    ensures OptionValue(Commands(name)[0], "-in") == Some(LiveFile(name, "fullchain.pem"))
    ensures OptionValue(Commands(name)[0], "-out") == Some(LiveFile(name, "fullchain.p12"))
    ensures OptionValue(Commands(name)[0], "-password") == Some("pass:unifi")
  {
    var c := ExportBundle(name);
    OptionValueAt(c, "-inkey", 3);
    OptionValueAt(c, "-in", 5);
    OptionValueAt(c, "-out", 7);
    OptionValueAt(c, "-password", 11);
    assert "pass:" + BundlePass == "pass:unifi";
  }

  /**
   * Step 2 consumes step 1: keytool reads the bundle openssl wrote, as a
   * PKCS12 store, with the password the bundle was written with.
   */
  lemma ImportReadsExport(name: string)
    ensures OptionValue(Commands(name)[1], "-srckeystore") == OptionValue(Commands(name)[0], "-out")
    ensures OptionValue(Commands(name)[1], "-srcstoretype") == Some("PKCS12")
    ensures OptionValue(Commands(name)[1], "-destkeystore") == Some(Keystore)
  {
    ExportPaths(name);
    var c := ImportKeystore(name);
    OptionValueAt(c, "-srckeystore", 8);
    OptionValueAt(c, "-srcstoretype", 10);
    OptionValueAt(c, "-destkeystore", 6);
  }

  /** keytool opens the bundle with the password openssl sealed it with. */
  lemma ImportPasswordMatchesExport(name: string)
    ensures OptionValue(Commands(name)[0], "-password").Some?
    ensures OptionValue(Commands(name)[1], "-srcstorepass").Some?
    ensures OptionValue(Commands(name)[0], "-password").value
            == "pass:" + OptionValue(Commands(name)[1], "-srcstorepass").value
  {
    OptionValueAt(ExportBundle(name), "-password", 11);
    OptionValueAt(ImportKeystore(name), "-srcstorepass", 12);
  }

  /**
   * Only the certificate's own paths depend on the name: the keystore,
   * its passwords and both restarts are the same for every certificate.
   */
  lemma OnlyPathsDependOnName(n1: string, n2: string)
    ensures Commands(n1)[2..] == Commands(n2)[2..]
    ensures forall j :: 0 <= j < |ImportKeystore(n1)| && j != 9 ==> ImportKeystore(n1)[j] == ImportKeystore(n2)[j]
    ensures forall j :: 0 <= j < |ExportBundle(n1)| && j !in {4, 6, 8} ==> ExportBundle(n1)[j] == ExportBundle(n2)[j]
  {
  }

  /** Unifi Core is restarted before Unifi Network, and both after the import. */
  lemma RestartOrder(name: string)
    ensures Commands(name)[2] == ["/usr/sbin/service", "unifi-core", "restart"]
    ensures Commands(name)[3] == ["/usr/sbin/service", "unifi", "restart"]
  {
  }

  /** The commands determine the certificate name. */
  lemma CommandsInjective(n1: string, n2: string)
    requires Commands(n1) == Commands(n2)
    ensures n1 == n2
  {
    assert ExportBundle(n1)[4] == ExportBundle(n2)[4];
    LiveFileInjective(n1, n2, "privkey.pem");
  }

  class UnifiCertManager {
    var verbose: bool
    var certName: string
    var cmds: seq<Command>

    /** The base constructor: store the arguments, empty the list, then run the hook. */
    constructor (certName: string, verbose: bool := false)
      ensures this.certName == certName && this.verbose == verbose
      ensures cmds == Commands(certName)
    {
      this.verbose := verbose;
      this.certName := certName;
      cmds := [];
      new;
      CertCmds();
    }

    /** `cert_cmds`: four appends to whatever the list already holds. */
    method CertCmds()
      modifies this`cmds
      ensures cmds == old(cmds) + Commands(certName)
    {
      cmds := cmds + [ExportBundle(certName)];
      cmds := cmds + [ImportKeystore(certName)];
      cmds := cmds + [ServiceRestart("unifi-core")];
      cmds := cmds + [ServiceRestart("unifi")];
    }

    /** The inherited `__call__`. */
    method Call(host: Host) returns (r: Result<(), Error>)
      modifies host
      ensures Outcome(host.w, r) == Base.RunAll(host.oracle, old(host.w), verbose, certName, cmds)
    {
      r := Base.RunCommands(host, verbose, certName, cmds);
    }
  }
}
