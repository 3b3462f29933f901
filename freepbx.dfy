/**
 * FreePBX / Asterisk: copy the certificate and key into the Asterisk keys
 * directory, lock that directory down, import the certificate with
 * `fwconsole`, and restart Apache last.
 */
module FreePBX {
  import opened Wrappers
  import opened Process
  import opened Paths
  import Base

  const KeysDir: string := "/etc/asterisk/keys/"

  /** `/etc/asterisk/keys/<name><ext>`. */
  function KeyFile(name: string, ext: string): string {
    KeysDir + name + ext
  }

  /** Phase 1: the two copies, the only commands that depend on the name. */
  function CopyCmds(name: string): seq<Command> {
    [["cp", LiveFile(name, "cert.pem"), KeyFile(name, ".crt")],
     ["cp", LiveFile(name, "privkey.pem"), KeyFile(name, ".key")]]
  }

  /** Phase 2: ownership and permissions of the whole keys directory. */
  function PermissionCmds(): seq<Command> {
    [["chmod", "-R", "0700", KeysDir],
     ["chown", "-R", "asterisk:asterisk", KeysDir]]
  }

  /** Phase 3: import into FreePBX, make it the default, install it for HTTPS, restart Apache. */
  function ImportCmds(): seq<Command> {
    [["/usr/sbin/fwconsole", "certificate", "--import"],
     ["/usr/sbin/fwconsole", "certificate", "--default=0"],
     ["/usr/sbin/fwconsole", "sysadmin", "installHttpsCert", "default"],
     ["/usr/sbin/fwconsole", "sysadmin", "updatecert"],
     ["/usr/sbin/service", "apache2", "restart"]]
  }

  /** The list `cert_cmds` builds with its three `extend` calls. */
  function Commands(name: string): (cmds: seq<Command>)
    ensures |cmds| == 9
  {
    CopyCmds(name) + PermissionCmds() + ImportCmds()
  }

  /** The phases follow one another: copies, permissions, fwconsole steps, the Apache restart last. */
  lemma Phases(name: string)
    ensures Commands(name)[..2] == CopyCmds(name)
    ensures Commands(name)[2..4] == PermissionCmds()
    ensures Commands(name)[4..] == ImportCmds()
    ensures forall i :: 0 <= i < 2 ==> Commands(name)[i][0] == "cp"
    ensures forall i :: 4 <= i < 8 ==> Commands(name)[i][0] == "/usr/sbin/fwconsole"
    ensures Commands(name)[8] == ["/usr/sbin/service", "apache2", "restart"]
    ensures forall i :: 0 <= i < 8 ==> Commands(name)[i][0] != "/usr/sbin/service"
  {
    var c := Commands(name);
    assert c == CopyCmds(name) + (PermissionCmds() + ImportCmds());
    assert c[..2] == CopyCmds(name);
    assert c[2..] == PermissionCmds() + ImportCmds();
    assert c[2..][..2] == PermissionCmds();
    assert c[4..] == c[2..][2..];
  }

  /** The certificate becomes `<name>.crt` and the private key `<name>.key` in the keys directory. */
  lemma CopySourcesAndTargets(name: string)
    ensures Commands(name)[0] == ["cp", LiveFile(name, "cert.pem"), KeysDir + name + ".crt"]
    ensures Commands(name)[1] == ["cp", LiveFile(name, "privkey.pem"), KeysDir + name + ".key"]
  {
    Phases(name);
  }

  /**
   * The path that the recursive chmod and chown name is a string prefix of
   * both copy destinations. For a name without `/` or `..` the copies then
   * sit inside that directory; for one such as `../x` they do not.
   */
  lemma CopiesCoveredByPermissions(name: string)
    ensures forall i, j :: 0 <= i < 2 && 2 <= j < 4 ==>
              Commands(name)[j][1] == "-R" && Commands(name)[j][3] <= Commands(name)[i][2]
  {
    Phases(name);
    assert KeysDir <= KeyFile(name, ".crt");
    assert KeysDir <= KeyFile(name, ".key");
  }

  /** Commands 3 to 9 are the same for every certificate. */
  lemma OnlyCopiesDependOnName(n1: string, n2: string)
    ensures Commands(n1)[2..] == Commands(n2)[2..]
  {
    Phases(n1);
    Phases(n2);
    assert Commands(n1)[2..] == Commands(n1)[2..4] + Commands(n1)[4..];
    assert Commands(n2)[2..] == Commands(n2)[2..4] + Commands(n2)[4..];
  }

  /** The commands determine the certificate name. */
  lemma CommandsInjective(n1: string, n2: string)
    requires Commands(n1) == Commands(n2)
    ensures n1 == n2
  {
    CopySourcesAndTargets(n1);
    CopySourcesAndTargets(n2);
    assert Commands(n1)[0][1] == Commands(n2)[0][1];
    LiveFileInjective(n1, n2, "cert.pem");
  }

  class FreePBXCertManager {
    var verbose: bool
    var certName: string
    var cmds: seq<Command>

    /** The base constructor: store the arguments, empty the list, then run the hook. */
    constructor (certName: string, verbose: bool := false)
      ensures this.certName == certName && this.verbose == verbose
      ensures cmds == Commands(certName)
    {
      this.verbose := verbose;
      this.certName := certName;
      cmds := [];
      new;
      CertCmds();
    }

    /** `cert_cmds`: three `extend` calls on whatever the list already holds. */
    method CertCmds()
      modifies this`cmds
      ensures cmds == old(cmds) + Commands(certName)
    {
      cmds := cmds + CopyCmds(certName);
      cmds := cmds + PermissionCmds();
      cmds := cmds + ImportCmds();
    }

    /** The inherited `__call__`. */
    method Call(host: Host) returns (r: Result<(), Error>)
      modifies host
      ensures Outcome(host.w, r) == Base.RunAll(host.oracle, old(host.w), verbose, certName, cmds)
    {
      r := Base.RunCommands(host, verbose, certName, cmds);
    }
  }
}
