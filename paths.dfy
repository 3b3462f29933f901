/**
 * The certificate store layout and how the external tools read their
 * command lines. Every manager interpolates the certificate name into
 * `/etc/letsencrypt/live/<name>/<file>`.
 */
module Paths {
  import opened Wrappers
  import opened Process

  const LiveRoot: string := "/etc/letsencrypt/live/"

  /** `/etc/letsencrypt/live/<name>`: the directory the CA renews the certificate into. */
  function LiveDir(name: string): string {
    LiveRoot + name
  }

  /** `/etc/letsencrypt/live/<name>/<file>`. */
  function LiveFile(name: string, file: string): (p: string)
    ensures |p| == |LiveRoot| + |name| + 1 + |file|
    ensures p[0] == '/'
  {
    LiveDir(name) + "/" + file
  }

  /**
   * The name is substituted verbatim: it can be cut back out of the path at
   * a fixed position, and so is the file name.
   */
  lemma NameInLiveFile(name: string, file: string)
    ensures LiveFile(name, file)[|LiveRoot|..|LiveRoot| + |name|] == name
    ensures LiveFile(name, file)[|LiveRoot| + |name| + 1..] == file
  {
    var p := LiveFile(name, file);
    assert p == LiveRoot + name + "/" + file;
    forall k | 0 <= k < |name| ensures p[|LiveRoot| + k] == name[k] {
      assert p[|LiveRoot| + k] == (LiveRoot + name)[|LiveRoot| + k];
    }
  }

  /** Two certificate names never share a path: the path determines the name. */
  lemma LiveFileInjective(n1: string, n2: string, file: string)
    requires LiveFile(n1, file) == LiveFile(n2, file)
    ensures n1 == n2
  {
    NameInLiveFile(n1, file);
    NameInLiveFile(n2, file);
  }

  /** The value a tool reads for option `flag`: the argument after its first occurrence. */
  function OptionValue(cmd: Command, flag: string): Option<string>
    decreases |cmd|
  {
    if |cmd| < 2 then None
    else if cmd[0] == flag then Some(cmd[1])
    else OptionValue(cmd[1..], flag)
  }

  /** The option's value is the argument after the first `flag`. */
  lemma {:induction false} OptionValueAt(cmd: Command, flag: string, i: nat)
    requires i + 1 < |cmd| && cmd[i] == flag
    requires forall j :: 0 <= j < i ==> cmd[j] != flag
    ensures OptionValue(cmd, flag) == Some(cmd[i + 1])
    decreases i
  {
    if i > 0 {
      assert cmd[0] != flag;
      forall j | 0 <= j < i - 1 ensures cmd[1..][j] != flag {
        assert cmd[1..][j] == cmd[j + 1];
      }
      OptionValueAt(cmd[1..], flag, i - 1);
    }
  }
}
