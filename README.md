# certhook in Dafny

certhook is a deploy hook for Let's Encrypt certificates. It is invoked as
`certhook <app> <cert_name> [--verbose]` after a renewal. It installs the
renewed certificate from `/etc/letsencrypt/live/<cert_name>/` into one of
four applications: Unifi OS, Emby Server, FreePBX/Asterisk or the Pi-hole
v6 web panel.

Three of the managers work the same way. The constructor builds a list of
argument vectors, and invoking the manager hands them one by one to the
process runner. The first non-zero exit stops the sequence and propagates.
The Pi-hole manager works on files directly. It deletes the old
`pihole.pem`, writes the chain, a newline and the key into it, runs
`chown`, sets mode 0o640 and restarts `pihole-FTL`.

The machine is modelled as `Process.Host`. It holds an oracle and a
`World` value, which has three parts:

- `fs`: the files, each with its contents and mode bits;
- `log`: every argument vector handed to the process runner, in order;
- `out`: every line printed.

The oracle says how a child process ends: an exit status with its two
streams, or "no such program". Its answer may depend on every command
started before. Each method that changes the host is proved to leave it
in the state computed by a specification function on `World` values:

- `Base.RunAll` for `BaseCertManager.__call__`;
- `PiHole.Deploy` for the Pi-hole manager's `__call__`;
- `Cli.Invocation` for `main`.

The lemmas state what these functions guarantee.

Python inheritance becomes delegation. Each manager is a class of its own
with the fields `verbose`, `certName` and `cmds`. Its constructor runs its
own `CertCmds`, the `cert_cmds` hook. For Unifi, Emby and FreePBX, `Call`
forwards to `Base.RunCommands`, which is the shared `__call__`. The Pi-hole
manager is the exception: it overrides `__call__`, and its `Call` runs its
own four steps.

Modules: `Wrappers` (Option, Result), `Process` (commands, the host, the
process runner), `Paths` (certificate paths, how tools read options),
`Base`, `Unifi`, `Emby`, `FreePBX`, `PiHole`, `Cli`.

## Model

| member | source | states |
|---|---|---|
| Process.Spawn | src/certhook/base.py:48 | `subprocess.run(..., check=True)`: the result is Ok exactly when the program exits with status 0, and then it carries the command unchanged and both streams. A non-zero exit raises CalledProcessError with the exit code and both streams; a missing program raises FileNotFound. |
| Process.Join | src/certhook/base.py:50 | `' '.join(args)`, the argument vector as printed on the `command:` line. Its partner is `Process.SplitJoin`. |
| Process.SplitJoin | src/certhook/base.py:50 | The `command:` line is faithful: when no argument contains a space, splitting `' '.join(args)` at spaces gives back the arguments. |
| Base.ReportLines | src/certhook/base.py:49-53 | Verbose `run` prints the `command:` line and the `stdout:` line. It prints a third line, `stderr:`, exactly when stderr is non-empty. |
| Base.RunEffect | src/certhook/base.py:37-54 | One `run` starts exactly this one command, and certhook itself writes no file. It prints nothing unless verbose. |
| Base.RunCommand | src/certhook/base.py:37-54 | The method returns the runner's result. It appends the command to the log, and certhook itself writes no file. It prints the report only for a command that succeeded, because a failure raises before anything is printed. |
| Base.Execute | src/certhook/base.py:34-35 | The loop of `__call__` as a function: it starts the commands in order after the given history and stops at the first failure. The `Base.Execute...` lemmas state its properties. |
| Base.ExecuteRanPrefix | src/certhook/base.py:34-35 | The commands started are a prefix of the list and never empty when the list is not. On success they are the whole list. On failure exactly one more command was started than completed. |
| Base.ExecuteAllSucceed | src/certhook/base.py:34-35 | When every command succeeds after the ones before it, all of them run in order and each completed run belongs to its own command. |
| Base.ExecuteStopsAtFailure | src/certhook/base.py:34-35 | When command k is the first to fail, commands 0..k are started and nothing after, and the error is command k's error. |
| Base.ExecuteFailureIsFirst | src/certhook/base.py:34-35 | Conversely, when the sequence fails, the last command started is the one that failed, and every command before it succeeded. |
| Base.ExecuteOkAllSucceed | src/certhook/base.py:34-35 | A normal return means every command succeeded. |
| Base.AllSucceedAt | src/certhook/base.py:34-35 | "All succeed" means that each command i succeeds after the commands before it. |
| Base.RunAll | src/certhook/base.py:28-35 | The specification of `__call__`. Verbose mode prints the header, then one report per completed command. |
| Base.RunAllSucceeds | src/certhook/base.py:28-35 | On full success the result is Ok. The log grows by exactly the list, in order, and certhook itself writes no file. |
| Base.RunAllStops | src/certhook/base.py:28-35 | A failure at command k propagates that command's error, and nothing after it is started. |
| Base.RunAllOkIff | src/certhook/base.py:28-35 | `__call__` returns normally if and only if every command succeeds. |
| Base.VerboseOnlyPrints | src/certhook/base.py:32-33 | `verbose` changes only the output, and without it nothing is printed. |
| Base.RunCommands | src/certhook/base.py:28-35 | The `for cmd in self.cmds: self.run(cmd)` loop leaves the host exactly as `RunAll` says. |
| Base.BaseCertManager.constructor | src/certhook/base.py:14-26 | The constructor stores the name and the flag, and the list stays empty because the base hook adds nothing. |
| Base.BaseCertManager.CertCmds | src/certhook/base.py:56-60 | The base hook does nothing: it has no `modifies` clause, so it changes no state. |
| Base.BaseCertManager.Call | src/certhook/base.py:28-35 | Invoking the manager is `RunAll` on its own list. |
| Paths.LiveFile | src/certhook/unifi.py:21-25 | `/etc/letsencrypt/live/<name>/<file>`: the path has the root's, the name's, the separator's and the file's length, and it is absolute. |
| Paths.NameInLiveFile | src/certhook/unifi.py:21-25 | The certificate name is interpolated verbatim into `/etc/letsencrypt/live/<name>/<file>`, and both the name and the file can be read back out of the path. |
| Paths.LiveFileInjective | src/certhook/unifi.py:21-25 | Different certificate names give different paths. |
| Paths.OptionValueAt | src/certhook/unifi.py:21-35 | A tool that reads the argument after the first occurrence of a flag reads the argument at that position. |
| Unifi.Commands | src/certhook/unifi.py:15-38 | `cert_cmds` appends exactly four commands. |
| Unifi.ExportPaths | src/certhook/unifi.py:21-25 | openssl reads this certificate's `privkey.pem` and `fullchain.pem`, writes `fullchain.p12` beside them, and seals it with `pass:unifi`. |
| Unifi.ImportReadsExport | src/certhook/unifi.py:21-35 | keytool reads the file openssl wrote, as PKCS12, into `/data/unifi/data/keystore`. |
| Unifi.ImportPasswordMatchesExport | src/certhook/unifi.py:25-35 | keytool opens the bundle with the password openssl sealed it with. |
| Unifi.OnlyPathsDependOnName | src/certhook/unifi.py:21-38 | Only the three certificate paths depend on the name. The keystore, the passwords and both restarts are the same for every certificate. |
| Unifi.RestartOrder | src/certhook/unifi.py:37-38 | Unifi Core restarts before Unifi Network, and both come last. |
| Unifi.CommandsInjective | src/certhook/unifi.py:15-38 | The command list determines the certificate name. |
| Unifi.UnifiCertManager.constructor | src/certhook/base.py:14-26 | The constructor runs the hook, so the list is exactly the four Unifi commands. |
| Unifi.UnifiCertManager.CertCmds | src/certhook/unifi.py:15-38 | The hook appends the four commands to whatever the list held. |
| Unifi.UnifiCertManager.Call | src/certhook/base.py:28-35 | Invocation is `RunAll` on the list. |
| Emby.Commands | src/certhook/emby.py:13-31 | `cert_cmds` appends exactly four commands. |
| Emby.ExportPaths | src/certhook/emby.py:18-24 | openssl reads this certificate's key and chain and writes `fullchain.p12` with an empty password. |
| Emby.PermissionsOnExport | src/certhook/emby.py:27-31 | chown `root:ssl-certs` and chmod `0770` act on the very file the export wrote, and the `emby-server` restart comes last. |
| Emby.ConstantsIndependentOfName | src/certhook/emby.py:27-31 | The owner, the mode and the restart are the same for every certificate. |
| Emby.CommandsInjective | src/certhook/emby.py:13-31 | The command list determines the certificate name. |
| Emby.CallRunsEachOnce | src/certhook/base.py:34-35 | When all four commands succeed, the log grows by exactly those four, in order. |
| Emby.EmbyCertManager.constructor | src/certhook/base.py:14-26 | The list is exactly the four Emby commands. |
| Emby.EmbyCertManager.CertCmds | src/certhook/emby.py:13-31 | The hook appends the four commands. |
| Emby.EmbyCertManager.Call | src/certhook/base.py:28-35 | Invocation is `RunAll` on the list. |
| FreePBX.Commands | src/certhook/freepbx.py:14-39 | `cert_cmds` builds exactly nine commands. |
| FreePBX.Phases | src/certhook/freepbx.py:18-39 | The list is two copies, then two permission commands, then the fwconsole steps, with the Apache restart last and only there. |
| FreePBX.CopySourcesAndTargets | src/certhook/freepbx.py:19-24 | `cert.pem` becomes `<name>.crt` and `privkey.pem` becomes `<name>.key` in `/etc/asterisk/keys/`. |
| FreePBX.CopiesCoveredByPermissions | src/certhook/freepbx.py:19-30 | The path that the recursive chmod and chown name is a string prefix of both copy destinations. |
| FreePBX.OnlyCopiesDependOnName | src/certhook/freepbx.py:27-39 | Commands 3 to 9 are the same for every certificate. |
| FreePBX.CommandsInjective | src/certhook/freepbx.py:14-39 | The command list determines the certificate name. |
| FreePBX.FreePBXCertManager.constructor | src/certhook/base.py:14-26 | The list is exactly the nine FreePBX commands. |
| FreePBX.FreePBXCertManager.CertCmds | src/certhook/freepbx.py:14-39 | The hook extends the list by the three phases. |
| FreePBX.FreePBXCertManager.Call | src/certhook/base.py:28-35 | Invocation is `RunAll` on the list. |
| PiHole.CombinedCertPath | src/certhook/pihole.py:27-61 | `pihole.pem`, `fullchain.pem` and `privkey.pem` all sit in `/etc/letsencrypt/live/<name>/`, and the three paths differ. |
| PiHole.DeleteExisting | src/certhook/pihole.py:45-54 | The specification of `delete_existing_cert`. Its partners are `DeleteOnlyRemovesCert` and `DeleteIdempotent`. |
| PiHole.DeleteOnlyRemovesCert | src/certhook/pihole.py:45-54 | Afterwards `pihole.pem` is absent, every other file is untouched, and no process runs. |
| PiHole.DeleteIdempotent | src/certhook/pihole.py:52-54 | Deleting a second time changes no file. |
| PiHole.CreateCombined | src/certhook/pihole.py:56-72 | The specification of `create_combined_cert`: copy the chain with its mode, then append a newline and the key. Its partner is `CreateCombinedSpec`. |
| PiHole.CreateCombinedSpec | src/certhook/pihole.py:56-72 | The step succeeds if and only if both the chain and the key exist. Then `pihole.pem` holds the chain, a newline and the key, with the chain's mode bits, and no other file changes. A missing chain changes nothing. A missing key leaves the bare copy of the chain behind. |
| PiHole.OwnAndProtect | src/certhook/pihole.py:74-85 | The specification of `set_permissions`: chown through `run`, then chmod 0o640. Its partner is `OwnAndProtectSpec`. |
| PiHole.OwnAndProtectSpec | src/certhook/pihole.py:74-85 | chown runs exactly once, first. If it fails, no mode changes. If it succeeds, only the mode of `pihole.pem` becomes 0o640 and its contents stay. If the file is missing, chmod raises FileNotFound. |
| PiHole.Restart | src/certhook/pihole.py:87-94 | The specification of `restart_service`: `systemctl restart pihole-FTL` through `run`. Its partners are `DeployOrder` and `RestartIgnoresOutput`. |
| PiHole.Deploy | src/certhook/pihole.py:34-43 | The specification of the Pi-hole `__call__`: the four steps in order, with an exception stopping the rest. Its partners are `DeployOrder` and `VerboseOnlyPrints`. |
| PiHole.DeployOrder | src/certhook/pihole.py:34-43 | The steps run in order, and a failing step stops the rest. A missing source means no process starts. A failing chown means no restart. Otherwise chown and then the restart run, and `pihole.pem` ends as chain, newline and key under mode 0o640. |
| PiHole.VerboseOnlyPrints | src/certhook/pihole.py:38-39 | `verbose` changes only the output, and without it nothing is printed. |
| PiHole.DeleteIgnoresOutput | src/certhook/pihole.py:45-54 | The delete step does not depend on what was printed. |
| PiHole.CreateIgnoresOutput | src/certhook/pihole.py:56-72 | The create step does not depend on what was printed. |
| PiHole.OwnIgnoresOutput | src/certhook/pihole.py:74-85 | The permissions step does not depend on what was printed. |
| PiHole.RestartIgnoresOutput | src/certhook/pihole.py:87-94 | The restart step does not depend on what was printed. |
| PiHole.QuietStepsPrintNothing | src/certhook/pihole.py:49-92 | Without `verbose`, no step prints. |
| PiHole.PiHoleCertManager.constructor | src/certhook/pihole.py:14-27 | The constructor keeps the defaults `pihole` and `ssl-certs`, sets the directory to the live directory, and leaves the command list empty. |
| PiHole.PiHoleCertManager.CertCmds | src/certhook/pihole.py:96-101 | The Pi-hole hook adds no commands: it has no `modifies` clause, so it changes no state. |
| PiHole.PiHoleCertManager.PiholeCert | src/certhook/pihole.py:29-32 | The `pihole_cert` property: `pihole.pem` in the certificate directory. The constructor's contract proves it is `/etc/letsencrypt/live/<name>/pihole.pem`. |
| PiHole.PiHoleCertManager.Run | src/certhook/base.py:37-54 | The inherited `run`, used by `set_permissions` and `restart_service`: the result is the runner's, and the host changes as one `run` says. |
| PiHole.PiHoleCertManager.DeleteExistingCert | src/certhook/pihole.py:45-54 | The method is `DeleteExisting` on the host. |
| PiHole.PiHoleCertManager.CreateCombinedCert | src/certhook/pihole.py:56-72 | The method is `CreateCombined` on the host. |
| PiHole.PiHoleCertManager.SetPermissions | src/certhook/pihole.py:74-85 | The method is `OwnAndProtect` on the host. |
| PiHole.PiHoleCertManager.RestartService | src/certhook/pihole.py:87-94 | The method is `Restart` on the host. |
| PiHole.PiHoleCertManager.Call | src/certhook/pihole.py:34-43 | Invocation is `Deploy` on the host. |
| Cli.RegistryIsBijective | src/certhook/main.py:12-17 | `APP_MANAGERS` (the constant `Cli.AppManagers`) has exactly four names, one for each manager class, and `AppName` reads it backwards. |
| Cli.Classify | src/certhook/main.py:21-29 | How the parser reads one token of this grammar: a value, `--verbose`, help, an option with an attached argument, an ambiguous prefix or an unknown option. Its partners are `KnownFlags`, `HelpPrefixIsOption` and `LongAttachedIsOption`. |
| Cli.KnownFlags | src/certhook/main.py:21-27 | A token reads as `--verbose` exactly when it is `--verbose` or one of its abbreviations, and every spelling of `-h` and `--help` reads as help. |
| Cli.HelpPrefixIsOption | src/certhook/main.py:21-29 | A single-dash token that starts with `-h` is never a positional value, even when it holds a space. It is help or an option with an attached argument. |
| Cli.LongAttachedIsOption | src/certhook/main.py:26-27 | `--verbose=<v>`, `--help=<v>` and their abbreviations with `=<v>` are that option with an attached argument, whatever `v` holds. |
| Cli.FirstAmbiguous | src/certhook/main.py:29 | The ambiguous token reported is one of the tokens, and there is none exactly when no token is ambiguous. |
| Cli.Parse | src/certhook/main.py:21-29 | `parser.parse_args()` for `app cert_name [--verbose]`: it returns the parsed arguments, help, or a usage error. Its partners are `ParseRunMeaning`, `ParseRender`, `HelpPrecedence` and `AmbiguityWins`. |
| Cli.Positionals | src/certhook/main.py:22-27 | The positional values are tokens of the command line that are not options. |
| Cli.ParseRunMeaning | src/certhook/main.py:21-29 | A successful parse names a registered application and a certificate, which are the only two positional values, in order. Every option is a form of `--verbose`, and `verbose` is set exactly when one appears. |
| Cli.NoStopMeansValidApp | src/certhook/main.py:22-23 | Once parsing gets past the choice check, the help flags and the attached arguments, the application is registered and no token is help or has an attached argument. |
| Cli.NoExtrasMeansKnownOptions | src/certhook/main.py:21-29 | When nothing is left over, no token is an unknown option and there are at most two positionals. |
| Cli.HelpStopNeedsFlag | src/certhook/main.py:21-29 | Parsing stops for help only when one of the tokens it reads is a help token. |
| Cli.HelpNeedsFlag | src/certhook/main.py:21-29 | `parse_args` shows help only when the command line holds `-h`, `--help` or another spelling of help. |
| Cli.StopIsChoice | src/certhook/main.py:22-23 | When there is no help token and no attached argument, parsing stops early exactly when the first positional is not one of the choices, and the error names that positional. |
| Cli.RejectIsUsage | src/certhook/main.py:22-29 | When there is no help token, attached argument or ambiguous token, several cases are usage errors. An application outside `APP_MANAGERS` is an invalid choice. No positional means `app` and `cert_name` are missing, and a registered application alone means `cert_name` is missing. In each case `main` exits with 2, and the host is unchanged, so no manager runs. |
| Cli.RejectExamples | tests/test_main.py:9-20 | `certhook` with no arguments, and `certhook invalid example.com`, are usage errors. |
| Cli.AppNamesArePositional | src/certhook/main.py:12-23 | No registered application name reads as an option. |
| Cli.ParseRender | src/certhook/main.py:21-29 | Parsing `<app> <name>`, `<app> <name> --verbose` and `--verbose <app> <name>` gives back exactly that application, name and flag. |
| Cli.SkipOptions | src/certhook/main.py:21-29 | `--verbose` flags and unknown options before a token do not change where parsing stops. |
| Cli.HelpPrecedence | src/certhook/main.py:21-29 | When no token after them is ambiguous, `-h` wins over the checks made at the end of the input, an unknown application placed before `-h` wins over it, and an option with an attached argument is an error on the spot. |
| Cli.AmbiguityWins | src/certhook/main.py:29 | An ambiguous token anywhere, even after `-h`, makes the parse an ambiguous-option error that names an ambiguous token of the command line. |
| Cli.SpacedHelpIsAttached | src/certhook/main.py:21-29 | `certhook unifi "-h x"` is an error about the argument attached to `-h`; it does not run Unifi. |
| Cli.VerboseValueIsAttached | src/certhook/main.py:26-29 | `--verbose=<v> -h` is an error about the argument attached to `--verbose`, reported before `-h` is reached. |
| Cli.RepeatedHelpIsHelp | src/certhook/main.py:21-29 | `certhook unifi -hh` shows help. |
| Cli.AmbiguousBeforeHelp | src/certhook/main.py:21-29 | `certhook -h --=x` is an ambiguous-option error, not help. |
| Cli.AppCommands | src/certhook/main.py:12-17 | The command list of the manager class that `APP_MANAGERS` selects. Pi-hole has none. |
| Cli.AppCommandsInjective | src/certhook/main.py:12-17 | Different applications or different certificates never hand the host the same command list. |
| Cli.Dispatch | src/certhook/main.py:31-36 | The specification of building the selected manager and invoking it: Pi-hole with its default user and group, and the others with their command lists. Its partners are `CommandListRun` and `PiHoleRun`. |
| Cli.ExitCode | src/certhook/main.py:38-39 | `sys.exit(main())`: 0 after a normal return or help, 2 after a usage error, 1 after an uncaught exception. Its partner is `ExitCodeMeaning`. |
| Cli.Invocation | src/certhook/main.py:19-39 | The specification of `main`: parse, then dispatch only when parsing succeeds. Its partner is `ExitCodeMeaning`. |
| Cli.ExitCodeMeaning | src/certhook/main.py:19-39 | Help and usage errors leave the host untouched and exit with 0 and 2. A parsed command line exits with 0 when the manager returns and with 1 when it raises. `RejectIsUsage` and `HelpNeedsFlag` say which command lines end in which case. |
| Cli.CommandListRun | src/certhook/main.py:31-36 | For Unifi, Emby and FreePBX, the run ends normally exactly when each of the application's commands succeeds. Then exactly those commands ran, in order, and certhook itself wrote no file. |
| Cli.PiHoleRun | src/certhook/main.py:31-36 | For Pi-hole, the run ends normally exactly when the chain and the key exist and both chown and the restart succeed. |
| Cli.RunManager | src/certhook/main.py:32-36 | The method builds the selected manager with `cert_name` and `verbose` and invokes it once. |
| Cli.Invoke | src/certhook/main.py:19-39 | `main` leaves the host exactly as `Invocation` says. |

## Left out

- The operating system is abstract. How a child process ends comes from an oracle that sees the commands started before it but not the file system. So a command's effect on files, such as the copies, the chown and the openssl export, is not modelled. Only the Pi-hole file operations, which certhook performs itself, change `fs`.
- chown changes ownership, not contents or mode. Ownership is not part of the model, so the Pi-hole chown shows only as a command in the log.
- Process output is a string. The UTF-8 decoding of stdout and stderr, and text-mode newline translation when files are read and written, are not modelled.
- Base.VerboseOnlyPrints: holds only because output is already a string. In the source, verbose `run` decodes stdout and stderr as UTF-8, and only in verbose mode. A command that exits 0 with output that is not valid UTF-8 then raises UnicodeDecodeError after it ran. That ends the loop of `__call__`, so the later commands are skipped and `main` exits with 1. The same run without `verbose` runs every command.
- PiHole.VerboseOnlyPrints: holds only for the same reason. A chown whose output is not valid UTF-8, in verbose mode, raises from `run` and skips the chmod and the restart. Without `verbose` both still happen.
- Process.Spawn: the only start-up failure modelled is a missing program, as FileNotFound. The other OS errors that `subprocess.run` can raise when it starts a program, such as PermissionError for a file that is not executable, are not modelled. They stop the sequence the same way, with a different exception.
- `shutil.copy2` copies contents and mode bits in the model. Timestamps and other metadata are not modelled.
- `os.path.exists` is modelled as membership in `fs`. Directories, symbolic links and permission errors are not modelled.
- Process.Program: for an empty argument vector, a missing program raises FileNotFound with an empty name. The source never builds an empty command.
- Cli.Parse models the argument parser only for this grammar. Left out are:
  - the `--` separator: the parser reads every later token as a positional value, while `Cli.Classify` reads `--` as an unknown option, so `certhook -- unifi x` is a usage error in the model and runs Unifi for the parser;
  - the trailing-newline quirk of the negative-number pattern;
  - non-ASCII decimal digits: the pattern's `\d` matches every Unicode decimal digit, so `-٣` (U+0663) is a positional for the parser, but `Cli.NegativeNumber` accepts only `0`-`9` and reads it as an unknown option;
  - versions of the parser other than the one described below.

  The model follows the option reader of CPython 3.11's argument parser, test by test and in its order. A token that starts with `-h` is `-h` with the rest attached: `-hh` and `-h=h` are help again, and any other attachment, such as ` x` in `-h x`, is an error. A long token whose part before `=` names a long option, such as `--verbose=a b` or `--he=1`, is an error. A long token whose part before `=` is just `--` is an ambiguous option, which is an error reported before any token is consumed, even after `-h`. Only after these tests is a negative number or a token with a space a positional value. Later versions of the parser treat some of these cases differently, and their behaviour is not modelled. The negative-number pattern modelled is `^-\d+$|^-\d*\.\d+$` with ASCII digits. This is the parser's long-standing pattern. Newer Python versions changed it to accept more forms, and those forms are not modelled.
- The text of help and usage messages is not modelled. The outcome is an error value and an exit status.
- Inheritance is modelled as delegation: four manager classes with shared module-level methods. There is no subtyping, so `APP_MANAGERS` maps names to a datatype of manager classes, and `Cli.RunManager` selects the constructor by matching on it.
- Every manager is covered by an end-to-end lemma: `Cli.CommandListRun` for Unifi, Emby and FreePBX, and `Cli.PiHoleRun` for Pi-hole. Apart from `Cli.RejectExamples`, which mirrors two command-line tests, there are no lemmas about literal certificate names such as `example.com`. Every property is stated for all names.
- Paths.LiveFile: the certificate name is interpolated verbatim even when it contains `/` or `..`. The model has the same behaviour and proves nothing about path traversal.
- FreePBX.KeyFile: the same holds for the copy destinations. For a name like `../x` the copy goes to `/etc/asterisk/x.crt`, outside the directory that the recursive chmod and chown cover. `FreePBX.CopiesCoveredByPermissions` proves only a string prefix, not that the file is inside that directory.
