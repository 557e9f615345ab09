# onliner — a Dafny model of its checker, notifier and configuration core

onliner is a small Python availability monitor. It probes a destination with
`ping`, can send e-mail through SMTP, and reads its settings from a YAML
file. This project models the parts of it that contain logic:

- **Self-registering strategy registries** (`registry.dfy`). Every checker
  and notifier class is entered into a module-wide dictionary when its
  class is defined. A name that is already present raises `TypeError`, and
  one excluded name is skipped. `Registry.StrategyRegistry` is that
  dictionary. Its `Register` method is the metaclass `__new__`. Its
  invariant ties the contents to the history of completed definitions. The
  lemmas show two things. The keys are exactly the distinct defined names
  other than the excluded one. A sequence of definitions succeeds exactly
  when those names are unique.
- **Checker** (`checker.dfy`). This covers the `available_checkers` registry,
  with `CheckerBase` excluded. It also covers the `PingCmdChecker` object.
  Its argument list is built as written: `CMD + list(destination)`.
  That splits the destination into one element per character.
  `Checker.DestinationNotPassedWhole` proves that the built list never
  holds a destination longer than one character as a single element. The
  code passes that whole list as the program argument of
  `create_subprocess_exec`, so the call raises `TypeError` and no process
  starts. `Check` models the exit-code mapping written after that call:
  online exactly when the return code is 0.
- **Notifier** (`notifier.dfy`). This covers the `available_notifiers`
  registry. As in the code, its excluded name is `CheckerBase`, so
  `NotifierBase` is registered too. It also covers `SmtpNotifier`: the
  constructor with its defaults, the handshake `connect → [STARTTLS] →
  login` on port 587, the message with its `From`/`To`/`Subject` headers,
  and the rule that the message is handed over only after the whole
  handshake succeeded. Each awaited SMTP call is a step appended to the
  object's `trace`. Which step raises is a parameter.
- **Configuration** (`configuration.dfy`). `get_config_path` is a
  first-match search: the given path if it exists, then the preference list
  in order. `read_configuration` raises `RuntimeError` exactly when nothing
  is found. The file system is a set of existing paths. The working
  directory and home directory are parameters.

Python classes are represented as opaque values. Class definition is an
explicit `Register` call. The subprocess is a function from argument list
to return code. YAML loading is a function from path to configuration.

## Model

| member | source | states |
|---|---|---|
| `Registry.Define` | onliner/checker.py:27-33 | The excluded name leaves the dictionary unchanged. A new name is added and mapped to its class. A name already present raises `TypeError` with the "already exists" text. Existing entries are never changed. |
| `Registry.DuplicateMessage` | onliner/checker.py:33 | The `TypeError` text starts with the kind ("Checker" or "Notifier"), then " with name '". The name follows, closed by a single quote, and the text ends with "' already exists!". The same wording is used at notifier.py:35. |
| `Registry.DefineAll` | onliner/checker.py:21-35 | Class definitions run in order, and the first `TypeError` aborts the rest. A successful run keeps every entry that was already present and adds exactly the registrable defined names to the keys. A run fails exactly when `FirstCollision` finds a colliding definition, and the `TypeError` names that definition's class. |
| `Registry.FirstCollision` | onliner/checker.py:28-33 | The reference for where a run fails: the first definition whose name is not the excluded one and is already a key or was defined earlier. The index it picks is in range and its name is registrable. |
| `Registry.FirstCollisionCollides` | onliner/checker.py:28-33 | The definition `FirstCollision` picks collides: its name was already a key of the starting dictionary, or an earlier definition has the same name. |
| `Registry.FirstCollisionIsFirst` | onliner/checker.py:28-33 | Every colliding definition with a registrable name lies at or after the one `FirstCollision` picks. So the reported class is the first collision in definition order. |
| `Registry.DefineAllReportsCollision` | onliner/checker.py:28-33 | When a run raises, the `TypeError` names a registrable class whose name was already a key or was defined earlier in the run. |
| `Registry.DefineAllContents` | onliner/checker.py:13-35 | After any successful sequence of definitions starting from an empty dictionary, the keys are exactly the defined names other than the excluded one. Each key maps to the class it was defined with. The excluded name is never a key. |
| `Registry.DefineAllSucceeds` | onliner/checker.py:28-33 | A sequence of definitions completes without `TypeError` if and only if its registrable names are pairwise distinct. |
| `Registry.StrategyRegistry.constructor` | onliner/checker.py:13 | The registry starts as an empty dictionary with its excluded name and error wording. |
| `Registry.StrategyRegistry.Register` | onliner/checker.py:21-35 | Raises `TypeError` exactly when the name is not the excluded one and is already a key. When it raises, the dictionary is unchanged. Otherwise it returns the class, and the dictionary gains exactly that entry, or nothing for the excluded name. The invariant and the excluded name's absence are preserved. |
| `Checker.NewCheckerRegistry` | onliner/checker.py:13 | `available_checkers` is empty, skips `CheckerBase`, and names "Checker" in its error. |
| `Checker.CheckerBaseNeverRegistered` | onliner/checker.py:27 | Whatever checker classes are defined, `CheckerBase` is never a key. The keys are the other defined names. |
| `Checker.ModuleClassesRegistered` | onliner/checker.py:38-55 | Loading the module registers `PingCmdChecker` and not `CheckerBase`. |
| `Checker.Chars` | onliner/checker.py:64 | `list(s)` has one element per character, and element i is the one-character string `s[i]`. |
| `Checker.ConcatChars` | onliner/checker.py:64 | Joining the elements of `list(s)` gives back `s`. |
| `Checker.PingArgv` | onliner/checker.py:60-64 | The built argument list is `['ping', '-c 3']` followed by the destination's characters in order. Its length is 2 plus the destination's length. Its tail joins back to the destination. |
| `Checker.DestinationNotPassedWhole` | onliner/checker.py:64 | For a destination longer than one character, no argument after `CMD` equals the destination. |
| `Checker.PingCmdChecker.constructor` | onliner/checker.py:43-45 | Stores the destination unchanged and sets `_last_online` to false. |
| `Checker.PingCmdChecker.Check` | onliner/checker.py:62-74 | Online is returned if and only if the return code of the process run on `PingArgv(destination)` is 0. |
| `Notifier.NewNotifierRegistry` | onliner/notifier.py:15 | `available_notifiers` is empty, skips `CheckerBase` (as written), and names "Notifier" in its error. |
| `Notifier.CheckerBaseNeverANotifier` | onliner/notifier.py:29-33 | Whatever notifier classes are defined, `CheckerBase` is never a key of the notifier registry. |
| `Notifier.NotifierBaseRegistered` | onliner/notifier.py:29-33 | A defined `NotifierBase` is registered with its class, because the exclusion test compares against `CheckerBase`. |
| `Notifier.ModuleClassesRegistered` | onliner/notifier.py:40-49 | Loading the module registers both `NotifierBase` and `SmtpNotifier`. |
| `Notifier.BuildMessage` | onliner/notifier.py:80-83 | The message carries the text as its payload. Its `From`, `To` and `Subject` headers read back as the given sender, recipient and subject. |
| `Notifier.Handshake` | onliner/notifier.py:63-75 | The plan is connect to the server on port 587, then STARTTLS if and only if `use_starttls`, then login with the stored credentials. That gives 3 steps with STARTTLS and 2 without. With STARTTLS the connection is created with `use_tls=False`. No step sends a message. |
| `Notifier.Perform` | onliner/notifier.py:72-75 | Awaited calls run in plan order, and the first exception propagates. At most the plan's steps are issued. A step that is reported as raising did fail, and at least one step was issued. |
| `Notifier.PerformPrefix` | onliner/notifier.py:72-75 | The steps issued are a prefix of the plan, in the plan's order. |
| `Notifier.PerformCompletes` | onliner/notifier.py:72-75 | Nothing raises if and only if no step of the plan fails. In that case the whole plan is issued. |
| `Notifier.PerformStopsAtFailure` | onliner/notifier.py:72-75 | When a step raises, it is the last step issued, and every step issued before it succeeded. |
| `Notifier.HandshakeRun` | onliner/notifier.py:72-75 | A failing connect stops the handshake after one step. With STARTTLS, a failing upgrade stops it after two steps and login is never attempted. Otherwise the whole handshake is issued, and the outcome is decided by login. |
| `Notifier.PerformThenSend` | onliner/notifier.py:85-86 | If the handshake raises, the send never happens. Otherwise the send follows the completed handshake, and its own outcome decides the result. |
| `Notifier.PerformAppend` | onliner/notifier.py:85-86 | Running the handshake and then the send is running their concatenation. If the first part raises, the second part is not started. |
| `Notifier.SentOnlyAfterHandshake` | onliner/notifier.py:85-86 | The message is handed to the server if and only if every handshake step succeeded. |
| `Notifier.SmtpNotifier.constructor` | onliner/notifier.py:56-61 | Stores login, password, server and `use_starttls` unchanged. The defaults are `smtp.gmail.com` and STARTTLS on. |
| `Notifier.SmtpNotifier.InitConnection` | onliner/notifier.py:63-77 | Appends to the trace exactly the handshake steps up to and including the first one that raises. It reports that step, or no failure. |
| `Notifier.SmtpNotifier.SendMessageTo` | onliner/notifier.py:79-86 | Appends the handshake steps and then the send of the built message, stopping at the first step that raises. It reports that step. |
| `Notifier.SmtpNotifier.Notify` | onliner/notifier.py:90-91 | Changes nothing and returns nothing. |
| `Configuration.Join` | onliner/configuration.py:15 | POSIX `os.path.join` of two parts. An absolute second part replaces the first. Otherwise the result is the first part, then a '/' only when the first part is non-empty and does not already end in one, then the second part. |
| `Configuration.RStripSlashes` | onliner/configuration.py:16 | The result is the longest prefix of the home path that does not end in '/'. Only slashes are removed. |
| `Configuration.CwdConfigPath` | onliner/configuration.py:15 | The first candidate is `cwd + "/onliner.yml"`, or `cwd + "onliner.yml"` when `cwd` already ends in '/'. It always ends in the file name. |
| `Configuration.HomeConfigPath` | onliner/configuration.py:16 | The second candidate is the home directory with its trailing slashes removed, then "/onliner.yml". |
| `Configuration.ConfigPreference` | onliner/configuration.py:12-18 | There are three candidates, each ending in `onliner.yml`, in this order. The first is `os.path.join(cwd, 'onliner.yml')`, pinned for both kinds of working directory. The second is the home directory with trailing slashes removed, then "/onliner.yml". The third is the relative `etc/onliner.yml`, not `/etc`. |
| `Configuration.FirstExisting` | onliner/configuration.py:32-35 | Returns `None` if and only if no path exists. Otherwise it returns an existing path of the list, and every path before it does not exist. |
| `Configuration.GetConfigPath` | onliner/configuration.py:21-35 | An existing given path is returned unchanged. Any result exists and is the given path or a preference entry. The result is `None` if and only if the given path is absent or missing and no preference entry exists. |
| `Configuration.MissingPathFallsBack` | onliner/configuration.py:29-31 | A given path that does not exist is ignored. The result is the same as with no path, and it is found whenever some preference entry exists. |
| `Configuration.FallbackIsEarliest` | onliner/configuration.py:29-34 | Without a usable given path, the result is the existing preference entry with the smallest index. |
| `Configuration.ReadConfiguration` | onliner/configuration.py:50-55 | Raises `RuntimeError("No configuration file has been found.")` if and only if no file is found. Otherwise it loads the resolved path. |

## Left out

- The monitoring loop (check, detect a transition, notify) is not part of this model. The code has no such loop: `main` in onliner/__main__.py ends at an undefined name.
- onliner/__main__.py (argument parsing, logging set-up, building the objects from the configuration dictionary) is not part of this model. It is plumbing with no logic of its own.
- There is no registry lookup or constructor resolution. The code never resolves a strategy through the registries; `main` constructs the classes directly.
- Spawning and waiting for the ping process is not modelled. The return code is the result of the `run` parameter on the argument list that line 64 builds.
- The aiosmtplib connection, TLS and the network are not modelled. Each call is a step label, and a raising call is chosen by the `fails` parameter. After a successful send, `connection.close()` is called directly and its result is passed to `loop.call_soon` (notifier.py:88). Neither call is modelled. No close happens when a handshake step or the send raises, because the exception leaves before that line; the model has no close step in either case.
- `Checker.PingCmdChecker.Check` always returns a boolean. In the code, `check` raises `TypeError` on every call, for every destination: checker.py:64 passes the whole list `CMD + list(destination)` as the single `program` argument of `asyncio.create_subprocess_exec` instead of unpacking it, and a list is not accepted as a program. Lines 69-74 are therefore never reached. `Check` models the mapping written at lines 69-74, applied to the list built at line 64. The `TypeError` is not modelled.
- `CheckerBase.__init__` also accepts `*args` and `**kwargs` and ignores them (checker.py:43). The constructor takes only the destination.
- The event loop argument of `SmtpNotifier.__init__` and the logging calls are not modelled.
- The MIME headers that `MIMEText` adds itself (content type, encoding) are not modelled. The message is its text plus the three headers set explicitly.
- The `last_online` property is left out: it returns itself and recurses without end.
- `CheckerBase.check` and `NotifierBase.notify` are left out. They only raise `NotImplementedError`.
- Python's metaclass machinery is not modelled. A class is an opaque value, and its definition is an explicit `Register` call.
- `os.path.exists` and `os.getcwd` are not modelled. They become the set `existing` and the `cwd` parameter.
- `os.path.expanduser` is modelled only after its lookup: the `home` parameter is the directory found in `HOME` or the password database. Stripping its trailing slashes and appending "/onliner.yml" is modelled. One case is not: with `HOME` unset and no password entry, expansion fails and the entry stays `~/onliner.yml`.
- The preference list is passed to `GetConfigPath` explicitly rather than read from a module global.
- Opening the file and `yaml.safe_load` are not modelled. They become the `load` parameter, so errors while reading or parsing are not modelled.
- `Registry.DefineAllContents`: stated for registries that start empty, as both module dictionaries do.
