/**
 * The checker side: the `available_checkers` registry and the
 * `PingCmdChecker` probe (onliner/checker.py).
 *
 * The subprocess is not modelled; what it does is a parameter `run` that gives
 * the process return code for an argument list. The code hands the whole list
 * to `create_subprocess_exec` as its program, which raises `TypeError`; the
 * model follows the return-code mapping written after that call.
 */
module Checker {
  import opened Registry

  /** Word used in the registry's `TypeError` message. */
  const CHECKER_KIND := "Checker"
  /** The class name that `MetaChecker` never registers. */
  const CHECKER_BASE := "CheckerBase"
  /** `PingCmdChecker.CMD`: the program and its attempt count, as one argument "-c 3". */
  const CMD: seq<string> := ["ping", "-c 3"]

  /** `available_checkers`: an empty dictionary when the module is loaded. */
  method NewCheckerRegistry<C>() returns (registry: StrategyRegistry<C>)
    ensures fresh(registry) && registry.Valid()
    ensures registry.kind == CHECKER_KIND && registry.excluded == CHECKER_BASE
    ensures registry.entries == map[]
  {
    registry := new StrategyRegistry(CHECKER_KIND, CHECKER_BASE);
  }

  /** `CheckerBase` is never a key of the checker registry, whatever is defined. */
  lemma CheckerBaseNeverRegistered<C>(defs: seq<(string, C)>)
    requires DefineAll(map[], CHECKER_BASE, CHECKER_KIND, defs).Ok?
    ensures CHECKER_BASE !in DefineAll(map[], CHECKER_BASE, CHECKER_KIND, defs).value
    ensures DefineAll(map[], CHECKER_BASE, CHECKER_KIND, defs).value.Keys == Names(defs, CHECKER_BASE)
  {
    DefineAllContents(CHECKER_BASE, CHECKER_KIND, defs);
  }

  /**
   * Loading checker.py defines `CheckerBase` and then `PingCmdChecker`
   * (classes identified here by their qualified names); only the latter is
   * registered.
   */
  lemma ModuleClassesRegistered()
    ensures DefineAll(map[], CHECKER_BASE, CHECKER_KIND,
                      [("CheckerBase", "onliner.checker.CheckerBase"),
                       ("PingCmdChecker", "onliner.checker.PingCmdChecker")])
            == Ok(map["PingCmdChecker" := "onliner.checker.PingCmdChecker"])
  {
    var defs := [("CheckerBase", "onliner.checker.CheckerBase"),
                 ("PingCmdChecker", "onliner.checker.PingCmdChecker")];
    assert defs[..1][..0] == [];
    assert DefineAll(map[], CHECKER_BASE, CHECKER_KIND, defs[..1]) == Ok(map[]);
  }

  /** Python's `list(s)` on a string: one single-character string per character. */
  function Chars(s: string): (r: seq<string>)
    ensures |r| == |s|
    ensures forall i :: 0 <= i < |s| ==> r[i] == [s[i]]
  {
    if s == [] then [] else [[s[0]]] + Chars(s[1..])
  }

  /** Concatenation of a sequence of strings (`''.join`). */
  function Concat(parts: seq<string>): string
  {
    if parts == [] then [] else parts[0] + Concat(parts[1..])
  }

  /** Joining the characters of a string gives back the string. */
  lemma {:induction false} ConcatChars(s: string)
    ensures Concat(Chars(s)) == s
  {
    if s != [] {
      ConcatChars(s[1..]);
      assert Chars(s)[1..] == Chars(s[1..]);
    }
  }

  /**
   * The argument list `CMD + list(destination)` that `check` builds: the
   * destination is split into one element per character.
   */
  function PingArgv(destination: string): (argv: seq<string>)
    ensures |argv| == |CMD| + |destination|
    ensures argv[..|CMD|] == CMD
    ensures forall i :: 0 <= i < |destination| ==> argv[|CMD| + i] == [destination[i]]
    ensures Concat(argv[|CMD|..]) == destination
  {
    var args := Chars(destination);
    var argv := CMD + args;
    assert |CMD| == 2;
    assert argv[..|CMD|] == CMD;
    assert argv[|CMD|..] == args;
    assert forall i :: 0 <= i < |destination| ==> argv[|CMD| + i] == args[i];
    ConcatChars(destination);
    argv
  }

  /**
   * For any destination longer than one character, no element after `CMD`
   * is the destination itself: the list never holds the host name whole.
   */
  lemma DestinationNotPassedWhole(destination: string)
    requires |destination| > 1
    ensures destination !in PingArgv(destination)[|CMD|..]
  {
    var args := PingArgv(destination)[|CMD|..];
    forall i | 0 <= i < |args|
      ensures args[i] != destination
    {
      assert args[i] == [destination[i]];
    }
  }

  /**
   * A `PingCmdChecker` object; its constructor is `CheckerBase.__init__`.
   * `lastOnline` is the private `_last_online` attribute.
   */
  class PingCmdChecker {
    var destination: string
    var lastOnline: bool

    constructor (destination: string)
      ensures this.destination == destination && !lastOnline
    {
      this.destination := destination;
      lastOnline := false;
    }

    /**
     * `check`: the return code of running `PingArgv(destination)` decides;
     * online exactly when it is 0. The object is not changed.
     */
    method Check(run: seq<string> -> int) returns (online: bool)
      ensures online <==> run(PingArgv(destination)) == 0
    {
      var returncode := run(CMD + Chars(destination));
      if returncode == 0 {
        online := true;
      } else {
        online := false;
      }
    }
  }
}
