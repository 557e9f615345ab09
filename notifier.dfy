/**
 * The notifier side: the `available_notifiers` registry and the
 * `SmtpNotifier` (onliner/notifier.py).
 *
 * The SMTP library calls are not modelled; each awaited call is a step
 * appended to the notifier's `trace`, and whether the server makes a step
 * raise is a parameter `fails`. A step that raises ends the operation with
 * that step as the error, as the exception propagates out of the coroutine.
 */
module Notifier {
  import opened Wrappers
  import opened Registry

  /** Word used in the registry's `TypeError` message. */
  const NOTIFIER_KIND := "Notifier"
  /** The class name that `MetaNotifier` skips: "CheckerBase", not "NotifierBase". */
  const NOTIFIER_EXCLUDED := "CheckerBase"
  /** `SmtpNotifier.SMTP_PORT`, used in both security modes. */
  const SMTP_PORT := 587
  /** Default of the `server` argument of `SmtpNotifier.__init__`. */
  const DEFAULT_SERVER := "smtp.gmail.com"

  /** `available_notifiers`: an empty dictionary when the module is loaded. */
  method NewNotifierRegistry<C>() returns (registry: StrategyRegistry<C>)
    ensures fresh(registry) && registry.Valid()
    ensures registry.kind == NOTIFIER_KIND && registry.excluded == NOTIFIER_EXCLUDED
    ensures registry.entries == map[]
  {
    registry := new StrategyRegistry(NOTIFIER_KIND, NOTIFIER_EXCLUDED);
  }

  /** Whatever notifier classes are defined, "CheckerBase" never becomes a key. */
  lemma CheckerBaseNeverANotifier<C>(defs: seq<(string, C)>)
    requires DefineAll(map[], NOTIFIER_EXCLUDED, NOTIFIER_KIND, defs).Ok?
    ensures "CheckerBase" !in DefineAll(map[], NOTIFIER_EXCLUDED, NOTIFIER_KIND, defs).value
  {
    DefineAllContents(NOTIFIER_EXCLUDED, NOTIFIER_KIND, defs);
  }

  /** A defined "NotifierBase" is registered like any other name, with its class. */
  lemma NotifierBaseRegistered<C>(defs: seq<(string, C)>, i: nat)
    requires DefineAll(map[], NOTIFIER_EXCLUDED, NOTIFIER_KIND, defs).Ok?
    requires i < |defs| && defs[i].0 == "NotifierBase"
    ensures && "NotifierBase" in DefineAll(map[], NOTIFIER_EXCLUDED, NOTIFIER_KIND, defs).value
            && DefineAll(map[], NOTIFIER_EXCLUDED, NOTIFIER_KIND, defs).value["NotifierBase"] == defs[i].1
  {
    DefineAllContents(NOTIFIER_EXCLUDED, NOTIFIER_KIND, defs);
  }

  /**
   * Loading notifier.py defines `NotifierBase` and then `SmtpNotifier`
   * (classes identified here by their qualified names); both are registered.
   */
  lemma ModuleClassesRegistered()
    ensures DefineAll(map[], NOTIFIER_EXCLUDED, NOTIFIER_KIND,
                      [("NotifierBase", "onliner.notifier.NotifierBase"),
                       ("SmtpNotifier", "onliner.notifier.SmtpNotifier")])
            == Ok(map["NotifierBase" := "onliner.notifier.NotifierBase",
                      "SmtpNotifier" := "onliner.notifier.SmtpNotifier"])
  {
    var defs := [("NotifierBase", "onliner.notifier.NotifierBase"),
                 ("SmtpNotifier", "onliner.notifier.SmtpNotifier")];
    assert defs[..1][..0] == [];
    assert DefineAll(map[], NOTIFIER_EXCLUDED, NOTIFIER_KIND, defs[..1])
        == Ok(map["NotifierBase" := "onliner.notifier.NotifierBase"]);
  }

  /** An email message: its headers in the order they were set, and its text. */
  datatype Message = Message(headers: seq<(string, string)>, payload: string)

  /** `msg[name]`: the value of the first header called `name`, if any. */
  function Header(headers: seq<(string, string)>, name: string): Option<string>
  {
    if headers == [] then None
    else if headers[0].0 == name then Some(headers[0].1)
    else Header(headers[1..], name)
  }

  /**
   * The message `send_message` builds: `MIMEText(message)` and then the
   * `From`, `To` and `Subject` headers (the MIME headers `MIMEText` adds
   * itself are not part of this model).
   */
  function BuildMessage(fromAddr: string, toAddr: string, text: string, subject: string): (m: Message)
    ensures m.payload == text
    ensures Header(m.headers, "From") == Some(fromAddr)
    ensures Header(m.headers, "To") == Some(toAddr)
    ensures Header(m.headers, "Subject") == Some(subject)
  {
    var headers := [("From", fromAddr), ("To", toAddr), ("Subject", subject)];
    assert Header(headers, "Subject") == Header(headers[1..], "Subject") == Header(headers[1..][1..], "Subject");
    Message(headers, text)
  }

  /**
   * One awaited call on the SMTP connection. `useTls` is the `use_tls`
   * argument given to the connection: `Some(false)` in STARTTLS mode, `None`
   * (the library's default) otherwise.
   */
  datatype SmtpStep =
    | Connect(hostname: string, port: int, useTls: Option<bool>)
    | StartTls
    | Login(username: string, password: string)
    | SendMessage(message: Message)

  /** The steps of `_init_connection`, in order. */
  function Handshake(server: string, useStarttls: bool, login: string, password: string)
    : (plan: seq<SmtpStep>)
    ensures |plan| == if useStarttls then 3 else 2
    ensures plan[0].Connect? && plan[0].hostname == server && plan[0].port == SMTP_PORT
    ensures plan[0].useTls == if useStarttls then Some(false) else None
    ensures StartTls in plan <==> useStarttls
    ensures useStarttls ==> plan[1] == StartTls
    ensures plan[|plan| - 1] == Login(login, password)
    ensures forall s :: s in plan ==> !s.SendMessage?
  {
    [Connect(server, SMTP_PORT, if useStarttls then Some(false) else None)]
      + (if useStarttls then [StartTls] else [])
      + [Login(login, password)]
  }

  /** What running a plan of steps did: the steps issued, and the one that raised, if any. */
  datatype Run = Run(performed: seq<SmtpStep>, failed: Option<SmtpStep>)

  /** Issue the steps of `plan` in order, stopping after the first one that raises. */
  function Perform(plan: seq<SmtpStep>, fails: SmtpStep -> bool): (r: Run)
    ensures |r.performed| <= |plan|
    ensures r.failed.Some? ==> r.performed != [] && fails(r.failed.value)
  {
    if plan == [] then Run([], None)
    else if fails(plan[0]) then Run([plan[0]], Some(plan[0]))
    else
      var rest := Perform(plan[1..], fails);
      Run([plan[0]] + rest.performed, rest.failed)
  }

  /** The steps issued are a prefix of the plan. */
  lemma {:induction false} PerformPrefix(plan: seq<SmtpStep>, fails: SmtpStep -> bool)
    ensures var r := Perform(plan, fails);
            |r.performed| <= |plan| && r.performed == plan[..|r.performed|]
  {
    if plan != [] && !fails(plan[0]) {
      PerformPrefix(plan[1..], fails);
      assert plan == [plan[0]] + plan[1..];
    }
  }

  /** Nothing raises exactly when no step of the plan fails, and then the whole plan is issued. */
  lemma {:induction false} PerformCompletes(plan: seq<SmtpStep>, fails: SmtpStep -> bool)
    ensures Perform(plan, fails).failed.None? <==> forall i :: 0 <= i < |plan| ==> !fails(plan[i])
    ensures Perform(plan, fails).failed.None? ==> Perform(plan, fails).performed == plan
  {
    if plan != [] && !fails(plan[0]) {
      var rest := plan[1..];
      PerformCompletes(rest, fails);
      assert forall i :: 1 <= i < |plan| ==> plan[i] == rest[i - 1];
      assert plan == [plan[0]] + rest;
    }
  }

  /**
   * When a step raises, it is the last one issued, and every step issued
   * before it succeeded.
   */
  lemma {:induction false} PerformStopsAtFailure(plan: seq<SmtpStep>, fails: SmtpStep -> bool)
    ensures var r := Perform(plan, fails);
            r.failed.Some? ==>
              && |r.performed| > 0
              && r.failed.value == r.performed[|r.performed| - 1]
              && fails(r.failed.value)
              && forall i :: 0 <= i < |r.performed| - 1 ==> !fails(r.performed[i])
  {
    if plan != [] && !fails(plan[0]) {
      var rest := plan[1..];
      PerformStopsAtFailure(rest, fails);
      var t := Perform(rest, fails);
      if t.failed.Some? {
        var performed := [plan[0]] + t.performed;
        assert forall i :: 1 <= i < |performed| ==> performed[i] == t.performed[i - 1];
      }
    }
  }

  /** Running a plan is running its first step and, if that does not raise, the rest. */
  lemma PerformCons(step: SmtpStep, rest: seq<SmtpStep>, fails: SmtpStep -> bool)
    ensures Perform([step] + rest, fails) ==
              if fails(step) then Run([step], Some(step))
              else Run([step] + Perform(rest, fails).performed, Perform(rest, fails).failed)
  {
    assert ([step] + rest)[0] == step && ([step] + rest)[1..] == rest;
  }

  /** Running two plans back to back is running their concatenation. */
  lemma {:induction false} PerformAppend(p: seq<SmtpStep>, q: seq<SmtpStep>, fails: SmtpStep -> bool)
    ensures Perform(p + q, fails) ==
              if Perform(p, fails).failed.Some? then Perform(p, fails)
              else Run(p + Perform(q, fails).performed, Perform(q, fails).failed)
  {
    if p == [] {
      assert p + q == q;
    } else {
      var tail := p[1..];
      assert p == [p[0]] + tail;
      assert p + q == [p[0]] + (tail + q);
      PerformCons(p[0], tail, fails);
      PerformCons(p[0], tail + q, fails);
      if !fails(p[0]) {
        PerformAppend(tail, q, fails);
        if Perform(tail, fails).failed.None? {
          assert [p[0]] + (tail + Perform(q, fails).performed) == p + Perform(q, fails).performed;
        }
      }
    }
  }

  /** The run of the handshake, by which of its steps raises first. */
  lemma HandshakeRun(server: string, useStarttls: bool, login: string, password: string, fails: SmtpStep -> bool)
    ensures var plan := Handshake(server, useStarttls, login, password);
            var connect := plan[0];
            var step := Login(login, password);
            Perform(plan, fails)
            == if fails(connect) then Run([connect], Some(connect))
               else if useStarttls && fails(StartTls) then Run([connect, StartTls], Some(StartTls))
               else Run(plan, if fails(step) then Some(step) else None)
  {
    var plan := Handshake(server, useStarttls, login, password);
    var step := Login(login, password);
    var afterConnect := if useStarttls then [StartTls, step] else [step];
    assert plan == [plan[0]] + afterConnect;
    PerformCons(plan[0], afterConnect, fails);
    PerformCons(step, [], fails);
    if useStarttls {
      PerformCons(StartTls, [step], fails);
    }
  }

  /**
   * A message is handed to the server only after every handshake step has
   * succeeded, and whenever they all succeed it is handed over.
   */
  lemma SentOnlyAfterHandshake(handshake: seq<SmtpStep>, message: Message, fails: SmtpStep -> bool)
    requires forall s :: s in handshake ==> !s.SendMessage?
    ensures SendMessage(message) in Perform(handshake + [SendMessage(message)], fails).performed
            <==> forall s :: s in handshake ==> !fails(s)
  {
    PerformAppend(handshake, [SendMessage(message)], fails);
    var h := Perform(handshake, fails);
    PerformPrefix(handshake, fails);
    PerformCompletes(handshake, fails);
    PerformStopsAtFailure(handshake, fails);
    if h.failed.Some? {
      var last := |h.performed| - 1;
      assert h.performed[last] == handshake[last];
      assert forall j :: 0 <= j < |h.performed| ==> h.performed[j] == handshake[j] && handshake[j] in handshake;
    } else {
      PerformCons(SendMessage(message), [], fails);
      assert [SendMessage(message)] + [] == [SendMessage(message)];
    }
  }

  /** The run of a handshake followed by a send, by how the handshake ended. */
  lemma PerformThenSend(handshake: seq<SmtpStep>, message: Message, fails: SmtpStep -> bool)
    ensures var send := SendMessage(message);
            var h := Perform(handshake, fails);
            Perform(handshake + [send], fails)
            == if h.failed.Some? then h
               else Run(h.performed + [send], if fails(send) then Some(send) else None)
  {
    var send := [SendMessage(message)];
    PerformAppend(handshake, send, fails);
    PerformCompletes(handshake, fails);
    assert send[1..] == [];
    assert Perform(send, fails)
        == Run(send, if fails(SendMessage(message)) then Some(SendMessage(message)) else None);
  }

  /** An `SmtpNotifier` object; `trace` is every SMTP step it has issued. */
  class SmtpNotifier {
    var serverAddress: string
    var useStarttls: bool
    var login: string
    var password: string
    var trace: seq<SmtpStep>

    /** `__init__`, with the same defaults; the event loop argument is not modelled. */
    constructor (login: string, password: string, server: string := DEFAULT_SERVER, useStarttls: bool := true)
      ensures this.login == login && this.password == password
      ensures serverAddress == server && this.useStarttls == useStarttls
      ensures trace == []
    {
      serverAddress := server;
      this.useStarttls := useStarttls;
      this.login := login;
      this.password := password;
      trace := [];
    }

    /**
     * `_init_connection`: connect to `serverAddress` on port 587, upgrade
     * with STARTTLS when `useStarttls`, then log in. `failed` is the step
     * whose exception propagates, if any.
     */
    method InitConnection(fails: SmtpStep -> bool) returns (failed: Option<SmtpStep>)
      modifies this`trace
      ensures trace == old(trace) + Perform(Handshake(serverAddress, useStarttls, login, password), fails).performed
      ensures failed == Perform(Handshake(serverAddress, useStarttls, login, password), fails).failed
    {
      ghost var plan := Handshake(serverAddress, useStarttls, login, password);
      HandshakeRun(serverAddress, useStarttls, login, password, fails);
      var connect := Connect(serverAddress, SMTP_PORT, if useStarttls then Some(false) else None);
      var step := Login(login, password);
      ghost var before := trace;
      trace := trace + [connect];
      if fails(connect) {
        return Some(connect);
      }
      if useStarttls {
        trace := trace + [StartTls];
        assert trace == before + [connect, StartTls];
        if fails(StartTls) {
          return Some(StartTls);
        }
      }
      trace := trace + [step];
      assert trace == before + plan;
      if fails(step) {
        return Some(step);
      }
      return None;
    }

    /**
     * `send_message`: build the message, run the handshake, and hand the
     * message to the server only if the handshake completed.
     */
    method SendMessageTo(fromAddr: string, toAddr: string, text: string, subject: string, fails: SmtpStep -> bool)
      returns (failed: Option<SmtpStep>)
      modifies this`trace
      ensures var plan := Handshake(serverAddress, useStarttls, login, password)
                          + [SendMessage(BuildMessage(fromAddr, toAddr, text, subject))];
              trace == old(trace) + Perform(plan, fails).performed && failed == Perform(plan, fails).failed
    {
      var message := BuildMessage(fromAddr, toAddr, text, subject);
      ghost var handshake := Handshake(serverAddress, useStarttls, login, password);
      failed := InitConnection(fails);
      PerformThenSend(handshake, message, fails);
      if failed.Some? {
        return;
      }
      trace := trace + [SendMessage(message)];
      if fails(SendMessage(message)) {
        failed := Some(SendMessage(message));
      }
    }

    /** `notify`: does nothing. */
    method Notify(message: string)
      ensures unchanged(this)
    {
    }
  }
}
