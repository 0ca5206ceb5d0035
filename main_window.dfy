/**
 * The server-control logic of `MainWindow` in gui/main_window.py: the port
 * probe, the `llama-server` command line, and the `start_server`,
 * `stop_server` and `on_start_button_clicked` handlers over the window's
 * server state. Widgets are reduced to the state these handlers read or set;
 * dialogs, the process spawn and the kill steps are given by their outcomes.
 */
module MainWindow {
  import opened Wrappers
  import opened Strings
  import opened Numbers
  import opened Paths
  import opened Config
  import opened LlamaServer

  /** The texts of the form's entries. */
  datatype Form = Form(
    modelsDir: string, binBase: string, ngl: string, port: string, prompt: string,
    temp: string, topK: string, topP: string, repeatPenalty: string, threads: string,
    ctxSize: string, maxTokens: string)

  /**
   * `int(port_text) if port_text else 8080`; `None` where `int` raises. An
   * empty entry probes 8080 and every port written in decimal is read back.
   */
  function ProbePort(text: string): (port: Option<int>)
    ensures text == "" ==> port == Some(8080)
    ensures port.None? <==> text != "" && ParseInt(text).None?
    ensures forall p :: text == IntToString(p) ==> port == Some(p)
  {
    if text == "" then Some(8080)
    else
      ParseIntToString();
      ParseInt(text)
  }

  /** The flags of the command that take a value, in command order. */
  const ValueFlags: seq<string> := ["--model", "--host", "--port", "--n-gpu-layers", "--temp", "--top-k",
                                    "--top-p", "--repeat-penalty", "--threads", "--ctx-size", "--n-predict"]

  /** The flags of the command that stand alone. */
  const SwitchFlags: seq<string> := ["--mlock", "--cont-batching", "--flash-attn"]

  /** The values the command passes to its value flags, in command order. */
  function CommandValues(form: Form, modelPath: string, ngl: int): (vs: seq<string>)
    ensures |vs| == |ValueFlags|
  {
    [modelPath, "0.0.0.0", form.port, IntToString(ngl), form.temp, form.topK, form.topP,
     form.repeatPenalty, form.threads, form.ctxSize, form.maxTokens]
  }

  /** `[f0, v0, f1, v1, ...]`: each flag followed by its value. */
  function Interleave(fs: seq<string>, vs: seq<string>): (r: seq<string>)
    requires |fs| == |vs|
    ensures |r| == 2 * |fs|
  {
    if |fs| == 0 then [] else [fs[0], vs[0]] + Interleave(fs[1..], vs[1..])
  }

  /** Flag `i` sits at position `2 * i` and its value right after it. */
  lemma {:induction false} InterleaveAt(fs: seq<string>, vs: seq<string>, i: nat)
    requires |fs| == |vs| && i < |fs|
    ensures Interleave(fs, vs)[2 * i] == fs[i] && Interleave(fs, vs)[2 * i + 1] == vs[i]
  {
    if i > 0 {
      InterleaveAt(fs[1..], vs[1..], i - 1);
      assert Interleave(fs, vs) == [fs[0], vs[0]] + Interleave(fs[1..], vs[1..]);
    }
  }

  /**
   * The `cmd` list of `start_server`: the executable, each value flag with its
   * value, then the switches. The port and the sampling settings are the raw
   * entry texts; only ngl has been through `int`.
   */
  function Command(form: Form, modelPath: string, ngl: int): (cmd: seq<string>)
    ensures |cmd| == 1 + 2 * |ValueFlags| + |SwitchFlags|
    ensures EndsWith(cmd[0], ServerName)
  {
    [PathJoin(form.binBase, ServerName)] + Interleave(ValueFlags, CommandValues(form, modelPath, ngl)) + SwitchFlags
  }

  /**
   * How a command-line reader takes arguments apart: a value flag consumes
   * the argument after it, any other argument stands alone.
   */
  function ReadOptions(args: seq<string>): seq<(string, string)>
    decreases |args|
  {
    if |args| == 0 then []
    else if args[0] in ValueFlags && |args| >= 2 then [(args[0], args[1])] + ReadOptions(args[2..])
    else ReadOptions(args[1..])
  }

  function Pairs(fs: seq<string>, vs: seq<string>): (ps: seq<(string, string)>)
    requires |fs| == |vs|
    ensures |ps| == |fs|
    ensures forall i :: 0 <= i < |fs| ==> ps[i] == (fs[i], vs[i])
  {
    seq(|fs|, i requires 0 <= i < |fs| => (fs[i], vs[i]))
  }

  lemma {:induction false} ReadInterleaved(fs: seq<string>, vs: seq<string>, rest: seq<string>)
    requires |fs| == |vs|
    requires forall i :: 0 <= i < |fs| ==> fs[i] in ValueFlags
    ensures ReadOptions(Interleave(fs, vs) + rest) == Pairs(fs, vs) + ReadOptions(rest)
  {
    if |fs| > 0 {
      var tail := Interleave(fs[1..], vs[1..]) + rest;
      var args := Interleave(fs, vs) + rest;
      assert args == [fs[0], vs[0]] + tail;
      ReadValueFlag(fs[0], vs[0], tail);
      ReadInterleaved(fs[1..], vs[1..], rest);
      PairsCons(fs, vs, ReadOptions(rest));
    } else {
      assert Interleave(fs, vs) + rest == rest;
      assert Pairs(fs, vs) + ReadOptions(rest) == ReadOptions(rest);
    }
  }

  /** A value flag consumes the argument after it. */
  lemma ReadValueFlag(f: string, v: string, rest: seq<string>)
    requires f in ValueFlags
    ensures ReadOptions([f, v] + rest) == [(f, v)] + ReadOptions(rest)
  {
    assert ([f, v] + rest)[2..] == rest;
  }

  /** The pairs of a non-empty list are its first pair followed by the pairs of the rest. */
  lemma PairsCons(fs: seq<string>, vs: seq<string>, tail: seq<(string, string)>)
    requires |fs| == |vs| && |fs| > 0
    ensures [(fs[0], vs[0])] + (Pairs(fs[1..], vs[1..]) + tail) == Pairs(fs, vs) + tail
  {
    assert Pairs(fs, vs) == [(fs[0], vs[0])] + Pairs(fs[1..], vs[1..]);
  }

  lemma SwitchesStandAlone()
    ensures ReadOptions(SwitchFlags) == []
  {
    assert SwitchFlags[1..] == ["--cont-batching", "--flash-attn"];
    assert SwitchFlags[2..] == ["--flash-attn"];
    assert SwitchFlags[3..] == [];
  }

  /** After the program path the command is the interleaved value flags, then the switches. */
  lemma CommandArguments(form: Form, modelPath: string, ngl: int)
    ensures Command(form, modelPath, ngl)[1..] == Interleave(ValueFlags, CommandValues(form, modelPath, ngl)) + SwitchFlags
  {
    var body := Interleave(ValueFlags, CommandValues(form, modelPath, ngl)) + SwitchFlags;
    assert Command(form, modelPath, ngl) == [PathJoin(form.binBase, ServerName)] + body;
  }

  /** Reading the command back gives every setting under its own flag, whatever the settings' texts. */
  lemma CommandOptions(form: Form, modelPath: string, ngl: int)
    ensures ReadOptions(Command(form, modelPath, ngl)[1..]) == Pairs(ValueFlags, CommandValues(form, modelPath, ngl))
    ensures Command(form, modelPath, ngl)[|Command(form, modelPath, ngl)| - |SwitchFlags|..] == SwitchFlags
  {
    var fs, vs := ValueFlags, CommandValues(form, modelPath, ngl);
    CommandArguments(form, modelPath, ngl);
    assert forall i :: 0 <= i < |fs| ==> fs[i] in ValueFlags;
    ReadInterleaved(fs, vs, SwitchFlags);
    SwitchesStandAlone();
    assert Pairs(fs, vs) + [] == Pairs(fs, vs);
  }

  /** The prompt entry is saved but never reaches the command. */
  lemma CommandIgnoresPrompt(form: Form, prompt: string, modelPath: string, ngl: int)
    ensures Command(form.(prompt := prompt), modelPath, ngl) == Command(form, modelPath, ngl)
  {
  }

  /**
   * A server launched with a decimal port text is found again by the probe of
   * `check_server_running` on that port, whatever name the process reports.
   */
  lemma CommandDetectable(form: Form, modelPath: string, ngl: int, pid: nat, name: string, p: int)
    requires form.port == IntToString(p)
    ensures IsServerFor(Readable(pid, name, Command(form, modelPath, ngl)), p)
  {
    CommandPortArgument(form, modelPath, ngl);
    PortArgumentDetectable(Command(form, modelPath, ngl), pid, name, p);
  }

  /** The port entry's text is the argument after `--port`. */
  lemma CommandPortArgument(form: Form, modelPath: string, ngl: int)
    ensures Command(form, modelPath, ngl)[5] == "--port" && Command(form, modelPath, ngl)[6] == form.port
  {
    var vs := CommandValues(form, modelPath, ngl);
    var body := Interleave(ValueFlags, vs);
    var cmd := Command(form, modelPath, ngl);
    assert cmd == [PathJoin(form.binBase, ServerName)] + body + SwitchFlags;
    InterleaveAt(ValueFlags, vs, 2);
    assert cmd[5] == body[4] && cmd[6] == body[5];
  }

  /** Any command line whose program ends in the server's name and that passes `--port` then `p` is found on `p`. */
  lemma PortArgumentDetectable(cmd: seq<string>, pid: nat, name: string, p: int)
    requires |cmd| > 6 && EndsWith(cmd[0], ServerName)
    requires cmd[5] == "--port" && cmd[6] == IntToString(p)
    ensures IsServerFor(Readable(pid, name, cmd), p)
  {
    var joined := JoinWith(" ", cmd);
    var rest := JoinHead(" ", cmd);
    var head := cmd[0][..|cmd[0]| - |ServerName|];
    assert cmd[0] == head + ServerName;
    assert joined == head + ServerName + rest;
    ContainsMiddle(head, ServerName, rest);
    var pre, post := JoinAdjacent(" ", cmd, 5);
    assert joined == pre + PortFlag(p) + post;
    ContainsMiddle(pre, PortFlag(p), post);
  }

  /** The process `start_server` keeps: its pid and its command line. */
  datatype ServerProcess = ServerProcess(pid: nat, cmdline: seq<string>)

  /** The outcome of `subprocess.Popen(cmd, ...)`. */
  datatype SpawnResult = Spawned(pid: nat) | SpawnFailed

  /**
   * How `start_server` ends: `True`, the port `ValueError` that escapes it, or
   * one of its `return False` paths.
   */
  datatype StartOutcome = Started | PortNotANumber | Cancelled | PreviousNotStopped | NglNotANumber | SpawnError

  /** `if pid:` after `check_server_running`: a found server with a non-zero pid. */
  predicate HasConflict(procs: seq<ProcEntry>, port: int)
  {
    FirstServer(procs, port).Some? && FirstServer(procs, port).value != 0
  }

  /** The kill of a conflicting server was requested and either not needed or done. */
  predicate MayProceed(form: Form, procs: seq<ProcEntry>, userConfirms: bool, kill: KillOutcomes)
  {
    && ProbePort(form.port).Some?
    && (!HasConflict(procs, ProbePort(form.port).value) || (userConfirms && KillSucceeds(kill)))
  }

  /** The pid `start_server` hands to `kill_server`: the conflicting server's, once the user agreed. */
  function KillRequest(form: Form, procs: seq<ProcEntry>, userConfirms: bool): Option<nat>
  {
    match ProbePort(form.port)
    case None => None
    case Some(port) => if HasConflict(procs, port) && userConfirms then FirstServer(procs, port) else None
  }

  /** `start_server` reaches `save_config`. */
  predicate SavesSettings(form: Form, procs: seq<ProcEntry>, userConfirms: bool, kill: KillOutcomes)
  {
    MayProceed(form, procs, userConfirms, kill) && ParseInt(form.ngl).Some?
  }

  /** How `start_server` ends, in the order of its checks. */
  function StartResult(form: Form, procs: seq<ProcEntry>, userConfirms: bool, kill: KillOutcomes,
                       spawn: SpawnResult): (outcome: StartOutcome)
    ensures outcome == PortNotANumber <==> ProbePort(form.port).None?
    ensures outcome == Cancelled ==> !userConfirms
    ensures outcome == PreviousNotStopped ==> userConfirms && !KillSucceeds(kill)
    ensures outcome == Started ==> spawn.Spawned? && ParseInt(form.ngl).Some?
  {
    match ProbePort(form.port)
    case None => PortNotANumber
    case Some(port) =>
      if HasConflict(procs, port) && !userConfirms then Cancelled
      else if HasConflict(procs, port) && !KillSucceeds(kill) then PreviousNotStopped
      else if ParseInt(form.ngl).None? then NglNotANumber
      else if spawn.SpawnFailed? then SpawnError
      else Started
  }

  /**
   * The outcomes of `start_server`: it starts exactly when it saved and the
   * spawn succeeded; it saves exactly when it starts or the spawn fails; an
   * unresolved conflict stops it before anything is saved; a kill is asked
   * for only with the user's consent.
   */
  lemma StartResultCases(form: Form, procs: seq<ProcEntry>, userConfirms: bool, kill: KillOutcomes,
                         spawn: SpawnResult)
    ensures StartResult(form, procs, userConfirms, kill, spawn) == Started <==>
              SavesSettings(form, procs, userConfirms, kill) && spawn.Spawned?
    ensures SavesSettings(form, procs, userConfirms, kill) <==>
              StartResult(form, procs, userConfirms, kill, spawn) in {Started, SpawnError}
    ensures StartResult(form, procs, userConfirms, kill, spawn) in {Cancelled, PreviousNotStopped} <==>
              ProbePort(form.port).Some? && HasConflict(procs, ProbePort(form.port).value)
              && !(userConfirms && KillSucceeds(kill))
    ensures KillRequest(form, procs, userConfirms).Some? ==> userConfirms
  {
  }

  /**
   * The conflict check of `start_server`: a server found on the port with a
   * non-zero pid must be stopped, and only with the user's consent. Returns
   * whether `start_server` goes on and the pid handed to `kill_server`.
   */
  method ResolveConflict(procs: seq<ProcEntry>, port: int, userConfirms: bool, kill: KillOutcomes)
    returns (proceed: bool, killTarget: Option<nat>)
    ensures proceed <==> !HasConflict(procs, port) || (userConfirms && KillSucceeds(kill))
    ensures killTarget == if HasConflict(procs, port) && userConfirms then FirstServer(procs, port) else None
    ensures killTarget.Some? ==> killTarget.value != 0
  {
    killTarget := None;
    proceed := true;
    var pid := CheckServerRunning(procs, port);
    if pid.Some? && pid.value != 0 {
      if userConfirms {
        killTarget := pid;
        var stopped, _ := KillServer(kill);
        proceed := stopped;
      } else {
        proceed := false;
      }
    }
  }

  /** The record `start_server` saves, with the defaults of `save_config` for language and theme. */
  function StartRecord(form: Form, ngl: int): Settings
  {
    SavedRecord(form.modelsDir, form.binBase, IntToString(ngl), form.port, form.prompt, form.temp,
                form.topK, form.topP, form.repeatPenalty, form.threads, form.ctxSize, form.maxTokens, "es", "system")
  }

  /**
   * The browser link after `start_server` ended with `outcome`: untouched when
   * the port entry raised; otherwise shown and enabled, pointing at the probed
   * port, or at the raw port text once the server started.
   */
  predicate LinkAfterStart(outcome: StartOutcome, form: Form, oldUrl: string, oldShown: bool, oldEnabled: bool,
                           url: string, shown: bool, enabled: bool)
  {
    && (outcome == PortNotANumber ==> url == oldUrl && shown == oldShown && enabled == oldEnabled)
    && (outcome != PortNotANumber ==> shown && enabled)
    && (outcome == Started ==> url == "http://localhost:" + form.port)
    && (outcome != PortNotANumber && outcome != Started && ProbePort(form.port).Some? ==>
          url == "http://localhost:" + IntToString(ProbePort(form.port).value))
  }

  class MainWindow {
    var serverRunning: bool
    var process: Option<ServerProcess>
    /** Whether the form's entries are editable (`set_inputs_sensitive`). */
    var inputsSensitive: bool
    /** Whether the start button shows the stop label. */
    var stopLabelShown: bool
    var linkUrl: string
    /** Whether the "open in browser" button exists, and whether it is enabled. */
    var linkShown: bool
    var linkEnabled: bool
    /** The settings file `start_server` saves to. */
    const store: SettingsStore

    /** A process is kept exactly while the server runs, and the form is locked exactly then. */
    predicate Valid()
      reads this`serverRunning, this`process, this`inputsSensitive
    {
      (serverRunning <==> process.Some?) && inputsSensitive == !serverRunning
    }

    /** The start button offers to stop exactly when a server runs. */
    predicate ButtonMatchesState()
      reads this`stopLabelShown, this`serverRunning
    {
      stopLabelShown == serverRunning
    }

    constructor (store: SettingsStore)
      ensures Valid() && ButtonMatchesState()
      ensures !serverRunning && linkUrl == "http://localhost:8080" && !linkShown
      ensures this.store == store
    {
      serverRunning := false;
      process := None;
      inputsSensitive := true;
      stopLabelShown := false;
      linkUrl := "http://localhost:8080";
      linkShown := false;
      linkEnabled := false;
      this.store := store;
    }

    /**
     * `start_server()`. The port is probed before the `try`; a server on that
     * port must be stopped with the user's consent; the ngl entry must be an
     * integer; then the settings are saved and the command is spawned. The
     * browser link is set up before the `try` and given the raw port text on
     * success.
     */
    method StartServer(form: Form, modelPath: string, procs: seq<ProcEntry>, userConfirms: bool,
                       kill: KillOutcomes, write: WriteOutcome, spawn: SpawnResult)
      returns (outcome: StartOutcome, killTarget: Option<nat>)
      requires Valid()
      modifies this`serverRunning, this`process, this`inputsSensitive, this`linkUrl, this`linkShown,
               this`linkEnabled, store`file
      ensures Valid()
      ensures outcome == StartResult(form, procs, userConfirms, kill, spawn)
      ensures killTarget == KillRequest(form, procs, userConfirms)
      ensures store.file == if SavesSettings(form, procs, userConfirms, kill)
                            then AfterSave(old(store.file), StartRecord(form, ParseInt(form.ngl).value), write)
                            else old(store.file)
      ensures outcome == Started ==>
                && SavesSettings(form, procs, userConfirms, kill) && spawn.Spawned?
                && process == Some(ServerProcess(spawn.pid, Command(form, modelPath, ParseInt(form.ngl).value)))
                && serverRunning && linkUrl == "http://localhost:" + form.port
      ensures outcome != Started ==>
                process == old(process) && serverRunning == old(serverRunning) && inputsSensitive == old(inputsSensitive)
      ensures LinkAfterStart(outcome, form, old(linkUrl), old(linkShown), old(linkEnabled), linkUrl, linkShown, linkEnabled)
    {
      killTarget := None;
      var probe := ProbePort(form.port);
      if probe.None? {
        return PortNotANumber, killTarget;
      }
      var port := probe.value;
      linkUrl := "http://localhost:" + IntToString(port);
      linkShown := true;
      linkEnabled := true;

      var proceed;
      proceed, killTarget := ResolveConflict(procs, port, userConfirms, kill);
      if !proceed {
        outcome := if userConfirms then PreviousNotStopped else Cancelled;
        return;
      }
      outcome := Launch(form, modelPath, write, spawn);
    }

    /**
     * The rest of `start_server` once no conflicting server is left: the ngl
     * entry is read with `int`, the settings are saved with the default
     * language and theme of `save_config`, and the command is spawned.
     */
    method Launch(form: Form, modelPath: string, write: WriteOutcome, spawn: SpawnResult)
      returns (outcome: StartOutcome)
      requires Valid()
      modifies this`serverRunning, this`process, this`inputsSensitive, this`linkUrl, store`file
      ensures Valid()
      ensures outcome == if ParseInt(form.ngl).None? then NglNotANumber
                         else if spawn.SpawnFailed? then SpawnError else Started
      ensures store.file == if ParseInt(form.ngl).Some?
                            then AfterSave(old(store.file), StartRecord(form, ParseInt(form.ngl).value), write)
                            else old(store.file)
      ensures outcome == Started ==>
                && process == Some(ServerProcess(spawn.pid, Command(form, modelPath, ParseInt(form.ngl).value)))
                && serverRunning && linkUrl == "http://localhost:" + form.port
      ensures outcome != Started ==>
                && process == old(process) && serverRunning == old(serverRunning)
                && inputsSensitive == old(inputsSensitive) && linkUrl == old(linkUrl)
    {
      var ngl := ParseInt(form.ngl);
      if ngl.None? {
        return NglNotANumber;
      }
      store.Save(write, form.modelsDir, form.binBase, IntToString(ngl.value), form.port, form.prompt,
                 form.temp, form.topK, form.topP, form.repeatPenalty, form.threads, form.ctxSize, form.maxTokens);
      if spawn.SpawnFailed? {
        return SpawnError;
      }
      Spawn(spawn.pid, Command(form, modelPath, ngl.value), form.port);
      outcome := Started;
    }

    /** The spawned process is kept, the server marked running, the form locked and the link given the port text. */
    method Spawn(pid: nat, cmd: seq<string>, portText: string)
      requires Valid()
      modifies this`serverRunning, this`process, this`inputsSensitive, this`linkUrl
      ensures Valid()
      ensures process == Some(ServerProcess(pid, cmd)) && serverRunning
      ensures linkUrl == "http://localhost:" + portText
    {
      process := Some(ServerProcess(pid, cmd));
      serverRunning := true;
      inputsSensitive := false;
      linkUrl := "http://localhost:" + portText;
    }

    /**
     * `stop_server()`: the browser link is disabled, a kept process is killed
     * (whatever the kill reports) and forgotten, and the form is unlocked.
     * It always reports success.
     */
    method StopServer(kill: KillOutcomes) returns (ok: bool, killTarget: Option<nat>)
      requires Valid()
      modifies this`serverRunning, this`process, this`inputsSensitive, this`linkEnabled
      ensures Valid() && ok && !serverRunning && process.None?
      ensures killTarget == if old(process).Some? then Some(old(process).value.pid) else None
      ensures linkEnabled == (old(linkEnabled) && !linkShown)
    {
      if linkShown {
        linkEnabled := false;
      }
      killTarget := None;
      if process.Some? {
        killTarget := Some(process.value.pid);
        var _, _ := KillServer(kill);
        process := None;
        serverRunning := false;
        inputsSensitive := true;
      }
      ok := true;
    }

    /**
     * `on_start_button_clicked`: start when stopped (the label changes only on
     * success), stop otherwise.
     */
    method OnStartButtonClicked(form: Form, modelPath: string, procs: seq<ProcEntry>, userConfirms: bool,
                                kill: KillOutcomes, write: WriteOutcome, spawn: SpawnResult,
                                stopKill: KillOutcomes)
      requires Valid() && ButtonMatchesState()
      modifies this`serverRunning, this`process, this`inputsSensitive, this`linkUrl, this`linkShown,
               this`linkEnabled, this`stopLabelShown, store`file
      ensures Valid() && ButtonMatchesState()
      ensures old(serverRunning) ==>
                && !serverRunning && process.None? && store.file == old(store.file)
                && linkUrl == old(linkUrl) && linkShown == old(linkShown)
                && linkEnabled == (old(linkEnabled) && !old(linkShown))
      ensures !old(serverRunning) ==>
                && (serverRunning <==> StartResult(form, procs, userConfirms, kill, spawn) == Started)
                && store.file == if SavesSettings(form, procs, userConfirms, kill)
                                 then AfterSave(old(store.file), StartRecord(form, ParseInt(form.ngl).value), write)
                                 else old(store.file)
      ensures !old(serverRunning) && serverRunning ==>
                && process == Some(ServerProcess(spawn.pid, Command(form, modelPath, ParseInt(form.ngl).value)))
                && linkUrl == "http://localhost:" + form.port
      ensures !old(serverRunning) && !serverRunning ==> process == old(process)
      ensures !old(serverRunning) ==>
                LinkAfterStart(StartResult(form, procs, userConfirms, kill, spawn), form, old(linkUrl), old(linkShown),
                               old(linkEnabled), linkUrl, linkShown, linkEnabled)
    {
      if !serverRunning {
        var _ := StartClicked(form, modelPath, procs, userConfirms, kill, write, spawn);
      } else {
        StopClicked(stopKill);
      }
    }

    /** The start branch of `on_start_button_clicked`: the stop label is shown once `start_server()` succeeds. */
    method StartClicked(form: Form, modelPath: string, procs: seq<ProcEntry>, userConfirms: bool,
                        kill: KillOutcomes, write: WriteOutcome, spawn: SpawnResult)
      returns (outcome: StartOutcome)
      requires Valid() && ButtonMatchesState() && !serverRunning
      modifies this`serverRunning, this`process, this`inputsSensitive, this`linkUrl, this`linkShown,
               this`linkEnabled, this`stopLabelShown, store`file
      ensures Valid() && ButtonMatchesState()
      ensures outcome == StartResult(form, procs, userConfirms, kill, spawn)
      ensures store.file == if SavesSettings(form, procs, userConfirms, kill)
                            then AfterSave(old(store.file), StartRecord(form, ParseInt(form.ngl).value), write)
                            else old(store.file)
      ensures outcome == Started ==>
                && process == Some(ServerProcess(spawn.pid, Command(form, modelPath, ParseInt(form.ngl).value)))
                && serverRunning && linkUrl == "http://localhost:" + form.port
      ensures outcome != Started ==> process == old(process) && !serverRunning
      ensures LinkAfterStart(outcome, form, old(linkUrl), old(linkShown), old(linkEnabled), linkUrl, linkShown, linkEnabled)
    {
      var killTarget;
      outcome, killTarget := StartServer(form, modelPath, procs, userConfirms, kill, write, spawn);
      // start_server() returned True exactly when the server now runs; otherwise the start label stays.
      stopLabelShown := serverRunning;
    }

    /** The stop branch of `on_start_button_clicked`: `stop_server()`, then the start label. */
    method StopClicked(stopKill: KillOutcomes)
      requires Valid() && serverRunning
      modifies this`serverRunning, this`process, this`inputsSensitive, this`linkEnabled, this`stopLabelShown
      ensures Valid() && ButtonMatchesState()
      ensures !serverRunning && process.None?
      ensures linkEnabled == (old(linkEnabled) && !linkShown)
    {
      var _, _ := StopServer(stopKill);
      stopLabelShown := false;
    }
  }

  /** Starting with an empty port entry probes 8080 but launches with an empty `--port` value and links to "http://localhost:". */
  lemma EmptyPortLaunch(form: Form, modelPath: string, ngl: int)
    requires form.port == ""
    ensures ProbePort(form.port) == Some(8080)
    ensures Command(form, modelPath, ngl)[6] == ""
    ensures ("--port", "") in ReadOptions(Command(form, modelPath, ngl)[1..])
  {
    CommandPortArgument(form, modelPath, ngl);
    CommandOptions(form, modelPath, ngl);
    assert Pairs(ValueFlags, CommandValues(form, modelPath, ngl))[2] == ("--port", "");
  }

  /** The entry texts "80" and "8080" probe those ports. */
  lemma SamplePortTexts()
    ensures ProbePort("80") == Some(80) && ProbePort("8080") == Some(8080)
  {
    assert IntToString(80) == "80";
    assert IntToString(8080) == "8080";
  }

  /** The sample server is the one found on 80 and on 8080. */
  lemma SampleServerFound(port: int)
    requires port == 80 || port == 8080
    ensures FirstServer([SampleServer], port) == Some(4242) && HasConflict([SampleServer], port)
  {
    PortPrefixAlsoMatches();
    assert [SampleServer][1..] == [];
  }

  /**
   * The probe matches by substring, so a server started with `--port 8080`
   * blocks a start on port 80: without consent the start is cancelled, with
   * consent that server is the one killed.
   */
  lemma PortPrefixBlocksStart(form: Form, kill: KillOutcomes, spawn: SpawnResult)
    requires form.port == "80"
    ensures HasConflict([SampleServer], 80)
    ensures StartResult(form, [SampleServer], false, kill, spawn) == Cancelled
    ensures KillRequest(form, [SampleServer], true) == Some(4242)
  {
    SamplePortTexts();
    SampleServerFound(80);
  }

  /**
   * The conflicting server is killed before the ngl entry is read, so an empty
   * ngl entry leaves no server running and saves nothing.
   */
  lemma KilledThenNglRejected(form: Form, kill: KillOutcomes, spawn: SpawnResult)
    requires form.port == "8080" && form.ngl == "" && KillSucceeds(kill)
    ensures KillRequest(form, [SampleServer], true) == Some(4242)
    ensures StartResult(form, [SampleServer], true, kill, spawn) == NglNotANumber
    ensures !SavesSettings(form, [SampleServer], true, kill)
  {
    SamplePortTexts();
    SampleServerFound(8080);
    ParseIntRejects();
  }

  /** `if pid:` is false for pid 0, so a server reported with pid 0 is no conflict. */
  lemma ZeroPidIgnored(form: Form, userConfirms: bool, kill: KillOutcomes)
    requires form.port == "8080"
    ensures !HasConflict([SampleServer.(pid := 0)], 8080)
    ensures KillRequest(form, [SampleServer.(pid := 0)], userConfirms) == None
    ensures MayProceed(form, [SampleServer.(pid := 0)], userConfirms, kill)
  {
    SamplePortTexts();
    var procs := [SampleServer.(pid := 0)];
    assert procs[1..] == [];
    assert FirstServer(procs, 8080) == Some(0) || FirstServer(procs, 8080) == None;
  }
}
