/**
 * The process inspector and killer of core/llama_server.py. The live process
 * table is a snapshot in `psutil.process_iter` order; the outcome of every
 * psutil or signal call of `kill_server` is an input.
 */
module LlamaServer {
  import opened Wrappers
  import opened Strings
  import opened Numbers

  /** The name of the server executable that the probe looks for. */
  const ServerName: string := "llama-server"

  /**
   * One process of the scan: readable, or one whose `name()` or `cmdline()`
   * raised `NoSuchProcess` / `AccessDenied`.
   */
  datatype ProcEntry = Readable(pid: nat, name: string, cmdline: seq<string>) | Inaccessible

  /** `f"--port {port}"`. */
  function PortFlag(port: int): string
  {
    "--port " + IntToString(port)
  }

  /** The test of `check_server_running` on one process. */
  predicate IsServerFor(p: ProcEntry, port: int): (matches: bool)
    ensures matches ==> p.Readable? && |p.cmdline| > 0
  {
    && p.Readable?
    && (p.name == ServerName || (|p.cmdline| > 0 && Contains(JoinWith(" ", p.cmdline), ServerName)))
    && Contains(JoinWith(" ", p.cmdline), PortFlag(port))
  }

  /** The pid of the first process in scan order that passes the test. */
  function FirstServer(procs: seq<ProcEntry>, port: int): (pid: Option<nat>)
    ensures pid.None? <==> forall p :: p in procs ==> !IsServerFor(p, port)
    decreases |procs|
  {
    if |procs| == 0 then None
    else if IsServerFor(procs[0], port) then Some(procs[0].pid)
    else FirstServer(procs[1..], port)
  }

  /** `FirstServer` is a first-match search: its answer is the earliest match, and `None` means no match. */
  lemma {:induction false} FirstServerIsFirstMatch(procs: seq<ProcEntry>, port: int)
    ensures FirstServer(procs, port).None? <==> forall i :: 0 <= i < |procs| ==> !IsServerFor(procs[i], port)
    ensures FirstServer(procs, port).Some? ==>
              exists i :: 0 <= i < |procs| && IsServerFor(procs[i], port) && procs[i].pid == FirstServer(procs, port).value
                          && forall j :: 0 <= j < i ==> !IsServerFor(procs[j], port)
    decreases |procs|
  {
    if |procs| > 0 && !IsServerFor(procs[0], port) {
      FirstServerIsFirstMatch(procs[1..], port);
      if FirstServer(procs, port).Some? {
        var i :| 0 <= i < |procs[1..]| && IsServerFor(procs[1..][i], port) && procs[1..][i].pid == FirstServer(procs, port).value
                 && forall j :: 0 <= j < i ==> !IsServerFor(procs[1..][j], port);
        assert forall j :: 0 <= j < i + 1 ==> !IsServerFor(procs[j], port) by {
          forall j | 0 <= j < i + 1 ensures !IsServerFor(procs[j], port) {
            if j > 0 { assert procs[j] == procs[1..][j - 1]; }
          }
        }
        assert procs[i + 1] == procs[1..][i];
      } else {
        forall i | 0 <= i < |procs| ensures !IsServerFor(procs[i], port) {
          if i > 0 { assert procs[i] == procs[1..][i - 1]; }
        }
      }
    }
  }

  /** A process whose details cannot be read is skipped and the scan goes on. */
  lemma InaccessibleSkipped(procs: seq<ProcEntry>, port: int)
    ensures FirstServer([Inaccessible] + procs, port) == FirstServer(procs, port)
  {
    assert ([Inaccessible] + procs)[1..] == procs;
  }

  /** `check_server_running(port)`: the scan with early return, skipping inaccessible processes. */
  method CheckServerRunning(procs: seq<ProcEntry>, port: int) returns (pid: Option<nat>)
    ensures pid == FirstServer(procs, port)
  {
    var i := 0;
    while i < |procs|
      invariant 0 <= i <= |procs|
      invariant FirstServer(procs[i..], port) == FirstServer(procs, port)
    {
      assert procs[i..][1..] == procs[i + 1..];
      match procs[i] {
        case Inaccessible =>
        case Readable(p, name, cmdline) =>
          var joined := JoinWith(" ", cmdline);
          if name == ServerName || (|cmdline| > 0 && Contains(joined, ServerName)) {
            if Contains(joined, PortFlag(port)) {
              return Some(p);
            }
          }
      }
      i := i + 1;
    }
    return None;
  }

  const SampleServer: ProcEntry := Readable(4242, "llama-server", ["llama-server", "--port", "8080"])

  lemma SampleServerCommand()
    ensures JoinWith(" ", SampleServer.cmdline) == "llama-server --port 8080"
  {
    var cmd := SampleServer.cmdline;
    assert cmd[1..] == ["--port", "8080"] && cmd[1..][1..] == ["8080"];
  }

  /** The flags the probe looks for on ports 80, 8080 and 9090. */
  lemma SamplePortFlags()
    ensures PortFlag(80) == "--port 80" && PortFlag(8080) == "--port 8080" && PortFlag(9090) == "--port 9090"
  {
    assert IntToString(80) == "80";
    assert IntToString(8080) == "8080";
    assert IntToString(9090) == "9090";
  }

  /** The sample command line names the server. */
  lemma SampleNamesServer()
    ensures Contains("llama-server --port 8080", ServerName)
  {
    ContainsMiddle("", "llama-server", " --port 8080");
    assert "" + "llama-server" + " --port 8080" == "llama-server --port 8080";
  }

  /** The sample command line holds `--port 80` as a prefix of its port argument. */
  lemma SampleHasShortFlag()
    ensures Contains("llama-server --port 8080", "--port 80")
  {
    ContainsMiddle("llama-server ", "--port 80", "80");
    assert "llama-server " + "--port 80" + "80" == "llama-server --port 8080";
  }

  /** The probe matches by substring: a server started with `--port 8080` is also reported for port 80. */
  lemma PortPrefixAlsoMatches()
    ensures IsServerFor(SampleServer, 8080)
    ensures IsServerFor(SampleServer, 80)
  {
    SampleServerCommand();
    SamplePortFlags();
    SampleNamesServer();
    SampleHasShortFlag();
    ContainsMiddle("llama-server ", "--port 8080", "");
    assert "llama-server " + "--port 8080" + "" == "llama-server --port 8080";
  }

  lemma SampleServerLacksOtherPort()
    ensures !Contains("llama-server --port 8080", "--port 9090")
  {
    assert "--port 9090"[7] == '9';
    MissingCharNotContained("llama-server --port 8080", "--port 9090", '9');
  }

  /** A different port is not matched. */
  lemma OtherPortNotMatched()
    ensures !IsServerFor(SampleServer, 9090)
  {
    SampleServerCommand();
    SamplePortFlags();
    SampleServerLacksOtherPort();
  }

  /** How `proc.wait(timeout=2)` ends: the process exited, the wait timed out, or it raised something else. */
  datatype WaitResult = Exited | TimedOut | WaitRaised

  /** The outcome of each call `kill_server` may make; `false` means the call raised. */
  datatype KillOutcomes = KillOutcomes(
    attach: bool,       // psutil.Process(pid)
    terminate: bool,    // proc.terminate()
    wait: WaitResult,   // proc.wait(timeout=2)
    kill: bool,         // proc.kill()
    osKill: bool)       // os.kill(pid, signal.SIGKILL)

  /** The actions `kill_server` attempts, in order. */
  datatype Action = Terminate | Wait | Kill | SigKill

  /** The psutil path returns True: terminate, then either the process exits in time or kill() is sent. */
  predicate PsutilStops(o: KillOutcomes)
  {
    o.attach && o.terminate && (o.wait == Exited || (o.wait == TimedOut && o.kill))
  }

  /** The value `kill_server` returns. */
  predicate KillSucceeds(o: KillOutcomes)
  {
    PsutilStops(o) || o.osKill
  }

  /**
   * `kill_server(pid)`: terminate, wait up to 2 s, kill on timeout, and send
   * SIGKILL through `os.kill` when any psutil step raised.
   */
  method KillServer(o: KillOutcomes) returns (ok: bool, attempted: seq<Action>)
    ensures ok <==> KillSucceeds(o)
    ensures !ok <==> !PsutilStops(o) && !o.osKill
    ensures o.attach && o.terminate && o.wait == Exited ==> ok && attempted == [Terminate, Wait]
    ensures o.attach && o.terminate && o.wait == TimedOut && o.kill ==> ok && attempted == [Terminate, Wait, Kill]
    ensures Kill in attempted <==> o.attach && o.terminate && o.wait == TimedOut
    ensures SigKill in attempted <==> !PsutilStops(o)
    ensures !PsutilStops(o) ==> |attempted| > 0 && attempted[|attempted| - 1] == SigKill
  {
    attempted := [];
    if o.attach {
      attempted := attempted + [Terminate];
      if o.terminate {
        attempted := attempted + [Wait];
        match o.wait {
          case Exited =>
            return true, attempted;
          case TimedOut =>
            attempted := attempted + [Kill];
            if o.kill {
              return true, attempted;
            }
          case WaitRaised =>
        }
      }
    }
    attempted := attempted + [SigKill];
    ok := o.osKill;
  }
}
