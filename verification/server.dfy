/**
 * The API surface and the Reconciliation Layer: what each endpoint
 * answers, which runs of the filtering program it asks for and in what
 * order, and how the persisted record changes. Each run of the program is
 * given by its outcome; the configuration and log files by their content
 * (None when they cannot be read); the clock by `now`.
 */
module Server {
  import opened Wrappers
  import opened Text
  import opened Numbers
  import opened ConfigReader
  import opened ProcessController
  import opened StateStore
  import opened Logs

  datatype Body =
    | PortsView(ports: seq<int>, lastUpdateTs: int, status: Status)
    | Problem(error: string)
    | StatusView(status: Status)
    | Lifecycle(status: Status, message: string)
    | LogView(logs: seq<string>, logError: Option<string>)
    | ServiceNames(names: map<int, string>)

  datatype Response = Response(code: int, body: Body)

  /** A request to the outside world: a run of the filtering program, or a kill by pattern. */
  datatype Invocation = Exec(args: seq<string>) | KillMatching(pattern: string)

  /** A handler's response together with the invocations it made, in order. */
  datatype Handled = Handled(response: Response, calls: seq<Invocation>)

  datatype PortOp = Add | Del

  const InvalidPort: string := "Invalid port"
  const PortsLocked: string := "Cannot modify ports while firewall is running"
  const AlreadyRunning: string := "Firewall already running"
  const StartedMessage: string := "Firewall started"
  const StoppedMessage: string := "Firewall stopped"
  const NoLogMessage: string := "Log file not found or empty"
  const RunPattern: string := "python3.*firewall.py.*--run"
  const DefaultInterface: string := "lo"

  /** The reference table of common services served by `/api/well-known`. */
  const WellKnownPorts: map<int, string> := map[
    20 := "FTP-Data", 21 := "FTP", 22 := "SSH", 23 := "Telnet", 25 := "SMTP", 53 := "DNS",
    67 := "DHCP-Server", 68 := "DHCP-Client", 69 := "TFTP", 80 := "HTTP", 110 := "POP3",
    123 := "NTP", 137 := "NetBIOS-NS", 138 := "NetBIOS-DGM", 139 := "NetBIOS-SSN",
    143 := "IMAP", 161 := "SNMP", 389 := "LDAP", 443 := "HTTPS", 465 := "SMTPS",
    587 := "SMTP-Submission", 993 := "IMAPS", 995 := "POP3S", 1433 := "MSSQL",
    1521 := "Oracle DB", 2049 := "NFS", 2181 := "Zookeeper", 2379 := "etcd",
    2380 := "etcd-peer", 27017 := "MongoDB", 3000 := "Node Dev (Dont off)", 3306 := "MySQL",
    3389 := "RDP", 5432 := "PostgreSQL", 56379 := "Redis-Sentinel", 5672 := "RabbitMQ",
    5900 := "VNC", 6379 := "Redis", 8000 := "HTTP-Alt", 8080 := "HTTP-Alt", 9000 := "App",
    9200 := "Elasticsearch", 9300 := "ES-Transport"
  ]

  /** A port request is accepted when `Number(...)` gave an integer in [1, 65535]. */
  predicate IsValidPort(port: Option<int>)
  {
    port.Some? && 1 <= port.value <= 65535
  }

  /** The arguments of `--add <port>` or `--del <port>`, the port written with `String`. */
  function PortArgs(op: PortOp, port: nat): (args: seq<string>)
    ensures |args| == 2 && NeedsPrivilege(args)
    ensures args[0] == "--add" <==> op == Add
    ensures args[0] == "--del" <==> op == Del
    ensures ParseNum(args[1]) == Some(port)
  {
    DecimalRoundTrip(port);
    [if op == Add then "--add" else "--del", ToDecimal(port)]
  }

  /** Some invocation ran the filtering program with `flag` among its arguments. */
  predicate Invokes(calls: seq<Invocation>, flag: string)
  {
    exists i :: 0 <= i < |calls| && calls[i].Exec? && flag in calls[i].args
  }

  /**
   * The ports a response reports: the configuration's, when it can be read
   * (an empty list included), otherwise the recorded ones.
   */
  function ReportedPorts(conf: Option<string>, recorded: seq<int>): (r: seq<int>)
    ensures conf.None? ==> r == recorded
    ensures conf.Some? ==> StrictlyAscending(r)
    ensures conf.Some? ==> forall p :: p in r <==> p in EntryValues(DeclaredEntries(conf.value))
  {
    match ReadFirewallPorts(conf)
    case Some(live) => live
    case None => recorded
  }

  /** A readable configuration without declaration lines reports no ports at all, whatever is recorded. */
  lemma UndeclaredConfigReportsNothing(text: string, recorded: seq<int>)
    requires forall l :: l in Split(text, '\n') ==> !Declares(l, DefaultKey) && !Declares(l, CustomKey)
    ensures ReportedPorts(Some(text), recorded) == []
  {
    var lines := Split(text, '\n');
    NoDeclarationLine(lines, DefaultKey);
    NoDeclarationLine(lines, CustomKey);
    NoEqualsNoEntries("");
    assert DeclaredEntries(text) == [];
    assert SortedUnion([], []) == [];
  }

  /** Without a configuration the defaults are reported in their stored, unsorted order. */
  lemma FallbackKeepsStoredOrder(now: int)
    ensures ReportedPorts(None, Heal(None, now).ports) == [80, 443, 22, 25, 53]
    ensures !StrictlyAscending(ReportedPorts(None, Heal(None, now).ports))
  {
    var r := ReportedPorts(None, Heal(None, now).ports);
    assert r[1] > r[2];
  }

  /** `GET /api/status`. */
  function GetStatus(out: ExecResult): (h: Handled)
    ensures h.response.code == 200
    ensures h.response.body == StatusView(ClassifyStatus(out))
    ensures h.calls == [Exec(StatusArgs)]
  {
    Handled(Response(200, StatusView(ClassifyStatus(out))), [Exec(StatusArgs)])
  }

  /** `GET /api/well-known`. */
  function WellKnown(): (r: Response)
    ensures r.code == 200 && r.body == ServiceNames(WellKnownPorts)
  {
    Response(200, ServiceNames(WellKnownPorts))
  }

  /** The interface to filter: the one requested, or the loopback interface when none (or "") is given. */
  function StartInterface(iface: Option<string>): (r: string)
    ensures r != []
    ensures iface.Some? && iface.value != [] ==> r == iface.value
    ensures iface.None? || iface.value == [] ==> r == DefaultInterface
  {
    if iface.Some? && iface.value != [] then iface.value else DefaultInterface
  }

  /**
   * `POST /api/firewall/start`: 409 without starting anything when the
   * filter is already ONLINE; otherwise runs `--run <iface>` and reports
   * its failure (500) or the status queried after it (200).
   */
  function Start(before: ExecResult, iface: Option<string>, run: ExecResult, after: ExecResult): (h: Handled)
    ensures |h.calls| >= 1 && h.calls[0] == Exec(StatusArgs)
    ensures h.response.code == 409 <==> ClassifyStatus(before) == Online
    ensures Invokes(h.calls, "--run") <==> ClassifyStatus(before) == Offline
    ensures h.response.code == 409 ==> h == Handled(Response(409, Problem(AlreadyRunning)), [Exec(StatusArgs)])
    ensures h.response.code == 500 <==> ClassifyStatus(before) == Offline && run.Failed?
    ensures h.response.code == 500 ==> h.response.body == Problem(ErrorText(run))
    ensures h.response.code == 500 ==> h.calls == [Exec(StatusArgs), Exec(["--run", StartInterface(iface)])]
    ensures h.response.code == 200 <==> ClassifyStatus(before) == Offline && run.Completed?
    ensures h.response.code == 200 ==>
      h == Handled(Response(200, Lifecycle(ClassifyStatus(after), StartedMessage)),
                   [Exec(StatusArgs), Exec(["--run", StartInterface(iface)]), Exec(StatusArgs)])
  {
    if ClassifyStatus(before) == Online then
      Handled(Response(409, Problem(AlreadyRunning)), [Exec(StatusArgs)])
    else
      var runArgs := ["--run", StartInterface(iface)];
      assert "--run" in runArgs;
      match run
      case Failed(_, _) =>
        var h := Handled(Response(500, Problem(ErrorText(run))), [Exec(StatusArgs), Exec(runArgs)]);
        assert h.calls[1].Exec? && "--run" in h.calls[1].args;
        h
      case Completed(_, _) =>
        var h := Handled(Response(200, Lifecycle(ClassifyStatus(after), StartedMessage)),
                         [Exec(StatusArgs), Exec(runArgs), Exec(StatusArgs)]);
        assert h.calls[1].Exec? && "--run" in h.calls[1].args;
        h
  }

  /**
   * `POST /api/firewall/stop`: kills every running instance by pattern and
   * reports the status queried afterwards; what the kill reports, even that
   * nothing matched, does not change the answer.
   */
  function Stop(after: ExecResult): (h: Handled)
    ensures h.response == Response(200, Lifecycle(ClassifyStatus(after), StoppedMessage))
    ensures h.calls == [KillMatching(RunPattern), Exec(StatusArgs)]
    ensures !Invokes(h.calls, "--run")
  {
    Handled(Response(200, Lifecycle(ClassifyStatus(after), StoppedMessage)),
            [KillMatching(RunPattern), Exec(StatusArgs)])
  }

  /** `GET /api/logs`: the tail of the log, or an empty list with an advisory error. */
  function ReadLogs(file: Option<string>): (r: Response)
    ensures r.code == 200 && r.body.LogView?
    ensures file.None? ==> r.body == LogView([], Some(NoLogMessage))
    ensures file.Some? ==> r.body.logError.None? && r.body.logs == Tail(Split(file.value, '\n'))
    ensures |r.body.logs| <= MaxLines
  {
    match file
    case None => Response(200, LogView([], Some(NoLogMessage)))
    case Some(content) => Response(200, LogView(Tail(Split(content, '\n')), None))
  }

  /** The server's durable state: the record in `data.json`, None when missing or unparsable. */
  class ControlPlane {
    var persisted: Option<Record>

    constructor (stored: Option<Record>)
      ensures persisted == stored
    {
      persisted := stored;
    }

    /** `writeState`: replaces the whole record. */
    method WriteState(state: Record)
      modifies this
      ensures persisted == Some(state)
    {
      persisted := Some(state);
    }

    /** `readState`: the stored record, or the defaults, which are then written back. */
    method ReadState(now: int) returns (state: Record)
      modifies this
      ensures state == Heal(old(persisted), now)
      ensures persisted == Some(state)
    {
      match persisted
      case Some(r) =>
        state := r;
      case None =>
        state := Record(DefaultPorts, now);
        WriteState(state);
    }

    /** `GET /api/state`: the reconciled view; may heal the record, changes nothing else. */
    method GetState(now: int, conf: Option<string>, statusOut: ExecResult) returns (h: Handled)
      modifies this
      ensures persisted == Some(Heal(old(persisted), now))
      ensures h.response == Response(200, PortsView(ReportedPorts(conf, Heal(old(persisted), now).ports),
                                                    Heal(old(persisted), now).lastUpdateTs,
                                                    ClassifyStatus(statusOut)))
      ensures h.calls == [Exec(StatusArgs)]
    {
      var fileState := ReadState(now);
      var ports := ReportedPorts(conf, fileState.ports);
      var status := ClassifyStatus(statusOut);
      h := Handled(Response(200, PortsView(ports, fileState.lastUpdateTs, status)), [Exec(StatusArgs)]);
    }

    /**
     * `POST /api/ports` (op Add) and `DELETE /api/ports/:port` (op Del).
     * Checks in order: the port (400), the live status (409), the run of
     * the program (500); only then is the record touched, and then only its
     * timestamp. `statusOut` and `opOut` are the outcomes of the status
     * query and of `--add`/`--del`; `conf` is the configuration read
     * afterwards and `statusAfter` the outcome of the final status query.
     */
    method ChangePort(op: PortOp, port: Option<int>, statusOut: ExecResult, opOut: ExecResult,
                      now: int, conf: Option<string>, statusAfter: ExecResult) returns (h: Handled)
      modifies this
      ensures !IsValidPort(port) ==>
        h == Handled(Response(400, Problem(InvalidPort)), []) && persisted == old(persisted)
      ensures IsValidPort(port) && ClassifyStatus(statusOut) == Online ==>
        h == Handled(Response(409, Problem(PortsLocked)), [Exec(StatusArgs)]) && persisted == old(persisted)
      ensures IsValidPort(port) && ClassifyStatus(statusOut) == Offline && opOut.Failed? ==>
        && h == Handled(Response(500, Problem(ErrorText(opOut))),
                        [Exec(StatusArgs), Exec(PortArgs(op, port.value))])
        && persisted == old(persisted)
      ensures IsValidPort(port) && ClassifyStatus(statusOut) == Offline && opOut.Completed? ==>
        && persisted == Some(Record(Heal(old(persisted), now).ports, now))
        && h == Handled(Response(200, PortsView(ReportedPorts(conf, Heal(old(persisted), now).ports), now,
                                                ClassifyStatus(statusAfter))),
                        [Exec(StatusArgs), Exec(PortArgs(op, port.value)), Exec(StatusArgs)])
      ensures old(persisted).Some? ==> persisted.Some? && persisted.value.ports == old(persisted).value.ports
    {
      if !IsValidPort(port) {
        h := Handled(Response(400, Problem(InvalidPort)), []);
      } else if ClassifyStatus(statusOut) == Online {
        h := Handled(Response(409, Problem(PortsLocked)), [Exec(StatusArgs)]);
      } else if opOut.Failed? {
        h := Handled(Response(500, Problem(ErrorText(opOut))), [Exec(StatusArgs), Exec(PortArgs(op, port.value))]);
      } else {
        var state := ReadState(now);
        state := state.(lastUpdateTs := now);
        WriteState(state);
        var ports := ReportedPorts(conf, state.ports);
        h := Handled(Response(200, PortsView(ports, state.lastUpdateTs, ClassifyStatus(statusAfter))),
                     [Exec(StatusArgs), Exec(PortArgs(op, port.value)), Exec(StatusArgs)]);
      }
    }
  }
}
