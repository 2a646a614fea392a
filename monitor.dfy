/** The server health monitor of test.py: probing one host over SSH and
    collecting the records of all configured hosts in configuration order.
    The SSH connection itself is not modelled: what happened when the monitor
    tried to connect and run its three commands is an input (`Visit`). */
module Monitor {
  import opened Wrappers
  import opened PyText
  import opened Parsers
  import opened OrderedDict

  // ---------------------------------------------------------------------------
  // Configuration

  /** One host of the configuration. The credentials and the port only reach
      the SSH library. */
  datatype HostConfig = HostConfig(name: string, hostname: string, username: string,
                                   password: string, port: Option<int>)

  /** The host names, in configuration order. */
  function Names(servers: seq<HostConfig>): (names: seq<string>)
    ensures |names| == |servers|
    ensures forall i :: 0 <= i < |servers| ==> names[i] == servers[i].name
  {
    if |servers| == 0 then [] else Names(servers[..|servers| - 1]) + [servers[|servers| - 1].name]
  }

  predicate DistinctNames(servers: seq<HostConfig>) {
    forall i, j :: 0 <= i < j < |servers| ==> servers[i].name != servers[j].name
  }

  /** The two hosts checked when no configuration file is given. */
  function DefaultServers(): (servers: seq<HostConfig>)
    ensures |servers| == 2 && DistinctNames(servers)
  {
    [HostConfig("ubuntu-vm", "192.168.1.37", "neo", "marshall", Some(22)),
     HostConfig("redhat-vm", "192.168.1.24", "neon", "neon", Some(22))]
  }

  /** What the `--config` option names, as `_load_servers` finds it: no path
      (or an empty one), a path that does not exist, a file holding a JSON
      list of hosts, or a file that cannot be opened or parsed. */
  datatype ConfigFile = NoConfigFile | MissingFile | HostList(hosts: seq<HostConfig>) | UnreadableFile

  /** `_load_servers` as written. The constructor calls it before
      `setup_logging` has created `main_logger`, so for a file that exists
      both the success message and the handler's error message raise
      `AttributeError` out of the constructor (`None`). Only the two default
      hosts can ever be loaded. */
  function LoadServersAsWritten(config: ConfigFile): (r: Option<seq<HostConfig>>)
    ensures r.None? <==> config.HostList? || config.UnreadableFile?
    ensures r.Some? ==> r.value == DefaultServers()
  {
    match config
    case HostList(_) => None
    case UnreadableFile => None
    case _ => Some(DefaultServers())
  }

  /** `_load_servers` as intended: the file's hosts when it holds a list, the
      two default hosts when there is no file or it cannot be loaded. */
  function LoadServers(config: ConfigFile): (servers: seq<HostConfig>) {
    if config.HostList? then config.hosts else DefaultServers()
  }

  /** Wherever the loader as written returns, the intended one returns the
      same hosts. */
  lemma LoadServersAgrees(config: ConfigFile)
    ensures LoadServersAsWritten(config).Some? ==> LoadServersAsWritten(config).value == LoadServers(config)
    ensures LoadServersAsWritten(config).None? <==> config.HostList? || config.UnreadableFile?
  {
  }

  /** A configuration file listing hosts: as written the constructor raises,
      while the intended loader returns exactly the listed hosts. An empty list
      is thus the only way to reach the run's "no servers" branch, and as
      written it cannot reach it. */
  lemma ConfigFileRaises(hosts: seq<HostConfig>)
    ensures LoadServersAsWritten(HostList(hosts)).None?
    ensures LoadServers(HostList(hosts)) == hosts
    ensures forall config :: LoadServersAsWritten(config).Some? ==> LoadServersAsWritten(config).value != []
    ensures LoadServers(HostList([])) == []
  {
  }

  // ---------------------------------------------------------------------------
  // Running one command

  /** What one remote command did: it ran, leaving its standard output and
      standard error, or the attempt raised an exception with a message. */
  datatype Exec = Ran(stdout: string, stderr: string) | Raised(message: string)

  /** What running a command writes to the log. */
  datatype LogLevel = Quiet | WarningLog | ErrorLog

  datatype CommandResult = CommandResult(output: string, error: string, log: LogLevel)

  /** Standard error counts as an error when it is non-empty and does not
      mention `Warning`. */
  predicate ReportsError(error: string) {
    error != "" && !Contains(error, "Warning")
  }

  /** Both streams are stripped; a raised exception gives no output and its
      message as the error. Only a command that ran and reports an error is
      logged as a warning. */
  function ExecuteRemoteCommand(e: Exec): (r: CommandResult)
    ensures e.Ran? ==> Unpadded(r.output) && Unpadded(r.error)
    ensures e.Ran? ==> r.output == Strip(e.stdout) && r.error == Strip(e.stderr)
    ensures e.Raised? ==> r.output == "" && r.error == e.message
    ensures r.log == WarningLog <==> e.Ran? && ReportsError(r.error)
    ensures r.log == ErrorLog <==> e.Raised?
  {
    match e
    case Ran(out, err) =>
      var error := Strip(err);
      CommandResult(Strip(out), error, if ReportsError(error) then WarningLog else Quiet)
    case Raised(msg) => CommandResult("", msg, ErrorLog)
  }

  /** Standard error that differs only in surrounding whitespace is judged the
      same way. */
  lemma WarningRuleIgnoresPadding(a: string, err: string, b: string, out: string)
    requires AllSpace(a) && AllSpace(b)
    ensures ExecuteRemoteCommand(Ran(out, a + err + b)) == ExecuteRemoteCommand(Ran(out, err))
  {
    StripIgnoresPadding(a, err, b);
  }

  // ---------------------------------------------------------------------------
  // One host

  /** How the attempt to reach a host ended. After a successful connection the
      commands `uptime`, `df -h` and `free -m` are run in that order. */
  datatype ConnectOutcome =
    | Connected(uptime: Exec, df: Exec, free: Exec)
    | AuthenticationFailed
    | SshFailure(message: string)
    | OtherFailure(message: string)

  /** The outcome of a host visit, and the two clock readings taken during it:
      when the check started and when a failure was recorded. */
  datatype Visit = Visit(outcome: ConnectOutcome, started: string, failedAt: string)

  /** What was learnt about a host. */
  datatype Report =
    | Healthy(uptime: Uptime, disks: seq<DiskEntry>, memory: map<string, Number>,
              uptimeError: Option<string>, diskError: Option<string>, memoryError: Option<string>)
    | Unreachable(error: string)

  /** The record kept for one host. */
  datatype HostRecord = HostRecord(timestamp: string, serverName: string, hostname: string, report: Report)
  {
    function Status(): string {
      if report.Healthy? then "success" else "failed"
    }
  }

  /** An entry of the list of failed connections. */
  datatype FailureEntry = FailureEntry(server: string, error: string, timestamp: string)

  /** The error text stored for a connection that failed: a fixed text for a
      rejected login, the exception's message otherwise. */
  function ConnectionError(outcome: ConnectOutcome): string
    requires !outcome.Connected?
  {
    match outcome
    case AuthenticationFailed => "Authentication failed"
    case SshFailure(msg) => msg
    case OtherFailure(msg) => msg
  }

  /** The error field of a command: present only when its standard error
      reports an error. */
  function ErrorField(error: string): (r: Option<string>)
    ensures r.Some? <==> ReportsError(error)
    ensures r.Some? ==> r.value == error
  {
    if ReportsError(error) then Some(error) else None
  }

  function HostReport(outcome: ConnectOutcome): Report {
    match outcome
    case Connected(u, d, f) =>
      var ur, dr, fr := ExecuteRemoteCommand(u), ExecuteRemoteCommand(d), ExecuteRemoteCommand(f);
      Healthy(ParseUptime(ur.output), DiskUsage(dr.output), MemoryUsage(fr.output),
              ErrorField(ur.error), ErrorField(dr.error), ErrorField(fr.error))
    case _ => Unreachable(ConnectionError(outcome))
  }

  /** The record of one host visit. */
  function HostRecordOf(config: HostConfig, visit: Visit): HostRecord {
    HostRecord(visit.started, config.name, config.hostname, HostReport(visit.outcome))
  }

  /** The failure entries a visit adds: one when the connection failed. */
  function FailureOf(config: HostConfig, visit: Visit): seq<FailureEntry> {
    if visit.outcome.Connected? then []
    else [FailureEntry(config.name, ConnectionError(visit.outcome), visit.failedAt)]
  }

  /** A record is failed exactly when the visit adds a failure entry, and then
      exactly one, naming the same host and carrying the same error. */
  lemma RecordMatchesFailures(config: HostConfig, visit: Visit)
    ensures var r, f := HostRecordOf(config, visit), FailureOf(config, visit);
      && (r.Status() == "failed" <==> |f| == 1)
      && (r.Status() == "success" <==> |f| == 0)
      && (|f| == 1 ==> f[0].server == r.serverName && f[0].error == r.report.error
                       && f[0].timestamp == visit.failedAt)
      && r.timestamp == visit.started && r.serverName == config.name
  {
  }

  /** A rejected login is reported with a fixed text, whatever the exception
      said. */
  lemma AuthenticationFailureText(config: HostConfig, started: string, failedAt: string)
    ensures HostRecordOf(config, Visit(AuthenticationFailed, started, failedAt)).report
         == Unreachable("Authentication failed")
    ensures FailureOf(config, Visit(AuthenticationFailed, started, failedAt))
         == [FailureEntry(config.name, "Authentication failed", failedAt)]
  {
  }

  /** On a healthy host, a command's error is recorded exactly when running it
      logged a warning or raised an exception whose message does not mention
      `Warning`; a recorded error is never empty and never mentions `Warning`. */
  lemma ErrorFieldsFollowLog(e: Exec)
    ensures var c := ExecuteRemoteCommand(e);
      && (e.Ran? ==> (ErrorField(c.error).Some? <==> c.log == WarningLog))
      && (e.Raised? ==> (ErrorField(c.error).Some? <==> ReportsError(e.message)))
      && (ErrorField(c.error).Some? ==> ErrorField(c.error).value != ""
                                        && !Contains(ErrorField(c.error).value, "Warning"))
  {
  }

  /** A connected host is always healthy, whatever its commands printed. */
  lemma ConnectedIsHealthy(config: HostConfig, visit: Visit)
    ensures HostRecordOf(config, visit).Status() == "success" <==> visit.outcome.Connected?
  {
  }

  // ---------------------------------------------------------------------------
  // All hosts

  /** The record of every visit, in configuration order. */
  function Records(servers: seq<HostConfig>, visits: seq<Visit>): (r: seq<HostRecord>)
    requires |visits| == |servers|
    ensures |r| == |servers|
  {
    seq(|servers|, i requires 0 <= i < |servers| => HostRecordOf(servers[i], visits[i]))
  }

  /** `collected_data` after visiting `servers` in order, starting from `d`:
      each record is stored under its host name, a later host with the same
      name replacing the earlier record in place. */
  function Collected(d: seq<(string, HostRecord)>, servers: seq<HostConfig>, visits: seq<Visit>): seq<(string, HostRecord)>
    requires |visits| == |servers|
  {
    PutAll(d, Names(servers), Records(servers, visits))
  }

  /** `failed_connections` gained while visiting `servers` in order. */
  function Failures(servers: seq<HostConfig>, visits: seq<Visit>): (f: seq<FailureEntry>)
    requires |visits| == |servers|
    ensures |f| <= |servers|
    decreases |servers|
  {
    if |servers| == 0 then []
    else
      var n := |servers| - 1;
      Failures(servers[..n], visits[..n]) + FailureOf(servers[n], visits[n])
  }

  /** Visiting one more host extends both the collection and the failures. */
  lemma CollectedStep(d: seq<(string, HostRecord)>, servers: seq<HostConfig>, visits: seq<Visit>, k: nat)
    requires |visits| == |servers| && k < |servers|
    ensures Collected(d, servers[..k + 1], visits[..k + 1])
         == Put(Collected(d, servers[..k], visits[..k]), servers[k].name, HostRecordOf(servers[k], visits[k]))
    ensures Failures(servers[..k + 1], visits[..k + 1])
         == Failures(servers[..k], visits[..k]) + FailureOf(servers[k], visits[k])
  {
    assert servers[..k + 1][..k] == servers[..k];
    assert visits[..k + 1][..k] == visits[..k];
    NamesAppend(servers, k);
    RecordsAppend(servers, visits, k);
    PutAllAppend(d, Names(servers[..k]), Records(servers[..k], visits[..k]),
                 servers[k].name, HostRecordOf(servers[k], visits[k]));
  }

  lemma NamesAppend(servers: seq<HostConfig>, k: nat)
    requires k < |servers|
    ensures Names(servers[..k + 1]) == Names(servers[..k]) + [servers[k].name]
  {
  }

  lemma RecordsAppend(servers: seq<HostConfig>, visits: seq<Visit>, k: nat)
    requires |visits| == |servers| && k < |servers|
    ensures Records(servers[..k + 1], visits[..k + 1])
         == Records(servers[..k], visits[..k]) + [HostRecordOf(servers[k], visits[k])]
  {
  }

  /** The number of records whose status is success; it is zero exactly when
      every record failed. */
  function SuccessCount(d: seq<(string, HostRecord)>): (n: nat)
    ensures n <= |d|
    ensures n == 0 <==> forall i :: 0 <= i < |d| ==> d[i].1.Status() == "failed"
  {
    if |d| == 0 then 0
    else SuccessCount(d[..|d| - 1]) + (if d[|d| - 1].1.Status() == "success" then 1 else 0)
  }

  /** The collection holds one entry per distinct host name, in the order in
      which the names first appear in the configuration. */
  lemma CollectedKeys(servers: seq<HostConfig>, visits: seq<Visit>)
    requires |visits| == |servers|
    ensures Keys(Collected([], servers, visits)) == Distinct(Names(servers))
  {
    PutAllKeys(Names(servers), Records(servers, visits));
  }

  /** The record kept for a name is the one of the last host with that name. */
  lemma LastVisitWins(d: seq<(string, HostRecord)>, servers: seq<HostConfig>, visits: seq<Visit>, i: nat)
    requires |visits| == |servers| && i < |servers|
    requires forall j :: i < j < |servers| ==> servers[j].name != servers[i].name
    ensures Lookup(Collected(d, servers, visits), servers[i].name) == Some(HostRecordOf(servers[i], visits[i]))
  {
    var names, records := Names(servers), Records(servers, visits);
    assert forall j :: i < j < |names| ==> names[j] != names[i];
    PutAllLast(d, names, records, i);
  }

  /** With distinct host names, every host is counted once: as a success in
      the collection or as an entry of the failure list. */
  lemma CountsBalance(servers: seq<HostConfig>, visits: seq<Visit>)
    requires |visits| == |servers| && DistinctNames(servers)
    ensures SuccessCount(Collected([], servers, visits)) + |Failures(servers, visits)| == |servers|
  {
    var names := Names(servers);
    assert forall i, j :: 0 <= i < j < |names| ==> names[i] != names[j];
    StoredOnce(names, Records(servers, visits));
    FailuresMatchRecords(servers, visits);
  }

  /** The number of records whose status is failed. */
  function FailedCount(records: seq<HostRecord>): (n: nat)
    ensures n <= |records|
  {
    if |records| == 0 then 0
    else FailedCount(records[..|records| - 1]) + (if records[|records| - 1].Status() == "failed" then 1 else 0)
  }

  /** Each failure entry stands for one failed record. */
  lemma {:induction false} FailuresMatchRecords(servers: seq<HostConfig>, visits: seq<Visit>)
    requires |visits| == |servers|
    ensures |Failures(servers, visits)| == FailedCount(Records(servers, visits))
    decreases |servers|
  {
    if |servers| > 0 {
      var n := |servers| - 1;
      FailuresMatchRecords(servers[..n], visits[..n]);
      assert servers[..n + 1] == servers && visits[..n + 1] == visits;
      RecordsAppend(servers, visits, n);
      RecordMatchesFailures(servers[n], visits[n]);
      var records := Records(servers, visits);
      assert records[..n] == Records(servers[..n], visits[..n]);
    }
  }

  /** When no name repeats, every record is stored, so the successes and the
      failed records add up to all of them. */
  lemma {:induction false} StoredOnce(names: seq<string>, records: seq<HostRecord>)
    requires |names| == |records|
    requires forall i, j :: 0 <= i < j < |names| ==> names[i] != names[j]
    ensures SuccessCount(PutAll([], names, records)) + FailedCount(records) == |records|
    decreases |names|
  {
    if |names| > 0 {
      var n := |names| - 1;
      var ns, rs := names[..n], records[..n];
      var prev := PutAllInit([], names, records);
      StoredOnce(ns, rs);
      PutAllKeys(ns, rs);
      assert names[n] !in ns;
      assert names[n] !in Keys(prev);
      var r := records[n];
      assert PutAll([], names, records) == prev + [(names[n], r)];
      SuccessCountAppend(prev, names[n], r);
      assert FailedCount(records) == FailedCount(rs) + if r.Status() == "failed" then 1 else 0;
    }
  }

  lemma SuccessCountAppend(d: seq<(string, HostRecord)>, name: string, r: HostRecord)
    ensures SuccessCount(d + [(name, r)]) == SuccessCount(d) + if r.Status() == "success" then 1 else 0
  {
    assert (d + [(name, r)])[..|d|] == d;
  }

  /** Without distinct names the counts disagree: a host listed twice that
      answers first and then fails leaves no success and one failure for two
      configured hosts. */
  lemma DuplicateNameImbalance(h: HostConfig, first: Visit, second: Visit)
    requires first.outcome.Connected? && !second.outcome.Connected?
    ensures SuccessCount(Collected([], [h, h], [first, second])) + |Failures([h, h], [first, second])| == 1
  {
    var records := Records([h, h], [first, second]);
    assert Names([h, h]) == [h.name, h.name];
    PutAllSameKey(h.name, records);
    assert [h, h][..1] == [h] && [first, second][..1] == [first];
  }

  /** An SSH client, of which only whether it has been closed is modelled. */
  class SshClient {
    ghost var closed: bool

    constructor ()
      ensures !closed
    {
      closed := false;
    }

    method Close()
      modifies this
      ensures closed
    {
      closed := true;
    }
  }

  class HealthMonitor {
    var servers: seq<HostConfig>
    var collectedData: seq<(string, HostRecord)>
    var failedConnections: seq<FailureEntry>

    constructor (servers: seq<HostConfig>)
      ensures this.servers == servers && collectedData == [] && failedConnections == []
    {
      this.servers := servers;
      collectedData := [];
      failedConnections := [];
    }

    /** Checks one host: the record says what was learnt, a failed connection
        is also appended to the failure list, and the SSH client is closed on
        every path. */
    method CollectServerData(config: HostConfig, visit: Visit) returns (record: HostRecord, client: SshClient)
      modifies this
      ensures record == HostRecordOf(config, visit)
      ensures failedConnections == old(failedConnections) + FailureOf(config, visit)
      ensures servers == old(servers) && collectedData == old(collectedData)
      ensures fresh(client) && client.closed
    {
      client := new SshClient();
      match visit.outcome {
        case Connected(u, d, f) =>
          var ur := ExecuteRemoteCommand(u);
          var dr := ExecuteRemoteCommand(d);
          var fr := ExecuteRemoteCommand(f);
          var uptime := ParseUptime(ur.output);
          var disks := ParseDiskUsage(dr.output);
          var memory := ParseMemoryUsage(fr.output);
          record := HostRecord(visit.started, config.name, config.hostname,
                               Healthy(uptime, disks, memory, ErrorField(ur.error),
                                       ErrorField(dr.error), ErrorField(fr.error)));
        case _ =>
          var error := ConnectionError(visit.outcome);
          record := HostRecord(visit.started, config.name, config.hostname, Unreachable(error));
          failedConnections := failedConnections + [FailureEntry(config.name, error, visit.failedAt)];
      }
      client.Close();
    }

    /** One turn of the host loop: the record is stored under the host name. */
    method VisitHost(server: HostConfig, visit: Visit)
      modifies this
      ensures collectedData == Put(old(collectedData), server.name, HostRecordOf(server, visit))
      ensures failedConnections == old(failedConnections) + FailureOf(server, visit)
      ensures servers == old(servers)
    {
      var record, client := CollectServerData(server, visit);
      collectedData := Put(collectedData, server.name, record);
    }

    /** Checks every configured host in order and stores each record under its
        host name. With no hosts nothing happens and the result is empty.
        `visualizeCalled` says whether `visualize_data` is called: when asked
        for and at least one host answered. What that call draws, or whether
        it is abandoned, is `Reports.DashboardOf` (see `Reports.RunNewMonitor`). */
    method RunHealthCheck(visits: seq<Visit>, enableVisualization: bool)
      returns (results: seq<(string, HostRecord)>, visualizeCalled: bool)
      requires |visits| == |servers|
      modifies this
      ensures servers == old(servers)
      ensures old(servers) == [] ==>
        results == [] && !visualizeCalled
        && collectedData == old(collectedData) && failedConnections == old(failedConnections)
      ensures old(servers) != [] ==>
        && collectedData == Collected(old(collectedData), servers, visits)
        && failedConnections == old(failedConnections) + Failures(servers, visits)
        && results == collectedData
        && visualizeCalled == (enableVisualization && SuccessCount(collectedData) > 0)
    {
      if servers == [] {
        return [], false;
      }
      CheckEveryHost(visits);
      results := collectedData;
      visualizeCalled := enableVisualization && SuccessCount(collectedData) > 0;
    }

    /** The host loop of `RunHealthCheck`. */
    method CheckEveryHost(visits: seq<Visit>)
      requires |visits| == |servers|
      modifies this
      ensures servers == old(servers)
      ensures collectedData == Collected(old(collectedData), servers, visits)
      ensures failedConnections == old(failedConnections) + Failures(servers, visits)
    {
      ghost var d0, f0 := collectedData, failedConnections;
      var hosts := servers;
      for k := 0 to |hosts|
        invariant servers == hosts
        invariant collectedData == Collected(d0, hosts[..k], visits[..k])
        invariant failedConnections == f0 + Failures(hosts[..k], visits[..k])
      {
        VisitNext(d0, f0, hosts, visits, k);
      }
      assert hosts[..|hosts|] == hosts;
      assert visits[..|visits|] == visits;
    }

    /** A turn of the host loop keeps the loop's invariant. */
    method VisitNext(ghost d0: seq<(string, HostRecord)>, ghost f0: seq<FailureEntry>,
                     hosts: seq<HostConfig>, visits: seq<Visit>, k: nat)
      requires |visits| == |hosts| && k < |hosts| && servers == hosts
      requires collectedData == Collected(d0, hosts[..k], visits[..k])
      requires failedConnections == f0 + Failures(hosts[..k], visits[..k])
      modifies this
      ensures servers == hosts
      ensures collectedData == Collected(d0, hosts[..k + 1], visits[..k + 1])
      ensures failedConnections == f0 + Failures(hosts[..k + 1], visits[..k + 1])
    {
      CollectedStep(d0, hosts, visits, k);
      VisitHost(hosts[k], visits[k]);
    }
  }
}
