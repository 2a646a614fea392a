/** What the monitor makes of the collected records once every host has been
    checked: the counts written to the JSON file, the rows of the CSV file,
    the console summary, the arrays behind the dashboard and the process exit
    code. Writing files, printing and plotting are not modelled; each report
    is the data that would be written. */
module Reports {
  import opened Wrappers
  import opened PyText
  import opened Parsers
  import opened OrderedDict
  import opened Monitor

  // ---------------------------------------------------------------------------
  // Results of a whole run

  /** What `run_health_check` returns for a new monitor: nothing when no host
      is configured, the collection of all records otherwise. */
  function RunResults(servers: seq<HostConfig>, visits: seq<Visit>): seq<(string, HostRecord)>
    requires |visits| == |servers|
  {
    if servers == [] then [] else Collected([], servers, visits)
  }

  /** A run of a new monitor returns exactly `RunResults`. The dashboard is
      attempted only when visualisation is on and some host answered; it is
      then never `NoData`, and may still be abandoned (`DrawFailed`). */
  method RunNewMonitor(servers: seq<HostConfig>, visits: seq<Visit>, enableVisualization: bool)
    returns (results: seq<(string, HostRecord)>, dashboard: Option<Dashboard>)
    requires |visits| == |servers|
    ensures results == RunResults(servers, visits)
    ensures dashboard == if enableVisualization && SuccessCount(results) > 0 then Some(DashboardOf(results)) else None
    ensures dashboard.Some? ==> dashboard.value != NoData
  {
    var monitor := new HealthMonitor(servers);
    var visualizeCalled;
    results, visualizeCalled := monitor.RunHealthCheck(visits, enableVisualization);
    dashboard := None;
    if visualizeCalled {
      var d := VisualizeData(results);
      DashboardOutcome(results);
      dashboard := Some(d);
    }
  }

  // ---------------------------------------------------------------------------
  // JSON counts

  datatype JsonCounts = JsonCounts(serversChecked: nat, successfulConnections: nat, failedConnections: nat)

  /** The three counts written next to the records: configured hosts, records
      whose status is success, and entries of the failure list. */
  function JsonCountsOf(servers: seq<HostConfig>, collected: seq<(string, HostRecord)>,
                        failures: seq<FailureEntry>): (c: JsonCounts)
    ensures c.successfulConnections <= |collected|
  {
    JsonCounts(|servers|, SuccessCount(collected), |failures|)
  }

  /** With distinct host names the JSON counts of a run add up: every host
      checked is either a successful or a failed connection. */
  lemma JsonCountsBalance(servers: seq<HostConfig>, visits: seq<Visit>)
    requires |visits| == |servers| && DistinctNames(servers)
    ensures var c := JsonCountsOf(servers, Collected([], servers, visits), Failures(servers, visits));
      c.successfulConnections + c.failedConnections == c.serversChecked
  {
    CountsBalance(servers, visits);
  }

  // ---------------------------------------------------------------------------
  // Root file system

  /** The position of the first file system mounted on `/`, if there is one. */
  function FirstRoot(disks: seq<DiskEntry>): (r: Option<nat>)
    ensures r.Some? ==> r.value < |disks| && disks[r.value].mountedOn == "/"
    ensures r.Some? ==> forall j :: 0 <= j < r.value ==> disks[j].mountedOn != "/"
    ensures r.None? <==> forall j :: 0 <= j < |disks| ==> disks[j].mountedOn != "/"
  {
    if |disks| == 0 then None
    else if disks[0].mountedOn == "/" then Some(0)
    else
      match FirstRoot(disks[1..])
      case None => None
      case Some(i) => Some(i + 1)
  }

  /** The first `/` entry is the only one matching both conditions. */
  lemma FirstRootUnique(disks: seq<DiskEntry>, i: nat)
    requires i < |disks| && disks[i].mountedOn == "/"
    requires forall j :: 0 <= j < i ==> disks[j].mountedOn != "/"
    ensures FirstRoot(disks) == Some(i)
  {
  }

  // ---------------------------------------------------------------------------
  // CSV

  /** A CSV cell: text, or a number as Python would print it. */
  datatype Cell = Text(text: string) | Num(number: Number)

  const CsvColumns: seq<string> := [
    "server_name", "timestamp", "status", "hostname",
    "load_1min", "load_5min", "load_15min", "uptime_string",
    "memory_total_mb", "memory_used_mb", "memory_free_mb",
    "memory_available_mb", "memory_usage_percent",
    "swap_total_mb", "swap_used_mb", "swap_free_mb",
    "root_disk_usage_percent"]

  function CsvHeader(): (row: seq<Cell>)
    ensures |row| == |CsvColumns| == 17
    ensures forall i :: 0 <= i < 17 ==> row[i] == Text(CsvColumns[i])
  {
    seq(|CsvColumns|, i requires 0 <= i < |CsvColumns| => Text(CsvColumns[i]))
  }

  /** The root file system's use percentage as the CSV writes it: the text
      kept by the `df` parser, or the integer 0 when nothing is mounted on `/`. */
  function RootCell(disks: seq<DiskEntry>): Cell {
    match FirstRoot(disks)
    case Some(i) => Text(disks[i].usePercent)
    case None => Num(Int(0))
  }

  /** The scan over the file systems that stops at the first `/`. */
  method RootDiskUsage(disks: seq<DiskEntry>) returns (cell: Cell)
    ensures cell == RootCell(disks)
  {
    cell := Num(Int(0));
    for i := 0 to |disks|
      invariant forall j :: 0 <= j < i ==> disks[j].mountedOn != "/"
    {
      if disks[i].mountedOn == "/" {
        FirstRootUnique(disks, i);
        cell := Text(disks[i].usePercent);
        return;
      }
    }
  }

  /** `memory.get(key, 0)` */
  function MemoryCell(memory: map<string, Number>, key: string): Cell {
    Num(if key in memory then memory[key] else Int(0))
  }

  /** The dictionary keys of the memory and swap columns, in header order. */
  const MemoryColumnKeys: seq<string> := [MemoryTotal, MemoryUsed, MemoryFree, MemoryAvailable,
                                          MemoryPercent, SwapTotal, SwapUsed, SwapFree]

  /** The memory and swap columns, in header order: each holds the figure
      under its key, or 0 when the dictionary lacks it. */
  function MemoryCells(memory: map<string, Number>): (cells: seq<Cell>)
    ensures |cells| == |MemoryColumnKeys| == 8
    ensures forall i :: 0 <= i < 8 ==>
      cells[i] == Num(if MemoryColumnKeys[i] in memory then memory[MemoryColumnKeys[i]] else Int(0))
  {
    [MemoryCell(memory, MemoryTotal), MemoryCell(memory, MemoryUsed),
     MemoryCell(memory, MemoryFree), MemoryCell(memory, MemoryAvailable),
     MemoryCell(memory, MemoryPercent), MemoryCell(memory, SwapTotal),
     MemoryCell(memory, SwapUsed), MemoryCell(memory, SwapFree)]
  }

  /** The placeholders written for a host that could not be reached. */
  function FailedCells(): (cells: seq<Cell>)
    ensures |cells| == 13
  {
    [Num(Int(0)), Num(Int(0)), Num(Int(0)), Text("Unknown")] + seq(9, _ => Num(Int(0)))
  }

  /** The CSV row of one record. */
  function CsvRow(name: string, r: HostRecord): seq<Cell> {
    [Text(name), Text(r.timestamp), Text(r.Status()), Text(r.hostname)]
    + match r.report
      case Healthy(u, disks, memory, _, _, _) =>
        [Num(u.load1), Num(u.load5), Num(u.load15), Text(u.uptimeString)]
        + MemoryCells(memory) + [RootCell(disks)]
      case Unreachable(_) => FailedCells()
  }

  /** The whole CSV file: the header, then one row per record in collection
      order. */
  function CsvTable(collected: seq<(string, HostRecord)>): seq<seq<Cell>> {
    [CsvHeader()] + seq(|collected|, i requires 0 <= i < |collected| => CsvRow(collected[i].0, collected[i].1))
  }

  /** Writes the rows one record at a time. */
  method SaveToCsv(collected: seq<(string, HostRecord)>) returns (rows: seq<seq<Cell>>)
    ensures rows == CsvTable(collected)
  {
    rows := [CsvHeader()];
    for k := 0 to |collected|
      invariant |rows| == k + 1
      invariant rows == CsvTable(collected[..k])
    {
      var (name, data) := collected[k];
      var row := [Text(name), Text(data.timestamp), Text(data.Status()), Text(data.hostname)];
      match data.report {
        case Healthy(u, disks, memory, _, _, _) =>
          var root := RootDiskUsage(disks);
          row := row + [Num(u.load1), Num(u.load5), Num(u.load15), Text(u.uptimeString)]
                     + MemoryCells(memory) + [root];
        case Unreachable(_) =>
          row := row + FailedCells();
      }
      assert row == CsvRow(name, data);
      CsvTableStep(collected, k);
      rows := rows + [row];
    }
    assert collected[..|collected|] == collected;
  }

  lemma CsvTableStep(collected: seq<(string, HostRecord)>, k: nat)
    requires k < |collected|
    ensures CsvTable(collected[..k + 1]) == CsvTable(collected[..k]) + [CsvRow(collected[k].0, collected[k].1)]
  {
  }

  /** Every row has the header's 17 cells. A row starts with the host name,
      the timestamp, the status and the host name or address. A failed host's
      row holds zeros and "Unknown"; a healthy host's row holds its loads, its
      uptime text, each memory figure or 0 when missing, and its root use
      percentage. */
  lemma CsvRowContents(name: string, r: HostRecord)
    ensures var row := CsvRow(name, r);
      && |row| == 17
      && row[..4] == [Text(name), Text(r.timestamp), Text(r.Status()), Text(r.hostname)]
      && (r.Status() == "failed" ==>
            row[4..] == [Num(Int(0)), Num(Int(0)), Num(Int(0)), Text("Unknown"),
                         Num(Int(0)), Num(Int(0)), Num(Int(0)), Num(Int(0)), Num(Int(0)),
                         Num(Int(0)), Num(Int(0)), Num(Int(0)), Num(Int(0))])
      && (r.Status() == "success" ==>
            && row[4] == Num(r.report.uptime.load1) && row[5] == Num(r.report.uptime.load5)
            && row[6] == Num(r.report.uptime.load15) && row[7] == Text(r.report.uptime.uptimeString)
            && row[8] == MemoryCell(r.report.memory, MemoryTotal)
            && row[9] == MemoryCell(r.report.memory, MemoryUsed)
            && row[10] == MemoryCell(r.report.memory, MemoryFree)
            && row[11] == MemoryCell(r.report.memory, MemoryAvailable)
            && row[12] == MemoryCell(r.report.memory, MemoryPercent)
            && row[13] == MemoryCell(r.report.memory, SwapTotal)
            && row[14] == MemoryCell(r.report.memory, SwapUsed)
            && row[15] == MemoryCell(r.report.memory, SwapFree)
            && row[16] == RootCell(r.report.disks))
  {
    var row := CsvRow(name, r);
    if r.report.Unreachable? {
      assert row[4..] == FailedCells();
    } else {
      assert row[8..16] == MemoryCells(r.report.memory);
    }
  }

  /** Each memory cell sits under the column named after its key, with the
      `_mb` suffix on every figure but the percentage. */
  lemma MemoryColumnsNamed()
    ensures forall i :: 0 <= i < 8 ==>
      CsvColumns[8 + i] == MemoryColumnKeys[i] + (if MemoryColumnKeys[i] == MemoryPercent then "" else "_mb")
  {
  }

  /** The table has a header and one row per record, each as wide as the
      header, naming the records in collection order. */
  lemma CsvTableShape(collected: seq<(string, HostRecord)>)
    ensures var t := CsvTable(collected);
      && |t| == |collected| + 1 && t[0] == CsvHeader()
      && forall i :: 1 <= i < |t| ==> |t[i]| == |t[0]| && t[i][0] == Text(collected[i - 1].0)
  {
    var t := CsvTable(collected);
    forall i | 1 <= i < |t|
      ensures |t[i]| == |t[0]| && t[i][0] == Text(collected[i - 1].0)
    {
      CsvRowContents(collected[i - 1].0, collected[i - 1].1);
    }
  }

  /** A host whose root file system is listed gets the use percentage of the
      first `/` entry; one without gets 0. */
  lemma RootCellRule(disks: seq<DiskEntry>)
    ensures (exists i :: 0 <= i < |disks| && disks[i].mountedOn == "/") ==>
      exists i :: 0 <= i < |disks| && disks[i].mountedOn == "/"
        && (forall j :: 0 <= j < i ==> disks[j].mountedOn != "/")
        && RootCell(disks) == Text(disks[i].usePercent)
    ensures (forall i :: 0 <= i < |disks| ==> disks[i].mountedOn != "/") ==> RootCell(disks) == Num(Int(0))
  {
    var r := FirstRoot(disks);
    if r.Some? {
      assert disks[r.value].mountedOn == "/";
    }
  }

  // ---------------------------------------------------------------------------
  // Console summary

  /** How a load average is judged. */
  datatype LoadBand = Good | High | Critical

  function Band(load: Number): LoadBand {
    var x := load.Value();
    if x < 1.0 then Good else if x < 2.0 then High else Critical
  }

  function Severity(b: LoadBand): nat {
    match b
    case Good => 0
    case High => 1
    case Critical => 2
  }

  /** The bands partition the load values at 1.0 and 2.0; a load of exactly
      2.0 is already critical. */
  lemma BandBounds(load: Number)
    ensures Band(load) == Good <==> load.Value() < 1.0
    ensures Band(load) == High <==> 1.0 <= load.Value() < 2.0
    ensures Band(load) == Critical <==> 2.0 <= load.Value()
  {
  }

  /** A higher load is never judged better. */
  lemma BandMonotone(a: Number, b: Number)
    requires a.Value() <= b.Value()
    ensures Severity(Band(a)) <= Severity(Band(b))
  {
  }

  /** The block printed for one record. */
  datatype HostLine =
    | Online(name: string, hostname: string, loads: (Number, Number, Number),
             bands: (LoadBand, LoadBand, LoadBand), memUsed: Number, memTotal: Number,
             memPercent: Number, rootDisk: string)
    | Offline(name: string, hostname: string, error: string)

  datatype Summary = Summary(total: nat, successful: nat, failed: int, successRate: real, hosts: seq<HostLine>)

  /** `memory.get(key, 0)` */
  function MemoryFigure(memory: map<string, Number>, key: string): Number {
    if key in memory then memory[key] else Int(0)
  }

  /** The root file system's use percentage, or "N/A". */
  function RootDiskText(disks: seq<DiskEntry>): string {
    match FirstRoot(disks)
    case Some(i) => disks[i].usePercent
    case None => "N/A"
  }

  function HostLineOf(name: string, r: HostRecord): HostLine {
    match r.report
    case Healthy(u, disks, memory, _, _, _) =>
      Online(name, r.hostname, (u.load1, u.load5, u.load15),
             (Band(u.load1), Band(u.load5), Band(u.load15)),
             MemoryFigure(memory, MemoryUsed), MemoryFigure(memory, MemoryTotal),
             MemoryFigure(memory, MemoryPercent), RootDiskText(disks))
    case Unreachable(error) => Offline(name, r.hostname, error)
  }

  /** The summary printed after a run. It is only printed when at least one
      host is configured, so the success rate is always defined. */
  function SummaryOf(servers: seq<HostConfig>, collected: seq<(string, HostRecord)>): Summary
    requires |servers| > 0
  {
    var successful := SuccessCount(collected);
    Summary(|servers|, successful, |servers| - successful,
            successful as real / |servers| as real * 100.0,
            seq(|collected|, i requires 0 <= i < |collected| => HostLineOf(collected[i].0, collected[i].1)))
  }

  /** Each record is printed as online exactly when its status is success,
      with each load banded on its own; an offline record shows the error it
      holds. */
  lemma SummaryLines(servers: seq<HostConfig>, collected: seq<(string, HostRecord)>, i: nat)
    requires |servers| > 0 && i < |collected|
    ensures var h := SummaryOf(servers, collected).hosts[i];
      var r := collected[i].1;
      && h.name == collected[i].0 && h.hostname == r.hostname
      && (h.Online? <==> r.Status() == "success")
      && (h.Online? ==> h.bands == (Band(h.loads.0), Band(h.loads.1), Band(h.loads.2))
                        && h.loads == (r.report.uptime.load1, r.report.uptime.load5, r.report.uptime.load15))
      && (h.Offline? ==> h.error == r.report.error)
  {
  }

  /** The summary's figures agree with each other whenever no more records
      succeeded than hosts were configured: the failures are the hosts that
      did not succeed, the success rate is a percentage, and every record is
      listed. */
  lemma SummaryFigures(servers: seq<HostConfig>, collected: seq<(string, HostRecord)>)
    requires |servers| > 0 && SuccessCount(collected) <= |servers|
    ensures var s := SummaryOf(servers, collected);
      && s.successful + s.failed == s.total
      && 0 <= s.failed
      && 0.0 <= s.successRate <= 100.0
      && |s.hosts| == |collected|
  {
    RateBounds(SuccessCount(collected), |servers|);
  }

  /** After a run of a new monitor the summary's figures agree with each
      other and list one block per distinct host name. With distinct host
      names the failures it prints are the entries of the failure list. */
  lemma SummaryOfRun(servers: seq<HostConfig>, visits: seq<Visit>)
    requires |visits| == |servers| && |servers| > 0
    ensures var s := SummaryOf(servers, Collected([], servers, visits));
      && s.successful + s.failed == s.total
      && 0 <= s.failed
      && 0.0 <= s.successRate <= 100.0
      && |s.hosts| == |Distinct(Names(servers))|
      && (DistinctNames(servers) ==> s.failed == |Failures(servers, visits)|)
  {
    var d := Collected([], servers, visits);
    CollectedKeys(servers, visits);
    assert |d| == |Keys(d)|;
    SummaryFigures(servers, d);
    if DistinctNames(servers) {
      CountsBalance(servers, visits);
    }
  }

  lemma RateBounds(n: nat, total: nat)
    requires 0 < total && n <= total
    ensures 0.0 <= n as real / total as real * 100.0 <= 100.0
  {
    assert n as real / total as real <= 1.0;
  }

  // ---------------------------------------------------------------------------
  // Dashboard

  /** The seven parallel arrays plotted on the dashboard. */
  datatype Chart = Chart(servers: seq<string>, load1: seq<Number>, load5: seq<Number>, load15: seq<Number>,
                         memory: seq<Number>, disk: seq<Number>, statuses: seq<int>)

  /** Nothing is drawn without records; a root use percentage that `float()`
      rejects abandons the drawing. */
  datatype Dashboard = NoData | DrawFailed | Drawn(chart: Chart)

  /** The root use percentage as plotted: 0 when nothing is mounted on `/`,
      the percentage as a float otherwise, and a failure when it is not a
      number. */
  function RootDiskValue(disks: seq<DiskEntry>): Option<Number> {
    match FirstRoot(disks)
    case None => Some(Int(0))
    case Some(i) =>
      match ParseFloat(disks[i].usePercent)
      case Some(v) => Some(Float(v))
      case None => None
  }

  /** One bar of each chart: the label, the three loads, the memory and root
      use percentages, and the status. */
  type Column = (string, Number, Number, Number, Number, Number, int)

  /** The dashboard column of one record, or a failure. */
  function ChartColumn(name: string, r: HostRecord): (c: Option<Column>)
    ensures c.Some? ==> c.value.0 == name
    ensures c.Some? ==> (c.value.6 == 1 <==> r.Status() == "success") && (c.value.6 == 0 <==> r.Status() == "failed")
    ensures c.None? <==> r.report.Healthy? && RootDiskValue(r.report.disks).None?
  {
    match r.report
    case Healthy(u, disks, memory, _, _, _) =>
      (match RootDiskValue(disks)
       case Some(disk) => Some((name, u.load1, u.load5, u.load15, MemoryFigure(memory, MemoryPercent), disk, 1))
       case None => None)
    case Unreachable(_) => Some((name, Int(0), Int(0), Int(0), Int(0), Int(0), 0))
  }

  function Columns(collected: seq<(string, HostRecord)>): (cols: seq<Option<Column>>)
    ensures |cols| == |collected|
  {
    seq(|collected|, i requires 0 <= i < |collected| => ChartColumn(collected[i].0, collected[i].1))
  }

  function AddColumn(c: Chart, col: Column): Chart {
    Chart(c.servers + [col.0], c.load1 + [col.1], c.load5 + [col.2], c.load15 + [col.3],
          c.memory + [col.4], c.disk + [col.5], c.statuses + [col.6])
  }

  predicate Aligned(c: Chart, n: nat) {
    |c.servers| == |c.load1| == |c.load5| == |c.load15| == |c.memory| == |c.disk| == |c.statuses| == n
  }

  /** The bar at position `i` of every chart. */
  function ColumnAt(c: Chart, i: nat): Column
    requires Aligned(c, |c.servers|) && i < |c.servers|
  {
    (c.servers[i], c.load1[i], c.load5[i], c.load15[i], c.memory[i], c.disk[i], c.statuses[i])
  }

  /** The charts made of the columns, or `None` when one of them failed. Each
      array has one element per column, in order, and the bars at a position
      are that column. */
  function ChartOf(cols: seq<Option<Column>>): (r: Option<Chart>)
    ensures r.Some? <==> forall i :: 0 <= i < |cols| ==> cols[i].Some?
    ensures r.Some? ==> Aligned(r.value, |cols|)
    ensures r.Some? ==> forall i :: 0 <= i < |cols| ==> cols[i] == Some(ColumnAt(r.value, i))
    decreases |cols|
  {
    if |cols| == 0 then Some(Chart([], [], [], [], [], [], []))
    else
      var n := |cols| - 1;
      match ChartOf(cols[..n])
      case None => None
      case Some(c) =>
        match cols[n]
        case None => None
        case Some(col) => Some(AddColumn(c, col))
  }

  function DashboardOf(collected: seq<(string, HostRecord)>): Dashboard {
    if collected == [] then NoData
    else
      match ChartOf(Columns(collected))
      case Some(c) => Drawn(c)
      case None => DrawFailed
  }

  /** Builds the arrays one record at a time. */
  method VisualizeData(collected: seq<(string, HostRecord)>) returns (d: Dashboard)
    ensures d == DashboardOf(collected)
  {
    if collected == [] {
      return NoData;
    }
    ghost var cols := Columns(collected);
    var servers, load1, load5, load15, memory, disk, statuses := [], [], [], [], [], [], [];
    for k := 0 to |collected|
      invariant ChartOf(cols[..k]) == Some(Chart(servers, load1, load5, load15, memory, disk, statuses))
    {
      var (name, data) := collected[k];
      ghost var before := Chart(servers, load1, load5, load15, memory, disk, statuses);
      ghost var col: Column;
      servers := servers + [name];
      match data.report {
        case Healthy(u, disks, mem, _, _, _) =>
          var root := RootDiskValue(disks);
          if root.None? {
            NoChartWithout(cols, k);
            return DrawFailed;
          }
          statuses := statuses + [1];
          load1, load5, load15 := load1 + [u.load1], load5 + [u.load5], load15 + [u.load15];
          memory := memory + [MemoryFigure(mem, MemoryPercent)];
          disk := disk + [root.value];
          col := (name, u.load1, u.load5, u.load15, MemoryFigure(mem, MemoryPercent), root.value, 1);
        case Unreachable(_) =>
          statuses := statuses + [0];
          load1, load5, load15 := load1 + [Int(0)], load5 + [Int(0)], load15 + [Int(0)];
          memory := memory + [Int(0)];
          disk := disk + [Int(0)];
          col := (name, Int(0), Int(0), Int(0), Int(0), Int(0), 0);
      }
      assert cols[k] == Some(col);
      ChartStep(cols, k, before, col);
    }
    assert cols[..|collected|] == cols;
    d := Drawn(Chart(servers, load1, load5, load15, memory, disk, statuses));
  }

  lemma ChartStep(cols: seq<Option<Column>>, k: nat, c: Chart, col: Column)
    requires k < |cols| && ChartOf(cols[..k]) == Some(c) && cols[k] == Some(col)
    ensures ChartOf(cols[..k + 1]) == Some(AddColumn(c, col))
  {
    assert cols[..k + 1][..k] == cols[..k];
  }

  lemma NoChartWithout(cols: seq<Option<Column>>, k: nat)
    requires k < |cols| && cols[k].None?
    ensures ChartOf(cols).None?
  {
  }

  /** A drawn dashboard has one bar per record in every chart, labelled with
      the record's key, in collection order. */
  lemma ChartServers(collected: seq<(string, HostRecord)>)
    requires DashboardOf(collected).Drawn?
    ensures var c := DashboardOf(collected).chart;
      Aligned(c, |collected|) && c.servers == Keys(collected)
  {
    var cols := Columns(collected);
    var c := DashboardOf(collected).chart;
    forall j | 0 <= j < |collected| ensures c.servers[j] == collected[j].0 {
      assert cols[j] == ChartColumn(collected[j].0, collected[j].1) == Some(ColumnAt(c, j));
    }
  }

  /** On a drawn dashboard, a host's status bar is 1 exactly when its record
      is a success, and a failed host is drawn with zeros everywhere. */
  lemma ChartStatus(collected: seq<(string, HostRecord)>, i: nat)
    requires DashboardOf(collected).Drawn? && i < |collected|
    ensures var c := DashboardOf(collected).chart;
      && (c.statuses[i] == 1 <==> collected[i].1.Status() == "success")
      && (c.statuses[i] == 0 <==> collected[i].1.Status() == "failed")
      && (c.statuses[i] == 0 ==>
            c.load1[i] == c.load5[i] == c.load15[i] == c.memory[i] == c.disk[i] == Int(0))
  {
    var cols := Columns(collected);
    var c := DashboardOf(collected).chart;
    assert cols[i] == ChartColumn(collected[i].0, collected[i].1) == Some(ColumnAt(c, i));
  }

  /** Nothing is drawn exactly when there are no records, and the drawing is
      abandoned exactly when some healthy host's root use percentage is not a
      number. */
  lemma DashboardOutcome(collected: seq<(string, HostRecord)>)
    ensures DashboardOf(collected) == NoData <==> collected == []
    ensures DashboardOf(collected) == DrawFailed <==>
      collected != [] && exists i :: 0 <= i < |collected| && collected[i].1.report.Healthy?
                                     && RootDiskValue(collected[i].1.report.disks).None?
  {
    var cols := Columns(collected);
    if DashboardOf(collected) == DrawFailed {
      var i :| 0 <= i < |cols| && cols[i].None?;
      assert cols[i] == ChartColumn(collected[i].0, collected[i].1);
    }
    if i :| 0 <= i < |collected| && collected[i].1.report.Healthy?
                                  && RootDiskValue(collected[i].1.report.disks).None? {
      assert cols[i] == ChartColumn(collected[i].0, collected[i].1);
    }
  }

  // ---------------------------------------------------------------------------
  // Exit code

  /** The process fails only when there were records and none succeeded. */
  function ExitCode(results: seq<(string, HostRecord)>): (code: int)
    ensures code == 1 <==> |results| > 0 && forall i :: 0 <= i < |results| ==> results[i].1.Status() == "failed"
    ensures code == 0 || code == 1
  {
    if SuccessCount(results) == 0 && |results| > 0 then 1 else 0
  }

  /** `main`: load the hosts of the configuration file (with the intended
      loader, see `LoadServers`), run a new monitor over them and turn its
      results into the exit code. */
  method RunMain(config: ConfigFile, visits: seq<Visit>, enableVisualization: bool) returns (code: int)
    requires |visits| == |LoadServers(config)|
    ensures code == ExitCode(RunResults(LoadServers(config), visits))
  {
    var servers := LoadServers(config);
    var results, dashboard := RunNewMonitor(servers, visits, enableVisualization);
    code := ExitCode(results);
  }

  /** When no configured host could be reached, the process fails. */
  lemma ExitOneWhenAllFail(servers: seq<HostConfig>, visits: seq<Visit>)
    requires |visits| == |servers| && |servers| > 0
    requires forall i :: 0 <= i < |visits| ==> !visits[i].outcome.Connected?
    ensures ExitCode(RunResults(servers, visits)) == 1
  {
    var names, records := Names(servers), Records(servers, visits);
    var d := Collected([], servers, visits);
    AllRecordsFailed(servers, visits);
    PutAllKeys(names, records);
    assert names[0] in Distinct(names);
    assert |d| > 0;
    forall i | 0 <= i < |d| ensures d[i].1.Status() == "failed" {
      assert d[i] in d;
      PutAllValues(names, records, d[i]);
    }
  }

  lemma AllRecordsFailed(servers: seq<HostConfig>, visits: seq<Visit>)
    requires |visits| == |servers|
    requires forall i :: 0 <= i < |visits| ==> !visits[i].outcome.Connected?
    ensures forall r :: r in Records(servers, visits) ==> r.Status() == "failed"
  {
    var records := Records(servers, visits);
    forall r | r in records ensures r.Status() == "failed" {
      var j :| 0 <= j < |records| && records[j] == r;
      ConnectedIsHealthy(servers[j], visits[j]);
    }
  }

  /** When a host answered and no later host has the same name, the process
      succeeds. */
  lemma ExitZeroWhenOneAnswers(servers: seq<HostConfig>, visits: seq<Visit>, i: nat)
    requires |visits| == |servers| && i < |servers| && visits[i].outcome.Connected?
    requires forall j :: i < j < |servers| ==> servers[j].name != servers[i].name
    ensures ExitCode(RunResults(servers, visits)) == 0
  {
    var d := Collected([], servers, visits);
    var r := HostRecordOf(servers[i], visits[i]);
    LastVisitWins([], servers, visits, i);
    LookupFound(d, servers[i].name, r);
    ConnectedIsHealthy(servers[i], visits[i]);
    var k :| 0 <= k < |d| && d[k] == (servers[i].name, r);
    assert d[k].1.Status() == "success";
  }

  /** With distinct host names the exit code is 1 exactly when hosts were
      configured and none of them could be reached. */
  lemma ExitCodeRule(servers: seq<HostConfig>, visits: seq<Visit>)
    requires |visits| == |servers| && DistinctNames(servers)
    ensures ExitCode(RunResults(servers, visits)) == 1
        <==> |servers| > 0 && forall i :: 0 <= i < |visits| ==> !visits[i].outcome.Connected?
  {
    if |servers| > 0 {
      if forall i :: 0 <= i < |visits| ==> !visits[i].outcome.Connected? {
        ExitOneWhenAllFail(servers, visits);
      } else {
        var i :| 0 <= i < |visits| && visits[i].outcome.Connected?;
        ExitZeroWhenOneAnswers(servers, visits, i);
      }
    }
  }
}
