# Remote server health dashboard, modelled in Dafny

This project models the core of a small collection of Python operations scripts.

The main one is the remote server health monitor in `test.py`. For every configured host it:

- opens an SSH connection;
- runs `uptime`, `df -h` and `free -m`;
- parses their output into a record;
- keeps the records in an insertion-ordered dictionary keyed by host name, and a list of failed connections;
- finally writes JSON counts and a CSV table, prints a summary, plots a dashboard and sets the process exit code.

Three small lab scripts from `Day2/` are modelled beside it:

- the input validators for a port and a service name (`Lab9_Input_validation.py`);
- the CPU health check with its test vectors (`check_disk.py`);
- the deployment readiness rule (`is_ready_for_deployment.py`).

Modules, one per file:

| file | module | what it holds |
|---|---|---|
| `wrappers.dfy` | `Wrappers` | `Option` |
| `text.dfy` | `PyText` | The parts of Python's `str`, `int()`, `float()` and `round()` that the parsers use: `strip`, `split()`, `split(sep)`, `rstrip(c)`, `isdigit`, `int()`, `float()` on decimal text, `round(x, 2)`. Numbers keep Python's `int`/`float` distinction. |
| `ordered_dict.dfy` | `OrderedDict` | A Python `dict` as a sequence of pairs. Insertion order is kept, and assigning to a present key replaces its value in place. |
| `parsers.dfy` | `Parsers` | `parse_uptime`, `parse_disk_usage` and `parse_memory_usage`. The two loops of the source are methods proved against specification functions. For each parser there is a renderer of the text the command prints, with a round-trip lemma. |
| `monitor.dfy` | `Monitor` | `execute_remote_command`, `collect_server_data` and the host loop of `run_health_check`. The `HealthMonitor` class holds the fields `servers`, `collected_data` and `failed_connections`, which its methods update. The SSH client is a class with a ghost `closed` flag. |
| `reports.dfy` | `Reports` | The JSON counts, the CSV rows, the console summary, the dashboard's parallel arrays and the exit code of `main`. |
| `validation.dfy` | `Validation` | `read_port`, `_valid_service_name` and `read_service_name`. |
| `check_disk.dfy` | `CheckDisk` | `is_server_healthy` and the loop over its test vectors. |
| `deployment.dfy` | `Deployment` | `is_ready_for_deployment`. |

What the SSH library and the clock would supply is an input of the model. A `Visit` says how the connection attempt ended: connected, with what each of the three commands printed or raised, or failed with an authentication, SSH or other error. It also carries the two timestamps taken during the visit. Keyboard input is a sequence of typed lines, so "asks again" becomes "reads the next line", and running out of lines gives `None`. The source asks again by recursing, so its depth of retries is bounded; the model's is not (see "## Left out").

## Model

| member | source | states |
|---|---|---|
| PyText.Strip | test.py:88-89 | `strip()` returns a string with no whitespace at either end, no longer than its input |
| PyText.StripIgnoresPadding | test.py:88-89 | whitespace around a string never changes what `strip()` returns |
| PyText.StripAllSpace | Day2/Lab9_Input_validation.py:8-9 | `strip()` is empty exactly when the input is all whitespace (the emptiness checks after `strip()`) |
| PyText.SplitWhitespace | test.py:121 | every field of `split()` is non-empty and free of whitespace |
| PyText.SplitWhitespaceJoin | test.py:121 | `split()` gives back the words of a space-joined line |
| PyText.SplitWhitespaceSpacePrefix | test.py:121 | leading whitespace never changes the fields `split()` finds |
| PyText.IndexOf | test.py:101 | the position found is an occurrence, and no earlier position is one; `None` means there is no occurrence |
| PyText.SplitOnJoin | test.py:101 | `split(sep)` loses nothing: joining the pieces with `sep` gives the input back, and no piece contains `sep` |
| PyText.SplitOnJoinInverse | test.py:118 | `split(c)` undoes `c.join(parts)` when no part contains `c` |
| PyText.SplitOnConcat | test.py:141 | splitting on `c` text glued with `c` splits each side separately |
| PyText.RStripChar | test.py:128 | `rstrip('%')` keeps a prefix, removes only `%` characters, and leaves no `%` at the end |
| PyText.RStripCharAppended | test.py:128 | `rstrip('%')` undoes appending one `%` to text that does not end in `%` |
| PyText.ParseIntShowNat | test.py:147-149 | `int()` reads back what `str()` writes |
| PyText.ParseIntShowNegative | test.py:147-149 | `int()` reads back a negative numeral |
| PyText.ParseIntDigits | Day2/Lab9_Input_validation.py:12-15 | on a digit string, `int()` gives the numeral's value |
| PyText.ParseFloatOfInt | test.py:104-106 | `float()` accepts every numeral `int()` accepts, with the same value |
| PyText.ParseFloatDecimal | test.py:104-106 | `float()` reads `w.f` as the decimal it denotes |
| PyText.ParseFloatShowCentis | test.py:104-106 | `float()` reads a two-decimal load average back exactly |
| PyText.ScalingIsPow10 | test.py:104-106 | scaling by ten one factor at a time, as the exponent of `float()` does, multiplies or divides by the power of ten |
| PyText.RoundHalfEven | test.py:159-161 | the nearest integer: strictly within one half of the value unless the value lies exactly halfway, and then the even neighbour |
| PyText.Round2 | test.py:159-161 | `round(x, 2)` is a whole number of hundredths, strictly within half a hundredth of `x` unless `x` lies exactly halfway, and then the even number of hundredths |
| PyText.Round2Exact | test.py:159-161 | `round(x, 2)` leaves a value with at most two decimals alone |
| PyText.Round2Ties | test.py:159-161 | ties go to the even neighbour (0.125 gives 0.12, 0.375 gives 0.38) |
| OrderedDict.Lookup | test.py:467 | a key reads as absent exactly when it is not among the keys |
| OrderedDict.PutKeys | test.py:467 | `d[k] = v` keeps the key order; a new key goes last |
| OrderedDict.PutLookup | test.py:467 | after `d[k] = v`, `k` reads `v` and every other key is unchanged |
| OrderedDict.PutDistinct | test.py:467 | assignment never creates a second entry for a key |
| OrderedDict.PutAllKeys | test.py:464-467 | after a run of assignments, the keys are the distinct keys in order of first assignment |
| OrderedDict.PutAllLast | test.py:464-467 | the last assignment to a key is the value that stays |
| OrderedDict.PutAllUntouched | test.py:464-467 | a key never assigned keeps its old value |
| OrderedDict.PutAllDistinct | test.py:464-467 | with no key assigned twice, the dictionary is exactly the pairs in assignment order |
| OrderedDict.PutAllSameKey | test.py:464-467 | assigning one key twice leaves a single entry with the second value |
| OrderedDict.PutAllValues | test.py:464-467 | every value in a dictionary built from nothing was one of the values assigned |
| OrderedDict.LookupFound | test.py:467 | a value that can be read back is stored as an entry under that key |
| Parsers.ReadLoads | test.py:102-108 | fewer than three fields give the default (integer zeros and "Unknown"); with three or more, the result differs from the default exactly when the first three stripped fields all parse as floats, and then holds those floats and the given text |
| Parsers.ReadLoadsIgnoresExtra | test.py:104-106 | fields after the third are never read |
| Parsers.ParseUptime | test.py:97-111 | empty output gives the default; otherwise the result is the default, or three floats with the stripped text before the first `load average:` |
| Parsers.UptimeWithoutToken | test.py:101-107 | output without `load average:` gives three float zeros and the whole stripped output as the uptime text |
| Parsers.UptimeAfterToken | test.py:101-107 | when the first `load average:` follows `pre`, the loads come from the comma fields of the stripped text between it and any second token, and the text is `pre` stripped |
| Parsers.UptimeOfOutput | test.py:101-108 | for any output holding the token, the result is `ReadLoads` of the comma fields after its first occurrence, with the stripped text before it |
| Parsers.UptimeOfLine | test.py:97-108 | parsing a rendered `uptime` line gives back the three averages and the stripped text before the token |
| Parsers.UptimeOfLongLine | test.py:101-108 | the same round trip holds when further comma fields follow the third average |
| Parsers.CentisFacts | test.py:104-106 | an average printed with two decimals is an unpadded numeral that `float()` reads back exactly |
| Parsers.DiskLine | test.py:120-130 | a kept line gives whitespace-free file-system, mount and percentage fields, and the percentage does not end in `%` |
| Parsers.DiskLineKept | test.py:120-122 | exactly the non-blank lines that do not start with `tmpfs` or `udev` and have at least six fields give an entry |
| Parsers.CollectAppend | test.py:119-131 | lines are read one at a time: the entries of two runs of lines are the entries of each, concatenated |
| Parsers.DiskUsage | test.py:113-135 | `parse_disk_usage`: empty output gives no entries, otherwise the kept entries of the lines after the header in order; its partners are DiskUsageSkipsHeader, DiskLineKept and the round trip DiskUsageOfTable |
| Parsers.ParseDiskUsage | test.py:113-135 | the loop appends exactly the entries of the lines after the header |
| Parsers.DiskUsageSkipsHeader | test.py:118 | the first line is skipped whatever it says |
| Parsers.DfFieldsWords | test.py:121 | a printed `df` row splits into its six fields |
| Parsers.DiskLineOfRow | test.py:120-130 | a printed row reads back as its entry, unless it is a tmpfs or udev row |
| Parsers.DiskLineIndented | test.py:120 | the tmpfs/udev test looks at the unstripped line, so an indented tmpfs row is kept |
| Parsers.DiskUsageOfTable | test.py:113-132 | parsing a printed `df` table gives back every entry except the tmpfs and udev ones, in order |
| Parsers.MemoryUsage | test.py:137-165 | the result is empty, or holds at least the four memory keys |
| Parsers.MemoryLines | test.py:139-145 | output with fewer than three lines, the empty output included, gives `{}`; otherwise the second and third lines, split on whitespace, decide the result |
| Parsers.MemoryFieldsRule | test.py:144-165 | the result is `{}` exactly when the `Mem:` line has fewer than four fields, or a figure that is read is not an integer: fields 2-4, field 7 when the line has one, and fields 2-4 of a `Swap:` line of at least four fields |
| Parsers.MemoryFiguresRule | test.py:146-151 | on success, total, used and free are fields 2-4 of the `Mem:` line, and available is field 7, or 0 when the line has at most six fields |
| Parsers.SwapFiguresRule | test.py:152-157 | on success with a `Swap:` line of at least four fields, the swap figures are its fields 2-4 |
| Parsers.ParseMemoryUsage | test.py:137-165 | the method returns exactly the specified dictionary |
| Parsers.BuildMemory | test.py:146-161 | building, updating with swap figures and adding the percentage gives the specified dictionary |
| Parsers.AddPercent | test.py:158-161 | the percentage is added only for a positive total |
| Parsers.AssemblePercent | test.py:146-161 | the stored total and used are the parsed ones; the percentage is present exactly for a positive total and is `round(used / total * 100, 2)` |
| Parsers.MemoryPercentRule | test.py:146-161 | the percentage is present exactly when the parse succeeded with a positive total, and is within 0.005 of the exact ratio |
| Parsers.SwapKeysRule | test.py:152-157 | the three swap keys are present together, exactly when the `Swap:` line has at least four fields |
| Parsers.MemoryIgnoresLaterLines | test.py:141-145 | only the first three lines matter |
| Parsers.FreeTableLines | test.py:141 | a printed `free` table splits into the header and the two figure lines |
| Parsers.MemoryOfTable | test.py:137-162 | parsing a printed `free -m` table gives back all seven figures, plus the percentage when the total is positive |
| Parsers.MemoryQuarterUsed | test.py:158-161 | a machine using a quarter of its memory reports exactly 25.0 |
| Monitor.Names | test.py:464-467 | the names are the hosts' names in configuration order |
| Monitor.DefaultServers | test.py:55-70 | without a configuration file there are two hosts, with distinct names |
| Monitor.LoadServersAsWritten | test.py:46-70 | as written, a configuration file that exists makes the constructor raise, and otherwise the two default hosts are loaded |
| Monitor.LoadServers | test.py:46-70 | `_load_servers` as intended: the file's hosts for a host list, the two defaults otherwise; LoadServersAgrees and ConfigFileRaises relate it to the code as written |
| Monitor.LoadServersAgrees | test.py:46-70 | the intended loader returns the same hosts wherever the loader as written returns |
| Monitor.ConfigFileRaises | test.py:46-54 | for a file listing hosts, the loader as written raises while the intended one returns them; only an empty list reaches the run's "no servers" branch |
| Monitor.ExecuteRemoteCommand | test.py:85-95 | both streams are stripped; an exception gives empty output and its message; a warning is logged exactly when the command ran and its error is non-empty and does not mention `Warning` |
| Monitor.WarningRuleIgnoresPadding | test.py:88-90 | whitespace around standard error never changes the result |
| Monitor.ErrorField | test.py:201-209 | a command's error is stored exactly when it is non-empty and does not mention `Warning` |
| Monitor.ErrorFieldsFollowLog | test.py:90 | a stored error appears exactly when a command that ran logged a warning, or an exception's message reports an error; a stored error is non-empty and never mentions `Warning` |
| Monitor.HostRecordOf | test.py:167-248 | `collect_server_data`'s record: the visit's start time, the host's name and address, and the report of the visit; ConnectedIsHealthy states that it succeeds exactly when the connection did |
| Monitor.FailureOf | test.py:212-244 | the entry appended to `failed_connections`: one for a failed connection, none otherwise; RecordMatchesFailures states that it carries the record's host and error |
| Monitor.RecordMatchesFailures | test.py:212-244 | a record is failed exactly when the visit adds one failure entry, naming the same host with the same error |
| Monitor.AuthenticationFailureText | test.py:212-222 | a rejected login is stored and listed as "Authentication failed" |
| Monitor.ConnectedIsHealthy | test.py:170-211 | a record's status is success exactly when the connection was made, whatever the commands printed |
| Monitor.Records | test.py:464-466 | one record per configured host |
| Monitor.Failures | test.py:218-244 | at most one failure entry per host |
| Monitor.Collected | test.py:464-467 | `collected_data` after the host loop: each record stored under its host name, a repeated name replacing the earlier record in place; CollectedKeys, LastVisitWins and CollectedStep state its keys, values and steps |
| Monitor.CollectedStep | test.py:464-467 | visiting one more host stores its record under its name and appends its failure |
| Monitor.SuccessCount | test.py:255 | the count is zero exactly when every record failed |
| Monitor.CollectedKeys | test.py:464-467 | the collection has one key per distinct host name, in order of first appearance |
| Monitor.LastVisitWins | test.py:467 | the record kept for a name is the last host with that name |
| Monitor.FailuresMatchRecords | test.py:218-244 | each failure entry stands for one failed record |
| Monitor.StoredOnce | test.py:255-256 | when no name repeats, the successes and the failed records add up to all records |
| Monitor.CountsBalance | test.py:254-256 | with distinct host names, successes plus failure entries equal the number of hosts |
| Monitor.DuplicateNameImbalance | test.py:254-256 | with a repeated name the counts do not add up: a host listed twice that answers, then fails, gives one success or failure in total for two hosts |
| Monitor.HealthMonitor.constructor | test.py:23-27 | a new monitor has its servers, no records and no failures |
| Monitor.SshClient.Close | test.py:245-246 | closing marks the client closed |
| Monitor.HealthMonitor.CollectServerData | test.py:167-248 | the record is the visit's record; only a failed connection appends a failure entry; the client is closed on every path |
| Monitor.HealthMonitor.VisitHost | test.py:464-467 | one turn stores the record under the host name and appends its failure |
| Monitor.HealthMonitor.VisitNext | test.py:464-467 | one turn of the host loop keeps the loop invariant |
| Monitor.HealthMonitor.CheckEveryHost | test.py:464-467 | after the loop, the collection is every record stored in order and the failure list gained every failure |
| Monitor.HealthMonitor.RunHealthCheck | test.py:455-482 | no hosts: nothing changes and the result is empty; otherwise the result is the full collection, and `visualize_data` is called exactly when visualisation is on and some host succeeded |
| Reports.RunResults | test.py:459-482 | what `run_health_check` returns for a new monitor: `{}` without hosts, the collection otherwise; RunNewMonitor runs the class to exactly this |
| Reports.RunNewMonitor | test.py:455-482 | a new monitor's run returns nothing for no hosts and the collection otherwise; the dashboard is attempted exactly when visualisation is on and some host succeeded, is then `DashboardOf` the results and is never `NoData` |
| Reports.JsonCountsOf | test.py:252-256 | the success count never exceeds the number of records |
| Reports.JsonCountsBalance | test.py:254-256 | with distinct host names, successful plus failed connections equals servers checked |
| Reports.FirstRoot | test.py:283-286 | the position found is the first file system mounted on `/`; `None` means none is |
| Reports.FirstRootUnique | test.py:442 | the first `/` entry is the one found |
| Reports.CsvHeader | test.py:272-279 | the header has the 17 column names, in order |
| Reports.RootDiskUsage | test.py:282-286 | the scan stopping at the first `/` gives the specified cell |
| Reports.RootCellRule | test.py:282-286 | with a `/` entry, the cell is the first one's use percentage; without one, it is 0 |
| Reports.MemoryCells | test.py:296-303 | eight cells, each the figure stored under its key in header order, or 0 when the key is missing |
| Reports.MemoryColumnsNamed | test.py:275-277 | each memory cell sits under the header column named after its key, with `_mb` on every figure but the percentage |
| Reports.FailedCells | test.py:312-314 | thirteen placeholder cells |
| Reports.CsvRow | test.py:280-315 | one record's row; CsvRowContents states all 17 cells for both branches |
| Reports.CsvTable | test.py:267-315 | the header followed by one row per record; CsvTableShape and CsvTableStep state its shape and growth |
| Reports.SaveToCsv | test.py:267-315 | the rows written are the header, then one row per record in collection order |
| Reports.CsvTableStep | test.py:280 | writing one more record appends its row |
| Reports.CsvRowContents | test.py:280-315 | a row has 17 cells: name, timestamp, status, hostname; then, for a failed host, zeros and "Unknown"; for a healthy host, its three loads, its uptime text, each of the eight memory and swap figures in header order (0 when missing) and its root use percentage |
| Reports.CsvTableShape | test.py:272-315 | the table has a header and one row per record, each as wide as the header and starting with the host name |
| Reports.Band | test.py:439-441 | the judgement of one load; BandBounds and BandMonotone state its thresholds and order |
| Reports.BandBounds | test.py:439-441 | loads below 1.0 are good, below 2.0 high, and from 2.0 critical |
| Reports.BandMonotone | test.py:439-441 | a higher load is never judged better |
| Reports.SummaryOf | test.py:416-453 | `generate_summary_report` as data; SummaryLines, SummaryFigures and SummaryOfRun state its lines and figures |
| Reports.SummaryLines | test.py:428-447 | each record is printed as online exactly when its status is success, with its loads and their bands; otherwise with its error |
| Reports.SummaryFigures | test.py:417-425 | successes plus failures equal the total, and the success rate lies in 0..100 |
| Reports.SummaryOfRun | test.py:416-447 | after a run, the figures agree, one line is printed per distinct name, and with distinct names the failures are the failure entries |
| Reports.RateBounds | test.py:425 | the success rate lies between 0 and 100 |
| Reports.ChartColumn | test.py:332-353 | a column is labelled with the host name; its status is 1 for a success and 0 for a failure; it fails exactly when a healthy host's root percentage is not a number |
| Reports.Columns | test.py:332 | one column per record |
| Reports.ChartOf | test.py:325-353 | the charts exist exactly when every column does, and their bar `i` is column `i` |
| Reports.ChartStep | test.py:332-353 | one more record appends its column to every chart |
| Reports.NoChartWithout | test.py:344 | one unreadable root percentage abandons the drawing |
| Reports.DashboardOf | test.py:320-414 | `visualize_data`: nothing without records, the charts when every column can be built, abandoned otherwise; DashboardOutcome and the Chart lemmas state each case |
| Reports.VisualizeData | test.py:320-353 | the arrays built one record at a time are the specified dashboard |
| Reports.ChartServers | test.py:332-333 | a drawn dashboard has one bar per record in every chart, labelled with the keys in order |
| Reports.ChartStatus | test.py:334-353 | a status bar is 1 exactly for a success; a failed host is drawn with zeros |
| Reports.DashboardOutcome | test.py:320-353 | nothing is drawn exactly without records; the drawing is abandoned exactly when a healthy host's root percentage is not a number |
| Reports.ExitCode | test.py:519-523 | the exit code is 1 exactly when there are results and all failed, and 0 otherwise |
| Reports.RunMain | test.py:506-523 | `main` loads the configured hosts (with the intended loader) and exits with the code of its run's results |
| Reports.ExitOneWhenAllFail | test.py:519-521 | when no configured host could be reached, the process fails |
| Reports.AllRecordsFailed | test.py:212-244 | when no host connects, every record failed |
| Reports.ExitZeroWhenOneAnswers | test.py:519-523 | when a host answered and no later host has its name, the process succeeds |
| Reports.ExitCodeRule | test.py:519-523 | with distinct names, the exit code is 1 exactly when hosts were configured and none connected |
| Validation.CheckPort | Day2/Lab9_Input_validation.py:8-19 | an accepted port lies in 1..65535 |
| Validation.PortRule | Day2/Lab9_Input_validation.py:8-19 | a line is accepted exactly when its stripped form is a non-empty digit run with a value in 1..65535, and the port is what `int()` gives |
| Validation.PortNumeralAccepted | Day2/Lab9_Input_validation.py:8-19 | every port in range is accepted with any leading zeros and surrounding whitespace |
| Validation.ZerosPrefix | Day2/Lab9_Input_validation.py:12-15 | leading zeros do not change the numeral's value |
| Validation.PortOutOfRange | Day2/Lab9_Input_validation.py:16-18 | 0 and every number above 65535 are refused as out of range |
| Validation.SignedPortRefused | Day2/Lab9_Input_validation.py:12-14 | a signed number is refused as not an integer |
| Validation.PortIgnoresPadding | Day2/Lab9_Input_validation.py:8 | whitespace around the input never changes the verdict |
| Validation.ReadPort | Day2/Lab9_Input_validation.py:7-19 | the port returned is the one the accepted line gives |
| Validation.ReadPortValid | Day2/Lab9_Input_validation.py:7-19 | every port returned is in range and is `int()` of the stripped line |
| Validation.ValidServiceName | Day2/Lab9_Input_validation.py:36-40 | `_valid_service_name`; ServiceNameLength, ServiceNameUnpadded and ServiceNameRule state its limits and use |
| Validation.ServiceNameLength | Day2/Lab9_Input_validation.py:38-39 | both length limits are inclusive: 3 and 20 pass, 2 and 21 do not |
| Validation.ServiceNameUnpadded | Day2/Lab9_Input_validation.py:36-43 | a valid name has no whitespace, so it is its own `strip()` |
| Validation.CheckServiceName | Day2/Lab9_Input_validation.py:42-50 | one attempt of `read_service_name`; ServiceNameRule and PaddedServiceName state when it accepts and what name it gives |
| Validation.ServiceNameRule | Day2/Lab9_Input_validation.py:42-50 | a line is accepted exactly when its stripped form is a valid name, which is then the name |
| Validation.PaddedServiceName | Day2/Lab9_Input_validation.py:43-50 | whitespace around a valid name is dropped and the name accepted |
| Validation.ReadServiceName | Day2/Lab9_Input_validation.py:42-50 | the name returned is valid, unpadded, and the one the accepted line gives |
| Validation.Attempts | Day2/Lab9_Input_validation.py:7-19 | the recursion returns the first accepted line's value; every earlier line was refused; `None` exactly when every line is refused (with no bound on the number of retries) |
| Validation.AttemptsSkipRefused | Day2/Lab9_Input_validation.py:42-50 | refused lines are skipped, and nothing after the accepted line is read |
| CheckDisk.IsServerHealthy | Day2/check_disk.py:21-25 | healthy exactly when usage is at most 80 |
| CheckDisk.HealthyBoundary | Day2/check_disk.py:22 | 80 is healthy and 81 is not |
| CheckDisk.HealthyMonotone | Day2/check_disk.py:21-25 | a lower usage than a healthy one is healthy |
| CheckDisk.CheckVectors | Day2/check_disk.py:30-37 | one line per test value: "OK" exactly when the verdict matches the expected result |
| CheckDisk.CheckScript | Day2/check_disk.py:27-37 | the script's four vectors all print "OK" |
| Deployment.IsReadyForDeployment | Day2/is_ready_for_deployment.py:2-10 | ready only when CPU < 70, RAM < 75 and disk < 80 |
| Deployment.ReadyBelowLimits | Day2/is_ready_for_deployment.py:3 | below all three limits, the server is ready |
| Deployment.AnyLimitBlocks | Day2/is_ready_for_deployment.py:3 | reaching any one limit blocks deployment |
| Deployment.ReadyBoundary | Day2/is_ready_for_deployment.py:3 | the limits are exclusive: 70, 75 or 80 block, and 69/74/79 pass |
| Deployment.ReadyMonotone | Day2/is_ready_for_deployment.py:2-10 | lowering any usage keeps a ready server ready |

## Left out

- The SSH library (paramiko): connecting, the host-key policy, timeouts and `exec_command`. How a visit ended is an input (`Visit`).
- The SSH client: only whether it was closed is modelled, as a ghost flag.
- Logging, the per-host loggers and their files. Only which log level `execute_remote_command` uses is kept.
- File I/O: reading the configuration file, writing the JSON and CSV files, and saving the dashboard image.
  - The JSON file is modelled by its three counts.
  - The CSV file is modelled by its rows of cells.
  - The configuration file is modelled by what it holds (`Monitor.ConfigFile`): no file, a missing file, a host list, or a file that cannot be read. A JSON value that parses but is not a list of hosts is not modelled.
- Plotting with matplotlib: the model stops at the seven arrays that are plotted.
- The clock: `datetime.now().isoformat()` readings are inputs, and the JSON file's own timestamp is left out.
- `argparse` and `create_sample_config`, which only write a fixed file. `main` is modelled from loading the configuration to the exit code.
- Console output:
  - the summary is modelled as data (`Reports.SummaryOf`), not as formatted text;
  - the other `print` calls, including those of the Day2 scripts, are left out.
- IEEE floating point: `float()` gives an exact rational, and `round(x, 2)` rounds that rational half to even. `inf`, `nan`, underscores in numerals and hexadecimal floats are not modelled.
- PyText.ParseInt refuses underscores between digits, which Python's `int()` accepts (`int("1_000")` is 1000); `free -m` never prints them.
- PyText.ParseInt, PyText.ParseFloat: only ASCII digits are modelled; Python also accepts other Unicode decimal digits.
- Validation.IsAlnum: only ASCII letters and digits, whereas Python's `isalnum()` accepts every Unicode letter and digit.
- Validation.CheckPort: `isdigit()` and `int()` are modelled on ASCII digits only, which differs from Python in two ways.
  - Unicode decimal digits, such as Arabic-Indic `٣٠`, pass `isdigit()`, and `int()` reads their value (30), so the source accepts the port. The model answers `NotAnInteger` and reads the next line.
  - Other characters that `isdigit()` accepts, such as the superscript `²`, make `int()` raise `ValueError`. `read_port` does not catch it, so it leaves `read_port` and is caught by the lab's `main`, which prints "Unexpected error" and ends without a port. The model answers `NotAnInteger` and reads the next line.
- `read_latency_ms` (Day2/Lab9_Input_validation.py:21-34) and the lab's `main`: the latency reader repeats the port reader's pattern, with `float()` in place of the digit check.
- End of input: Python raises `EOFError` from `input()`, while the readers here return `None` when the lines run out.
- Validation.Attempts, and so Validation.ReadPort and Validation.ReadServiceName: the retry depth is not bounded. `read_port` and `read_service_name` ask again by calling themselves (Day2/Lab9_Input_validation.py:11-18 and 46-49). Under CPython's default recursion limit of 1000, about a thousand refused lines raise `RecursionError`, which the lab's `main` catches and reports as "Unexpected error". The model reads on through any number of refused lines, and gives `None` only when every line is refused. For example, a thousand empty lines followed by `80` give port 80 here, while the source raises.
- `check_disk` in Day2/check_disk.py:1-16 reads the local disk through `shutil.disk_usage`, which is I/O; only the health rule and its test loop are modelled.
- The `input()` calls of Day2/is_ready_for_deployment.py:14-18: the three readings are parameters of `Deployment.IsReadyForDeployment`.
- CheckDisk.CheckVectors requires at least as many expected results as test values; the script would raise `IndexError` otherwise.
- Parsers.UptimeOfLine requires that the text before `load average:` has no letter `l`. This keeps the token's first occurrence where `uptime` prints it; `uptime`'s clock, "up" and user count never contain one.
- Parsers.MemoryUsage: the dictionary is a `map`, so the order of its keys is not modelled. Only the CSV, which reads fixed keys, depends on them.
- The summary's `'Unknown error'` fallback (test.py:447) cannot trigger, because every failed record carries an error; the model prints the stored error.
- Reports.BandBounds: the legend printed by the summary says "Critical: >2.0", but the code judges a load of exactly 2.0 critical; the model follows the code.
- Python exceptions inside the parsers that the `try` blocks catch:
  - `int()` of a non-numeral and short lines in `parse_memory_usage` become the empty dictionary, as in the source;
  - `parse_uptime`'s fallbacks become `UnknownUptime`;
  - `parse_disk_usage`'s `except` branch cannot be reached on string input and is not modelled separately.
- Reports.VisualizeData: the source's `except` around plotting also catches `float()` failing on a root use percentage. The model records that case as `DrawFailed`, and everything else about plotting is left out.

## Findings

| source | as written | input that shows it | evidently intended | confidence | as-written member | corrected member |
|---|---|---|---|---|---|---|
| test.py:25 | `_load_servers` runs before `setup_logging` (test.py:30) has created `main_logger`, so the log calls at test.py:51 and test.py:54 raise `AttributeError` out of the constructor for any configuration file that exists | `--config servers.json` naming an existing file | load the file's hosts, or fall back to the defaults when it cannot be read; an empty list then reaches the "no servers" branch at test.py:459-462, which as written `main` can never reach | high; not executed | Monitor.LoadServersAsWritten, Monitor.ConfigFileRaises | Monitor.LoadServers, Monitor.LoadServersAgrees |
