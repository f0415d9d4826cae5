# distribute_database_test_framework: a verified model of the harness core underneath the plumbing

The repository is a Go test harness for a distributed SQL database. It
starts a cluster of placement (PD), storage (TiKV) and frontend (TiDB)
servers, runs concurrent insert, update, delete and bank-transfer workloads
through randomly chosen frontends, and checks the table contents afterwards.
This project models the deterministic layer under the process and socket
plumbing:

- the error classifier (`isCtxError`, `isRetryableError`,
  `isDuplicateError`, `isConnectionError`, `isNoDatabaseError`);
- port extraction in `getUnusedPorts`;
- the retry and route policy of `exec` and `query`;
- the statement texts of `createTable`, `dropTable` and `selectFrom`;
- the key shards and asserted outcomes of the insert, update and delete
  scenarios;
- the expected-balance ledger of the bank scenario, with `getTransaction`,
  `transfer` and `doTransfer`;
- the per-server configuration records of the three tiers, with
  `removeAllDir`;
- `getOneServerRandomly`, the bounded `connectToDatabase` loop,
  `startServer` and `restart`.

Everything the code learns from the outside world is an oracle parameter:
- listener addresses;
- the server each attempt picks and the reply and error it gets;
- the error of every statement, Begin, Ping and process start;
- the random picks;
- the rows a query returns;
- the order a Go `range` over a map visits its keys.

Given those inputs, every operation is deterministic.

Modules:
- `Wrappers`: `Option`, `Error`, `MaybeError` (nil is `None`), `Result`.
- `Text`: the parts of `strings` and `strconv` the harness uses.
  - `Contains`, `LastIndex`, `Join`, `Split`.
  - `Itoa`, and `Atoi` with its 64-bit range check and its syntax and range error kinds.
- `Classify`: the substring classifier of util.go.
- `Ports`: `getUnusedPorts` and `getOnePort`.
- `Router`: `exec`, `query` and the statement builders.
- `Workload`: the insert, update and delete scenarios.
  - Task `n` owns the keys `[m*n, m*(n+1))`.
  - The table is a `map<int, int>` from c1 to c2.
  - A duplicate insert is a no-op.
- `Bank`: the bank-transfer scenario.
  - The ledger is a class whose `expected` map the two phases update in place.
  - It also holds the transaction steps.
- `Topology`: the PD, TiKV and TiDB configuration records.
  - The suite's server lists are a class whose start methods append to them.
- `Frontend`: TiDB server selection, connection, start and restart.

The goroutines of a phase are modelled as running one after another in
task order:
- In the insert, update and delete scenarios each task touches only its own
  shard, and the shards are proved disjoint. Two statements on distinct keys
  commute (`Workload.ApplyCommutes`). That every interleaving of whole tasks
  gives the task-order table is not proved.
- In the bank scenario the mutex makes each ledger update atomic.
- Conservation (`Bank.TransfersConserve`) holds for any order of the
  committed transfers, because each moves money inside one shard.

Where the design and the code differ, the model follows
the code:
- The retryable substrings are "context", "connection" and "No database
  selected". They are not descriptions of timeouts or resets.
- After ten retryable failures the last error is returned as it is. It is
  not turned into a separate fatal error.
- A TiDB server that fails to start only fails an assertion
  (`suite.NoError`). It is still appended to the server list, so a startup
  failure there is not fatal.

## Model

| member | source | states |
|---|---|---|
| Classify.NilIsUnclassified | util.go:33-55 | a nil error is neither context, connection, no-database, retryable nor duplicate |
| Classify.DuplicateIff | util.go:44-47 | duplicate exactly when the error is non-nil and its message contains "Duplicate" or "exists" at some position, case-sensitively |
| Classify.RetryableIff | util.go:33-42 | retryable exactly when the error is non-nil and its message contains "context", "connection" or "No database selected" at some position |
| Classify.ClassesOverlap | util.go:41-46 | the classes are not exclusive: any message containing "connection" and then "exists" is both retryable and duplicate |
| Text.ContainsIff | util.go:34 | the scanning `strings.Contains` is true exactly when the substring occurs at some index |
| Text.LastIndexOf | util.go:21 | `strings.LastIndex` for one character: -1 or a position holding it, with no occurrence after it |
| Text.AtoiIntToString | util.go:23 | `strconv.Atoi` parses back every printed int64 |
| Ports.PortOfHostPort | util.go:21-23 | the port parsed from host + ":" + decimal(p) is p, whatever colons the host holds |
| Ports.AllocationFails | util.go:14-28 | the allocation fails exactly when some round among the first count fails |
| Ports.AllocationError | util.go:18-26 | the error of a failed allocation is that of the first failing round |
| Ports.GetUnusedPorts | util.go:12-31 | on success exactly count ports, the i-th being round i's port, and nil error; on any failure nil ports and the first failing round's error |
| Ports.GetOnePort | dml_test.go:399-403 | the one port of a single round, or that round's error |
| Router.StopIndex | sql_test.go:13-24 | the loop stops at the first attempt with no frontend or a non-retryable error (nil included), and never after the tenth |
| Router.Calls | sql_test.go:15-17 | n attempts issue 2n calls: `use test_dml`, then the statement, on each attempt's frontend |
| Router.Exec | sql_test.go:12-33 | the outcome is the stopping attempt's reply, with a duplicate error cleared, or unavailable; the calls are those of the attempts up to the stopping one |
| Router.Query | sql_test.go:35-56 | the same policy as `exec`, issuing `QueryContext` calls |
| Router.FirstNonRetryableDecides | sql_test.go:18-32 | after retryable failures, the first non-retryable attempt decides the result, and 2(j+1) calls were made |
| Router.NilErrorStops | sql_test.go:17-23 | a first attempt with nil error is the only one: its reply, a nil error, and exactly two calls |
| Router.AllRetryableKeepsLast | sql_test.go:13-32 | when all ten attempts fail retryably, the tenth error is returned (cleared if duplicate) after twenty calls |
| Router.PolicyErrors | sql_test.go:29-32 | the returned error is never a duplicate error; it is nil or the stopping attempt's error |
| Router.PolicyCalls | sql_test.go:13-17 | at most twenty calls, in pairs: every statement call is preceded by `use test_dml` on the same frontend |
| Router.SelectFromJoin | sql_test.go:74 | the select text is "select", the fields, "from", the table, "limit" and the limit joined by single spaces |
| Router.SelectFromWords | sql_test.go:73-75 | splitting the select text on spaces gives back the keywords, every field in order, the table and the limit |
| Router.CreateTable | sql_test.go:58-61 | `create table T (c1 int, c2 int, primary key(c1))` under `exec`; the no-error assertion holds exactly when the routed error is nil |
| Router.DropTable | sql_test.go:63-66 | `drop table if exists T` under `exec`; the no-error assertion holds exactly when the routed error is nil |
| Router.SelectFrom | sql_test.go:73-75 | the select text under `query`, with its outcome and calls |
| Workload.ShardsDisjoint | dml_test.go:136-139 | no key lies in two tasks' shards |
| Workload.ShardsCover | dml_test.go:136-139 | a key is in some task's shard exactly when it lies in [0, tasks*m) |
| Workload.RunPhaseOutside | dml_test.go:139-141 | a phase leaves every key outside the keys it ran untouched |
| Workload.Task | dml_test.go:139-145 | one goroutine: the table after its shard's statements in key order, and whether an unexpected error occurred so far |
| Workload.Phase | dml_test.go:134-148 | the table after all tasks' statements, and whether any statement returned an error that is neither nil nor duplicate |
| Workload.InsertPhaseRows | dml_test.go:141-143 | after the insert phase key k is present exactly when its insert returned nil or a duplicate error, and then c2 = c1 |
| Workload.CleanInsert | dml_test.go:136-146 | with every insert accepted, the table holds c2 = c1 for exactly the keys 0..N*M-1 |
| Workload.InsertedSize | dml_test.go:161 | that table has N*M rows |
| Workload.CleanUpdate | dml_test.go:186-197 | updating keys 0..hi-1 sets their c2 to c1+1; the other rows keep c2 = c1 |
| Workload.CleanUpdateAll | dml_test.go:186-214 | after a clean update of all N*M rows every row has c2 = c1+1 |
| Workload.UpdatedSize | dml_test.go:211 | the updated table has N*M rows |
| Workload.CleanDelete | dml_test.go:239-250 | deleting keys 0..hi-1 removes exactly those keys |
| Workload.ApplyCommutes | dml_test.go:136-146 | two statements on distinct keys give the same table in either order |
| Workload.InsertScenario | dml_test.go:130-163 | `TestInsert` passes exactly when the create table and drop table statements succeeded and every insert returned nil or a duplicate error; then the table holds c2 = c1 for the N*M keys |
| Workload.UpdateScenario | dml_test.go:165-216 | `TestUpdate` passes exactly when the create and drop succeeded and every insert and update was accepted; then the table holds c2 = c1+1 for the N*M keys |
| Workload.DeleteScenario | dml_test.go:218-266 | `TestDelete` passes exactly when the create and drop succeeded and every insert and delete was accepted; then the table is empty |
| Bank.MovedGet | dml_test.go:302-303 | a transfer lowers expected[j] by one, raises expected[j+1] by one, leaves every other balance unchanged, and makes both keys present |
| Bank.MovedConserves | dml_test.go:300-304 | a transfer between two accounts of a range keeps the range's total |
| Bank.TransfersConserve | dml_test.go:293-309 | any sequence of transfers inside a range keeps its total and changes no account outside it |
| Bank.RecordedInsertsRows | dml_test.go:282-287 | the ledger holds expected[j] = j+1 exactly for the inserts that returned nil or a duplicate error |
| Bank.CommittedInRange | dml_test.go:297-300 | every committed sender of a task lies in that task's sender range |
| Bank.TraceInShards | dml_test.go:294-299 | every committed transfer's sender j and receiver j+1 lie in the same task's shard |
| Bank.PhaseConserves | dml_test.go:293-309 | the transfer phase keeps the total of the N*M accounts |
| Bank.Ledger.constructor | dml_test.go:273 | the ledger starts empty |
| Bank.Ledger.RecordInsert | dml_test.go:284-286 | `expected[j] = j+1` |
| Bank.Ledger.RecordTransfer | dml_test.go:301-304 | `expected[j]--; expected[j+1]++` |
| Bank.Ledger.InsertTask | dml_test.go:280-288 | one insert goroutine records the accepted inserts of its shard, continuing the phase |
| Bank.Ledger.InsertPhase | dml_test.go:276-291 | the ledger after the insert phase is the recorded-inserts map of keys 0..N*M-1 |
| Bank.Ledger.TransferTask | dml_test.go:297-306 | one transfer goroutine applies the committed transfers j -> j+1 of its shard, in order |
| Bank.Ledger.TransferPhase | dml_test.go:293-309 | the ledger after the transfer phase is the old ledger with every committed transfer of every task applied |
| Bank.RowsMap | dml_test.go:314-321 | the scanned map's keys are exactly the ids of the rows |
| Bank.RowsMapLast | dml_test.go:320 | for each id the map holds the money of its last row |
| Bank.ReadRows | dml_test.go:314-321 | the scan loop builds exactly that map |
| Bank.CheckBalances | dml_test.go:323-325 | the check passes exactly when every scanned balance equals the ledger's, a missing ledger key reading as 0 |
| Bank.BankScenario | dml_test.go:268-326 | the ledger is the insert phase followed by the transfer phase; among the assertions modelled, the test passes exactly when create and select succeeded and every scanned balance matches |
| Bank.BankConserves | dml_test.go:268-326 | when every account reads back with its ledger balance, the money read back totals what the inserts put in |
| Bank.CleanInsertTotal | dml_test.go:280-287 | with every insert accepted the ledger totals 1 + 2 + ... + N*M |
| Bank.GetTransaction | dml_test.go:328-338 | at most ten Begin tries; the first with a transaction and nil error wins; otherwise "loop run out", or the process exit when no server was found |
| Bank.DoTransfer | dml_test.go:360-377 | the steps are read, credit, debit, commit in that order; the first failing step ends the transfer with its error; the result is nil exactly when all four steps succeed |
| Bank.Transfer | dml_test.go:340-358 | the process exit happens exactly when a server pick found no server before any usable Begin; with no transaction, no statement is issued; otherwise doTransfer's steps are issued, the steps before a failing one all succeeded, its error is returned, and Rollback is issued exactly when an error resulted |
| Frontend.GetOneServerRandomly | test/tidb_test.go:103-114 | at most ten picks in [0, count); the result is the first pick holding a server; the fatal exit happens exactly when all ten picks hit nil |
| Frontend.ConnectStop | test/tidb_test.go:78-92 | the connect loop stops at the first round whose open and ping succeed, and never after the fifth |
| Frontend.ConnectToDatabase | test/tidb_test.go:77-101 | at most five rounds; the database is created exactly when the last round connected; the error is the last round's error or the create error |
| Frontend.ConnectResultCases | test/tidb_test.go:78-99 | with no successful round the fifth round's error is returned; once a round connects, the create statement's error is returned |
| Frontend.StartServer | test/tidb_test.go:28-34 | a failed start is returned and no connection is tried; otherwise the connect result |
| Frontend.Restart | test/tidb_test.go:68-75 | kill comes first; a failed kill is returned and nothing is started |
| Topology.InitialClusterEntries | pd_test.go:11-14 | the first loop builds one entry "pd{k}=http://{endpoint k}" per endpoint, in order |
| Topology.ClusterEntryInjective | pd_test.go:13 | an initial-cluster entry determines its PD number, whatever the endpoint |
| Topology.ClusterEntriesDistinct | pd_test.go:12-14 | distinct PDs get distinct initial-cluster entries, so each PD appears under its own name |
| Topology.InitialClusterSplits | pd_test.go:11-21 | the initial-cluster string splits on ',' back into those entries when no endpoint holds a comma |
| Topology.PdListsItself | pd_test.go:13-22 | each PD server's initial cluster contains its own "name=peerAddr" |
| Topology.PdSameInitialCluster | pd_test.go:21 | every PD server gets the same initial cluster |
| Topology.PdConfigsAt | pd_test.go:15-24 | PD record i is named pd{i+1}, with data dir var/pd{i+1}, log var/pd{i+1}.log and peer and client URLs from entry i of each list |
| Topology.PdServersDistinct | pd_test.go:16-20 | distinct PD servers have distinct names, data directories and log files |
| Topology.Cluster.StartPDServers | pd_test.go:10-29 | the PD records are appended in index order up to the first start error, which is returned; with no error exactly pdServerCount are appended |
| Topology.TikvConfigsAt | tikv_test.go:11-17 | TiKV record i has the joined client addresses, 127.0.0.1 with its allocated port, and dir/log tikv{i+1} |
| Topology.EndpointListsSplit | tikv_test.go:13 | every TiKV and TiDB server gets the same comma-joined client list, which splits back into the addresses |
| Topology.TikvAddrPort | tikv_test.go:14 | the storage address is "127.0.0.1:" followed by the allocated port, whatever host the suite uses |
| Topology.TikvServersDistinct | tikv_test.go:15-16 | distinct TiKV servers have distinct data directories and log files |
| Topology.Cluster.StartTiKVServers | tikv_test.go:10-22 | TiKV records are appended in index order up to the first port or start failure, which is returned |
| Topology.TidbConfigsAt | test/tidb_test.go:15-22 | TiDB record i has its two allocated ports, host:port as address, the joined client list as path and log tidb{i+1}.log |
| Topology.TidbAddrPort | test/tidb_test.go:22 | the frontend address starts with the suite's host and parses back to the allocated port |
| Topology.TidbLogsDistinct | test/tidb_test.go:20 | distinct TiDB servers log to distinct files |
| Topology.Cluster.StartTiDBServers | test/tidb_test.go:14-26 | a TiDB record is appended for every server in index order, a failed start included; a failing port allocation ends the loop with its error |
| Topology.NumberedDirsAt | dml_test.go:390-396 | position i of a numbered list is directory number i+1 |
| Topology.RemoveAllDir | dml_test.go:389-397 | the directories removed are pd1..pdN and then tikv1..tikvM under the working directory |
| Topology.DataDirsRemoved | dml_test.go:389-397 | every PD and TiKV data directory built is among those removed |

## Left out

- Process spawning, killing and reaping (`killProcess`, every `start()` and `kill()`). A process start or kill is an oracle error.
- Argument-vector formatting for the three server binaries. This is glue to external programs.
- Binding a socket in `getUnusedPorts`. The listener, with its address and its close result, is an oracle.
- Ports.GetUnusedPorts: the error of `net.Listen` is shadowed and ignored at util.go:15. A failed listen would dereference a nil listener. The model assumes every listen produced a listener.
- Ports.GetUnusedPorts: nothing makes the ports unique, and the model does not claim they are.
- Goroutines, WaitGroups, the mutex, context cancellation and timers, including `restartTiDBRandomly`. Each phase's tasks run one after another in task order. Only the commutation of two statements on distinct keys is proved, not that every interleaving of the tasks gives the same table.
- `SetupSuite` and `TearDownSuite` sequencing.
- Bank.Ledger.TransferTask: the transfer goroutines all write the scenario's shared `err` variable (dml_test.go:299), which is a data race. The model reads each transfer's own result.
- Real SQL semantics. The table is an abstract map, and each statement's, query's and Begin's result is an oracle. A failed statement is taken as not applied.
- Bank.DoTransfer: only the step order and the short-circuiting are modelled. The balance read selects a `name` column that the schema lacks. `suite.Equal(sender, scanedName)` compares an int with a string. Neither is modelled.
- Bank.Transfer: the assertion that Rollback itself succeeded (dml_test.go:349) is not modelled.
- Bank.BankScenario: the pass condition covers only the assertions modelled. `suite.Require().NotNil(rows)` (dml_test.go:313) is not modelled. The Rollback assertion (dml_test.go:349) is not modelled. `suite.Equal(sender, scanedName)` (dml_test.go:367) compares an int with a string and so fails on every transfer whose read succeeded; the model leaves it out, so a real run fails where the model passes.
- Text.Atoi: the error message pastes the input unquoted, where Go quotes it with `strconv.Quote`. An over-long digit run followed by a non-digit is a syntax error in the model, where Go's `ParseUint` reports it as out of range. Only the text and kind of a failed port parse differ.
- Bank.ReadRows: errors from `rows.Scan` and from `rows.Next` are not modelled. Each row is taken as scanned.
- Workload.InsertScenario, Workload.UpdateScenario, Workload.DeleteScenario: the read-back query is taken to return the table. The query's own error and the row scan errors are not modelled.
- Bank.CheckBalances: Go's map iteration order is an oracle (`order`) that enumerates the scanned keys once each.
- Bank.BankConserves: its hypothesis is that the scan agrees with the ledger on every key of [0, N*M). The source's check (dml_test.go:315-325) compares only the rows actually scanned and reads a missing ledger key as 0. A run can therefore pass with a row missing from the scan, and conservation is then not established.
- `getBinary` (an HTTP download).
- The filesystem effect of `os.RemoveAll`. Only the set of paths is kept.
- `filepath.Join(workDir, name)` is taken as "var/" + name, which it is for the plain names used.
- Topology.Cluster.StartPDServers: pd_test.go reads package-level `pdServerCount` and `pdServers`, which the repository does not declare. They are modelled as fields of the suite.
- `insertSampleValueInto`: it is not used by any scenario.
- Sleeps, logging and `rand.Intn`. The random picks are an oracle in [0, count).
- The testify assertion machinery. Each assertion is a pass/fail result or a postcondition.
- The root tidb_test.go. It duplicates test/tidb_test.go but reads undeclared globals. Only the test/tidb_test.go variant is modelled.
