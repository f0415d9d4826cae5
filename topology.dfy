/** Cluster topology construction of pd_test.go, tikv_test.go and
    test/tidb_test.go: the configuration record of every placement (PD),
    storage (TiKV) and frontend (TiDB) server, built from allocated
    addresses, and the working directories removed at teardown. Starting a
    process is an oracle: the error `start()` returned. */
module Topology {
  import opened Wrappers
  import opened Text
  import Ports

  /** filepath.Join("var/", name) for the plain names used here. */
  const WorkDir: string := "var/"

  function InWorkDir(name: string): string {
    WorkDir + name
  }

  /** "pd1", "tikv2", ...: a role prefix and a 1-based index. */
  function Numbered(prefix: string, n: int): string {
    prefix + IntToString(n)
  }

  datatype PdServer = PdServer(
    name: string, dataDir: string, logFile: string, initialCluster: string,
    peerAddr: string, clientAddr: string)

  datatype TikvServer = TikvServer(pdEndpoints: string, addr: string, dataDir: string, logFile: string)

  datatype TidbServer = TidbServer(port: int, statusPort: int, addr: string, path: string, logFile: string)

  /** The initial-cluster entry of PD number k (1-based). */
  function ClusterEntry(k: nat, endpoint: string): string {
    Numbered("pd", k) + "=http://" + endpoint
  }

  function ClusterEntries(pdEndpoints: seq<string>): (r: seq<string>)
    ensures |r| == |pdEndpoints|
    ensures forall k :: 0 <= k < |r| ==> r[k] == ClusterEntry(k + 1, pdEndpoints[k])
  {
    seq(|pdEndpoints|, k requires 0 <= k < |pdEndpoints| => ClusterEntry(k + 1, pdEndpoints[k]))
  }

  function InitialCluster(pdEndpoints: seq<string>): string {
    Join(ClusterEntries(pdEndpoints), ",")
  }

  /** The record of PD server i (0-based) given the initial-cluster text. */
  function PdRecord(i: nat, initialCluster: string, pdEndpoints: seq<string>, clientAddrs: seq<string>): PdServer
    requires i < |pdEndpoints| && i < |clientAddrs|
  {
    var name := Numbered("pd", i + 1);
    PdServer(name, InWorkDir(name), InWorkDir(name + ".log"), initialCluster,
      "http://" + pdEndpoints[i], "http://" + clientAddrs[i])
  }

  /** The record of PD server i (0-based). */
  function PdConfig(i: nat, pdEndpoints: seq<string>, clientAddrs: seq<string>): PdServer
    requires i < |pdEndpoints| && i < |clientAddrs|
  {
    PdRecord(i, InitialCluster(pdEndpoints), pdEndpoints, clientAddrs)
  }

  /** The record of TiKV server i: the storage address always uses
      127.0.0.1, whatever host the suite runs on. */
  function TikvConfig(i: nat, clientAddrs: seq<string>, port: int): TikvServer {
    TikvServer(Join(clientAddrs, ","), "127.0.0.1:" + IntToString(port),
      InWorkDir(Numbered("tikv", i + 1)), InWorkDir(Numbered("tikv", i + 1) + ".log"))
  }

  /** The record of TiDB server i. */
  function TidbConfig(i: nat, host: string, clientAddrs: seq<string>, port: int, statusPort: int): TidbServer {
    TidbServer(port, statusPort, host + ":" + IntToString(port), Join(clientAddrs, ","),
      InWorkDir(Numbered("tidb", i + 1) + ".log"))
  }

  /** The records of PD servers 0..n-1, in order. */
  function PdConfigs(pdEndpoints: seq<string>, clientAddrs: seq<string>, n: nat): seq<PdServer>
    requires n <= |pdEndpoints| && n <= |clientAddrs|
  {
    if n == 0 then [] else PdConfigs(pdEndpoints, clientAddrs, n - 1) + [PdConfig(n - 1, pdEndpoints, clientAddrs)]
  }

  /** The records of TiKV servers 0..n-1, in order. */
  function TikvConfigs(clientAddrs: seq<string>, ports: seq<Result<int>>, n: nat): seq<TikvServer>
    requires n <= |ports| && PortsOk(ports, n)
  {
    if n == 0 then [] else TikvConfigs(clientAddrs, ports, n - 1) + [TikvConfig(n - 1, clientAddrs, ports[n - 1].value)]
  }

  /** The records of TiDB servers 0..n-1, in order. */
  function TidbConfigs(host: string, clientAddrs: seq<string>, ports: seq<PortPair>, n: nat): seq<TidbServer>
    requires n <= |ports| && PortsAllocated(ports, n)
  {
    if n == 0 then []
    else
      var last := TidbConfig(n - 1, host, clientAddrs, ports[n - 1].port.value, ports[n - 1].statusPort.value);
      TidbConfigs(host, clientAddrs, ports, n - 1) + [last]
  }

  /** The list of PD records holds the record of server i at position i. */
  lemma {:induction false} PdConfigsAt(pdEndpoints: seq<string>, clientAddrs: seq<string>, n: nat, i: nat)
    requires n <= |pdEndpoints| && n <= |clientAddrs| && i < n
    ensures |PdConfigs(pdEndpoints, clientAddrs, n)| == n
    ensures PdConfigs(pdEndpoints, clientAddrs, n)[i] == PdConfig(i, pdEndpoints, clientAddrs)
  {
    if i < n - 1 {
      PdConfigsAt(pdEndpoints, clientAddrs, n - 1, i);
    } else if n > 1 {
      PdConfigsAt(pdEndpoints, clientAddrs, n - 1, 0);
    }
  }

  /** The list of TiKV records holds the record of server i, with its
      allocated port, at position i. */
  lemma {:induction false} TikvConfigsAt(clientAddrs: seq<string>, ports: seq<Result<int>>, n: nat, i: nat)
    requires n <= |ports| && PortsOk(ports, n) && i < n
    ensures |TikvConfigs(clientAddrs, ports, n)| == n
    ensures TikvConfigs(clientAddrs, ports, n)[i] == TikvConfig(i, clientAddrs, ports[i].value)
  {
    if i < n - 1 {
      TikvConfigsAt(clientAddrs, ports, n - 1, i);
    } else if n > 1 {
      TikvConfigsAt(clientAddrs, ports, n - 1, 0);
    }
  }

  /** The list of TiDB records holds the record of server i, with its two
      allocated ports, at position i. */
  lemma {:induction false} TidbConfigsAt(host: string, clientAddrs: seq<string>, ports: seq<PortPair>, n: nat, i: nat)
    requires n <= |ports| && PortsAllocated(ports, n) && i < n
    ensures |TidbConfigs(host, clientAddrs, ports, n)| == n
    ensures TidbConfigs(host, clientAddrs, ports, n)[i] ==
      TidbConfig(i, host, clientAddrs, ports[i].port.value, ports[i].statusPort.value)
  {
    if i < n - 1 {
      TidbConfigsAt(host, clientAddrs, ports, n - 1, i);
    } else if n > 1 {
      TidbConfigsAt(host, clientAddrs, ports, n - 1, 0);
    }
  }

  /** The directories `removeAllDir` deletes, in order: pd1..pdN, then
      tikv1..tikvM. */
  function RemovedDirs(pdCount: nat, tikvCount: nat): seq<string> {
    NumberedDirs("pd", pdCount) + NumberedDirs("tikv", tikvCount)
  }

  /** prefix1 .. prefixN under the working directory. */
  function NumberedDirs(prefix: string, n: nat): seq<string>
  {
    if n == 0 then [] else NumberedDirs(prefix, n - 1) + [InWorkDir(Numbered(prefix, n))]
  }

  /** Position i of the list is directory number i + 1. */
  lemma {:induction false} NumberedDirsAt(prefix: string, n: nat, i: nat)
    requires i < n
    ensures |NumberedDirs(prefix, n)| == n
    ensures NumberedDirs(prefix, n)[i] == InWorkDir(Numbered(prefix, i + 1))
  {
    if i < n - 1 {
      NumberedDirsAt(prefix, n - 1, i);
    } else if n > 1 {
      NumberedDirsAt(prefix, n - 1, 0);
    }
  }

  /** Both `getOnePort` calls of each of the first n servers succeeded. */
  predicate PortsAllocated(ports: seq<PortPair>, n: nat)
    requires n <= |ports|
  {
    forall k :: 0 <= k < n ==> ports[k].port.Ok? && ports[k].statusPort.Ok?
  }

  /** The first n `getOnePort` calls succeeded. */
  predicate PortsOk(ports: seq<Result<int>>, n: nat)
    requires n <= |ports|
  {
    forall k :: 0 <= k < n ==> ports[k].Ok?
  }

  /** None of the first n calls returned an error. */
  predicate NoErrorBefore(errs: seq<MaybeError>, n: nat)
    requires n <= |errs|
  {
    forall k :: 0 <= k < n ==> errs[k].None?
  }

  /** The allocated ports of one TiDB server: `getOnePort` twice. */
  datatype PortPair = PortPair(port: Result<int>, statusPort: Result<int>)

  /** The first loop of `startPDServers`: the entry pd{k}=http://{endpoint}
      of every endpoint, in order. */
  method InitialClusterEntries(pdEndpoints: seq<string>) returns (entries: seq<string>)
    ensures entries == ClusterEntries(pdEndpoints)
  {
    entries := [];
    var idx := 0;
    while idx < |pdEndpoints|
      invariant 0 <= idx <= |pdEndpoints|
      invariant entries == ClusterEntries(pdEndpoints)[..idx]
    {
      entries := entries + [ClusterEntry(idx + 1, pdEndpoints[idx])];
      idx := idx + 1;
    }
  }

  /** The suite's server lists, appended to as servers are started. */
  class Cluster {
    const host: string
    const pdServerCount: nat
    const tikvServerCount: nat
    const tidbServerCount: nat
    var pdServers: seq<PdServer>
    var tikvServers: seq<TikvServer>
    var tidbServers: seq<TidbServer>

    constructor (host: string, pdServerCount: nat, tikvServerCount: nat, tidbServerCount: nat)
      ensures this.host == host && this.pdServerCount == pdServerCount
      ensures this.tikvServerCount == tikvServerCount && this.tidbServerCount == tidbServerCount
      ensures pdServers == [] && tikvServers == [] && tidbServers == []
    {
      this.host := host;
      this.pdServerCount := pdServerCount;
      this.tikvServerCount := tikvServerCount;
      this.tidbServerCount := tidbServerCount;
      pdServers, tikvServers, tidbServers := [], [], [];
    }

    /** `startPDServers`: builds the initial-cluster list, then one record
        per PD server in index order; the first start error is fatal and
        ends the loop before that server is appended. */
    method StartPDServers(pdEndpoints: seq<string>, clientAddrs: seq<string>, startErrs: seq<MaybeError>)
      returns (err: MaybeError, started: nat)
      requires pdServerCount <= |pdEndpoints| && pdServerCount <= |clientAddrs|
      requires pdServerCount <= |startErrs|
      modifies this`pdServers
      ensures started <= pdServerCount
      ensures pdServers == old(pdServers) + PdConfigs(pdEndpoints, clientAddrs, started)
      ensures NoErrorBefore(startErrs, started)
      ensures if started < pdServerCount then err == startErrs[started] && err.Some? else err.None?
    {
      var entries := InitialClusterEntries(pdEndpoints);
      var cluster := Join(entries, ",");
      ghost var before := pdServers;
      var i := 0;
      while i < pdServerCount
        invariant 0 <= i <= pdServerCount
        invariant pdServers == before + PdConfigs(pdEndpoints, clientAddrs, i)
        invariant NoErrorBefore(startErrs, i)
      {
        var pd := PdRecord(i, cluster, pdEndpoints, clientAddrs);
        if startErrs[i].Some? {
          return startErrs[i], i;
        }
        assert NoErrorBefore(startErrs, i + 1);
        pdServers := pdServers + [pd];
        assert PdConfigs(pdEndpoints, clientAddrs, i + 1) == PdConfigs(pdEndpoints, clientAddrs, i) + [pd];
        i := i + 1;
      }
      err, started := None, i;
    }

    /** `startTiKVServers`: one record per TiKV server in index order; a
        failing `getOnePort` or start is fatal and ends the loop before that
        server is appended. */
    method StartTiKVServers(clientAddrs: seq<string>, ports: seq<Result<int>>, startErrs: seq<MaybeError>)
      returns (err: MaybeError, started: nat)
      requires tikvServerCount <= |ports| && tikvServerCount <= |startErrs|
      modifies this`tikvServers
      ensures started <= tikvServerCount
      ensures PortsOk(ports, started) && NoErrorBefore(startErrs, started)
      ensures tikvServers == old(tikvServers) + TikvConfigs(clientAddrs, ports, started)
      ensures if started < tikvServerCount
        then err.Some? && err == (if ports[started].Err? then Some(ports[started].error) else startErrs[started])
        else err.None?
    {
      ghost var before := tikvServers;
      var i := 0;
      while i < tikvServerCount
        invariant 0 <= i <= tikvServerCount
        invariant PortsOk(ports, i) && NoErrorBefore(startErrs, i)
        invariant tikvServers == before + TikvConfigs(clientAddrs, ports, i)
      {
        if ports[i].Err? {
          return Some(ports[i].error), i;
        }
        var tikv := TikvConfig(i, clientAddrs, ports[i].value);
        if startErrs[i].Some? {
          return startErrs[i], i;
        }
        assert PortsOk(ports, i + 1) && NoErrorBefore(startErrs, i + 1);
        tikvServers := tikvServers + [tikv];
        assert TikvConfigs(clientAddrs, ports, i + 1) == TikvConfigs(clientAddrs, ports, i) + [tikv];
        i := i + 1;
      }
      err, started := None, i;
    }

    /** `startTiDBServers`: one record per TiDB server in index order. A
        failing `getOnePort` is fatal; a failing `startServer` only fails
        an assertion, so that server is appended all the same; `allStarted`
        says whether every start succeeded. */
    method StartTiDBServers(clientAddrs: seq<string>, ports: seq<PortPair>, startErrs: seq<MaybeError>)
      returns (err: MaybeError, built: nat, allStarted: bool)
      requires tidbServerCount <= |ports| && tidbServerCount <= |startErrs|
      modifies this`tidbServers
      ensures built <= tidbServerCount
      ensures PortsAllocated(ports, built)
      ensures tidbServers == old(tidbServers) + TidbConfigs(host, clientAddrs, ports, built)
      ensures built == tidbServerCount ==> err.None?
      ensures built < tidbServerCount && ports[built].port.Err? ==> err == Some(ports[built].port.error)
      ensures built < tidbServerCount && ports[built].port.Ok? ==>
        ports[built].statusPort.Err? && err == Some(ports[built].statusPort.error)
      ensures allStarted == NoErrorBefore(startErrs, built)
    {
      ghost var before := tidbServers;
      allStarted := true;
      var i := 0;
      while i < tidbServerCount
        invariant 0 <= i <= tidbServerCount
        invariant PortsAllocated(ports, i)
        invariant tidbServers == before + TidbConfigs(host, clientAddrs, ports, i)
        invariant allStarted == NoErrorBefore(startErrs, i)
      {
        if ports[i].port.Err? {
          return Some(ports[i].port.error), i, allStarted;
        }
        if ports[i].statusPort.Err? {
          return Some(ports[i].statusPort.error), i, allStarted;
        }
        var tidb := TidbConfig(i, host, clientAddrs, ports[i].port.value, ports[i].statusPort.value);
        if startErrs[i].Some? {
          allStarted := false;
        }
        assert NoErrorBefore(startErrs, i + 1) == (NoErrorBefore(startErrs, i) && startErrs[i].None?);
        assert PortsAllocated(ports, i + 1);
        tidbServers := tidbServers + [tidb];
        assert TidbConfigs(host, clientAddrs, ports, i + 1) == TidbConfigs(host, clientAddrs, ports, i) + [tidb];
        i := i + 1;
      }
      err, built := None, i;
    }
  }

  /** `removeAllDir`: the directories of pd1..pdN, then tikv1..tikvM. */
  method RemoveAllDir(pdCount: nat, tikvCount: nat) returns (removed: seq<string>)
    ensures removed == RemovedDirs(pdCount, tikvCount)
  {
    removed := [];
    var i := 1;
    while i <= pdCount
      invariant 1 <= i <= pdCount + 1
      invariant removed == NumberedDirs("pd", i - 1)
    {
      removed := removed + [InWorkDir(Numbered("pd", i))];
      i := i + 1;
    }
    ghost var pds := removed;
    i := 1;
    while i <= tikvCount
      invariant 1 <= i <= tikvCount + 1
      invariant removed == pds + NumberedDirs("tikv", i - 1)
    {
      removed := removed + [InWorkDir(Numbered("tikv", i))];
      i := i + 1;
    }
  }

  /** Each PD server's initial cluster lists that server itself as
      name=peerAddr. */
  lemma PdListsItself(i: nat, pdEndpoints: seq<string>, clientAddrs: seq<string>)
    requires i < |pdEndpoints| && i < |clientAddrs|
    ensures var pd := PdConfig(i, pdEndpoints, clientAddrs);
      Contains(pd.initialCluster, pd.name + "=" + pd.peerAddr)
  {
    var pd := PdConfig(i, pdEndpoints, clientAddrs);
    JoinContains(ClusterEntries(pdEndpoints), ",", i);
    assert ClusterEntry(i + 1, pdEndpoints[i]) == pd.name + "=" + pd.peerAddr;
  }

  /** Every PD server gets the same initial cluster. */
  lemma PdSameInitialCluster(i: nat, j: nat, pdEndpoints: seq<string>, clientAddrs: seq<string>)
    requires i < |pdEndpoints| && i < |clientAddrs| && j < |pdEndpoints| && j < |clientAddrs|
    ensures PdConfig(i, pdEndpoints, clientAddrs).initialCluster == PdConfig(j, pdEndpoints, clientAddrs).initialCluster
    ensures PdConfig(i, pdEndpoints, clientAddrs).initialCluster == InitialCluster(pdEndpoints)
  {
  }

  lemma EntryHasNoComma(k: nat, endpoint: string)
    requires Absent(endpoint, ',')
    ensures Absent(ClusterEntry(k, endpoint), ',')
  {
    IntToStringAbsent(k, ',');
    AbsentConcat("pd", IntToString(k), ',');
    AbsentConcat(Numbered("pd", k), "=http://", ',');
    AbsentConcat(Numbered("pd", k) + "=http://", endpoint, ',');
  }

  /** The initial-cluster string splits on ',' back into one entry
      pd{k}=http://{endpoint} per endpoint, in order, when no endpoint holds
      a comma. */
  lemma InitialClusterSplits(pdEndpoints: seq<string>)
    requires |pdEndpoints| > 0
    requires forall k :: 0 <= k < |pdEndpoints| ==> Absent(pdEndpoints[k], ',')
    ensures Split(InitialCluster(pdEndpoints), ',') == ClusterEntries(pdEndpoints)
    ensures forall k :: 0 <= k < |pdEndpoints| ==>
      Split(InitialCluster(pdEndpoints), ',')[k] == "pd" + IntToString(k + 1) + "=http://" + pdEndpoints[k]
  {
    var entries := ClusterEntries(pdEndpoints);
    forall k | 0 <= k < |entries|
      ensures Absent(entries[k], ',')
    {
      EntryHasNoComma(k + 1, pdEndpoints[k]);
    }
    SplitJoin(entries, ',');
  }

  lemma NumberedInjective(prefix: string, a: int, b: int, suffix: string)
    requires InWorkDir(Numbered(prefix, a) + suffix) == InWorkDir(Numbered(prefix, b) + suffix)
    ensures a == b
  {
    PrefixCancel(WorkDir, Numbered(prefix, a) + suffix, Numbered(prefix, b) + suffix);
    var x, y := Numbered(prefix, a) + suffix, Numbered(prefix, b) + suffix;
    assert Numbered(prefix, a) == x[..|x| - |suffix|];
    assert Numbered(prefix, b) == y[..|y| - |suffix|];
    PrefixCancel(prefix, IntToString(a), IntToString(b));
    IntToStringInjective(a, b);
  }

  /** An initial-cluster entry determines its PD number: the number ends at
      the first '=', which no decimal contains. */
  lemma ClusterEntryInjective(a: nat, b: nat, e1: string, e2: string)
    requires ClusterEntry(a, e1) == ClusterEntry(b, e2)
    ensures a == b
  {
    var x, y := IntToString(a), IntToString(b);
    var t1, t2 := "http://" + e1, "http://" + e2;
    assert ClusterEntry(a, e1) == "pd" + (x + ['='] + t1);
    assert ClusterEntry(b, e2) == "pd" + (y + ['='] + t2);
    PrefixCancel("pd", x + ['='] + t1, y + ['='] + t2);
    IntToStringAbsent(a, '=');
    IntToStringAbsent(b, '=');
    MarkedPrefix(x, y, t1, t2, '=');
    IntToStringInjective(a, b);
  }

  /** Every PD appears in the initial cluster under its own name: distinct
      entries carry distinct names. */
  lemma ClusterEntriesDistinct(pdEndpoints: seq<string>, i: nat, j: nat)
    requires i < j < |pdEndpoints|
    ensures ClusterEntries(pdEndpoints)[i] != ClusterEntries(pdEndpoints)[j]
  {
    if ClusterEntries(pdEndpoints)[i] == ClusterEntries(pdEndpoints)[j] {
      ClusterEntryInjective(i + 1, j + 1, pdEndpoints[i], pdEndpoints[j]);
    }
  }

  /** Distinct PD servers have distinct names, data directories and logs. */
  lemma PdServersDistinct(i: nat, j: nat, pdEndpoints: seq<string>, clientAddrs: seq<string>)
    requires i < |pdEndpoints| && i < |clientAddrs| && j < |pdEndpoints| && j < |clientAddrs|
    requires i != j
    ensures var p, q := PdConfig(i, pdEndpoints, clientAddrs), PdConfig(j, pdEndpoints, clientAddrs);
      p.name != q.name && p.dataDir != q.dataDir && p.logFile != q.logFile
  {
    var p, q := PdConfig(i, pdEndpoints, clientAddrs), PdConfig(j, pdEndpoints, clientAddrs);
    if p.dataDir == q.dataDir || p.name == q.name {
      assert p.dataDir == InWorkDir(Numbered("pd", i + 1) + "");
      assert q.dataDir == InWorkDir(Numbered("pd", j + 1) + "");
      NumberedInjective("pd", i + 1, j + 1, "");
    }
    if p.logFile == q.logFile {
      NumberedInjective("pd", i + 1, j + 1, ".log");
    }
  }

  /** Distinct TiKV servers have distinct data directories and logs. */
  lemma TikvServersDistinct(i: nat, j: nat, clientAddrs: seq<string>, port1: int, port2: int)
    requires i != j
    ensures var p, q := TikvConfig(i, clientAddrs, port1), TikvConfig(j, clientAddrs, port2);
      p.dataDir != q.dataDir && p.logFile != q.logFile
  {
    var p, q := TikvConfig(i, clientAddrs, port1), TikvConfig(j, clientAddrs, port2);
    if p.dataDir == q.dataDir {
      assert p.dataDir == InWorkDir(Numbered("tikv", i + 1) + "");
      assert q.dataDir == InWorkDir(Numbered("tikv", j + 1) + "");
      NumberedInjective("tikv", i + 1, j + 1, "");
    }
    if p.logFile == q.logFile {
      NumberedInjective("tikv", i + 1, j + 1, ".log");
    }
  }

  /** Distinct TiDB servers log to distinct files. */
  lemma TidbLogsDistinct(i: nat, j: nat, host: string, clientAddrs: seq<string>, a: int, b: int, c: int, d: int)
    requires i != j
    ensures TidbConfig(i, host, clientAddrs, a, b).logFile != TidbConfig(j, host, clientAddrs, c, d).logFile
  {
    if TidbConfig(i, host, clientAddrs, a, b).logFile == TidbConfig(j, host, clientAddrs, c, d).logFile {
      NumberedInjective("tidb", i + 1, j + 1, ".log");
    }
  }

  /** The data directory of every PD and TiKV server built is one that
      `removeAllDir` deletes. */
  lemma DataDirsRemoved(pdCount: nat, tikvCount: nat, pdEndpoints: seq<string>, clientAddrs: seq<string>, port: int)
    requires pdCount <= |pdEndpoints| && pdCount <= |clientAddrs|
    ensures forall i :: 0 <= i < pdCount ==>
      PdConfig(i, pdEndpoints, clientAddrs).dataDir in RemovedDirs(pdCount, tikvCount)
    ensures forall i :: 0 <= i < tikvCount ==>
      TikvConfig(i, clientAddrs, port).dataDir in RemovedDirs(pdCount, tikvCount)
  {
    var pds, tikvs := NumberedDirs("pd", pdCount), NumberedDirs("tikv", tikvCount);
    forall i | 0 <= i < pdCount
      ensures PdConfig(i, pdEndpoints, clientAddrs).dataDir in RemovedDirs(pdCount, tikvCount)
    {
      NumberedDirsAt("pd", pdCount, i);
      assert RemovedDirs(pdCount, tikvCount)[i] == pds[i];
    }
    forall i | 0 <= i < tikvCount
      ensures TikvConfig(i, clientAddrs, port).dataDir in RemovedDirs(pdCount, tikvCount)
    {
      NumberedDirsAt("tikv", tikvCount, i);
      if pdCount > 0 {
        NumberedDirsAt("pd", pdCount, 0);
      }
      assert RemovedDirs(pdCount, tikvCount)[pdCount + i] == tikvs[i];
    }
  }

  /** The storage address carries the allocated port, always on 127.0.0.1. */
  lemma TikvAddrPort(i: nat, clientAddrs: seq<string>, port: int)
    requires MinInt64 <= port <= MaxInt64
    ensures Ports.PortOf(TikvConfig(i, clientAddrs, port).addr) == Ok(port)
    ensures TikvConfig(i, clientAddrs, port).addr[..10] == "127.0.0.1:"
  {
    Ports.PortOfHostPort("127.0.0.1", port);
    assert "127.0.0.1:" + IntToString(port) == "127.0.0.1" + ":" + IntToString(port);
  }

  /** The frontend address carries the suite's host and the allocated port. */
  lemma TidbAddrPort(i: nat, host: string, clientAddrs: seq<string>, port: int, statusPort: int)
    requires MinInt64 <= port <= MaxInt64
    ensures Ports.PortOf(TidbConfig(i, host, clientAddrs, port, statusPort).addr) == Ok(port)
    ensures TidbConfig(i, host, clientAddrs, port, statusPort).addr[..|host|] == host
  {
    Ports.PortOfHostPort(host, port);
  }

  /** Every storage and frontend server is pointed at the same placement
      client addresses, in order: the comma-joined list splits back into
      them. */
  lemma EndpointListsSplit(i: nat, j: nat, host: string, clientAddrs: seq<string>, a: int, b: int, c: int)
    requires |clientAddrs| > 0
    requires forall k :: 0 <= k < |clientAddrs| ==> Absent(clientAddrs[k], ',')
    ensures Split(TikvConfig(i, clientAddrs, a).pdEndpoints, ',') == clientAddrs
    ensures TidbConfig(j, host, clientAddrs, b, c).path == TikvConfig(i, clientAddrs, a).pdEndpoints
  {
    SplitJoin(clientAddrs, ',');
  }
}
