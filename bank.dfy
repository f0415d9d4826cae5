/** The bank-transfer scenario of dml_test.go: the in-memory ledger of
    expected balances, its insert and transfer phases, the final balance
    check, and the transaction steps of `getTransaction`, `transfer` and
    `doTransfer`. The mutex makes every ledger update atomic, so a run is
    some sequence of updates; the phases below take them in task order and
    the conservation lemmas hold for every order. */
module Bank {
  import opened Wrappers
  import opened Workload

  /** A Go map read: a missing key reads as 0. */
  function Get(e: map<int, int>, k: int): int {
    if k in e then e[k] else 0
  }

  /** `expected[j]--; expected[j+1]++`. */
  function Moved(e: map<int, int>, j: int): map<int, int> {
    var d := e[j := Get(e, j) - 1];
    d[j + 1 := Get(d, j + 1) + 1]
  }

  /** A transfer takes one unit from account j, gives one to account j+1,
      leaves every other balance alone, and makes both accounts present. */
  lemma MovedGet(e: map<int, int>, j: int)
    ensures Get(Moved(e, j), j) == Get(e, j) - 1 && Get(Moved(e, j), j + 1) == Get(e, j + 1) + 1
    ensures forall k :: k != j && k != j + 1 ==> Get(Moved(e, j), k) == Get(e, k)
    ensures Moved(e, j).Keys == e.Keys + {j, j + 1}
  {
  }

  /** The ledger after the successful transfers with senders `js`, in order. */
  function ApplyTransfers(e: map<int, int>, js: seq<int>): map<int, int> {
    if js == [] then e else Moved(ApplyTransfers(e, js[..|js| - 1]), js[|js| - 1])
  }

  /** One more committed transfer. */
  lemma ApplyOne(e: map<int, int>, js: seq<int>, j: int)
    ensures ApplyTransfers(e, js + [j]) == Moved(ApplyTransfers(e, js), j)
  {
    assert (js + [j])[..|js + [j]| - 1] == js;
  }

  /** The sum of the balances of accounts lo..hi-1. */
  function Sum(e: map<int, int>, lo: int, hi: int): int
    decreases hi - lo
  {
    if hi <= lo then 0 else Sum(e, lo, hi - 1) + Get(e, hi - 1)
  }

  /** Changing one balance by delta changes a sum over a range holding it
      by delta, and no other sum. */
  lemma {:induction false} SumPointChange(e: map<int, int>, e2: map<int, int>, lo: int, hi: int, k: int, delta: int)
    requires forall x :: x != k ==> Get(e2, x) == Get(e, x)
    requires Get(e2, k) == Get(e, k) + delta
    ensures Sum(e2, lo, hi) == Sum(e, lo, hi) + (if lo <= k < hi then delta else 0)
    decreases hi - lo
  {
    if hi > lo {
      SumPointChange(e, e2, lo, hi - 1, k, delta);
    }
  }

  /** A transfer between two accounts of a range keeps its total. */
  lemma MovedConserves(e: map<int, int>, j: int, lo: int, hi: int)
    requires lo <= j && j + 1 < hi
    ensures Sum(Moved(e, j), lo, hi) == Sum(e, lo, hi)
  {
    var d := e[j := Get(e, j) - 1];
    MovedGet(e, j);
    SumPointChange(e, d, lo, hi, j, -1);
    SumPointChange(d, Moved(e, j), lo, hi, j + 1, 1);
  }

  /** Whatever transfers committed and in whatever order, as long as each
      moves money between two accounts of [lo, hi), the total over [lo, hi)
      is unchanged and no account outside it changes. */
  lemma {:induction false} TransfersConserve(e: map<int, int>, js: seq<int>, lo: int, hi: int)
    requires forall t :: 0 <= t < |js| ==> lo <= js[t] && js[t] + 1 < hi
    ensures Sum(ApplyTransfers(e, js), lo, hi) == Sum(e, lo, hi)
    ensures forall k :: (k < lo || k >= hi) ==> Get(ApplyTransfers(e, js), k) == Get(e, k)
  {
    if js != [] {
      TransfersConserve(e, js[..|js| - 1], lo, hi);
      MovedConserves(ApplyTransfers(e, js[..|js| - 1]), js[|js| - 1], lo, hi);
      MovedGet(ApplyTransfers(e, js[..|js| - 1]), js[|js| - 1]);
    }
  }

  /** The ledger after the insert phase: `expected[j] = j+1` for each insert
      that returned nil or a duplicate error. */
  function RecordedInserts(e: map<int, int>, errs: seq<MaybeError>, hi: nat): map<int, int>
    requires hi <= |errs|
  {
    if hi == 0 then e
    else
      var prev := RecordedInserts(e, errs, hi - 1);
      if Acceptable(errs[hi - 1]) then prev[hi - 1 := hi] else prev
  }

  /** On a fresh ledger, account k is recorded exactly when its insert
      returned nil or a duplicate error, and then with balance k + 1. */
  lemma {:induction false} RecordedInsertsRows(errs: seq<MaybeError>, hi: nat, k: int)
    requires hi <= |errs|
    ensures var r := RecordedInserts(map[], errs, hi);
      (k in r <==> 0 <= k < hi && Acceptable(errs[k])) && (k in r ==> r[k] == k + 1)
  {
    if hi > 0 {
      RecordedInsertsRows(errs, hi - 1, k);
    }
  }

  /** The senders of task n whose transfer returned nil, below hi, in order:
      task n sends from j to j+1 for j in [m*n, m*(n+1)-1). */
  function Committed(errs: seq<MaybeError>, lo: int, hi: int): seq<int>
    requires 0 <= lo && hi <= |errs|
    decreases hi - lo
  {
    if hi <= lo then []
    else Committed(errs, lo, hi - 1) + (if errs[hi - 1].None? then [hi - 1] else [])
  }

  lemma CommittedStep(before: seq<int>, errs: seq<MaybeError>, lo: nat, j: nat)
    requires lo <= j < |errs|
    ensures before + Committed(errs, lo, j + 1) ==
      before + Committed(errs, lo, j) + (if errs[j].None? then [j] else [])
  {
  }

  /** The committed senders of tasks 0..n-1, task by task. */
  function TransferTrace(m: nat, errs: seq<MaybeError>, n: nat): seq<int>
    requires m * n <= |errs|
  {
    if n == 0 then []
    else
      TransferTrace(m, errs, n - 1) + Committed(errs, m * (n - 1), m * (n - 1) + m - 1)
  }

  /** The trace of n + 1 tasks extends that of n tasks by task n's
      committed senders. */
  lemma TraceStep(m: nat, errs: seq<MaybeError>, n: nat, lo: nat, tasks: nat)
    requires lo == m * n && n < tasks && m * tasks <= |errs|
    ensures lo + m == m * (n + 1) && lo + m <= m * tasks
    ensures TransferTrace(m, errs, n + 1) == TransferTrace(m, errs, n) + Committed(errs, lo, lo + m - 1)
  {
    assert m * (n + 1) == lo + m;
    MulMono(n + 1, tasks, m);
  }

  lemma {:induction false} CommittedInRange(errs: seq<MaybeError>, lo: int, hi: int)
    requires 0 <= lo && hi <= |errs|
    ensures forall t :: 0 <= t < |Committed(errs, lo, hi)| ==>
      lo <= Committed(errs, lo, hi)[t] < hi
    decreases hi - lo
  {
    if hi > lo {
      CommittedInRange(errs, lo, hi - 1);
    }
  }

  /** Sender j and receiver j + 1 belong to the same one of the shards of
      tasks 0..tasks-1. */
  ghost predicate SameShard(j: int, tasks: nat, m: nat) {
    exists task: nat :: task < tasks && InShard(j, task, m) && InShard(j + 1, task, m)
  }

  /** Every committed transfer moves money inside one task's shard: sender
      j and receiver j + 1 both belong to it. */
  lemma {:induction false} TraceInShards(m: nat, errs: seq<MaybeError>, n: nat)
    requires m * n <= |errs|
    ensures forall t :: 0 <= t < |TransferTrace(m, errs, n)| ==> SameShard(TransferTrace(m, errs, n)[t], n, m)
  {
    if n > 0 {
      MulMono(n - 1, n, m);
      TraceInShards(m, errs, n - 1);
      var prev := TransferTrace(m, errs, n - 1);
      var k: nat := n - 1;
      var lo, hi := m * k, m * k + m - 1;
      assert m * (k + 1) == m * n;
      var last := Committed(errs, lo, hi);
      CommittedInRange(errs, lo, hi);
      var trace := TransferTrace(m, errs, n);
      assert trace == prev + last;
      forall t | 0 <= t < |trace|
        ensures SameShard(trace[t], n, m)
      {
        if t < |prev| {
          assert trace[t] == prev[t];
          assert SameShard(prev[t], n - 1, m);
          var task: nat :| task < n - 1 && InShard(prev[t], task, m) && InShard(prev[t] + 1, task, m);
          assert task < n;
        } else {
          assert trace[t] == last[t - |prev|];
          assert InShard(trace[t], k, m) && InShard(trace[t] + 1, k, m);
        }
      }
    }
  }

  /** The transfer phase keeps the total of all tasks*m accounts. */
  lemma PhaseConserves(e: map<int, int>, m: nat, errs: seq<MaybeError>, tasks: nat)
    requires m * tasks <= |errs|
    ensures Sum(ApplyTransfers(e, TransferTrace(m, errs, tasks)), 0, m * tasks) == Sum(e, 0, m * tasks)
  {
    var trace := TransferTrace(m, errs, tasks);
    TraceInShards(m, errs, tasks);
    forall t | 0 <= t < |trace|
      ensures 0 <= trace[t] && trace[t] + 1 < m * tasks
    {
      assert SameShard(trace[t], tasks, m);
      var task: nat :| task < tasks && InShard(trace[t], task, m) && InShard(trace[t] + 1, task, m);
      MulMono(task + 1, tasks, m);
    }
    TransfersConserve(e, trace, 0, m * tasks);
  }

  /** The expected-balance map, guarded by the scenario's mutex. */
  class Ledger {
    var expected: map<int, int>

    constructor ()
      ensures expected == map[]
    {
      expected := map[];
    }

    /** `expected[j] = j+1`. */
    method RecordInsert(j: int)
      modifies this
      ensures expected == old(expected)[j := j + 1]
    {
      expected := expected[j := j + 1];
    }

    /** `expected[j]--; expected[j+1]++`. */
    method RecordTransfer(j: int)
      modifies this
      ensures expected == Moved(old(expected), j)
    {
      expected := expected[j := Get(expected, j) - 1];
      expected := expected[j + 1 := Get(expected, j + 1) + 1];
    }

    /** The insert phase: account j of task n is recorded when its insert
        returned nil or a duplicate error. */
    method InsertPhase(tasks: nat, m: nat, inserts: seq<MaybeError>)
      requires tasks * m <= |inserts|
      modifies this
      ensures expected == RecordedInserts(old(expected), inserts, tasks * m)
    {
      ghost var e0 := expected;
      var n, lo := 0, 0;
      while n < tasks
        invariant 0 <= n <= tasks && lo == m * n && lo <= tasks * m
        invariant expected == RecordedInserts(e0, inserts, lo)
      {
        assert m * (n + 1) == lo + m;
        MulMono(n + 1, tasks, m);
        InsertTask(e0, lo, lo + m, inserts);
        n, lo := n + 1, lo + m;
      }
      assert lo == tasks * m;
    }

    /** The inserts of one task: keys lo..hi-1, continuing the phase. */
    method InsertTask(ghost e0: map<int, int>, lo: nat, hi: nat, inserts: seq<MaybeError>)
      requires lo <= hi <= |inserts|
      requires expected == RecordedInserts(e0, inserts, lo)
      modifies this
      ensures expected == RecordedInserts(e0, inserts, hi)
    {
      var j := lo;
      while j < hi
        invariant lo <= j <= hi
        invariant expected == RecordedInserts(e0, inserts, j)
      {
        var err := inserts[j];
        if err.None? || Classify.IsDuplicateError(err) {
          RecordInsert(j);
        }
        j := j + 1;
      }
    }

    /** The transfers of one task: from j to j+1 for j in [lo, hi), each
        one that returned nil recorded. */
    method TransferTask(ghost e0: map<int, int>, ghost before: seq<int>, ghost after: seq<int>, lo: nat, hi: int, transfers: seq<MaybeError>)
      requires lo <= |transfers| && hi <= |transfers|
      requires expected == ApplyTransfers(e0, before)
      requires after == before + Committed(transfers, lo, hi)
      modifies this
      ensures expected == ApplyTransfers(e0, after)
    {
      var j := lo;
      ghost var done := before;
      assert before + Committed(transfers, lo, lo) == before;
      while j < hi
        invariant lo <= j
        invariant j <= hi || j == lo
        invariant done == before + Committed(transfers, lo, j)
        invariant expected == ApplyTransfers(e0, done)
      {
        var err := transfers[j];
        CommittedStep(before, transfers, lo, j);
        if err.None? {
          ApplyOne(e0, done, j);
          RecordTransfer(j);
          done := done + [j];
        }
        j := j + 1;
      }
    }

    /** The transfer phase: task n transfers from j to j+1 for j in
        [m*n, m*(n+1)-1), and a transfer that returned nil is recorded. */
    method TransferPhase(tasks: nat, m: nat, transfers: seq<MaybeError>)
      requires m * tasks <= |transfers|
      modifies this
      ensures expected == ApplyTransfers(old(expected), TransferTrace(m, transfers, tasks))
    {
      ghost var e0 := expected;
      var n, lo := 0, 0;
      while n < tasks
        invariant 0 <= n <= tasks && lo == m * n && lo <= m * tasks
        invariant expected == ApplyTransfers(e0, TransferTrace(m, transfers, n))
      {
        TraceStep(m, transfers, n, lo, tasks);
        TransferTask(e0, TransferTrace(m, transfers, n), TransferTrace(m, transfers, n + 1), lo, lo + m - 1, transfers);
        n, lo := n + 1, lo + m;
      }
    }
  }

  /** One row of `SELECT id,money`. */
  datatype Row = Row(id: int, money: int)

  /** The map the rows are scanned into: a later row with the same id
      overwrites an earlier one. */
  function RowsMap(rows: seq<Row>): (r: map<int, int>)
    ensures forall k :: k in r <==> exists i :: 0 <= i < |rows| && rows[i].id == k
  {
    if rows == [] then map[]
    else
      var prev := RowsMap(rows[..|rows| - 1]);
      assert forall i :: 0 <= i < |rows| - 1 ==> rows[..|rows| - 1][i] == rows[i];
      prev[rows[|rows| - 1].id := rows[|rows| - 1].money]
  }

  /** The scanned map holds, for each id, the money of its last row. */
  lemma {:induction false} RowsMapLast(rows: seq<Row>, i: nat)
    requires i < |rows|
    requires forall u :: i < u < |rows| ==> rows[u].id != rows[i].id
    ensures rows[i].id in RowsMap(rows) && RowsMap(rows)[rows[i].id] == rows[i].money
  {
    if i < |rows| - 1 {
      var init := rows[..|rows| - 1];
      assert init[i] == rows[i];
      assert forall u :: i < u < |init| ==> init[u] == rows[u];
      RowsMapLast(init, i);
    }
  }

  /** Scanning the rows: `m[id] = money` for each row in turn. */
  method ReadRows(rows: seq<Row>) returns (observed: map<int, int>)
    ensures observed == RowsMap(rows)
  {
    observed := map[];
    var i := 0;
    while i < |rows|
      invariant 0 <= i <= |rows|
      invariant observed == RowsMap(rows[..i])
    {
      assert rows[..i + 1][..i] == rows[..i];
      observed := observed[rows[i].id := rows[i].money];
      i := i + 1;
    }
    assert rows[..i] == rows;
  }

  /** `order` enumerates the keys of `observed` once each: the order a Go
      `range` over a map happens to take. */
  ghost predicate Enumerates(order: seq<int>, observed: map<int, int>) {
    (forall k :: k in observed <==> k in order) &&
    (forall a, b :: 0 <= a < b < |order| ==> order[a] != order[b])
  }

  /** The final check: every scanned balance equals the ledger's one (a key
      missing from the ledger reads as 0). */
  method CheckBalances(observed: map<int, int>, expected: map<int, int>, order: seq<int>) returns (ok: bool)
    requires Enumerates(order, observed)
    ensures ok <==> forall k :: k in observed ==> Get(expected, k) == observed[k]
  {
    ok := true;
    var i := 0;
    while i < |order|
      invariant 0 <= i <= |order|
      invariant ok <==> forall t :: 0 <= t < i ==> Get(expected, order[t]) == observed[order[t]]
    {
      if Get(expected, order[i]) != observed[order[i]] {
        ok := false;
      }
      i := i + 1;
    }
    assert forall k :: k in observed ==> exists t :: 0 <= t < |order| && order[t] == k;
  }

  /** Sums over a range only see the balances inside it. */
  lemma {:induction false} SumAgree(a: map<int, int>, b: map<int, int>, lo: int, hi: int)
    requires forall k :: lo <= k < hi ==> Get(a, k) == Get(b, k)
    ensures Sum(a, lo, hi) == Sum(b, lo, hi)
    decreases hi - lo
  {
    if hi > lo {
      SumAgree(a, b, lo, hi - 1);
    }
  }

  /** The ledger at the end of the scenario. */
  function FinalLedger(tasks: nat, m: nat, inserts: seq<MaybeError>, transfers: seq<MaybeError>): map<int, int>
    requires tasks * m <= |inserts| && m * tasks <= |transfers|
  {
    ApplyTransfers(RecordedInserts(map[], inserts, tasks * m), TransferTrace(m, transfers, tasks))
  }

  /** TestBankTransfer: create the table, insert account j with balance
      j+1, move 1 from j to j+1 inside each shard, read every row back and
      compare it with the ledger. `createErr` and `queryErr` are what the
      create and the final select returned, `order` the order the range
      over the scanned map takes. */
  method BankScenario(tasks: nat, m: nat, createErr: MaybeError, inserts: seq<MaybeError>,
                      transfers: seq<MaybeError>, queryErr: MaybeError, rows: seq<Row>, order: seq<int>)
    returns (passed: bool, expected: map<int, int>, observed: map<int, int>)
    requires tasks * m <= |inserts| && m * tasks <= |transfers|
    requires Enumerates(order, RowsMap(rows))
    ensures expected == FinalLedger(tasks, m, inserts, transfers)
    ensures observed == RowsMap(rows)
    ensures passed <==> createErr.None? && queryErr.None? &&
                        forall k :: k in observed ==> Get(expected, k) == observed[k]
  {
    var ledger := new Ledger();
    ledger.InsertPhase(tasks, m, inserts);
    ledger.TransferPhase(tasks, m, transfers);
    expected := ledger.expected;
    observed := ReadRows(rows);
    var balanced := CheckBalances(observed, expected, order);
    passed := createErr.None? && queryErr.None? && balanced;
  }

  /** When every account of the tasks was read back with the ledger's
      balance, the money read back totals what the insert phase put in. */
  lemma BankConserves(tasks: nat, m: nat, inserts: seq<MaybeError>, transfers: seq<MaybeError>, observed: map<int, int>)
    requires tasks * m <= |inserts| && m * tasks <= |transfers|
    requires forall k :: 0 <= k < tasks * m ==> Get(observed, k) == Get(FinalLedger(tasks, m, inserts, transfers), k)
    ensures Sum(observed, 0, tasks * m) == Sum(RecordedInserts(map[], inserts, tasks * m), 0, tasks * m)
  {
    var total := tasks * m;
    assert total == m * tasks;
    var start := RecordedInserts(map[], inserts, total);
    var final := FinalLedger(tasks, m, inserts, transfers);
    assert final == ApplyTransfers(start, TransferTrace(m, transfers, tasks));
    SumAgree(observed, final, 0, total);
    PhaseConserves(start, m, transfers, tasks);
  }

  /** With every insert accepted the ledger starts at 1 + 2 + ... + hi. */
  lemma {:induction false} CleanInsertTotal(inserts: seq<MaybeError>, hi: nat)
    requires hi <= |inserts|
    requires forall j :: 0 <= j < hi ==> Acceptable(inserts[j])
    ensures Sum(RecordedInserts(map[], inserts, hi), 0, hi) == hi * (hi + 1) / 2
  {
    if hi > 0 {
      CleanInsertTotal(inserts, hi - 1);
      var prev := RecordedInserts(map[], inserts, hi - 1);
      forall k | k != hi - 1
        ensures Get(prev[hi - 1 := hi], k) == Get(prev, k)
      {
      }
      RecordedInsertsRows(inserts, hi - 1, hi - 1);
      SumPointChange(prev, prev[hi - 1 := hi], 0, hi - 1, hi - 1, hi);
    }
  }

  /** One try of getTransaction: the server getOneServerRandomly returned
      (None when it gave up, which ends the process), whether Begin
      returned a transaction, and its error. */
  datatype BeginAttempt = BeginAttempt(server: Option<nat>, txn: bool, err: MaybeError)

  /** What getTransaction ends with. */
  datatype TxnOutcome =
    | Began(attempt: nat)
    | RunOut(error: Error)
    | NoServer

  const MaxBegins: nat := 10
  const LoopRunOut := Error("loop run out")

  predicate Usable(a: BeginAttempt) {
    a.txn && a.err.None?
  }

  /** getTransaction: up to ten tries of Begin on a random server; the
      first try with a transaction and no error wins. */
  method GetTransaction(attempts: seq<BeginAttempt>) returns (r: TxnOutcome)
    requires MaxBegins <= |attempts|
    ensures r.Began? ==>
              r.attempt < MaxBegins && attempts[r.attempt].server.Some? && Usable(attempts[r.attempt]) &&
              forall u :: 0 <= u < r.attempt ==> attempts[u].server.Some? && !Usable(attempts[u])
    ensures r.NoServer? <==>
              exists t :: 0 <= t < MaxBegins && attempts[t].server.None? && forall u :: 0 <= u < t ==> attempts[u].server.Some? && !Usable(attempts[u])
    ensures r.RunOut? <==> forall t :: 0 <= t < MaxBegins ==> attempts[t].server.Some? && !Usable(attempts[t])
    ensures r.RunOut? ==> r.error == LoopRunOut
  {
    var i := 0;
    while i < MaxBegins
      invariant 0 <= i <= MaxBegins
      invariant forall u :: 0 <= u < i ==> attempts[u].server.Some? && !Usable(attempts[u])
    {
      if attempts[i].server.None? {
        return NoServer;
      }
      if attempts[i].txn && attempts[i].err.None? {
        return Began(i);
      }
      i := i + 1;
    }
    return RunOut(LoopRunOut);
  }

  /** The statements a transfer issues inside its transaction. */
  datatype TxnCall =
    | ReadSender(sender: int, count: int)
    | Credit(receiver: int, count: int)
    | Debit(sender: int, count: int)
    | Commit
    | Rollback

  /** What each step of doTransfer returned: the scan of the sender's row,
      the two updates and the commit. */
  datatype StepResults = StepResults(read: MaybeError, credit: MaybeError, debit: MaybeError, commit: MaybeError)

  /** doTransfer's steps, in order. */
  function TransferSteps(sender: int, receiver: int, count: int): seq<TxnCall> {
    [ReadSender(sender, count), Credit(receiver, count), Debit(sender, count), Commit]
  }

  function StepErr(results: StepResults, k: nat): MaybeError
    requires k < 4
  {
    if k == 0 then results.read else if k == 1 then results.credit
    else if k == 2 then results.debit else results.commit
  }

  /** doTransfer: read the sender's row, credit the receiver, debit the
      sender, commit; the first step that fails ends it with its error. */
  method DoTransfer(sender: int, receiver: int, count: int, results: StepResults)
    returns (err: MaybeError, calls: seq<TxnCall>)
    ensures 1 <= |calls| <= 4 && calls == TransferSteps(sender, receiver, count)[..|calls|]
    ensures forall t :: 0 <= t < |calls| - 1 ==> StepErr(results, t).None?
    ensures err == StepErr(results, |calls| - 1)
    ensures err.None? ==> |calls| == 4
    ensures err.None? <==>
              results.read.None? && results.credit.None? && results.debit.None? && results.commit.None?
  {
    calls := [ReadSender(sender, count)];
    if results.read.Some? {
      return results.read, calls;
    }
    calls := calls + [Credit(receiver, count)];
    if results.credit.Some? {
      return results.credit, calls;
    }
    calls := calls + [Debit(sender, count)];
    if results.debit.Some? {
      return results.debit, calls;
    }
    calls := calls + [Commit];
    err := results.commit;
  }

  /** transfer: get a transaction, run doTransfer in it, and roll it back
      when doTransfer failed. `exited` says getOneServerRandomly ended the
      process. */
  method Transfer(sender: int, receiver: int, count: int, attempts: seq<BeginAttempt>, results: StepResults)
    returns (err: MaybeError, calls: seq<TxnCall>, exited: bool)
    requires MaxBegins <= |attempts|
    ensures exited ==> err.None? && calls == []
    ensures exited <==>
              exists t :: 0 <= t < MaxBegins && attempts[t].server.None? &&
                forall u :: 0 <= u < t ==> attempts[u].server.Some? && !Usable(attempts[u])
    ensures calls == [] <==> exited || forall t :: 0 <= t < MaxBegins ==> attempts[t].server.Some? && !Usable(attempts[t])
    ensures !exited && calls == [] ==> err == Some(LoopRunOut)
    ensures calls != [] && err.None? ==>
              calls == TransferSteps(sender, receiver, count) &&
              forall t :: 0 <= t < 4 ==> StepErr(results, t).None?
    ensures calls != [] && err.Some? ==>
              2 <= |calls| <= 5 && calls[|calls| - 1] == Rollback &&
              calls[..|calls| - 1] == TransferSteps(sender, receiver, count)[..|calls| - 1] &&
              err == StepErr(results, |calls| - 2) &&
              forall t :: 0 <= t < |calls| - 2 ==> StepErr(results, t).None?
    ensures Rollback in calls <==> calls != [] && err.Some?
  {
    var txn := GetTransaction(attempts);
    if txn.NoServer? {
      return None, [], true;
    }
    if txn.RunOut? {
      return Some(txn.error), [], false;
    }
    exited := false;
    err, calls := DoTransfer(sender, receiver, count, results);
    if err.Some? {
      calls := calls + [Rollback];
    }
  }
}
