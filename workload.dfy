/** The insert, update and delete scenarios of dml_test.go. Task `n` of
    `tasks` owns the key shard [m*n, m*(n+1)); the goroutines are run one
    after another in task order. The shards are disjoint and statements on
    distinct keys commute (`ApplyCommutes`). The table is an abstract map
    from c1 to c2, and the error each statement's `exec` returned is an
    oracle indexed by key. */
module Workload {
  import opened Wrappers
  import opened Classify

  /** Key `k` belongs to task `n` when each task makes `m` operations. */
  predicate InShard(k: int, n: nat, m: nat) {
    m * n <= k < m * (n + 1)
  }

  lemma MulMonoIf(a: nat, b: nat, m: nat)
    ensures a <= b ==> m * a <= m * b
  {
    if a <= b {
      MulMono(a, b, m);
    }
  }

  lemma MulMono(a: nat, b: nat, m: nat)
    requires a <= b
    ensures m * a <= m * b
  {
    assert m * b == m * a + m * (b - a);
  }

  /** No key is in two shards. */
  lemma ShardsDisjoint(k: int, n1: nat, n2: nat, m: nat)
    requires InShard(k, n1, m) && InShard(k, n2, m)
    ensures n1 == n2
  {
    MulMonoIf(n1 + 1, n2, m);
    MulMonoIf(n2 + 1, n1, m);
  }

  /** The shards of tasks 0..tasks-1 together are exactly [0, tasks*m). */
  lemma ShardsCover(k: int, tasks: nat, m: nat)
    ensures (0 <= k < tasks * m) <==> exists n: nat :: n < tasks && InShard(k, n, m)
  {
    if 0 <= k < tasks * m {
      var n := k / m;
      assert m * n <= k < m * (n + 1);
      MulMonoIf(tasks, n, m);
      assert InShard(k, n, m);
    }
    forall n: nat | n < tasks && InShard(k, n, m)
      ensures 0 <= k < tasks * m
    {
      MulMono(n + 1, tasks, m);
    }
  }

  /** The statement each phase issues for key j, as its effect on the table:
      `insert ... values (j,j)` (a no-op on an existing key),
      `update ... set c2 = j+1 where c1 = j` and `delete ... where c1 = j`. */
  datatype Op = Insert | Update | Delete

  function Apply(op: Op, t: map<int, int>, j: int): map<int, int> {
    match op
    case Insert => if j in t then t else t[j := j]
    case Update => if j in t then t[j := j + 1] else t
    case Delete => t - {j}
  }

  /** Statements on distinct keys commute: running them in either order
      gives the same table. */
  lemma ApplyCommutes(op1: Op, op2: Op, t: map<int, int>, a: int, b: int)
    requires a != b
    ensures Apply(op2, Apply(op1, t, a), b) == Apply(op1, Apply(op2, t, b), a)
  {
  }

  /** A statement took effect when `exec` returned nil or a duplicate error;
      anything else trips the scenario's `isDuplicateError` assertion. */
  predicate Acceptable(err: MaybeError) {
    err.None? || IsDuplicateError(err)
  }

  /** The table after the statements for keys 0..hi-1, in order. */
  function RunPhase(op: Op, t: map<int, int>, errs: seq<MaybeError>, hi: nat): map<int, int>
    requires hi <= |errs|
  {
    if hi == 0 then t
    else
      var prev := RunPhase(op, t, errs, hi - 1);
      if Acceptable(errs[hi - 1]) then Apply(op, prev, hi - 1) else prev
  }

  /** A phase leaves every key outside the keys it ran untouched. */
  lemma {:induction false} RunPhaseOutside(op: Op, t: map<int, int>, errs: seq<MaybeError>, hi: nat, k: int)
    requires hi <= |errs| && (k < 0 || k >= hi)
    ensures k in RunPhase(op, t, errs, hi) <==> k in t
    ensures k in t ==> RunPhase(op, t, errs, hi)[k] == t[k]
  {
    if hi > 0 {
      RunPhaseOutside(op, t, errs, hi - 1, k);
    }
  }

  /** One more statement: the phase has failed once this one or an earlier
      one did. */
  lemma AnyFailedStep(errs: seq<MaybeError>, j: nat)
    requires j < |errs|
    ensures AnyFailed(errs, j + 1) <==> AnyFailed(errs, j) || !Acceptable(errs[j])
  {
    if !Acceptable(errs[j]) {
      assert 0 <= j < j + 1 && !Acceptable(errs[j]);
    }
  }

  /** Some statement of the first `hi` failed the assertion. */
  predicate AnyFailed(errs: seq<MaybeError>, hi: nat)
    requires hi <= |errs|
  {
    exists j :: 0 <= j < hi && !Acceptable(errs[j])
  }

  /** One task: the statements for keys lo..hi-1 in key order, continuing
      the phase so far. */
  method Task(op: Op, t: map<int, int>, errs: seq<MaybeError>, lo: nat, hi: nat, table0: map<int, int>, failed0: bool)
    returns (table: map<int, int>, failed: bool)
    requires lo <= hi <= |errs|
    requires table0 == RunPhase(op, t, errs, lo) && (failed0 <==> AnyFailed(errs, lo))
    ensures table == RunPhase(op, t, errs, hi)
    ensures failed <==> AnyFailed(errs, hi)
  {
    table, failed := table0, failed0;
    var j := lo;
    while j < hi
      invariant lo <= j <= hi
      invariant table == RunPhase(op, t, errs, j)
      invariant failed <==> AnyFailed(errs, j)
    {
      var err := errs[j];
      if Acceptable(err) {
        table := Apply(op, table, j);
      } else {
        failed := true;
      }
      AnyFailedStep(errs, j);
      j := j + 1;
    }
  }

  /** One phase: `tasks` tasks, each running its shard's statements in key
      order. Reports the table and whether any assertion failed. */
  method Phase(op: Op, t: map<int, int>, tasks: nat, m: nat, errs: seq<MaybeError>)
    returns (table: map<int, int>, failed: bool)
    requires tasks * m <= |errs|
    ensures table == RunPhase(op, t, errs, tasks * m)
    ensures failed <==> AnyFailed(errs, tasks * m)
  {
    table, failed := t, false;
    var n, lo := 0, 0;
    while n < tasks
      invariant 0 <= n <= tasks && lo == m * n && lo <= tasks * m
      invariant table == RunPhase(op, t, errs, lo)
      invariant failed <==> AnyFailed(errs, lo)
    {
      assert m * (n + 1) == lo + m;
      MulMono(n + 1, tasks, m);
      table, failed := Task(op, t, errs, lo, lo + m, table, failed);
      n, lo := n + 1, lo + m;
    }
    assert lo == tasks * m;
  }

  function Range(k: nat): (r: set<int>)
    ensures forall j :: j in r <==> 0 <= j < k
  {
    if k == 0 then {} else Range(k - 1) + {k - 1}
  }

  lemma {:induction false} RangeSize(k: nat)
    ensures |Range(k)| == k
  {
    if k > 0 {
      RangeSize(k - 1);
    }
  }

  /** The rows a clean insert phase leaves: c2 = c1 for every key. */
  function Inserted(k: nat): (r: map<int, int>)
    ensures forall j :: j in r <==> 0 <= j < k
    ensures forall j :: j in r ==> r[j] == j
  {
    if k == 0 then map[] else Inserted(k - 1)[k - 1 := k - 1]
  }

  /** The rows a clean update phase leaves: c2 = c1 + 1 for every key. */
  function Updated(k: nat): (r: map<int, int>)
    ensures forall j :: j in r <==> 0 <= j < k
    ensures forall j :: j in r ==> r[j] == j + 1
  {
    if k == 0 then map[] else Updated(k - 1)[k - 1 := k]
  }

  predicate AllAcceptable(errs: seq<MaybeError>, hi: nat)
    requires hi <= |errs|
  {
    forall j :: 0 <= j < hi ==> Acceptable(errs[j])
  }

  /** On a fresh table, a key is present after the insert phase exactly when
      its insert returned nil or a duplicate error, and then c2 = c1. */
  lemma {:induction false} InsertPhaseRows(errs: seq<MaybeError>, hi: nat, k: int)
    requires hi <= |errs|
    ensures var r := RunPhase(Insert, map[], errs, hi);
      (k in r <==> 0 <= k < hi && Acceptable(errs[k])) && (k in r ==> r[k] == k)
  {
    if hi > 0 {
      InsertPhaseRows(errs, hi - 1, k);
    }
  }

  lemma {:induction false} CleanInsert(errs: seq<MaybeError>, hi: nat)
    requires hi <= |errs| && AllAcceptable(errs, hi)
    ensures RunPhase(Insert, map[], errs, hi) == Inserted(hi)
  {
    if hi > 0 {
      CleanInsert(errs, hi - 1);
    }
  }

  /** Updating every inserted row once maps each updated key k to k + 1
      and leaves the others alone. */
  lemma {:induction false} CleanUpdate(k: nat, errs: seq<MaybeError>, hi: nat)
    requires hi <= k && hi <= |errs| && AllAcceptable(errs, hi)
    ensures forall j :: j in RunPhase(Update, Inserted(k), errs, hi) <==> 0 <= j < k
    ensures forall j :: j in RunPhase(Update, Inserted(k), errs, hi) ==>
      RunPhase(Update, Inserted(k), errs, hi)[j] == if j < hi then j + 1 else j
  {
    if hi > 0 {
      CleanUpdate(k, errs, hi - 1);
      var prev := RunPhase(Update, Inserted(k), errs, hi - 1);
      RunPhaseOutside(Update, Inserted(k), errs, hi - 1, hi - 1);
      assert hi - 1 in prev;
      var r := RunPhase(Update, Inserted(k), errs, hi);
      assert r == prev[hi - 1 := hi];
    }
  }

  /** After a clean update of all k rows the table is `Updated(k)`. */
  lemma CleanUpdateAll(k: nat, errs: seq<MaybeError>)
    requires k <= |errs| && AllAcceptable(errs, k)
    ensures RunPhase(Update, Inserted(k), errs, k) == Updated(k)
  {
    CleanUpdate(k, errs, k);
  }

  /** Deleting keys 0..hi-1 removes exactly them. */
  lemma {:induction false} CleanDelete(t: map<int, int>, errs: seq<MaybeError>, hi: nat)
    requires hi <= |errs| && AllAcceptable(errs, hi)
    ensures RunPhase(Delete, t, errs, hi) == t - Range(hi)
  {
    if hi > 0 {
      CleanDelete(t, errs, hi - 1);
      assert t - Range(hi - 1) - {hi - 1} == t - Range(hi);
    }
  }

  lemma UpdatedSize(k: nat)
    ensures |Updated(k)| == k
  {
    assert Updated(k).Keys == Range(k);
    RangeSize(k);
  }

  lemma InsertedSize(k: nat)
    ensures |Inserted(k)| == k
  {
    assert Inserted(k).Keys == Range(k);
    RangeSize(k);
  }

  /** `TestInsert`: create the table, the insert phase, then the read-back
      must hold tasks*m rows, then drop the table. `createErr` and `dropErr`
      are what `createTable` and `dropTable` got from `exec`; a create error
      stops the test at once. It passes exactly when the create and the drop
      succeeded and every insert returned nil or a duplicate error. */
  method InsertScenario(tasks: nat, m: nat, createErr: MaybeError, inserts: seq<MaybeError>, dropErr: MaybeError)
    returns (passed: bool, table: map<int, int>)
    requires tasks * m <= |inserts|
    ensures passed <==> createErr.None? && AllAcceptable(inserts, tasks * m) && dropErr.None?
    ensures passed ==> table == Inserted(tasks * m)
  {
    if createErr.Some? {
      return false, map[];
    }
    var failed;
    table, failed := Phase(Insert, map[], tasks, m, inserts);
    passed := !failed && |table| == tasks * m && dropErr.None?;
    if !failed {
      CleanInsert(inserts, tasks * m);
      InsertedSize(tasks * m);
    }
  }

  /** `TestUpdate`: create the table, the insert phase, a barrier, the
      update phase; the read-back must hold tasks*m rows, each with
      c2 = c1 + 1; then drop the table. A create error stops the test. */
  method UpdateScenario(tasks: nat, m: nat, createErr: MaybeError, inserts: seq<MaybeError>,
                        updates: seq<MaybeError>, dropErr: MaybeError)
    returns (passed: bool, table: map<int, int>)
    requires tasks * m <= |inserts| && tasks * m <= |updates|
    ensures passed <==> createErr.None? && AllAcceptable(inserts, tasks * m) &&
                        AllAcceptable(updates, tasks * m) && dropErr.None?
    ensures passed ==> table == Updated(tasks * m)
  {
    if createErr.Some? {
      return false, map[];
    }
    var k := tasks * m;
    var inserted, failedInsert := Phase(Insert, map[], tasks, m, inserts);
    var failedUpdate;
    table, failedUpdate := Phase(Update, inserted, tasks, m, updates);
    passed := !failedInsert && !failedUpdate && |table| == k && RowsIncremented(table) && dropErr.None?;
    if !failedInsert && !failedUpdate {
      CleanInsert(inserts, k);
      CleanUpdateAll(k, updates);
      UpdatedSize(k);
    }
  }

  /** The read-back check of `TestUpdate`: every row has c2 = c1 + 1. */
  predicate RowsIncremented(t: map<int, int>) {
    forall key :: key in t ==> t[key] == key + 1
  }

  /** `TestDelete`: create the table, the insert phase, a barrier, the
      delete phase; the read-back must be empty; then drop the table. A
      create error stops the test. */
  method DeleteScenario(tasks: nat, m: nat, createErr: MaybeError, inserts: seq<MaybeError>,
                        deletes: seq<MaybeError>, dropErr: MaybeError)
    returns (passed: bool, table: map<int, int>)
    requires tasks * m <= |inserts| && tasks * m <= |deletes|
    ensures passed <==> createErr.None? && AllAcceptable(inserts, tasks * m) &&
                        AllAcceptable(deletes, tasks * m) && dropErr.None?
    ensures passed ==> table == map[]
  {
    if createErr.Some? {
      return false, map[];
    }
    var k := tasks * m;
    var inserted, failedInsert := Phase(Insert, map[], tasks, m, inserts);
    var failedDelete;
    table, failedDelete := Phase(Delete, inserted, tasks, m, deletes);
    passed := !failedInsert && !failedDelete && |table| == 0 && dropErr.None?;
    if !failedInsert && !failedDelete {
      CleanInsert(inserts, k);
      CleanDelete(Inserted(k), deletes, k);
      assert Inserted(k) - Range(k) == map[];
    }
  }
}
