/** The connection router of sql_test.go: `exec` and `query` pick a frontend,
    select the database, issue the statement, retry on retryable errors up to
    ten times and turn a final duplicate error into success. The frontend each
    attempt gets and the reply it gives are an oracle (`Attempt`). */
module Router {
  import opened Wrappers
  import opened Text
  import opened Classify

  const MaxAttempts: nat := 10
  const UseStatement: string := "use test_dml"

  /** What one attempt meets: the frontend index `getOneServerRandomly`
      handed out (`None` when its search was exhausted, which ends the whole
      process), and the reply and error the statement got. */
  datatype Attempt<R> = Attempt(server: Option<nat>, reply: R, err: MaybeError)

  /** `ExecContext` for `exec`, `QueryContext` for `query`. */
  datatype Kind = ExecCall | QueryCall

  /** One call issued to a frontend. */
  datatype Call = Call(kind: Kind, server: nat, statement: string)

  /** What the caller gets: the last reply with its (possibly cleared)
      error, or `Unavailable` when no frontend could be picked. */
  datatype Outcome<R> = Completed(reply: R, err: MaybeError) | Unavailable

  /** The attempt that ends the loop, scanning from attempt `i`: the first
      one that found no frontend or whose error is not retryable, or the
      tenth. */
  function StopIndex<R>(attempts: seq<Attempt<R>>, i: nat): (k: nat)
    requires i < MaxAttempts <= |attempts|
    ensures i <= k < MaxAttempts
    ensures forall j :: i <= j < k ==> attempts[j].server.Some? && IsRetryableError(attempts[j].err)
    ensures k == MaxAttempts - 1 || attempts[k].server.None? || !IsRetryableError(attempts[k].err)
    decreases MaxAttempts - i
  {
    if i == MaxAttempts - 1 || attempts[i].server.None? || !IsRetryableError(attempts[i].err) then i
    else StopIndex(attempts, i + 1)
  }

  /** The stopping attempt is determined by the two conditions above. */
  lemma {:induction false} StopIndexIs<R>(attempts: seq<Attempt<R>>, i: nat, k: nat)
    requires i <= k < MaxAttempts <= |attempts|
    requires forall j :: i <= j < k ==> attempts[j].server.Some? && IsRetryableError(attempts[j].err)
    requires k == MaxAttempts - 1 || attempts[k].server.None? || !IsRetryableError(attempts[k].err)
    ensures StopIndex(attempts, i) == k
    decreases k - i
  {
    if i < k {
      StopIndexIs(attempts, i + 1, k);
    }
  }

  /** The outcome of the retry policy. */
  function Routed<R>(attempts: seq<Attempt<R>>): Outcome<R>
    requires MaxAttempts <= |attempts|
  {
    var k := StopIndex(attempts, 0);
    if attempts[k].server.None? then Unavailable
    else Completed(attempts[k].reply, if IsDuplicateError(attempts[k].err) then None else attempts[k].err)
  }

  /** The calls the first `n` attempts issue: on its frontend, each selects
      the database and then issues the statement. */
  function Calls<R>(kind: Kind, statement: string, attempts: seq<Attempt<R>>, n: nat): (cs: seq<Call>)
    requires n <= |attempts|
    requires forall j :: 0 <= j < n ==> attempts[j].server.Some?
    ensures |cs| == 2 * n
    ensures forall t :: 0 <= t < n ==>
      cs[2 * t] == Call(kind, attempts[t].server.value, UseStatement) &&
      cs[2 * t + 1] == Call(kind, attempts[t].server.value, statement)
  {
    if n == 0 then []
    else
      var s := attempts[n - 1].server.value;
      Calls(kind, statement, attempts, n - 1) + [Call(kind, s, UseStatement), Call(kind, s, statement)]
  }

  /** The calls the whole policy issues. */
  function RoutedCalls<R>(kind: Kind, statement: string, attempts: seq<Attempt<R>>): seq<Call>
    requires MaxAttempts <= |attempts|
  {
    var k := StopIndex(attempts, 0);
    if attempts[k].server.None? then Calls(kind, statement, attempts, k)
    else Calls(kind, statement, attempts, k + 1)
  }

  /** `exec`: at most ten attempts, each `use test_dml` then the statement on
      the picked frontend; stops at the first error that is not retryable
      (nil included); a duplicate final error is reported as nil. */
  method Exec<R>(statement: string, attempts: seq<Attempt<R>>) returns (outcome: Outcome<R>, calls: seq<Call>)
    requires MaxAttempts <= |attempts|
    ensures outcome == Routed(attempts)
    ensures calls == RoutedCalls(ExecCall, statement, attempts)
  {
    calls := [];
    var reply := attempts[0].reply;
    var err: MaybeError := None;
    ghost var k := 0;
    var i := 0;
    while i < MaxAttempts
      invariant 0 <= i <= MaxAttempts
      invariant forall j :: 0 <= j < i ==> attempts[j].server.Some? && IsRetryableError(attempts[j].err)
      invariant calls == Calls(ExecCall, statement, attempts, i)
      invariant i > 0 ==> k == i - 1 && reply == attempts[k].reply && err == attempts[k].err
    {
      var server := attempts[i].server;
      if server.None? {
        StopIndexIs(attempts, 0, i);
        return Unavailable, calls;
      }
      calls := calls + [Call(ExecCall, server.value, UseStatement), Call(ExecCall, server.value, statement)];
      reply, err := attempts[i].reply, attempts[i].err;
      k := i;
      if IsRetryableError(err) {
        i := i + 1;
        continue;
      }
      break;
    }
    StopIndexIs(attempts, 0, k);
    if IsDuplicateError(err) {
      return Completed(reply, None), calls;
    }
    outcome := Completed(reply, err);
  }

  /** `query`: the same policy as `exec`, issuing `QueryContext` calls. */
  method Query<R>(statement: string, attempts: seq<Attempt<R>>) returns (outcome: Outcome<R>, calls: seq<Call>)
    requires MaxAttempts <= |attempts|
    ensures outcome == Routed(attempts)
    ensures calls == RoutedCalls(QueryCall, statement, attempts)
  {
    calls := [];
    var reply := attempts[0].reply;
    var err: MaybeError := None;
    ghost var k := 0;
    var i := 0;
    while i < MaxAttempts
      invariant 0 <= i <= MaxAttempts
      invariant forall j :: 0 <= j < i ==> attempts[j].server.Some? && IsRetryableError(attempts[j].err)
      invariant calls == Calls(QueryCall, statement, attempts, i)
      invariant i > 0 ==> k == i - 1 && reply == attempts[k].reply && err == attempts[k].err
    {
      var server := attempts[i].server;
      if server.None? {
        StopIndexIs(attempts, 0, i);
        return Unavailable, calls;
      }
      calls := calls + [Call(QueryCall, server.value, UseStatement), Call(QueryCall, server.value, statement)];
      reply, err := attempts[i].reply, attempts[i].err;
      k := i;
      if IsRetryableError(err) {
        i := i + 1;
        continue;
      }
      break;
    }
    StopIndexIs(attempts, 0, k);
    if IsDuplicateError(err) {
      return Completed(reply, None), calls;
    }
    outcome := Completed(reply, err);
  }

  /** The attempt that decides the outcome: once every earlier attempt hit a
      retryable error, the first attempt whose error is not retryable (a nil
      error included) gives the result, a duplicate error read as nil and any
      other error returned as it is. The calls stop there too. */
  lemma FirstNonRetryableDecides<R>(kind: Kind, statement: string, attempts: seq<Attempt<R>>, j: nat)
    requires j < MaxAttempts <= |attempts|
    requires forall l :: 0 <= l < j ==> attempts[l].server.Some? && IsRetryableError(attempts[l].err)
    requires attempts[j].server.Some? && !IsRetryableError(attempts[j].err)
    ensures Routed(attempts) ==
      Completed(attempts[j].reply, if IsDuplicateError(attempts[j].err) then None else attempts[j].err)
    ensures |RoutedCalls(kind, statement, attempts)| == 2 * (j + 1)
  {
    StopIndexIs(attempts, 0, j);
  }

  /** A first attempt that succeeds is the only one. */
  lemma NilErrorStops<R>(kind: Kind, statement: string, attempts: seq<Attempt<R>>)
    requires MaxAttempts <= |attempts|
    requires attempts[0].server.Some? && attempts[0].err == None
    ensures Routed(attempts) == Completed(attempts[0].reply, None)
    ensures RoutedCalls(kind, statement, attempts) ==
      [Call(kind, attempts[0].server.value, UseStatement), Call(kind, attempts[0].server.value, statement)]
  {
    StopIndexIs(attempts, 0, 0);
  }

  /** When all ten attempts hit retryable errors, the tenth attempt's error is
      returned, unless it is also a duplicate error; twenty calls were made. */
  lemma AllRetryableKeepsLast<R>(kind: Kind, statement: string, attempts: seq<Attempt<R>>)
    requires MaxAttempts <= |attempts|
    requires forall l :: 0 <= l < MaxAttempts ==> attempts[l].server.Some? && IsRetryableError(attempts[l].err)
    ensures var last := attempts[MaxAttempts - 1];
      Routed(attempts) == Completed(last.reply, if IsDuplicateError(last.err) then None else last.err)
    ensures |RoutedCalls(kind, statement, attempts)| == 2 * MaxAttempts
  {
    StopIndexIs(attempts, 0, MaxAttempts - 1);
  }

  /** Whatever the attempts meet, the error handed back is never a duplicate
      error, and it is nil or the error of the attempt that stopped the
      loop. */
  lemma PolicyErrors<R>(attempts: seq<Attempt<R>>)
    requires MaxAttempts <= |attempts|
    ensures Routed(attempts).Completed? ==> !IsDuplicateError(Routed(attempts).err)
    ensures Routed(attempts).Completed? ==> Routed(attempts).err == None || Routed(attempts).err == attempts[StopIndex(attempts, 0)].err
  {
  }

  /** Whatever the attempts meet, at most ten attempts are made, and every
      statement call follows a `use test_dml` on the same frontend. */
  lemma PolicyCalls<R>(kind: Kind, statement: string, attempts: seq<Attempt<R>>)
    requires MaxAttempts <= |attempts|
    ensures var cs := RoutedCalls(kind, statement, attempts);
      |cs| <= 2 * MaxAttempts && |cs| % 2 == 0 &&
      forall t :: 0 <= t < |cs| / 2 ==>
        cs[2 * t] == Call(kind, cs[2 * t + 1].server, UseStatement) && cs[2 * t + 1].statement == statement
  {
    var k := StopIndex(attempts, 0);
    var n := if attempts[k].server.None? then k else k + 1;
    var cs := Calls(kind, statement, attempts, n);
    assert cs == RoutedCalls(kind, statement, attempts);
    assert |cs| == 2 * n && |cs| / 2 == n;
    forall t | 0 <= t < n
      ensures cs[2 * t] == Call(kind, cs[2 * t + 1].server, UseStatement) && cs[2 * t + 1].statement == statement
    {
      assert cs[2 * t + 1] == Call(kind, attempts[t].server.value, statement);
    }
  }

  /** The DDL and query texts the scenarios send. */
  function CreateTableStatement(tableName: string): string {
    "create table " + tableName + " (c1 int, c2 int, primary key(c1))"
  }

  function DropTableStatement(tableName: string): string {
    "drop table if exists " + tableName
  }

  function SelectFromStatement(fields: seq<string>, tableName: string, limit: int): string {
    "select " + Join(fields, " ") + " from " + tableName + " limit " + IntToString(limit)
  }

  /** The select text splits on single spaces into its keywords, each field
      in order, the table and the limit, when no field or table name holds a
      space. */
  lemma SelectFromWords(fields: seq<string>, tableName: string, limit: int)
    requires |fields| > 0
    requires forall k :: 0 <= k < |fields| ==> Absent(fields[k], ' ')
    requires Absent(tableName, ' ')
    ensures Split(SelectFromStatement(fields, tableName, limit), ' ') ==
      ["select"] + fields + ["from", tableName, "limit", IntToString(limit)]
  {
    var lim := IntToString(limit);
    var words := ["select"] + fields + ["from", tableName, "limit", lim];
    SelectFromJoin(fields, tableName, limit);
    IntToStringAbsent(limit, ' ');
    forall k | 0 <= k < |words|
      ensures Absent(words[k], ' ')
    {
      if 1 <= k <= |fields| {
        assert words[k] == fields[k - 1];
      }
    }
    SplitJoin(words, ' ');
  }

  /** The select text is its words joined by single spaces. */
  lemma SelectFromJoin(fields: seq<string>, tableName: string, limit: int)
    requires |fields| > 0
    ensures Join(["select"] + fields + ["from", tableName, "limit", IntToString(limit)], " ") ==
      SelectFromStatement(fields, tableName, limit)
  {
    var lim := IntToString(limit);
    var j := Join(fields, " ");
    var sel := "select " + j;
    assert SelectFromStatement(fields, tableName, limit) == sel + " from " + tableName + " limit " + lim;
    var tail := ["from", tableName, "limit", lim];
    JoinAround("select", fields, tail, " ");
    TailJoin(tableName, lim);
    var from := "from " + tableName + " limit " + lim;
    assert "select" + " " == "select ";
    SpaceFrom();
    calc {
      Join(["select"] + fields + tail, " ");
      "select " + (j + " " + from);
      { Regroup("select ", j + " ", from); Regroup("select ", j, " "); }
      sel + " " + from;
      { Regroup(sel + " ", "from " + tableName + " limit ", lim); }
      sel + " " + ("from " + tableName + " limit ") + lim;
      { Regroup(sel + " ", "from " + tableName, " limit "); }
      sel + " " + ("from " + tableName) + " limit " + lim;
      { Regroup(sel + " ", "from ", tableName); Regroup(sel, " ", "from "); }
      sel + " from " + tableName + " limit " + lim;
    }
  }

  lemma SpaceFrom()
    ensures " " + "from " == " from "
  {
  }

  lemma Regroup(a: string, b: string, c: string)
    ensures a + (b + c) == a + b + c
  {
  }

  lemma TailJoin(tableName: string, lim: string)
    ensures Join(["from", tableName, "limit", lim], " ") == "from " + tableName + " limit " + lim
  {
    assert ["from", tableName, "limit", lim][1..] == [tableName, "limit", lim];
    assert [tableName, "limit", lim][1..] == ["limit", lim];
    assert ["limit", lim][1..] == [lim];
    assert Join(["limit", lim], " ") == "limit" + " " + lim;
    assert Join([tableName, "limit", lim], " ") == tableName + " " + ("limit" + " " + lim);
    assert Join(["from", tableName, "limit", lim], " ") == "from" + " " + (tableName + " " + ("limit" + " " + lim));
  }

  /** `createTable` / `dropTable`: the DDL statement under `exec`, and whether
      the assertion that it returned no error holds. */
  method CreateTable<R>(tableName: string, attempts: seq<Attempt<R>>) returns (ok: bool, calls: seq<Call>)
    requires MaxAttempts <= |attempts|
    ensures ok <==> Routed(attempts).Completed? && Routed(attempts).err == None
    ensures calls == RoutedCalls(ExecCall, CreateTableStatement(tableName), attempts)
  {
    var outcome;
    outcome, calls := Exec(CreateTableStatement(tableName), attempts);
    ok := outcome.Completed? && outcome.err == None;
  }

  method DropTable<R>(tableName: string, attempts: seq<Attempt<R>>) returns (ok: bool, calls: seq<Call>)
    requires MaxAttempts <= |attempts|
    ensures ok <==> Routed(attempts).Completed? && Routed(attempts).err == None
    ensures calls == RoutedCalls(ExecCall, DropTableStatement(tableName), attempts)
  {
    var outcome;
    outcome, calls := Exec(DropTableStatement(tableName), attempts);
    ok := outcome.Completed? && outcome.err == None;
  }

  /** `selectFrom`: the select text under `query`. */
  method SelectFrom<R>(fields: seq<string>, tableName: string, limit: int, attempts: seq<Attempt<R>>)
    returns (outcome: Outcome<R>, calls: seq<Call>)
    requires MaxAttempts <= |attempts|
    ensures outcome == Routed(attempts)
    ensures calls == RoutedCalls(QueryCall, SelectFromStatement(fields, tableName, limit), attempts)
  {
    outcome, calls := Query(SelectFromStatement(fields, tableName, limit), attempts);
  }
}
