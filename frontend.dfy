/** Frontend (TiDB) lifecycle of test/tidb_test.go: random server selection,
    the bounded connect loop, `startServer` and `restart`. Random picks and
    the results of open, ping, create, start and kill are oracles. */
module Frontend {
  import opened Wrappers

  const MaxPicks: nat := 10
  const MaxConnectAttempts: nat := 5

  /** `getOneServerRandomly`: up to ten picks `rand.Intn(count)`, returning
      the first pick whose slot holds a server; `None` stands for the fatal
      exit when all ten picks hit nil. */
  method GetOneServerRandomly<T>(servers: seq<Option<T>>, count: nat, picks: seq<int>) returns (r: Option<nat>)
    requires 0 < count <= |servers|
    requires MaxPicks <= |picks| && forall t :: 0 <= t < |picks| ==> 0 <= picks[t] < count
    ensures r.Some? ==> r.value < count && servers[r.value].Some?
    ensures r.Some? ==>
      exists t :: 0 <= t < MaxPicks && r.value == picks[t] && (forall u :: 0 <= u < t ==> servers[picks[u]].None?)
    ensures r.None? <==> forall t :: 0 <= t < MaxPicks ==> servers[picks[t]].None?
  {
    var t := 0;
    while t < MaxPicks
      invariant 0 <= t <= MaxPicks
      invariant forall u :: 0 <= u < t ==> servers[picks[u]].None?
    {
      var i := picks[t];
      if servers[i].Some? {
        return Some(i);
      }
      t := t + 1;
    }
    r := None;
  }

  /** One round of `connectToDatabase`: the `sql.Open` result, then, if it
      opened, the `Ping` result. */
  datatype ConnectAttempt = ConnectAttempt(openErr: MaybeError, pingErr: MaybeError)

  predicate Connected(a: ConnectAttempt) {
    a.openErr.None? && a.pingErr.None?
  }

  /** The error a round leaves in `err`. */
  function RoundErr(a: ConnectAttempt): MaybeError {
    if a.openErr.Some? then a.openErr else a.pingErr
  }

  /** The round that ends the loop from round `i` on: the first that
      connected, or the fifth. */
  function ConnectStop(attempts: seq<ConnectAttempt>, i: nat): (k: nat)
    requires i < MaxConnectAttempts <= |attempts|
    ensures i <= k < MaxConnectAttempts
    ensures forall j :: i <= j < k ==> !Connected(attempts[j])
    ensures k < MaxConnectAttempts - 1 ==> Connected(attempts[k])
    decreases MaxConnectAttempts - i
  {
    if i == MaxConnectAttempts - 1 || Connected(attempts[i]) then i else ConnectStop(attempts, i + 1)
  }

  /** The whole result: once connected, the error of
      `create database if not exists test_dml`; otherwise the last round's
      error. */
  function ConnectResult(attempts: seq<ConnectAttempt>, createErr: MaybeError): MaybeError
    requires MaxConnectAttempts <= |attempts|
  {
    var k := ConnectStop(attempts, 0);
    if Connected(attempts[k]) then createErr else RoundErr(attempts[k])
  }

  /** `connectToDatabase`: at most five rounds, stopping at the first
      successful ping; the database is created only after success. Returns
      the error, the rounds made and whether the create statement was
      issued. */
  method ConnectToDatabase(attempts: seq<ConnectAttempt>, createErr: MaybeError)
    returns (err: MaybeError, rounds: nat, created: bool)
    requires MaxConnectAttempts <= |attempts|
    ensures err == ConnectResult(attempts, createErr)
    ensures rounds == ConnectStop(attempts, 0) + 1
    ensures created <==> Connected(attempts[rounds - 1])
  {
    err := None;
    rounds := 0;
    var i := 0;
    while i < MaxConnectAttempts
      invariant 0 <= i <= MaxConnectAttempts
      invariant rounds == i
      invariant forall j :: 0 <= j < i ==> !Connected(attempts[j])
      invariant i > 0 ==> err == RoundErr(attempts[i - 1])
      invariant i < MaxConnectAttempts ==> ConnectStop(attempts, 0) == ConnectStop(attempts, i)
    {
      rounds := rounds + 1;
      err := attempts[i].openErr;
      if err.Some? {
        i := i + 1;
        continue;
      }
      err := attempts[i].pingErr;
      if err.None? {
        break;
      }
      i := i + 1;
    }
    if err.Some? {
      return err, rounds, false;
    }
    created := true;
    err := createErr;
  }

  /** `startServer`: the process start, then, only if it started, the
      connect loop. */
  method StartServer(startErr: MaybeError, attempts: seq<ConnectAttempt>, createErr: MaybeError)
    returns (err: MaybeError, connected: bool)
    requires MaxConnectAttempts <= |attempts|
    ensures startErr.Some? ==> err == startErr && !connected
    ensures startErr.None? ==> err == ConnectResult(attempts, createErr)
    ensures connected <==> startErr.None? && Connected(attempts[ConnectStop(attempts, 0)])
  {
    if startErr.Some? {
      return startErr, false;
    }
    var rounds;
    err, rounds, connected := ConnectToDatabase(attempts, createErr);
  }

  /** `restart`: kill first; a failed kill is returned and nothing is
      started; otherwise the server is started again. */
  method Restart(killErr: MaybeError, startErr: MaybeError, attempts: seq<ConnectAttempt>, createErr: MaybeError)
    returns (err: MaybeError, started: bool)
    requires MaxConnectAttempts <= |attempts|
    ensures killErr.Some? ==> err == killErr && !started
    ensures started <==> killErr.None?
    ensures killErr.None? ==> err == (if startErr.Some? then startErr else ConnectResult(attempts, createErr))
  {
    if killErr.Some? {
      return killErr, false;
    }
    var connected;
    err, connected := StartServer(startErr, attempts, createErr);
    started := true;
  }

  /** Connecting fails exactly when no round connected, and then with the
      fifth round's error; a connected server reports the create error. */
  lemma {:induction false} ConnectResultCases(attempts: seq<ConnectAttempt>, createErr: MaybeError)
    requires MaxConnectAttempts <= |attempts|
    ensures (forall j :: 0 <= j < MaxConnectAttempts ==> !Connected(attempts[j])) ==>
      ConnectResult(attempts, createErr) == RoundErr(attempts[MaxConnectAttempts - 1])
    ensures (exists j :: 0 <= j < MaxConnectAttempts && Connected(attempts[j])) ==>
      ConnectResult(attempts, createErr) == createErr
  {
    var k := ConnectStop(attempts, 0);
    if exists j :: 0 <= j < MaxConnectAttempts && Connected(attempts[j]) {
      var j :| 0 <= j < MaxConnectAttempts && Connected(attempts[j]);
      assert k <= j;
    }
  }
}
