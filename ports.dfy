/** Port allocation of util.go `getUnusedPorts`: each round opens a listener
    on an ephemeral port, closes it, and parses the port out of the address
    the listener reported. The listener is an oracle: `Listener` carries the
    address it reported and the result of closing it. */
module Ports {
  import opened Wrappers
  import opened Text

  datatype Listener = Listener(addr: string, closeErr: MaybeError)

  /** The port of a listener address: the text after its last ':' parsed as
      a decimal integer (the whole text when there is no ':'). */
  function PortOf(addr: string): Result<int> {
    var idx := LastIndexOf(addr, ':');
    Atoi(addr[idx + 1..])
  }

  /** An address "host:port" gives back its port, whatever colons the host
      part holds (an IPv6 address such as "[::]" included). */
  lemma PortOfHostPort(host: string, p: int)
    requires MinInt64 <= p <= MaxInt64
    ensures PortOf(host + ":" + IntToString(p)) == Ok(p)
  {
    var digits := IntToString(p);
    var addr := host + ":" + digits;
    assert addr[|host|] == ':';
    assert forall k :: |host| < k < |addr| ==> addr[k] == digits[k - |host| - 1];
    IntToStringAbsent(p, ':');
    assert LastIndexOf(addr, ':') == |host|;
    assert addr[|host| + 1..] == digits;
    AtoiIntToString(p);
  }

  /** One round of the loop: a failing close is returned as is, otherwise the
      port is parsed from the address. */
  function Round(l: Listener): Result<int> {
    if l.closeErr.Some? then Err(l.closeErr.value) else PortOf(l.addr)
  }

  /** What each listener's round gives. */
  function Rounds(listeners: seq<Listener>): (r: seq<Result<int>>)
    ensures |r| == |listeners|
  {
    if listeners == [] then [] else Rounds(listeners[..|listeners| - 1]) + [Round(listeners[|listeners| - 1])]
  }

  /** Round i of the list is listener i's round. */
  lemma {:induction false} RoundsAt(listeners: seq<Listener>, i: nat)
    requires i < |listeners|
    ensures Rounds(listeners)[i] == Round(listeners[i])
  {
    if i < |listeners| - 1 {
      var init := listeners[..|listeners| - 1];
      RoundsAt(init, i);
      assert init[i] == listeners[i];
    }
  }

  /** The outcome of the first `count` rounds, in order: the ports of all
      rounds, or the error of the first round that failed. */
  function Allocation(rounds: seq<Result<int>>, count: nat): (r: Result<seq<int>>)
    requires count <= |rounds|
    ensures r.Ok? ==> |r.value| == count
    ensures r.Ok? ==> forall i :: 0 <= i < count ==> rounds[i] == Ok(r.value[i])
  {
    if count == 0 then Ok([])
    else match Allocation(rounds, count - 1)
      case Err(e) => Err(e)
      case Ok(ps) =>
        match rounds[count - 1]
        case Err(e) => Err(e)
        case Ok(p) => Ok(ps + [p])
  }

  /** Allocation fails exactly when some round fails. */
  lemma {:induction false} AllocationFails(rounds: seq<Result<int>>, count: nat)
    requires count <= |rounds|
    ensures Allocation(rounds, count).Err? <==> exists i :: 0 <= i < count && rounds[i].Err?
  {
    if count > 0 {
      AllocationFails(rounds, count - 1);
    }
  }

  /** A failure is the error of the first round that failed. */
  lemma {:induction false} AllocationError(rounds: seq<Result<int>>, i: nat, count: nat)
    requires i < count <= |rounds|
    requires rounds[i].Err? && forall j :: 0 <= j < i ==> rounds[j].Ok?
    ensures Allocation(rounds, count) == Err(rounds[i].error)
  {
    AllocationFails(rounds, i);
    AllocationStops(rounds, i, count);
  }

  /** Once a round fails, every longer allocation fails with that error. */
  lemma {:induction false} AllocationStops(rounds: seq<Result<int>>, i: nat, count: nat)
    requires i < count <= |rounds|
    requires Allocation(rounds, i).Ok? && rounds[i].Err?
    ensures Allocation(rounds, count) == Err(rounds[i].error)
  {
    if count > i + 1 {
      AllocationStops(rounds, i, count - 1);
    }
  }

  /** The loop of `getUnusedPorts`: on success exactly `count` ports in
      allocation order and a nil error; on any failure nil ports and the
      error. */
  method GetUnusedPorts(count: nat, listeners: seq<Listener>) returns (ports: seq<int>, err: MaybeError)
    requires count <= |listeners|
    ensures Allocation(Rounds(listeners), count).Ok? ==> ports == Allocation(Rounds(listeners), count).value && err == None
    ensures Allocation(Rounds(listeners), count).Err? ==> ports == [] && err == Some(Allocation(Rounds(listeners), count).error)
  {
    ghost var rounds := Rounds(listeners);
    ports := [];
    var i := 0;
    while i < count
      invariant 0 <= i <= count
      invariant Allocation(rounds, i) == Ok(ports)
    {
      // close the listener, then cut the port out of its address
      var l := listeners[i];
      var r: Result<int>;
      if l.closeErr.Some? {
        r := Err(l.closeErr.value);
      } else {
        var idx := LastIndexOf(l.addr, ':');
        r := Atoi(l.addr[idx + 1..]);
        assert r == PortOf(l.addr);
      }
      assert r == Round(l);
      RoundsAt(listeners, i);
      if r.Err? {
        AllocationStops(rounds, i, count);
        return [], Some(r.error);
      }
      assert Allocation(rounds, i + 1) == Ok(ports + [r.value]);
      ports := ports + [r.value];
      i := i + 1;
    }
    err := None;
  }

  /** `getOnePort` (dml_test.go): one round of allocation; a failure is fatal
      to the suite, which this model reports as the error. */
  method GetOnePort(l: Listener) returns (r: Result<int>)
    ensures r == Round(l)
  {
    var ports, err := GetUnusedPorts(1, [l]);
    if err.Some? {
      return Err(err.value);
    }
    r := Ok(ports[0]);
  }
}
