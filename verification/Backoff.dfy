/**
 * Dialling: `Connect`, and the redial loop of the reconnect handler, with the waits
 * between attempts.  Durations are int64 nanoseconds and wrap as such.
 */
module Backoff {
  import opened Basics

  const SECOND: int := 1_000_000_000
  const CONNECTION_RETRY_INTERVAL: int := 5 * SECOND
  const MINUTE: int := 60 * SECOND

  /** The largest attempt count whose product with the interval is an int64. */
  const LAST_EXACT: nat := 1844674407

  /** The wait after the `n`th failure in a row. */
  function Wait(n: int): int {
    var scaled := ToInt64(CONNECTION_RETRY_INTERVAL * n);
    if scaled > MINUTE then MINUTE else scaled
  }

  /** Five seconds more for each failure, up to a minute. */
  function Ideal(n: int): int {
    if n <= 12 then 5 * SECOND * n else MINUTE
  }

  /** The waits of `n` failures in a row, added up. */
  function Total(n: nat): int {
    if n == 0 then 0 else Total(n - 1) + Wait(n)
  }

  // ----- The waits

  /** Up to the last exact count each wait is min(5n, 60) seconds. */
  lemma WaitIsIdeal(n: nat)
    requires 1 <= n <= LAST_EXACT
    ensures Wait(n) == Ideal(n) > 0
  {
    hide Pow2;
    WordSizes();
  }

  /** The bound is sharp: the next count wraps to a negative wait, which ends at once. */
  lemma OverflowsNext()
    ensures Wait(LAST_EXACT + 1) < 0
  {
    hide Pow2;
    WordSizes();
  }

  /** Beyond twelve failures the wait is right exactly when the wrapped product still is a minute or more. */
  lemma WaitIdealIff(n: nat)
    requires n >= 1
    ensures Wait(n) == Ideal(n) <==> n <= 12 || ToInt64(CONNECTION_RETRY_INTERVAL * n) >= MINUTE
  {
    hide ToInt64;
    if n <= 12 { WaitIsIdeal(n); }
  }

  lemma WaitsNeverShrink(m: nat, n: nat)
    requires 1 <= m <= n <= LAST_EXACT
    ensures Wait(m) <= Wait(n) <= MINUTE
  {
    hide Wait;
    WaitIsIdeal(m);
    WaitIsIdeal(n);
  }

  /** A run of failures waits 5n(n+1)/2 seconds up to the twelfth, and a minute for each one more. */
  lemma {:induction false} TotalWait(n: nat)
    requires n <= LAST_EXACT
    ensures n <= 12 ==> 2 * Total(n) == 5 * SECOND * (n * (n + 1))
    ensures n >= 12 ==> Total(n) == 390 * SECOND + MINUTE * (n - 12)
  {
    hide Wait;
    if n > 0 {
      TotalWait(n - 1);
      WaitIsIdeal(n);
      if n <= 12 { assert n * (n + 1) == (n - 1) * n + 2 * n; }
    }
  }

  // ----- The loops

  /** The waits after failures `from + 1` to `from + n`. */
  function Waits(from: nat, n: nat): seq<int> {
    seq(n, i requires 0 <= i < n => Wait(from + i + 1))
  }

  lemma WaitsSnoc(from: nat, n: nat)
    ensures Waits(from, n + 1) == Waits(from, n) + [Wait(from + n + 1)]
  {
    hide Wait;
  }

  datatype DialError = NotWebsocketClient | AlreadyConnected | DialFailed(attempt: nat)

  /** How a call ended: nil, an error, or still trying when the known dial outcomes ran out. */
  datatype Outcome = Nil | Error(e: DialError) | Trying

  /** The number of failures before the first success, or all of them. */
  function Failures(dials: seq<bool>): (n: nat)
    ensures n <= |dials| && (forall i :: 0 <= i < n ==> !dials[i]) && (n < |dials| ==> dials[n])
  {
    if dials == [] || dials[0] then 0 else 1 + Failures(dials[1..])
  }

  lemma {:induction false} FailuresAt(dials: seq<bool>, n: nat)
    requires n < |dials| && dials[n] && forall i :: 0 <= i < n ==> !dials[i]
    ensures Failures(dials) == n
  {
    if n > 0 { FailuresAt(dials[1..], n - 1); }
  }

  lemma {:induction false} NoSuccess(dials: seq<bool>)
    requires forall i :: 0 <= i < |dials| ==> !dials[i]
    ensures Failures(dials) == |dials|
  {
    if dials != [] { NoSuccess(dials[1..]); }
  }

  class Dialer {
    const httpPostMode: bool
    const disableAutoReconnect: bool
    var connected: bool
    var establishedCloses: nat
    var starts: nat
    var reconnecting: bool
    var retryCount: int

    constructor (httpPostMode: bool, disableAutoReconnect: bool)
      ensures this.httpPostMode == httpPostMode && this.disableAutoReconnect == disableAutoReconnect
      ensures !connected && establishedCloses == 0 && starts == 0 && !reconnecting && retryCount == 0
    {
      this.httpPostMode, this.disableAutoReconnect := httpPostMode, disableAutoReconnect;
      connected, establishedCloses, starts, reconnecting, retryCount := false, 0, 0, false, 0;
    }

    /** `Connect`, against the outcomes the dials will have. */
    method Connect(tries: int, dials: seq<bool>) returns (res: Outcome, used: nat, waits: seq<int>)
      modifies this
      ensures retryCount == old(retryCount)
      ensures httpPostMode ==> res == Error(NotWebsocketClient) && used == 0
      ensures !httpPostMode && old(connected) ==> res == Error(AlreadyConnected) && used == 0
      ensures (tries > 0 ==> used <= tries) && (tries < 0 ==> used == 0)
      ensures used <= |dials| && forall i :: 0 <= i < used - 1 ==> !dials[i]
      ensures !httpPostMode && !old(connected) ==>
        && (res == Trying ==> used == Failures(dials) == |dials| && tries >= 0 && (tries > 0 ==> used < tries))
        && (res != Trying ==> (res == Nil <==> (used > 0 && dials[used-1]) || tries < 0))
        && (res.Error? ==> tries > 0 && used == tries && res.e == DialFailed(tries - 1) && !dials[used-1])
      ensures connected <==> old(connected) || (!httpPostMode && used > 0 && dials[used-1])
      ensures establishedCloses - old(establishedCloses) == starts - old(starts) == if connected && !old(connected)
          then 1 else 0
      ensures reconnecting <==> old(reconnecting) || (connected && !old(connected) && !disableAutoReconnect)
      ensures waits == Waits(0, if connected && !old(connected) then used - 1 else used)
    {
      hide Wait;
      res, used, waits := Nil, 0, [];
      if httpPostMode {
        return Error(NotWebsocketClient), 0, [];
      }
      if connected {
        return Error(AlreadyConnected), 0, [];
      }
      while tries == 0 || used < tries
        invariant used <= |dials| && (tries > 0 ==> used <= tries) && (tries < 0 ==> used == 0)
        invariant forall i :: 0 <= i < used ==> !dials[i]
        invariant res == if used == 0 then Nil else Error(DialFailed(used - 1))
        invariant waits == Waits(0, used)
        invariant !connected && unchanged(this)
        decreases |dials| - used
      {
        if used == |dials| {
          NoSuccess(dials);
          return Trying, used, waits;
        }
        if !dials[used] {
          WaitsSnoc(0, used);
          waits := waits + [Wait(used + 1)];
          res, used := Error(DialFailed(used)), used + 1;
          continue;
        }
        connected := true;
        establishedCloses := establishedCloses + 1;
        starts := starts + 1;
        if !disableAutoReconnect {
          reconnecting := true;
        }
        return Nil, used + 1, waits;
      }
    }

    /** The redial loop of `wsReconnectHandler`, up to the first success, or as long as `dials` goes without one. */
    method Redial(dials: seq<bool>) returns (waits: seq<int>)
      requires 0 <= retryCount && retryCount + |dials| < 0x8000_0000_0000_0000
      modifies this`retryCount, this`starts
      ensures waits == Waits(old(retryCount), Failures(dials))
      ensures retryCount == if Failures(dials) < |dials| then 0 else old(retryCount) + |dials|
      ensures starts == old(starts) + if Failures(dials) < |dials| then 1 else 0
    {
      hide Wait;
      waits := [];
      var i := 0;
      while i < |dials|
        invariant 0 <= i <= |dials| && forall k :: 0 <= k < i ==> !dials[k]
        invariant retryCount == old(retryCount) + i && starts == old(starts)
        invariant waits == Waits(old(retryCount), i)
      {
        if dials[i] {
          FailuresAt(dials, i);
          retryCount := 0;
          starts := starts + 1;
          return;
        }
        WaitsSnoc(old(retryCount), i);
        retryCount := retryCount + 1;
        waits := waits + [Wait(retryCount)];
        i := i + 1;
      }
    }
  }

  /** The finding: a negative count makes no attempt, and `Connect` returns nil all the same. */
  method NegativeTries() returns (res: Outcome, connected: bool)
    ensures res == Nil && !connected
  {
    var d := new Dialer(false, false);
    var used, waits;
    res, used, waits := d.Connect(-1, [true]);
    connected := d.connected;
  }
}
