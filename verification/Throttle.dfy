/** The token bucket of src-tauri/src/transfer/throttle.rs, over the reals: what bandwidth it
    really grants to callers that wait out their delays. */
module Throttle {
  import opened Wrappers

  datatype Bucket = Bucket(last: real, tokens: real)

  const START := Bucket(0.0, 0.0)

  function MinR(a: real, b: real): real {
    if a <= b then a else b
  }

  /** Bytes at a rate over a time. */
  function Over(rate: real, time: real): real {
    rate * time
  }

  lemma OverAdds(rate: real, a: real, b: real)
    ensures Over(rate, a + b) == Over(rate, a) + Over(rate, b)
  {
  }

  lemma OverIsPositive(rate: real, time: real)
    requires rate >= 0.0 && time >= 0.0
    ensures Over(rate, time) >= 0.0
  {
  }

  lemma OverGrows(rate: real, a: real, b: real)
    requires rate >= 0.0 && a <= b
    ensures Over(rate, a) <= Over(rate, b)
  {
    OverAdds(rate, a, b - a);
    OverIsPositive(rate, b - a);
  }

  lemma OverDivides(rate: real, bytes: real)
    requires rate > 0.0
    ensures Over(rate, bytes / rate) == bytes
    ensures bytes > 0.0 ==> bytes / rate > 0.0
    ensures bytes == 0.0 ==> bytes / rate == 0.0
  {
    assert bytes / rate * rate == bytes;
  }

  /** The tokens at a later moment: refilled at the rate, up to half a second's worth. */
  function Refilled(b: Bucket, rate: real, now: real): real {
    MinR(b.tokens + Over(rate, now - b.last), rate / 2.0)
  }

  /** The tokens a call takes. */
  function Taken(b: Bucket, rate: real, now: real, bytes: nat): real {
    MinR(Refilled(b, rate, now), bytes as real)
  }

  function After(b: Bucket, rate: real, now: real, bytes: nat): Bucket {
    Bucket(now, Refilled(b, rate, now) - Taken(b, rate, now, bytes))
  }

  /** The delay it is told to wait. */
  function Wait(b: Bucket, rate: real, now: real, bytes: nat): real
    requires rate > 0.0
  {
    (bytes as real - Taken(b, rate, now, bytes)) / rate
  }

  ghost predicate InBounds(b: Bucket, rate: real) {
    0.0 <= b.tokens <= rate / 2.0
  }

  class TokenBucket {
    var limit: nat
    var last: real
    var tokens: real

    constructor (limitKbps: nat, now: real)
      ensures limit == limitKbps * 1024 && last == now && tokens == 0.0
    {
      limit, last, tokens := limitKbps * 1024, now, 0.0;
    }

    function State(): Bucket
      reads this
    {
      Bucket(last, tokens)
    }

    /** `consume`, up to its sleep. Without a limit nothing happens. */
    method Consume(now: real, bytes: nat) returns (wait: Option<real>)
      requires now >= last && InBounds(State(), limit as real)
      modifies this`last, this`tokens
      ensures InBounds(State(), limit as real)
      ensures limit == 0 ==> State() == old(State()) && wait.None?
      ensures limit > 0 ==>
                && State() == After(old(State()), limit as real, now, bytes)
                && (wait.None? <==> Wait(old(State()), limit as real, now, bytes) == 0.0)
                && (wait.Some? ==> wait.value == Wait(old(State()), limit as real, now, bytes))
    {
      if limit == 0 {
        return None;
      }
      hide Over;
      var rate := limit as real;
      var elapsed := now - last;
      OverIsPositive(rate, elapsed);
      last := now;
      tokens := MinR(tokens + Over(rate, elapsed), rate / 2.0);
      var needed := bytes as real;
      if tokens >= needed {
        tokens := tokens - needed;
        wait := None;
        OverDivides(rate, 0.0);
      } else {
        var deficit := needed - tokens;
        tokens := 0.0;
        OverDivides(rate, deficit);
        wait := Some(deficit / rate);
      }
    }
  }

  // Runs of several callers

  datatype Call = Call(caller: nat, at: real, bytes: nat)

  type Log = seq<Call>

  function Last(log: Log): Call
    requires log != []
  {
    log[|log| - 1]
  }

  function Front(log: Log): Log
    requires log != []
  {
    log[..|log| - 1]
  }

  function State(log: Log, rate: real): Bucket {
    if log == [] then START else After(State(Front(log), rate), rate, Last(log).at, Last(log).bytes)
  }

  /** What the last call of a log takes from the bucket, and how long it then waits. */
  function LastTaken(log: Log, rate: real): real
    requires log != []
  {
    Taken(State(Front(log), rate), rate, Last(log).at, Last(log).bytes)
  }

  function LastWait(log: Log, rate: real): real
    requires log != [] && rate > 0.0
  {
    Wait(State(Front(log), rate), rate, Last(log).at, Last(log).bytes)
  }

  /** When the caller's latest call has returned. */
  function Released(log: Log, rate: real, caller: nat): real
    requires rate > 0.0
  {
    if log == [] then 0.0
    else if Last(log).caller == caller then Last(log).at + LastWait(log, rate)
    else Released(Front(log), rate, caller)
  }

  /** Time moves on, and every caller waits out its delay before it calls again. */
  ghost predicate Orderly(log: Log, rate: real)
    requires rate > 0.0
  {
    log != [] ==>
      && Orderly(Front(log), rate)
      && Last(log).at >= State(Front(log), rate).last
      && Last(log).at >= Released(Front(log), rate, Last(log).caller)
  }

  /** The bytes of the calls that have returned by a given time. */
  function Admitted(log: Log, rate: real, time: real): nat
    requires rate > 0.0
  {
    if log == [] then 0
    else Admitted(Front(log), rate, time)
         + (if Last(log).at + LastWait(log, rate) <= time then Last(log).bytes else 0)
  }

  /** Their tokens, and for one caller what it had to wait for instead. */
  function TakenBy(log: Log, rate: real, time: real): real
    requires rate > 0.0
  {
    if log == [] then 0.0
    else TakenBy(Front(log), rate, time)
         + (if Last(log).at + LastWait(log, rate) <= time then LastTaken(log, rate) else 0.0)
  }

  function WaitedBy(log: Log, rate: real, time: real, caller: nat): real
    requires rate > 0.0
  {
    if log == [] then 0.0
    else WaitedBy(Front(log), rate, time, caller)
         + (if Last(log).caller == caller && Last(log).at + LastWait(log, rate) <= time
            then LastWait(log, rate) else 0.0)
  }

  function AllTaken(log: Log, rate: real): real {
    if log == [] then 0.0 else AllTaken(Front(log), rate) + LastTaken(log, rate)
  }

  function AllWaited(log: Log, rate: real, caller: nat): real
    requires rate > 0.0
  {
    if log == [] then 0.0
    else AllWaited(Front(log), rate, caller) + (if Last(log).caller == caller then LastWait(log, rate) else 0.0)
  }

  /** The bucket stays within its bounds, and tokens taken and left never exceed the refill. */
  lemma {:induction false} TokensComeFromRefill(log: Log, rate: real)
    requires rate > 0.0 && Orderly(log, rate)
    ensures InBounds(State(log, rate), rate)
    ensures State(log, rate).last >= 0.0
    ensures AllTaken(log, rate) + State(log, rate).tokens <= Over(rate, State(log, rate).last)
    ensures log != [] ==> 0.0 <= LastTaken(log, rate) <= Last(log).bytes as real
  {
    hide Over;
    if log == [] {
      OverIsPositive(rate, 0.0);
    } else {
      var before := State(Front(log), rate);
      TokensComeFromRefill(Front(log), rate);
      OverIsPositive(rate, Last(log).at - before.last);
      OverAdds(rate, before.last, Last(log).at - before.last);
    }
  }

  lemma LastWaitIsDeficit(log: Log, rate: real)
    requires rate > 0.0 && log != [] && Orderly(log, rate)
    ensures LastWait(log, rate) >= 0.0
    ensures Over(rate, LastWait(log, rate)) == Last(log).bytes as real - LastTaken(log, rate)
  {
    hide Taken, Over;
    TokensComeFromRefill(log, rate);
    OverDivides(rate, Last(log).bytes as real - LastTaken(log, rate));
  }

  lemma {:induction false} WaitsDoNotOverlap(log: Log, rate: real, caller: nat)
    requires rate > 0.0 && Orderly(log, rate)
    ensures 0.0 <= AllWaited(log, rate, caller) <= Released(log, rate, caller)
  {
    hide State, Wait;
    if log != [] {
      WaitsDoNotOverlap(Front(log), rate, caller);
      LastWaitIsDeficit(log, rate);
    }
  }

  lemma {:induction false} TakenInTime(log: Log, rate: real, time: real)
    requires rate > 0.0 && time >= 0.0 && Orderly(log, rate)
    ensures TakenBy(log, rate, time) <= AllTaken(log, rate)
    ensures TakenBy(log, rate, time) <= Over(rate, time)
  {
    hide Wait, Taken, Over;
    if log == [] {
      OverIsPositive(rate, time);
    } else {
      TakenInTime(Front(log), rate, time);
      TokensComeFromRefill(log, rate);
      LastWaitIsDeficit(log, rate);
      if Last(log).at <= time {
        OverGrows(rate, Last(log).at, time);
      }
    }
  }

  lemma {:induction false} WaitedInTime(log: Log, rate: real, time: real, caller: nat)
    requires rate > 0.0 && time >= 0.0 && Orderly(log, rate)
    ensures WaitedBy(log, rate, time, caller) <= AllWaited(log, rate, caller)
    ensures WaitedBy(log, rate, time, caller) <= time
  {
    hide State, Wait;
    if log != [] {
      WaitedInTime(Front(log), rate, time, caller);
      WaitsDoNotOverlap(log, rate, caller);
      LastWaitIsDeficit(log, rate);
    }
  }

  /** The waiting time of the first n callers together. */
  function WaitedByAll(log: Log, rate: real, time: real, n: nat): real
    requires rate > 0.0
  {
    if n == 0 then 0.0 else WaitedByAll(log, rate, time, n - 1) + WaitedBy(log, rate, time, n - 1)
  }

  lemma {:induction false} WaitedByAllStep(log: Log, rate: real, time: real, n: nat)
    requires rate > 0.0 && log != []
    ensures WaitedByAll(log, rate, time, n) == WaitedByAll(Front(log), rate, time, n)
              + (if Last(log).caller < n && Last(log).at + LastWait(log, rate) <= time
                 then LastWait(log, rate) else 0.0)
  {
    hide LastWait;
    if n > 0 {
      WaitedByAllStep(log, rate, time, n - 1);
    }
  }

  lemma {:induction false} WaitedByNone(rate: real, time: real, n: nat)
    requires rate > 0.0
    ensures WaitedByAll([], rate, time, n) == 0.0
  {
    if n > 0 {
      WaitedByNone(rate, time, n - 1);
    }
  }

  /** Conservation: every byte admitted was paid for with a token or waited for. */
  lemma {:induction false} AdmittedIsPaidFor(log: Log, rate: real, time: real, n: nat)
    requires rate > 0.0 && Orderly(log, rate)
    requires forall k :: 0 <= k < |log| ==> log[k].caller < n
    ensures Admitted(log, rate, time) as real == TakenBy(log, rate, time) + Over(rate, WaitedByAll(log, rate, time, n))
  {
    if log == [] {
      WaitedByNone(rate, time, n);
    } else {
      hide Wait, Taken, State, Over;
      AdmittedIsPaidFor(Front(log), rate, time, n);
      WaitedByAllStep(log, rate, time, n);
      LastWaitIsDeficit(log, rate);
      OverAdds(rate, WaitedByAll(Front(log), rate, time, n), LastWait(log, rate));
    }
  }

  /** n times a real number, by addition. */
  function Times(n: nat, x: real): real {
    if n == 0 then 0.0 else Times(n - 1, x) + x
  }

  lemma {:induction false} TimesIsProduct(n: nat, x: real)
    ensures Times(n, x) == n as real * x
  {
    if n > 0 {
      TimesIsProduct(n - 1, x);
      assert n as real * x == (n - 1) as real * x + x;
    }
  }

  lemma {:induction false} WaitedByAllInTime(log: Log, rate: real, time: real, n: nat)
    requires rate > 0.0 && time >= 0.0 && Orderly(log, rate)
    ensures WaitedByAll(log, rate, time, n) <= Times(n, time)
  {
    hide WaitedBy, Orderly;
    if n > 0 {
      WaitedByAllInTime(log, rate, time, n - 1);
      WaitedInTime(log, rate, time, n - 1);
    }
  }

  lemma {:induction false} OverTimes(rate: real, n: nat, time: real)
    ensures Over(rate, Times(n, time)) == Times(n, Over(rate, time))
  {
    if n > 0 {
      OverTimes(rate, n - 1, time);
      OverAdds(rate, Times(n - 1, time), time);
    }
  }

  lemma BoundByAddition(log: Log, rate: real, time: real, n: nat)
    requires rate > 0.0 && time >= 0.0 && Orderly(log, rate)
    requires forall k :: 0 <= k < |log| ==> log[k].caller < n
    ensures Admitted(log, rate, time) as real <= Times(n + 1, Over(rate, time))
  {
    hide Orderly, WaitedByAll, TakenBy, Admitted, Over;
    AdmittedIsPaidFor(log, rate, time, n);
    TakenInTime(log, rate, time);
    WaitedByAllInTime(log, rate, time, n);
    OverGrows(rate, WaitedByAll(log, rate, time, n), Times(n, time));
    OverTimes(rate, n, time);
  }

  /** The bound: n callers that wait out their delays get at most n + 1 times the rate. For one
      caller that is twice the rate, because the bucket refills while the caller waits. */
  lemma BandwidthBound(log: Log, rate: real, time: real, n: nat)
    requires rate > 0.0 && time >= 0.0 && Orderly(log, rate)
    requires forall k :: 0 <= k < |log| ==> log[k].caller < n
    ensures Admitted(log, rate, time) as real <= (n + 1) as real * (rate * time)
  {
    hide Orderly, Admitted, Times;
    BoundByAddition(log, rate, time, n);
    TimesIsProduct(n + 1, Over(rate, time));
  }

  /** What is admitted beyond the rate is at most the rate times the time that callers waited. So
      as long as nobody has waited, the rate is kept. */
  lemma ExcessIsWaiting(log: Log, rate: real, time: real, n: nat)
    requires rate > 0.0 && time >= 0.0 && Orderly(log, rate)
    requires forall k :: 0 <= k < |log| ==> log[k].caller < n
    ensures var waited := WaitedByAll(log, rate, time, n);
            Admitted(log, rate, time) as real <= Over(rate, time) + Over(rate, waited)
    ensures WaitedByAll(log, rate, time, n) == 0.0 ==> Admitted(log, rate, time) as real <= rate * time
  {
    hide Orderly, WaitedByAll, TakenBy, Admitted;
    AdmittedIsPaidFor(log, rate, time, n);
    TakenInTime(log, rate, time);
    assert Over(rate, 0.0) == 0.0;
  }

  // The bound cannot be improved to what a token bucket usually promises

  /** One caller asking for equal pieces as soon as it may, m times two. The first of two has to wait,
      and meanwhile the bucket fills with what the second one needs. */
  function Busy(rate: nat, piece: nat, m: nat): Log
    requires rate > 0
  {
    if m == 0 then []
    else
      Busy(rate, piece, m - 1) + [Call(0, Turn(rate, piece, m - 1), piece)] + [Call(0, Turn(rate, piece, m), piece)]
  }

  /** The time at which m pieces have passed at the rate. */
  function Turn(rate: nat, piece: nat, m: nat): real
    requires rate > 0
  {
    m as real * (piece as real / rate as real)
  }

  lemma TurnStep(rate: nat, piece: nat, m: nat)
    requires rate > 0 && m > 0
    ensures Turn(rate, piece, m) == Turn(rate, piece, m - 1) + piece as real / rate as real
    ensures Turn(rate, piece, 0) == 0.0 && piece as real / rate as real >= 0.0
    ensures Over(rate as real, piece as real / rate as real) == piece as real
  {
    OverDivides(rate as real, piece as real);
    var w := piece as real / rate as real;
    assert m as real * w == (m - 1) as real * w + w;
  }

  lemma OneMoreCall(log: Log, call: Call, rate: real, time: real)
    requires rate > 0.0
    ensures var more := log + [call];
            && more != [] && Front(more) == log && Last(more) == call
            && State(more, rate) == After(State(log, rate), rate, call.at, call.bytes)
            && LastWait(more, rate) == Wait(State(log, rate), rate, call.at, call.bytes)
            && Released(more, rate, call.caller) == call.at + LastWait(more, rate)
            && (Orderly(log, rate) && call.at >= State(log, rate).last && call.at >= Released(log, rate, call.caller)
                ==> Orderly(more, rate))
            && Admitted(more, rate, time) == Admitted(log, rate, time)
                 + (if call.at + LastWait(more, rate) <= time then call.bytes else 0)
  {
    assert (log + [call])[..|log|] == log;
  }

  /** With an empty bucket a piece has to wait for as long as it takes at the rate. */
  lemma EmptyBucketWaits(rate: nat, piece: nat, at: real)
    requires rate > 0
    ensures After(Bucket(at, 0.0), rate as real, at, piece) == Bucket(at, 0.0)
    ensures Wait(Bucket(at, 0.0), rate as real, at, piece) == piece as real / rate as real
  {
    assert Over(rate as real, 0.0) == 0.0;
  }

  /** After such a wait the bucket has just what a piece needs. */
  lemma FilledBucketPasses(rate: nat, piece: nat, last: real, at: real)
    requires rate > 0 && 2 * piece <= rate && Over(rate as real, at - last) == piece as real
    ensures After(Bucket(last, 0.0), rate as real, at, piece) == Bucket(at, 0.0)
    ensures Wait(Bucket(last, 0.0), rate as real, at, piece) == 0.0
  {
    OverDivides(rate as real, 0.0);
    assert piece as real <= rate as real / 2.0;
  }

  lemma {:induction false} BusyRun(rate: nat, piece: nat, m: nat, time: real)
    requires rate > 0 && 2 * piece <= rate
    ensures var log, r := Busy(rate, piece, m), rate as real;
            && Orderly(log, r)
            && State(log, r) == Bucket(Turn(rate, piece, m), 0.0)
            && Released(log, r, 0) <= Turn(rate, piece, m)
            && (time >= Turn(rate, piece, m) ==> Admitted(log, r, time) == 2 * (m * piece))
  {
    hide Over, Turn, Orderly, State, Released, Admitted, LastWait, Wait, After;
    if m == 0 {
      NobodyYet(rate, piece, time);
    } else {
      var log, r, w := Busy(rate, piece, m - 1), rate as real, piece as real / rate as real;
      var from, to := Turn(rate, piece, m - 1), Turn(rate, piece, m);
      BusyRun(rate, piece, m - 1, time);
      TurnStep(rate, piece, m);
      OneMoreCall(log, Call(0, from, piece), r, time);
      EmptyBucketWaits(rate, piece, from);
      OneMoreCall(log + [Call(0, from, piece)], Call(0, to, piece), r, time);
      FilledBucketPasses(rate, piece, from, to);
      assert m * piece == (m - 1) * piece + piece;
    }
  }

  lemma NobodyYet(rate: nat, piece: nat, time: real)
    requires rate > 0
    ensures var r := rate as real;
            && Orderly([], r) && State([], r) == START && Released([], r, 0) == 0.0 && Admitted([], r, time) == 0
    ensures Turn(rate, piece, 0) == 0.0
  {
  }

  /** The bound is reached: with pieces of any size up to half a second's worth a single busy caller
      is served at exactly twice the rate, however long it goes on. The rate and a burst are
      exceeded as soon as more than one second's worth has passed. */
  lemma BoundIsReached(rate: nat, piece: nat, m: nat)
    requires 0 < 2 * piece <= rate
    ensures var log, r, time := Busy(rate, piece, m), rate as real, Turn(rate, piece, m);
            && Orderly(log, r)
            && Admitted(log, r, time) == 2 * (m * piece)
            && Admitted(log, r, time) as real == 2.0 * (r * time)
            && (Admitted(log, r, time) as real > r * time + r / 2.0 <==> 2 * (m * piece) > rate)
  {
    hide Orderly, Admitted, Busy;
    BusyRun(rate, piece, m, Turn(rate, piece, m));
    TurnAtRate(rate, piece, m);
  }

  lemma TurnAtRate(rate: nat, piece: nat, m: nat)
    requires rate > 0
    ensures rate as real * Turn(rate, piece, m) == (m * piece) as real
  {
    var w := piece as real / rate as real;
    OverDivides(rate as real, piece as real);
    assert rate as real * (m as real * w) == m as real * (rate as real * w);
    ProductAsReal(m, piece);
  }

  lemma ProductAsReal(a: nat, b: nat)
    ensures (a * b) as real == a as real * b as real
  {
  }
}
