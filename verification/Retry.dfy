/** The dispatcher's retry loop. */
module Retry {
  import opened Domain

  /** What one send attempt comes back with. */
  datatype Attempt = Success | Transient | Permanent

  /** The retry policy of a channel. */
  datatype Policy = Policy(enabled: bool, exponential: bool, initial: Time, max: Time, maxAttempts: int)

  /** How a run of the loop ended; `StillTrying` is a run observed before it ends. */
  datatype Result = Delivered | Refused | AttemptsExceeded | Cancelled | StillTrying

  /** The wait after attempt `i`, as the loop computes it. */
  function Backoff(p: Policy, i: nat): Time {
    if i == 0 then p.initial
    else
      var before := Backoff(p, i - 1);
      if !p.exponential then before else if before * 2 > p.max then p.max else before * 2
  }

  function Sum(waits: seq<Time>): Time {
    if waits == [] then 0 else Sum(waits[..|waits| - 1]) + waits[|waits| - 1]
  }

  /** The waits of the loop, in order. */
  ghost predicate WaitsOf(p: Policy, waits: seq<Time>) {
    forall i :: 0 <= i < |waits| ==> waits[i] == Backoff(p, i)
  }

  /** Attempts before `n` failed in a way worth retrying, and no wait was cut short. */
  ghost predicate AllRetried(attempts: nat -> Attempt, cancelled: nat -> bool, n: nat) {
    forall i: nat :: i < n ==> attempts(i) == Transient && !cancelled(i)
  }

  /** Sends until success, a permanent error, the attempt limit or cancellation. `attempts` and
      `cancelled` are what the transport answers and whether the context ends in the wait after
      an attempt; `horizon` bounds how much of the run is observed. */
  method SendWithRetry(p: Policy, attempts: nat -> Attempt, cancelled: nat -> bool, horizon: nat)
    returns (result: Result, sends: nat, waits: seq<Time>)
    ensures sends <= horizon
    ensures p.enabled && p.maxAttempts > 0 ==>
              sends <= p.maxAttempts && |waits| < p.maxAttempts && (horizon >= p.maxAttempts ==> result != StillTrying)
    ensures WaitsOf(p, waits)
    ensures !p.exponential ==> forall i :: 0 <= i < |waits| ==> waits[i] == p.initial
    ensures p.exponential && 0 <= p.initial && 0 <= p.max ==>
              forall i :: 0 <= i < |waits| ==> waits[i] == if i == 0 then p.initial else Min(p.initial * Pow2(i), p.max)
    ensures sends > 0 ==> AllRetried(attempts, cancelled, sends - 1)
    ensures match result
            case Delivered => sends > 0 && attempts(sends - 1) == Success && |waits| == sends - 1
            case Refused => sends > 0 && attempts(sends - 1) != Success && |waits| == sends - 1
                            && (attempts(sends - 1) == Permanent || !p.enabled)
            case AttemptsExceeded => p.enabled && sends == p.maxAttempts > 0 && |waits| == sends - 1
                                     && attempts(sends - 1) == Transient
            case Cancelled => p.enabled && sends > 0 && attempts(sends - 1) == Transient
                              && cancelled(sends - 1) && |waits| == sends
            case StillTrying => sends == horizon == |waits| && AllRetried(attempts, cancelled, sends)
                                && (p.enabled && p.maxAttempts > 0 ==> horizon < p.maxAttempts)
  {
    hide Pow2;
    AllWaits(p);
    sends, waits := 0, [];
    if !p.enabled {
      if horizon == 0 {
        return StillTrying, 0, [];
      }
      return if attempts(0) == Success then Delivered else Refused, 1, [];
    }
    var backoff := p.initial;
    while sends < horizon
      invariant sends <= horizon && (p.maxAttempts > 0 ==> sends < p.maxAttempts)
      invariant AllRetried(attempts, cancelled, sends)
      invariant backoff == Backoff(p, sends) && |waits| == sends
      invariant WaitsOf(p, waits)
      decreases horizon - sends
    {
      var outcome := attempts(sends);
      sends := sends + 1;
      if outcome == Success {
        return Delivered, sends, waits;
      }
      if outcome == Permanent {
        return Refused, sends, waits;
      }
      if p.maxAttempts > 0 && sends >= p.maxAttempts {
        return AttemptsExceeded, sends, waits;
      }
      waits := waits + [backoff];
      if cancelled(sends - 1) {
        return Cancelled, sends, waits;
      }
      if p.exponential {
        backoff := backoff * 2;
        if backoff > p.max {
          backoff := p.max;
        }
      }
    }
    result := StillTrying;
  }

  function Pow2(i: nat): int {
    if i == 0 then 1 else 2 * Pow2(i - 1)
  }

  function Min(a: int, b: int): int {
    if a <= b then a else b
  }

  lemma DoublePower(x: int, i: nat)
    ensures x * Pow2(i + 1) == 2 * (x * Pow2(i))
  {
  }

  lemma {:induction false} BackoffClosed(p: Policy, i: nat)
    requires p.exponential && 0 <= p.initial && 0 <= p.max
    ensures Backoff(p, i) == if i == 0 then p.initial else Min(p.initial * Pow2(i), p.max)
  {
    hide Pow2;
    if i > 0 {
      BackoffClosed(p, i - 1);
      DoublePower(p.initial, i - 1);
      if i == 1 {
        assert Pow2(0) == 1 by { Powers(); }
      }
    }
  }

  lemma {:induction false} BackoffConstant(p: Policy, i: nat)
    requires !p.exponential
    ensures Backoff(p, i) == p.initial
  {
    if i > 0 {
      BackoffConstant(p, i - 1);
    }
  }

  /** Every wait of the loop, in closed form. */
  lemma AllWaits(p: Policy)
    ensures !p.exponential ==> forall i: nat :: Backoff(p, i) == p.initial
    ensures p.exponential && 0 <= p.initial && 0 <= p.max ==>
              forall i: nat :: Backoff(p, i) == if i == 0 then p.initial else Min(p.initial * Pow2(i), p.max)
  {
    hide Backoff, Pow2;
    forall i: nat | !p.exponential ensures Backoff(p, i) == p.initial {
      BackoffConstant(p, i);
    }
    forall i: nat | p.exponential && 0 <= p.initial && 0 <= p.max
      ensures Backoff(p, i) == if i == 0 then p.initial else Min(p.initial * Pow2(i), p.max)
    {
      BackoffClosed(p, i);
    }
  }

  lemma Powers()
    ensures Pow2(0) == 1
  {
  }

  /** Every wait is the doubled initial delay capped by the maximum exactly when the initial delay
      itself is within the maximum. */
  lemma BackoffIsCappedIff(p: Policy)
    requires p.exponential && 0 <= p.initial && 0 <= p.max
    ensures (forall i: nat :: Backoff(p, i) == Min(p.initial * Pow2(i), p.max)) <==> p.initial <= p.max
  {
    hide Pow2;
    Powers();
    forall i: nat | p.initial <= p.max ensures Backoff(p, i) == Min(p.initial * Pow2(i), p.max) {
      BackoffClosed(p, i);
    }
    assert Backoff(p, 0) == p.initial;
  }

  lemma {:induction false} BackoffInRange(p: Policy, i: nat)
    requires p.exponential && 0 <= p.initial <= p.max
    ensures 0 <= Backoff(p, i) <= p.max
  {
    if i > 0 {
      BackoffInRange(p, i - 1);
    }
  }

  lemma Times(n: nat, m: nat, x: int)
    requires n <= m && 0 <= x
    ensures (n + 1) * x == n * x + x && 0 <= n * x <= m * x
  {
  }

  lemma {:induction false} WaitsAreBounded(p: Policy, waits: seq<Time>)
    requires p.exponential && 0 <= p.initial <= p.max && WaitsOf(p, waits)
    ensures 0 <= Sum(waits) <= |waits| * p.max
  {
    hide Backoff;
    if waits != [] {
      var last := |waits| - 1;
      WaitsAreBounded(p, waits[..last]);
      BackoffInRange(p, last);
      Times(last, last, p.max);
    }
  }

  /** The waits of a limited loop add up to at most one maximum per retry. */
  lemma TotalWaitIsBounded(p: Policy, waits: seq<Time>)
    requires p.exponential && 0 <= p.initial <= p.max && WaitsOf(p, waits) && |waits| < p.maxAttempts
    ensures 0 <= Sum(waits) <= (p.maxAttempts - 1) * p.max
  {
    hide Sum, WaitsOf;
    WaitsAreBounded(p, waits);
    Times(|waits|, p.maxAttempts - 1, p.max);
  }
}
