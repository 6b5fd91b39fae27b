/** connectWithRetry: bounded exponential backoff around an arbitrary connect function, interruptible while it waits. */
module Retry {
  import opened Wrappers
  import opened Arithmetic

  /**
   What the environment does: the value and error (if any) of the k-th connect, and whether the k-th wait ended with the
   cancellation of the context.
   */
  datatype Environment<!T, !E> = Environment(value: nat -> T, error: nat -> Option<E>, cancelled: nat -> bool)

  datatype Error<E> = Connect(e: E) | Cancelled

  /** `StillRetrying` is the outcome of watching an endless retry for a limited number of rounds. */
  datatype Outcome<T, E> = Returned(result: T, err: Option<Error<E>>) | StillRetrying

  const FIRST_DELAY: nat := 500
  const MAX_DELAY: nat := 5000

  function Pow2(k: nat): (p: nat)
    ensures p >= 1
  {
    if k == 0 then 1 else 2 * Pow2(k - 1)
  }

  /** The k-th wait in milliseconds. */
  function Delay(k: nat): nat {
    Min(FIRST_DELAY * Pow2(k), MAX_DELAY)
  }

  /** All waits of n retries together. */
  function TotalDelay(n: nat): nat {
    if n == 0 then 0 else TotalDelay(n - 1) + Delay(n - 1)
  }

  function Sum(s: seq<nat>): nat {
    if s == [] then 0 else Sum(s[..|s| - 1]) + s[|s| - 1]
  }

  /** Every wait has the length it should, so together they take as long as they should. */
  ghost predicate AsPrescribed(waits: seq<nat>) {
    && (forall k :: 0 <= k < |waits| ==> waits[k] == Delay(k))
    && Sum(waits) == TotalDelay(|waits|)
  }

  lemma NextWait(waits: seq<nat>)
    requires AsPrescribed(waits)
    ensures AsPrescribed(waits + [Delay(|waits|)])
  {
    assert (waits + [Delay(|waits|)])[..|waits|] == waits;
  }

  /** Connects 0 to n - 1 failed. */
  ghost predicate AllFailed<T, E>(env: Environment<T, E>, n: nat) {
    forall k: nat :: k < n ==> env.error(k).Some?
  }

  /** Waits 0 to n - 1 ran to their end. */
  ghost predicate NoneCancelled<T, E>(env: Environment<T, E>, n: nat) {
    forall k: nat :: k < n ==> !env.cancelled(k)
  }

  /** The doubled and capped delay is the next wait. */
  lemma DelayDoubles(k: nat)
    ensures Min(Delay(k) * 2, MAX_DELAY) == Delay(k + 1)
  {
  }

  /**
   At most `rounds` rounds of the loop are watched; a non-negative `maxRetries` needs no more than that many.
   `connects` counts the calls of connect, `waits` lists the waits that were begun.
   */
  method ConnectWithRetry<T, E>(env: Environment<T, E>, maxRetries: int, rounds: nat)
    returns (outcome: Outcome<T, E>, connects: nat, waits: seq<nat>)
    ensures AsPrescribed(waits)
    ensures 1 <= connects && |waits| <= connects <= |waits| + 1
    ensures AllFailed(env, connects - 1)
    ensures maxRetries >= 0 ==> |waits| <= maxRetries
    ensures match outcome
            case StillRetrying =>
              && (maxRetries < 0 || rounds < maxRetries) && |waits| == rounds
              && AllFailed(env, connects) && NoneCancelled(env, rounds)
            case Returned(result, None) =>
              && result == env.value(connects - 1) && env.error(connects - 1).None?
              && connects == |waits| + 1 && NoneCancelled(env, |waits|)
            case Returned(result, Some(Connect(e))) =>
              && maxRetries >= 0 && connects == maxRetries + 1
              && result == env.value(maxRetries) && env.error(maxRetries) == Some(e)
              && NoneCancelled(env, maxRetries)
            case Returned(result, Some(Cancelled)) =>
              && connects == |waits| && env.cancelled(|waits| - 1) && NoneCancelled(env, |waits| - 1)
              && AllFailed(env, connects) && result == env.value(connects - 1)
  {
    var result, err := env.value(0), env.error(0);
    connects, waits := 1, [];
    if err.None? || maxRetries == 0 {
      return Returned(result, if err.None? then None else Some(Connect(err.value))), connects, waits;
    }
    var delay := FIRST_DELAY;
    var attempt := 0;
    while (maxRetries < 0 || attempt < maxRetries) && attempt < rounds
      invariant 0 <= attempt <= rounds && (maxRetries >= 0 ==> attempt <= maxRetries)
      invariant connects == attempt + 1 && |waits| == attempt
      invariant result == env.value(attempt) && err == env.error(attempt)
      invariant delay == Delay(attempt)
      invariant AsPrescribed(waits)
      invariant AllFailed(env, connects) && NoneCancelled(env, attempt)
      decreases rounds - attempt
    {
      NextWait(waits);
      waits := waits + [delay];
      if env.cancelled(attempt) {
        return Returned(result, Some(Cancelled)), connects, waits;
      }
      result, err := env.value(attempt + 1), env.error(attempt + 1);
      connects := connects + 1;
      if err.None? {
        return Returned(result, None), connects, waits;
      }
      DelayDoubles(attempt);
      delay := Min(delay * 2, MAX_DELAY);
      attempt := attempt + 1;
    }
    if maxRetries < 0 || attempt < maxRetries {
      outcome := StillRetrying;
    } else {
      outcome := Returned(result, Some(Connect(err.value)));
    }
  }

  /** The first waits, in milliseconds. */
  lemma FirstDelays()
    ensures Delay(0) == 500 && Delay(1) == 1000 && Delay(2) == 2000 && Delay(3) == 4000 && Delay(4) == 5000
  {
    assert Pow2(1) == 2 && Pow2(2) == 4;
    assert Pow2(3) == 8;
    assert Pow2(4) == 16;
  }

  lemma {:induction false} DelayCapped(k: nat)
    requires k >= 4
    ensures Delay(k) == MAX_DELAY
  {
    if k == 4 {
      assert Pow2(2) == 4;
      assert Pow2(4) == 16;
    } else {
      DelayCapped(k - 1);
      DelayDoubles(k - 1);
    }
  }

  /** All waits of a failing connection together, from the fourth retry on. */
  lemma {:induction false} TotalDelayClosed(n: nat)
    requires n >= 4
    ensures TotalDelay(n) == 7500 + 5000 * (n - 4)
  {
    if n == 4 {
      assert Pow2(1) == 2;
      assert Pow2(2) == 4;
      assert Pow2(3) == 8;
      assert TotalDelay(2) == 1500;
    } else {
      TotalDelayClosed(n - 1);
      DelayCapped(n - 1);
    }
  }
}
