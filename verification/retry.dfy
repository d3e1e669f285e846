/**
 * The `retry(max_attempts, delay)` decorator of the utilities module.
 *
 * The wrapped function is an oracle: `func(args, k)` is what its k-th call (0-based)
 * does when given `args` -- return a value, raise an `Exception` (which the decorator
 * catches), or raise a `BaseException` that is not an `Exception`, such as
 * `KeyboardInterrupt` or `SystemExit` (which escapes the `except Exception` clause).
 * A run of the decorated function is recorded as a `Trace`: how it ended, the arguments
 * handed to every call of the wrapped function, and the sleeps taken between calls.
 */
module Retry {

  /** What one call of the wrapped function does: return, raise an `Exception`, or raise past `except Exception`. */
  datatype Attempt<V, E> = Ok(value: V) | Raise(error: E) | Escape(error: E)

  /** How a call of the decorated function ends: a value, Python's `None`, or an exception. */
  datatype Outcome<V, E> = Returned(value: V) | ReturnedNone | Raised(error: E)

  datatype Trace<A, V, E> = Trace(outcome: Outcome<V, E>, calls: seq<A>, sleeps: seq<nat>)

  /** The decorated function's `for attempt in range(max_attempts)` loop, entered at `attempt`. */
  function RetryFrom<A, V, E>(maxAttempts: int, delay: nat, func: (A, nat) -> Attempt<V, E>, args: A, attempt: nat)
    : (t: Trace<A, V, E>)
    ensures attempt < maxAttempts ==> |t.calls| <= maxAttempts - attempt
    ensures attempt >= maxAttempts ==> t == Trace(ReturnedNone, [], [])
    ensures forall i :: 0 <= i < |t.calls| ==> t.calls[i] == args
    ensures forall i :: 0 <= i < |t.sleeps| ==> t.sleeps[i] == delay
    decreases maxAttempts - attempt
  {
    if attempt >= maxAttempts then Trace(ReturnedNone, [], [])
    else
      match func(args, attempt)
      case Ok(v) => Trace(Returned(v), [args], [])
      case Escape(e) => Trace(Raised(e), [args], [])
      case Raise(e) =>
        if attempt == maxAttempts - 1 then Trace(Raised(e), [args], [])
        else
          var rest := RetryFrom(maxAttempts, delay, func, args, attempt + 1);
          Trace(rest.outcome, [args] + rest.calls, [delay] + rest.sleeps)
  }

  /** One call of `retry(maxAttempts, delay)(func)(*args)`. */
  function Retry<A, V, E>(maxAttempts: int, delay: nat, func: (A, nat) -> Attempt<V, E>, args: A): (t: Trace<A, V, E>)
    ensures |t.calls| <= if maxAttempts > 0 then maxAttempts else 0
    ensures forall i :: 0 <= i < |t.calls| ==> t.calls[i] == args
    ensures forall i :: 0 <= i < |t.sleeps| ==> t.sleeps[i] == delay
  {
    RetryFrom(maxAttempts, delay, func, args, 0)
  }

  /** The arguments seen by `n` calls that all received `args`. */
  function Repeated<T>(x: T, n: nat): (r: seq<T>)
    ensures |r| == n && forall i :: 0 <= i < n ==> r[i] == x
  {
    seq(n, _ => x)
  }

  /** How the decorator ends on a call that it does not retry. */
  function Settled<V, E>(a: Attempt<V, E>): (o: Outcome<V, E>)
    requires !a.Raise?
    ensures a.Ok? ==> o == Returned(a.value)
    ensures a.Escape? ==> o == Raised(a.error)
  {
    match a
    case Ok(v) => Returned(v)
    case Escape(e) => Raised(e)
  }

  /**
   * When the first call that does not raise an `Exception` is call `k`, the run ends with
   * it: its value is returned or its exception escapes, after exactly `k + 1` calls and `k`
   * sleeps.
   */
  lemma {:induction false} FirstSettledFrom<A, V, E>(
    maxAttempts: int, delay: nat, func: (A, nat) -> Attempt<V, E>, args: A, attempt: nat, k: nat)
    requires attempt <= k < maxAttempts
    requires !func(args, k).Raise?
    requires forall j :: attempt <= j < k ==> func(args, j).Raise?
    ensures RetryFrom(maxAttempts, delay, func, args, attempt)
         == Trace(Settled(func(args, k)), Repeated(args, k - attempt + 1), Repeated(delay, k - attempt))
    decreases k - attempt
  {
    if attempt < k {
      assert func(args, attempt).Raise?;
      FirstSettledFrom(maxAttempts, delay, func, args, attempt + 1, k);
      assert [args] + Repeated(args, k - attempt) == Repeated(args, k - attempt + 1);
      assert [delay] + Repeated(delay, k - attempt - 1) == Repeated(delay, k - attempt);
    }
  }

  /**
   * When the first successful call is call `k`, its value is returned, the wrapped function
   * was called exactly `k + 1` times and the decorator slept `k` times.
   */
  lemma FirstSuccessReturned<A, V, E>(maxAttempts: int, delay: nat, func: (A, nat) -> Attempt<V, E>, args: A, k: nat)
    requires k < maxAttempts
    requires func(args, k).Ok?
    requires forall j :: 0 <= j < k ==> func(args, j).Raise?
    ensures Retry(maxAttempts, delay, func, args)
         == Trace(Returned(func(args, k).value), Repeated(args, k + 1), Repeated(delay, k))
  {
    FirstSettledFrom(maxAttempts, delay, func, args, 0, k);
  }

  /**
   * A `BaseException` that is not an `Exception` is not retried: raised by call `k`, it
   * escapes at once, after `k + 1` calls and `k` sleeps, even when attempts remain.
   */
  lemma EscapeNotRetried<A, V, E>(maxAttempts: int, delay: nat, func: (A, nat) -> Attempt<V, E>, args: A, k: nat)
    requires k < maxAttempts
    requires func(args, k).Escape?
    requires forall j :: 0 <= j < k ==> func(args, j).Raise?
    ensures Retry(maxAttempts, delay, func, args)
         == Trace(Raised(func(args, k).error), Repeated(args, k + 1), Repeated(delay, k))
  {
    FirstSettledFrom(maxAttempts, delay, func, args, 0, k);
  }

  /**
   * When every one of the `maxAttempts` calls raises, the last call's exception propagates
   * after `maxAttempts` calls and `maxAttempts - 1` sleeps.
   */
  lemma {:induction false} AllFailFrom<A, V, E>(
    maxAttempts: int, delay: nat, func: (A, nat) -> Attempt<V, E>, args: A, attempt: nat)
    requires attempt < maxAttempts
    requires forall j :: attempt <= j < maxAttempts ==> func(args, j).Raise?
    ensures RetryFrom(maxAttempts, delay, func, args, attempt)
         == Trace(Raised(func(args, maxAttempts - 1).error),
                  Repeated(args, maxAttempts - attempt), Repeated(delay, maxAttempts - attempt - 1))
    decreases maxAttempts - attempt
  {
    assert func(args, attempt).Raise?;
    if attempt < maxAttempts - 1 {
      AllFailFrom(maxAttempts, delay, func, args, attempt + 1);
      assert [args] + Repeated(args, maxAttempts - attempt - 1) == Repeated(args, maxAttempts - attempt);
      assert [delay] + Repeated(delay, maxAttempts - attempt - 2) == Repeated(delay, maxAttempts - attempt - 1);
    }
  }

  lemma AllFailuresRaiseLast<A, V, E>(maxAttempts: int, delay: nat, func: (A, nat) -> Attempt<V, E>, args: A)
    requires maxAttempts > 0
    requires forall j :: 0 <= j < maxAttempts ==> func(args, j).Raise?
    ensures Retry(maxAttempts, delay, func, args)
         == Trace(Raised(func(args, maxAttempts - 1).error), Repeated(args, maxAttempts), Repeated(delay, maxAttempts - 1))
  {
    AllFailFrom(maxAttempts, delay, func, args, 0);
  }

  /** With no attempts allowed the wrapped function is never called and the result is `None`. */
  lemma NoAttemptsReturnsNone<A, V, E>(maxAttempts: int, delay: nat, func: (A, nat) -> Attempt<V, E>, args: A)
    requires maxAttempts <= 0
    ensures Retry(maxAttempts, delay, func, args) == Trace(ReturnedNone, [], [])
  {
  }

  /**
   * The cases above cover every run: the result is the first success, or an escaping
   * exception, or the last `Exception` after every attempt raised one, or `None` exactly
   * when no attempt is allowed; sleeps are one fewer than calls.
   */
  lemma RetryCases<A, V, E>(maxAttempts: int, delay: nat, func: (A, nat) -> Attempt<V, E>, args: A)
    ensures var t := Retry(maxAttempts, delay, func, args);
      && (t.outcome.ReturnedNone? <==> maxAttempts <= 0)
      && (t.outcome.Returned? ==>
            && func(args, |t.calls| - 1) == Ok(t.outcome.value)
            && forall j :: 0 <= j < |t.calls| - 1 ==> func(args, j).Raise?)
      && (t.outcome.Raised? ==>
            && 0 < |t.calls| <= maxAttempts
            && (forall j :: 0 <= j < |t.calls| - 1 ==> func(args, j).Raise?)
            && ((|t.calls| == maxAttempts && func(args, maxAttempts - 1) == Raise(t.outcome.error))
                || func(args, |t.calls| - 1) == Escape(t.outcome.error)))
      && (t.calls != [] ==> |t.sleeps| == |t.calls| - 1)
  {
    if maxAttempts > 0 {
      if exists k :: 0 <= k < maxAttempts && !func(args, k).Raise? {
        var k := FirstSettled(maxAttempts, func, args);
        FirstSettledFrom(maxAttempts, delay, func, args, 0, k);
      } else {
        AllFailuresRaiseLast(maxAttempts, delay, func, args);
      }
    }
  }

  /** The smallest call index below `maxAttempts` whose call does not raise an `Exception`. */
  function FirstSettled<A, V, E>(maxAttempts: int, func: (A, nat) -> Attempt<V, E>, args: A): (k: nat)
    requires exists k :: 0 <= k < maxAttempts && !func(args, k).Raise?
    ensures k < maxAttempts && !func(args, k).Raise?
    ensures forall j :: 0 <= j < k ==> func(args, j).Raise?
  {
    FirstSettledIndexFrom(maxAttempts, func, args, 0)
  }

  function FirstSettledIndexFrom<A, V, E>(maxAttempts: int, func: (A, nat) -> Attempt<V, E>, args: A, from: nat): (k: nat)
    requires exists k :: from <= k < maxAttempts && !func(args, k).Raise?
    ensures from <= k < maxAttempts && !func(args, k).Raise?
    ensures forall j :: from <= j < k ==> func(args, j).Raise?
    decreases maxAttempts - from
  {
    if !func(args, from).Raise? then from else FirstSettledIndexFrom(maxAttempts, func, args, from + 1)
  }

  /**
   * The decorator's loop as written: a `for` over the attempts with an early `return` or
   * `raise`; an exception outside `except Exception` leaves the loop at once.
   */
  method RunRetry<A, V, E>(maxAttempts: int, delay: nat, func: (A, nat) -> Attempt<V, E>, args: A)
    returns (t: Trace<A, V, E>)
    ensures t == Retry(maxAttempts, delay, func, args)
  {
    var calls: seq<A> := [];
    var sleeps: seq<nat> := [];
    var attempt: nat := 0;
    while attempt < maxAttempts
      invariant attempt == 0 || attempt < maxAttempts
      invariant var rest := RetryFrom(maxAttempts, delay, func, args, attempt);
        Retry(maxAttempts, delay, func, args) == Trace(rest.outcome, calls + rest.calls, sleeps + rest.sleeps)
      decreases maxAttempts - attempt
    {
      var rest := RetryFrom(maxAttempts, delay, func, args, attempt + 1);
      calls := calls + [args];
      match func(args, attempt) {
        case Ok(v) =>
          return Trace(Returned(v), calls, sleeps);
        case Escape(e) =>
          return Trace(Raised(e), calls, sleeps);
        case Raise(e) =>
          if attempt == maxAttempts - 1 {
            return Trace(Raised(e), calls, sleeps);
          }
          sleeps := sleeps + [delay];
          assert calls + rest.calls == calls[..|calls| - 1] + ([args] + rest.calls);
          assert sleeps + rest.sleeps == sleeps[..|sleeps| - 1] + ([delay] + rest.sleeps);
      }
      attempt := attempt + 1;
    }
    return Trace(ReturnedNone, calls, sleeps);
  }
}
