/**
 * What the retry loops leave behind: a trace of remote calls (numbered
 * from 1, as the loops number their attempts) and of the sleeps between
 * them. A sleep records its multiplier of the loop's base delay: 1 for a
 * fixed delay, the attempt number for linear backoff. A throttle records
 * the fixed pause, in milliseconds, that follows a request.
 */
module Attempts {

  datatype Event = Call(attempt: nat) | Sleep(factor: nat) | Throttle(ms: nat)

  /** `max(0, x)`: the number of iterations of `range(x)`. */
  function Max0(x: int): (r: nat)
    ensures x >= 0 ==> r == x
    ensures x < 0 ==> r == 0
  {
    if x >= 0 then x else 0
  }

  /** The number of remote calls in a trace. */
  function Calls(t: seq<Event>): nat {
    if t == [] then 0 else (if t[0].Call? then 1 else 0) + Calls(t[1..])
  }

  /** The sleep multipliers of a trace, in order. */
  function Sleeps(t: seq<Event>): seq<nat> {
    if t == [] then [] else (if t[0].Sleep? then [t[0].factor] else []) + Sleeps(t[1..])
  }

  /** The throttle pauses of a trace, in order. */
  function Throttles(t: seq<Event>): seq<nat> {
    if t == [] then [] else (if t[0].Throttle? then [t[0].ms] else []) + Throttles(t[1..])
  }

  lemma {:induction false} CallsAppend(a: seq<Event>, b: seq<Event>)
    ensures Calls(a + b) == Calls(a) + Calls(b)
  {
    if a == [] {
      assert a + b == b;
    } else {
      assert (a + b)[0] == a[0];
      assert (a + b)[1..] == a[1..] + b;
      CallsAppend(a[1..], b);
    }
  }

  lemma {:induction false} SleepsAppend(a: seq<Event>, b: seq<Event>)
    ensures Sleeps(a + b) == Sleeps(a) + Sleeps(b)
  {
    if a == [] {
      assert a + b == b;
    } else {
      assert (a + b)[0] == a[0];
      assert (a + b)[1..] == a[1..] + b;
      SleepsAppend(a[1..], b);
      var head := if a[0].Sleep? then [a[0].factor] else [];
      calc {
        Sleeps(a + b);
        head + Sleeps(a[1..] + b);
        head + (Sleeps(a[1..]) + Sleeps(b));
        (head + Sleeps(a[1..])) + Sleeps(b);
      }
    }
  }

  lemma {:induction false} ThrottlesAppend(a: seq<Event>, b: seq<Event>)
    ensures Throttles(a + b) == Throttles(a) + Throttles(b)
  {
    if a == [] {
      assert a + b == b;
    } else {
      assert (a + b)[0] == a[0];
      assert (a + b)[1..] == a[1..] + b;
      ThrottlesAppend(a[1..], b);
      var head := if a[0].Throttle? then [a[0].ms] else [];
      calc {
        Throttles(a + b);
        head + Throttles(a[1..] + b);
        head + (Throttles(a[1..]) + Throttles(b));
        (head + Throttles(a[1..])) + Throttles(b);
      }
    }
  }

  lemma TraceAppend(a: seq<Event>, b: seq<Event>)
    ensures Calls(a + b) == Calls(a) + Calls(b)
    ensures Sleeps(a + b) == Sleeps(a) + Sleeps(b)
    ensures Throttles(a + b) == Throttles(a) + Throttles(b)
  {
    CallsAppend(a, b);
    SleepsAppend(a, b);
    ThrottlesAppend(a, b);
  }

  /** The sleep multiplier after failed attempt `a`: the attempt number under linear backoff, else 1. */
  function Factor(a: nat, linear: bool): nat {
    if linear then a else 1
  }

  /**
   * `k` failed attempts, each followed by its sleep:
   * Call(1), Sleep(f(1)), ..., Call(k), Sleep(f(k)).
   */
  function Backoff(k: nat, linear: bool): (t: seq<Event>)
    ensures |t| == 2 * k
    ensures t != [] ==> t[|t| - 1] == Sleep(Factor(k, linear))
  {
    if k == 0 then [] else Backoff(k - 1, linear) + [Call(k), Sleep(Factor(k, linear))]
  }

  /**
   * A trace of `k` failed attempts holds `k` calls, and its sleeps are the
   * multipliers of attempts 1..k in order.
   */
  lemma {:induction false} BackoffShape(k: nat, linear: bool)
    ensures Calls(Backoff(k, linear)) == k
    ensures |Sleeps(Backoff(k, linear))| == k
    ensures forall i | 0 <= i < k :: Sleeps(Backoff(k, linear))[i] == Factor(i + 1, linear)
    ensures Throttles(Backoff(k, linear)) == []
  {
    if k > 0 {
      BackoffShape(k - 1, linear);
      var tail: seq<Event> := [Call(k), Sleep(Factor(k, linear))];
      TraceAppend(Backoff(k - 1, linear), tail);
      assert tail[1..] == [Sleep(Factor(k, linear))];
      assert tail[1..][1..] == [];
      assert Calls(tail[1..]) == 0 && Sleeps(tail[1..]) == [Factor(k, linear)] && Throttles(tail[1..]) == [];
    }
  }

  /**
   * A loop that stops at attempt `n` after `n - 1` failures, without
   * sleeping after the stopping attempt: the last event is the call of
   * attempt `n`.
   */
  function StoppedAt(n: nat, linear: bool): (t: seq<Event>)
    requires n >= 1
    ensures |t| == 2 * n - 1
    ensures t[|t| - 1] == Call(n)
  {
    Backoff(n - 1, linear) + [Call(n)]
  }

  /** A loop that stopped at attempt `n` made exactly `n` calls and slept `n - 1` times. */
  lemma StoppedAtShape(n: nat, linear: bool)
    requires n >= 1
    ensures Calls(StoppedAt(n, linear)) == n
    ensures |Sleeps(StoppedAt(n, linear))| == n - 1
    ensures forall i | 0 <= i < n - 1 :: Sleeps(StoppedAt(n, linear))[i] == Factor(i + 1, linear)
  {
    BackoffShape(n - 1, linear);
    TraceAppend(Backoff(n - 1, linear), [Call(n)]);
    assert [Call(n)][1..] == [];
  }

  /** The call count alone. */
  lemma StoppedAtCalls(n: nat, linear: bool)
    requires n >= 1
    ensures Calls(StoppedAt(n, linear)) == n
  {
    StoppedAtShape(n, linear);
  }

  /** One more round of `a` calls each: `a * (k + 1) == a * k + a`. */
  lemma MulSucc(a: int, k: nat)
    ensures a * (k + 1) == a * k + a
  {
  }
}
