/** The sequence table of the stoplight: the closed set of light colours, the
    ordered (colour, duration) phases the light cycles through, and the index
    arithmetic the cycle driver uses to walk that table with wrap-around. */
module Phases {

  /** The three colours a light can show; no other value exists. */
  datatype LightColor = Red | Yellow | Green

  /** One phase of the cycle: a colour and how long, in milliseconds, it stays on. */
  datatype Phase = Phase(color: LightColor, duration: int)

  /** The built-in schedule: green 5 s, yellow 1 s, red 2 s. */
  const DEFAULT_SEQUENCE: seq<Phase> :=
    [Phase(Green, 5000), Phase(Yellow, 1000), Phase(Red, 2000)]

  /** A schedule can be driven by the timer: it is non-empty and every phase
      lasts a positive number of milliseconds. */
  predicate WellFormed(s: seq<Phase>)
  {
    |s| > 0 && forall i :: 0 <= i < |s| ==> s[i].duration > 0
  }

  lemma DefaultIsWellFormed()
    ensures WellFormed(DEFAULT_SEQUENCE)
    ensures |DEFAULT_SEQUENCE| == 3
    ensures DEFAULT_SEQUENCE[0].color == Green
  {
  }

  /** The index the timer callback moves to from `i` in a table of `n` phases. */
  function Next(n: nat, i: nat): (j: nat)
    requires i < n
    ensures j < n
    ensures i < n - 1 ==> j == i + 1
    ensures i == n - 1 ==> j == 0
  {
    (i + 1) % n
  }

  /** The index reached from `i` after `k` timer callbacks. */
  function AdvanceFrom(n: nat, i: nat, k: nat): (j: nat)
    requires i < n
    ensures j < n
  {
    if k == 0 then i else Next(n, AdvanceFrom(n, i, k - 1))
  }

  lemma MulAtLeast(d: int, n: nat)
    requires d >= 1
    ensures d * n >= n
  {
  }

  /** Euclidean division is unique: a quotient and remainder in range are the ones. */
  lemma ModUnique(n: nat, a: int, q: int, r: int)
    requires 0 <= r < n
    requires a == q * n + r
    ensures a % n == r
  {
    var q', r' := a / n, a % n;
    var d := q - q';
    assert d * n == r' - r;
    if d > 0 {
      MulAtLeast(d, n);
    } else if d < 0 {
      MulAtLeast(-d, n);
    }
  }

  lemma ModSucc(n: nat, a: nat)
    requires n > 0
    ensures (a % n + 1) % n == (a + 1) % n
  {
    var q, r := a / n, a % n;
    if r + 1 < n {
      ModUnique(n, a + 1, q, r + 1);
      ModUnique(n, r + 1, 0, r + 1);
    } else {
      ModUnique(n, a + 1, q + 1, 0);
      ModUnique(n, r + 1, 1, 0);
    }
  }

  /** After k callbacks from index i the index is (i + k) mod n; in particular
      k callbacks from mount (index 0) leave the index at k mod n. */
  lemma {:induction false} AdvanceFromIsModular(n: nat, i: nat, k: nat)
    requires i < n
    ensures AdvanceFrom(n, i, k) == (i + k) % n
  {
    if k > 0 {
      AdvanceFromIsModular(n, i, k - 1);
      ModSucc(n, i + k - 1);
    }
  }

  /** Advancing first and then k more times is the same as k + 1 advances. */
  lemma {:induction false} AdvanceFromShift(n: nat, i: nat, k: nat)
    requires i < n
    ensures AdvanceFrom(n, Next(n, i), k) == AdvanceFrom(n, i, k + 1)
  {
    if k > 0 {
      AdvanceFromShift(n, i, k - 1);
    }
  }

  /** n callbacks bring the driver back to the index it started from. */
  lemma {:induction false} FullCycleReturns(n: nat, i: nat)
    requires i < n
    ensures AdvanceFrom(n, i, n) == i
  {
    AdvanceFromIsModular(n, i, n);
    ModUnique(n, i + n, 1, i);
  }

  /** The default table shows green, yellow, red, green, ... as callbacks fire
      from mount, and returns to green every third callback. */
  lemma {:induction false} DefaultColorOrder(k: nat)
    ensures DEFAULT_SEQUENCE[AdvanceFrom(3, 0, k)].color
              == (if k % 3 == 0 then Green else if k % 3 == 1 then Yellow else Red)
    ensures DEFAULT_SEQUENCE[AdvanceFrom(3, 0, k + 3)].color
              == DEFAULT_SEQUENCE[AdvanceFrom(3, 0, k)].color
  {
    AdvanceFromIsModular(3, 0, k);
    AdvanceFromIsModular(3, 0, k + 3);
  }
}
