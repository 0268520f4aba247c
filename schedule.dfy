/** The cycle driver seen against the clock. Each activation of phase i arms
    one timer of `s[i].duration` milliseconds whose callback moves to
    `Next(|s|, i)`; with two or more phases that changes the index, so the
    effect runs again and arms the next timer. With a single phase the
    callback leaves the index where it is, the effect does not run again and
    no further timer is armed; the index is then 0 for ever. `IndexAt` gives
    the index after a number of elapsed milliseconds, and `Fired` the number
    of callbacks that have run, for any well-formed table. */
module Schedule {
  import opened Phases

  /** Milliseconds from mount until phase i is activated: the durations of
      the phases before it. */
  function PrefixSum(s: seq<Phase>, i: nat): (r: int)
    requires WellFormed(s)
    requires i <= |s|
    ensures r >= i
  {
    if i == 0 then 0 else PrefixSum(s, i - 1) + s[i - 1].duration
  }

  /** Milliseconds one full traversal of the table takes. */
  function CycleLength(s: seq<Phase>): (c: int)
    requires WellFormed(s)
    ensures c >= |s| > 0
  {
    PrefixSum(s, |s|)
  }

  /** The index that is current `t` milliseconds after phase `i` was activated. */
  function IndexAt(s: seq<Phase>, i: nat, t: nat): (j: nat)
    requires WellFormed(s)
    requires i < |s|
    ensures j < |s|
    decreases t
  {
    if t < s[i].duration then i else IndexAt(s, Next(|s|, i), t - s[i].duration)
  }

  /** How many timer callbacks have fired `t` milliseconds after phase `i`
      was activated. None fires before the phase's duration has elapsed, and
      each one takes at least a millisecond. A one-phase table fires a single
      callback: it does not change the index, so no timer is armed again. */
  function Fired(s: seq<Phase>, i: nat, t: nat): (k: nat)
    requires WellFormed(s)
    requires i < |s|
    ensures k == 0 <==> t < s[i].duration
    ensures k <= t
    ensures |s| == 1 ==> k <= 1
    decreases t
  {
    if t < s[i].duration then 0
    else if |s| == 1 then 1
    else 1 + Fired(s, Next(|s|, i), t - s[i].duration)
  }

  /** The colour shown by the default light `t` milliseconds after mount: the
      colour of the phase reached by the callbacks fired so far. */
  function ColorAt(t: nat): (c: LightColor)
    ensures c == DEFAULT_SEQUENCE[Fired(DEFAULT_SEQUENCE, 0, t) % 3].color
  {
    DefaultIsWellFormed();
    IndexFromMount(DEFAULT_SEQUENCE, t);
    DEFAULT_SEQUENCE[IndexAt(DEFAULT_SEQUENCE, 0, t)].color
  }

  /** The clock view agrees with counting callbacks: after t milliseconds the
      index is the one reached by the callbacks that have fired so far. */
  lemma {:induction false} IndexAtCountsFired(s: seq<Phase>, i: nat, t: nat)
    requires WellFormed(s)
    requires i < |s|
    ensures IndexAt(s, i, t) == AdvanceFrom(|s|, i, Fired(s, i, t))
    decreases t
  {
    if t >= s[i].duration {
      var t' := t - s[i].duration;
      IndexAtCountsFired(s, Next(|s|, i), t');
      AdvanceFromShift(|s|, i, Fired(s, Next(|s|, i), t'));
    }
  }

  /** Measured from mount, the index is the number of fired callbacks modulo
      the table length. */
  lemma {:induction false} IndexFromMount(s: seq<Phase>, t: nat)
    requires WellFormed(s)
    ensures IndexAt(s, 0, t) == Fired(s, 0, t) % |s|
  {
    IndexAtCountsFired(s, 0, t);
    AdvanceFromIsModular(|s|, 0, Fired(s, 0, t));
  }

  /** Reaching phase i from mount takes exactly the durations before it. */
  lemma {:induction false} PhaseShift(s: seq<Phase>, i: nat, u: nat)
    requires WellFormed(s)
    requires i < |s|
    ensures IndexAt(s, 0, PrefixSum(s, i) + u) == IndexAt(s, i, u)
  {
    if i > 0 {
      var d := s[i - 1].duration;
      PhaseShift(s, i - 1, d + u);
      assert Next(|s|, i - 1) == i;
    }
  }

  /** Phase i is on for the window [PrefixSum(s, i), PrefixSum(s, i + 1)),
      that is for exactly its own duration. */
  lemma {:induction false} PhaseWindow(s: seq<Phase>, i: nat, t: nat)
    requires WellFormed(s)
    requires i < |s|
    requires PrefixSum(s, i) <= t < PrefixSum(s, i) + s[i].duration
    ensures IndexAt(s, 0, t) == i
  {
    PhaseShift(s, i, t - PrefixSum(s, i));
  }

  /** After one full cycle the light is in the same phase again. */
  lemma {:induction false} Periodic(s: seq<Phase>, t: nat)
    requires WellFormed(s)
    ensures IndexAt(s, 0, t + CycleLength(s)) == IndexAt(s, 0, t)
  {
    var last := |s| - 1;
    var d := s[last].duration;
    PhaseShift(s, last, d + t);
    assert Next(|s|, last) == 0;
  }

  /** Only the position within the current cycle matters. */
  lemma {:induction false} PeriodicMod(s: seq<Phase>, t: nat)
    requires WellFormed(s)
    ensures IndexAt(s, 0, t) == IndexAt(s, 0, t % CycleLength(s))
    decreases t
  {
    var c := CycleLength(s);
    if t < c {
      ModUnique(c, t, 0, t);
    } else {
      Periodic(s, t - c);
      PeriodicMod(s, t - c);
      var q, r := (t - c) / c, (t - c) % c;
      assert t == (q + 1) * c + r by {
        assert (q + 1) * c == q * c + c;
      }
      ModUnique(c, t, q + 1, r);
    }
  }

  /** The default light, measured from mount: green on [0, 5000), yellow on
      [5000, 6000), red on [6000, 8000), repeating every 8000 ms. */
  lemma DefaultTimeline(t: nat)
    ensures CycleLength(DEFAULT_SEQUENCE) == 8000
    ensures t % 8000 < 5000 ==> ColorAt(t) == Green
    ensures 5000 <= t % 8000 < 6000 ==> ColorAt(t) == Yellow
    ensures 6000 <= t % 8000 ==> ColorAt(t) == Red
    ensures ColorAt(t + 8000) == ColorAt(t)
  {
    var s := DEFAULT_SEQUENCE;
    DefaultIsWellFormed();
    assert PrefixSum(s, 1) == 5000 && PrefixSum(s, 2) == 6000 && PrefixSum(s, 3) == 8000;
    var r := t % 8000;
    PeriodicMod(s, t);
    if r < 5000 {
      PhaseWindow(s, 0, r);
    } else if r < 6000 {
      PhaseWindow(s, 1, r);
    } else {
      PhaseWindow(s, 2, r);
    }
    Periodic(s, t);
  }
}
