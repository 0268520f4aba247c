# Stoplight: a verified model of the traffic-light widget

The repository is one React component, `Stoplight`. It cycles a traffic light
through green (5 s), yellow (1 s) and red (2 s) and renders three indicators.
Only the lit one uses the bright style and reads "On". This project models that
component's logic in Dafny, in four modules:

- `Phases` (phases.dfy) covers the sequence table: the closed `LightColor`
  enumeration, the `(color, duration)` phases, the constant `DEFAULT_SEQUENCE`,
  and the wrap-around index step `(i + 1) % length` that the timer callback uses.
  `AdvanceFrom` iterates that step, and the lemmas give it in closed form.
- `Schedule` (schedule.dfy) is the pure clock view. `IndexAt(s, i, t)` is the
  phase that is current `t` milliseconds after phase `i` was activated.
  `Fired(s, i, t)` is the number of timer callbacks that have run by then. Each
  activation arms one timer for its phase's duration, and the timer's callback
  moves to the next index. With two or more phases the index changes, so the
  effect runs again and arms the next timer. With a single phase the callback
  leaves the index at 0, the effect does not run again, and exactly one callback
  ever fires. `Fired` counts it that way. The lemmas hold for any table that is
  non-empty with positive durations. They prove the phase windows, the period
  (the sum of the durations, 8000 ms for the default table) and agreement with
  counting callbacks.
- `Presentation` (presentation.dfy) holds `isActive`, the per-colour
  `colorClasses` lookup, the "On"/"Off" status and the three rendered
  indicators.
- `Driver` (driver.dfy) is the component's mutable state as a class,
  `Stoplight`, with the fields `activeLight` and `currentIndex` and the instance's
  queue of pending host timers. The React hook machinery becomes explicit
  methods:
  - the constructor is the `useState` initial values;
  - `Activate` is the effect body, run after the previous effect's cleanup;
  - `Advance` is the host firing the pending timer's callback;
  - `Cancel` is the cleanup;
  - `Step` is a callback followed by the effect re-running for the new index.

  The class invariant `Valid` keeps the index in bounds and equal to the number
  of callbacks fired modulo 3. It allows at most one pending timer. While a timer
  is pending, the shown colour and the timer's delay are those of the current
  phase. `Lifecycle` is a client of the class that walks one full cycle and a
  teardown.

Elapsed time is an explicit integer argument, and no wall clock is modelled. The
host's timers are an explicit per-instance queue of pending timers. Rendering is
a pure function of the shown colour.

The table has three phases. The timer callback only changes `currentIndex`. The
effect runs again because its dependency changed. So `Advance` (the callback)
and `Activate` (the effect) are separate methods, and `Step` composes them.
Between the two, `activeLight` still holds the previous colour. `Valid` claims
that the shown colour agrees with the table only while a timer is pending.

## Model

| member | source | states |
|---|---|---|
| `Phases.DefaultIsWellFormed` | src/components/Stoplight.tsx:10-14 | The default table is non-empty with every duration positive, has three phases, and starts with green. |
| `Phases.Next` | src/components/Stoplight.tsx:26 | The callback's next index is always inside the table. It is `i + 1` before the last phase and wraps to 0 after it. |
| `Phases.AdvanceFrom` | src/components/Stoplight.tsx:26 | Any number of callbacks keeps the index within `[0, n)`, so reading the table at `currentIndex` never goes out of bounds. |
| `Phases.AdvanceFromIsModular` | src/components/Stoplight.tsx:26 | After k callbacks from index i the index is `(i + k) mod n`. From mount (index 0) that is `k mod n`. |
| `Phases.AdvanceFromShift` | src/components/Stoplight.tsx:26 | One step followed by k more is the same as k + 1 steps. |
| `Phases.FullCycleReturns` | src/components/Stoplight.tsx:26 | n callbacks bring the index back to where it started: the rotation has period n. |
| `Phases.DefaultColorOrder` | src/components/Stoplight.tsx:10-26 | From mount, the default light shows green, yellow, red in that order as callbacks fire. It is green again after every third callback. |
| `Schedule.PrefixSum` | src/components/Stoplight.tsx:10-14 | The time until phase i starts is at least i ms, because every phase lasts at least 1 ms. |
| `Schedule.CycleLength` | src/components/Stoplight.tsx:10-14 | A full cycle takes a positive time, at least one millisecond per phase. |
| `Schedule.Fired` | src/components/Stoplight.tsx:24-27 | No callback fires before the current phase's duration has elapsed, at most one fires per millisecond, and a one-phase table fires at most one callback in all (its callback does not change the index, so the effect never re-arms). |
| `Schedule.ColorAt` | src/components/Stoplight.tsx:21-27 | The colour shown t ms after mount is the table colour at index (callbacks fired so far) mod 3. |
| `Schedule.IndexAt` | src/components/Stoplight.tsx:21-27 | The phase current after any elapsed time is a valid index of the table. |
| `Schedule.IndexAtCountsFired` | src/components/Stoplight.tsx:24-27 | The clock view agrees with counting callbacks: after t ms the index is the one that the callbacks fired so far lead to. |
| `Schedule.IndexFromMount` | src/components/Stoplight.tsx:24-27 | Measured from mount, the index after t ms is the number of fired callbacks modulo the table length. |
| `Schedule.PhaseShift` | src/components/Stoplight.tsx:21-27 | Phase i is reached from mount after exactly the durations of the phases before it. |
| `Schedule.PhaseWindow` | src/components/Stoplight.tsx:21-27 | Phase i is on throughout its window `[start_i, start_i + duration_i)`. |
| `Schedule.Periodic` | src/components/Stoplight.tsx:21-27 | After one full cycle (the sum of all durations) the light is in the same phase again. |
| `Schedule.PeriodicMod` | src/components/Stoplight.tsx:21-27 | The phase depends only on the elapsed time modulo the cycle length. |
| `Schedule.DefaultTimeline` | src/components/Stoplight.tsx:10-27 | The default cycle is 8000 ms: green on [0, 5000), yellow on [5000, 6000), red on [6000, 8000) modulo 8000, repeating every 8000 ms. |
| `Presentation.IsActive` | src/components/Stoplight.tsx:33 | Comparing the colour names as strings is true exactly when the two colours are equal. |
| `Presentation.Status` | src/components/Stoplight.tsx:53 | The status reads "On" exactly when the indicator is lit and "Off" exactly when it is not. |
| `Presentation.RenderLight` | src/components/Stoplight.tsx:32-57 | An indicator keeps its colour and caption, and its style is one of its own colour's variants. |
| `Presentation.Panel` | src/components/Stoplight.tsx:63-65 | Three indicators are rendered, whatever colour is active: red, yellow and green in that order, captioned "Red", "Yellow", "Green". |
| `Presentation.ColorClasses` | src/components/Stoplight.tsx:34-44 | The style lookup is total over the three colours, and each style string belongs to the indicator's own colour (`bg-<colour>-` prefix). |
| `Presentation.ColorClassesInjective` | src/components/Stoplight.tsx:34-44 | The six style strings are pairwise distinct: a style determines both the colour and whether it is lit. |
| `Presentation.LightReflectsActivity` | src/components/Stoplight.tsx:33-53 | An indicator has the lit style exactly when its colour is the active one, and the dim style exactly when it is not. Its status reads "On" exactly when active and "Off" otherwise. It keeps its colour and caption. |
| `Presentation.ExactlyOneOn` | src/components/Stoplight.tsx:33-65 | Of the three rendered indicators exactly one reads "On": an indicator reads "On" exactly when its colour is the active one. |
| `Driver.Stoplight.Valid` | src/components/Stoplight.tsx:17-30 | The class invariant keeps `currentIndex` inside the table, so `DEFAULT_SEQUENCE[currentIndex]` never goes out of bounds. It also ties the index to the callback count mod 3, allows at most one pending timer, and requires agreement with the current phase while a timer is pending. |
| `Driver.Stoplight.constructor` | src/components/Stoplight.tsx:17-18 | Mount state: index 0, green (the first phase's colour), no timer armed, no callbacks fired; the invariant holds. |
| `Driver.Stoplight.Activate` | src/components/Stoplight.tsx:20-24 | Clears any earlier timer and shows the current phase's colour. Arms exactly one timer with the phase's duration. The index is unchanged. |
| `Driver.Stoplight.Advance` | src/components/Stoplight.tsx:24-26 | If a timer is pending, it fires: the index moves to `(i + 1) mod 3` and the timer is consumed. With none pending nothing changes. The shown colour is unchanged either way. |
| `Driver.Stoplight.Cancel` | src/components/Stoplight.tsx:29 | Cleanup leaves no timer pending and changes nothing else, so no callback can run afterwards. |
| `Driver.Stoplight.Step` | src/components/Stoplight.tsx:20-30 | A fired callback followed by the re-run effect gives the next index, that phase's colour and one timer of that phase's duration. With no timer pending the instance is unchanged. |

## Left out

- The JSX tree, the layout and text classes, and the `transition-all duration-300` fade are presentation with no state-dependent behaviour. Only the on/off class choice and the status text are modelled. The caption prop (`"Red"`, `"Yellow"`, `"Green"`) is carried through unchanged.
- The stray space in the class string at src/components/Stoplight.tsx:51 has no behavioural content.
- React's hook mechanics (state batching, render scheduling, dependency tracking, development-mode double effects) are replaced by the explicit methods of `Driver.Stoplight`. Rendering is a pure function, so rendering twice with the same colour gives the same output by construction.
- The host's `setTimeout`/`clearTimeout` are modelled as this instance's queue of pending timers. Timer handles, wall-clock drift and the event loop are not modelled. Elapsed time is whole milliseconds.
- `Schedule` measures time from the first activation and assumes that each effect runs without delay after its callback. Render latency is not modelled.
- Durations are JavaScript numbers in the source. The model uses integers, which is all the fixed table contains.

## Findings

None. The code matches what it evidently intends.
