/** The cycle driver: the component's mutable state (the current index into
    the sequence table and the colour being shown) together with the timers
    it has queued with the host. The host's scheduling is made explicit:
    `Activate` is the effect that runs whenever the index changes (after the
    previous effect's cleanup), `Advance` is the host firing the pending
    timer's callback, and `Cancel` is the cleanup run on teardown. */
module Driver {
  import opened Phases

  /** A timer queued with the host; its callback runs after `delay` ms. */
  datatype Timer = Timer(delay: nat)

  class Stoplight {
    var activeLight: LightColor
    var currentIndex: nat
    /** The timers of this instance that are queued with the host and have
        neither fired nor been cleared. */
    var pending: seq<Timer>
    /** How many timer callbacks have run since mount. */
    ghost var Advances: nat

    /** The index stays inside the table and counts the callbacks modulo its
        length; at most one timer is pending, and while one is pending the
        colour shown and the timer's delay are those of the current phase. */
    ghost predicate Valid()
      reads this
      ensures Valid() ==> currentIndex < |DEFAULT_SEQUENCE|
    {
      currentIndex == Advances % |DEFAULT_SEQUENCE| &&
      |pending| <= 1 &&
      (pending != [] ==>
         activeLight == DEFAULT_SEQUENCE[currentIndex].color &&
         pending[0] == Timer(DEFAULT_SEQUENCE[currentIndex].duration))
    }

    /** Mount: the initial state is index 0 showing green, the colour of the
        table's first phase, with no timer armed yet. */
    constructor ()
      ensures Valid()
      ensures currentIndex == 0 && activeLight == Green && pending == [] && Advances == 0
      ensures activeLight == DEFAULT_SEQUENCE[currentIndex].color
    {
      activeLight := Green;
      currentIndex := 0;
      pending := [];
      Advances := 0;
    }

    /** The effect for the current index: after the previous effect's cleanup
        it shows the current phase's colour and arms exactly one timer for the
        phase's duration. The index is left alone. */
    method Activate()
      requires Valid()
      modifies this
      ensures Valid()
      ensures currentIndex == old(currentIndex) && Advances == old(Advances)
      ensures activeLight == DEFAULT_SEQUENCE[currentIndex].color
      ensures pending == [Timer(DEFAULT_SEQUENCE[currentIndex].duration)]
    {
      Cancel();
      var config := DEFAULT_SEQUENCE[currentIndex];
      activeLight := config.color;
      pending := pending + [Timer(config.duration)];
    }

    /** The host fires the pending timer, if there is one: its callback moves
        the index one step along the table, wrapping at the end. With no timer
        pending nothing runs and nothing changes. The colour shown is only
        updated by the next activation. */
    method Advance() returns (fired: bool)
      requires Valid()
      modifies this
      ensures Valid()
      ensures fired <==> old(pending) != []
      ensures fired ==> currentIndex == Next(|DEFAULT_SEQUENCE|, old(currentIndex))
                        && Advances == old(Advances) + 1
      ensures !fired ==> unchanged(this)
      ensures pending == [] && activeLight == old(activeLight)
    {
      fired := pending != [];
      if fired {
        pending := pending[1..];
        currentIndex := (currentIndex + 1) % |DEFAULT_SEQUENCE|;
        Advances := Advances + 1;
        ModSucc(|DEFAULT_SEQUENCE|, old(Advances));
      }
    }

    /** Cleanup: clears the pending timer, so that no callback can run
        afterwards; the state is otherwise untouched. */
    method Cancel()
      requires Valid()
      modifies this
      ensures Valid()
      ensures pending == []
      ensures currentIndex == old(currentIndex) && activeLight == old(activeLight)
      ensures Advances == old(Advances)
    {
      pending := [];
    }

    /** One turn of the cycle: the pending timer fires and, because the index
        changed, the effect runs again for the new index. */
    method Step() returns (fired: bool)
      requires Valid()
      modifies this
      ensures Valid()
      ensures fired <==> old(pending) != []
      ensures fired ==> currentIndex == Next(|DEFAULT_SEQUENCE|, old(currentIndex))
                        && activeLight == DEFAULT_SEQUENCE[currentIndex].color
                        && pending == [Timer(DEFAULT_SEQUENCE[currentIndex].duration)]
                        && Advances == old(Advances) + 1
      ensures !fired ==> unchanged(this)
    {
      fired := Advance();
      if fired {
        Activate();
      }
    }
  }

  /** A mounted light cycles green, yellow, red and back to green, and after
      teardown no callback changes it any more. */
  method Lifecycle()
  {
    var light := new Stoplight();
    assert light.activeLight == Green;
    light.Activate();
    assert light.activeLight == Green && light.pending == [Timer(5000)];
    var fired := light.Step();
    assert fired && light.activeLight == Yellow && light.pending == [Timer(1000)];
    fired := light.Step();
    assert fired && light.activeLight == Red && light.pending == [Timer(2000)];
    fired := light.Step();
    assert fired && light.activeLight == Green && light.currentIndex == 0;
    light.Cancel();
    fired := light.Advance();
    assert !fired && light.activeLight == Green && light.currentIndex == 0;
  }
}
