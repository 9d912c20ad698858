/** The semaphore in its own form, proved to take the steps of `TaskSemaphore`. */
module AsyncTaskSemaphore {
  import opened TaskSemaphore

  class AsyncTaskSemaphore {
    const permits: nat
    var counter: int
    /** Where the callers are; the code does not store this. */
    var admitted: nat
    var woken: nat
    var waiting: nat

    constructor (permits: nat)
      ensures State() == New(permits) && Inv(State())
    {
      this.permits := permits;
      counter, admitted, woken, waiting := 0, 0, 0, 0;
    }

    function State(): Semaphore
      reads this
    {
      Semaphore(permits, counter, admitted, woken, waiting)
    }

    /** The lock is held from the increment to the decision, so this is one step. */
    method Enter() returns (inside: bool)
      requires Inv(State())
      modifies this
      ensures State() == Apply(old(State()), Step.Acquire) && Inv(State())
      ensures counter == old(counter) + 1 && woken == old(woken)
      ensures inside <==> old(counter) < permits
      ensures inside ==> admitted == old(admitted) + 1 && waiting == old(waiting)
      ensures !inside ==> admitted == old(admitted) && waiting == old(waiting) + 1
    {
      counter := counter + 1;
      if counter > permits {
        waiting := waiting + 1;
        inside := false;
      } else {
        admitted := admitted + 1;
        inside := true;
      }
    }

    /** The steps of the other callers while one blocked caller stays blocked. */
    method OthersRun(turn: seq<Step>) returns (ghost steps: seq<Step>)
      requires Inv(State()) && Blocked(State()) > 0
      modifies this
      ensures Legal(old(State()), steps) && State() == Run(old(State()), steps) && Inv(State())
      ensures Blocked(State()) > 0
    {
      steps := [];
      for k := 0 to |turn|
        invariant Legal(old(State()), steps) && State() == Run(old(State()), steps) && Inv(State())
        invariant Blocked(State()) > 0
      {
        var e := turn[k];
        // a wake is the turn of another caller only if another one is blocked
        if Enabled(State(), e) && (e == Wake ==> Blocked(State()) > 1) {
          StepOn(old(State()), steps, State(), e);
          steps := steps + [e];
          var s := Apply(State(), e);
          counter, admitted, woken, waiting := s.counter, s.admitted, s.woken, s.waiting;
        }
      }
    }

    /** `cond_var.wait`, by a blocked caller: it returns notified or for no reason. */
    method Wait(turn: seq<Step>) returns (ghost steps: seq<Step>)
      requires Inv(State()) && Blocked(State()) > 0
      modifies this
      ensures Legal(old(State()), steps) && State() == Run(old(State()), steps) && Inv(State())
      ensures woken > 0
    {
      steps := OthersRun(turn);
      if woken == 0 {
        StepOn(old(State()), steps, State(), SpuriousWake);
        steps := steps + [SpuriousWake];
        waiting, woken := waiting - 1, woken + 1;
      }
    }

    /** The wait and the test after it. */
    method WaitAndTest(turn: seq<Step>) returns (inside: bool, ghost steps: seq<Step>)
      requires Inv(State()) && Blocked(State()) > 0
      modifies this
      ensures Legal(old(State()), steps) && State() == Run(old(State()), steps) && Inv(State())
      ensures inside ==> 0 < admitted <= permits
      ensures !inside ==> Blocked(State()) > 0
      ensures old(Blocked(State())) > permits ==> !inside && Blocked(State()) > permits
    {
      steps := Wait(turn);
      if old(Blocked(State())) > permits {
        StarvedForever(old(State()), steps);
      }
      StepOn(old(State()), steps, State(), Wake);
      steps := steps + [Wake];
      woken := woken - 1;
      if counter > permits {
        waiting := waiting + 1;
        inside := false;
      } else {
        admitted := admitted + 1;
        inside := true;
      }
    }

    /**
     `acquire`.  The code waits as long as it takes; here `turns` says what the others do
     before each time this caller is woken, and when the turns are used up it is still
     blocked.  It is never admitted if as many callers as permits were blocked already.
     */
    method Acquire(turns: seq<seq<Step>>) returns (inside: bool, ghost steps: seq<Step>)
      requires Inv(State())
      modifies this
      ensures Legal(old(State()), steps) && State() == Run(old(State()), steps) && Inv(State())
      ensures steps != [] && steps[0] == Step.Acquire
      ensures inside ==> 0 < admitted <= permits
      ensures !inside ==> Blocked(State()) > 0
      ensures old(counter) >= permits && old(Blocked(State())) >= permits ==> !inside
    {
      inside := Enter();
      steps := [Step.Acquire];
      assert steps[1..] == [];
      ghost var starved := !inside && Blocked(State()) > permits;
      for turn := 0 to |turns|
        invariant Legal(old(State()), steps) && State() == Run(old(State()), steps) && Inv(State())
        invariant steps != [] && steps[0] == Step.Acquire
        invariant inside ==> 0 < admitted <= permits
        invariant !inside ==> Blocked(State()) > 0
        invariant starved ==> !inside && Blocked(State()) > permits
      {
        if inside {
          break;
        }
        ghost var s := State();
        ghost var more;
        inside, more := WaitAndTest(turns[turn]);
        RunAppend(old(State()), steps, more);
        steps := steps + more;
      }
    }

    /** `release`, by an admitted task. */
    method Release()
      requires Inv(State()) && admitted > 0
      modifies this
      ensures State() == Apply(old(State()), Step.Release) && Inv(State())
      ensures 0 <= counter == old(counter) - 1 && admitted == old(admitted) - 1
      ensures old(waiting) > 0 ==> woken == old(woken) + 1 && waiting == old(waiting) - 1
      ensures old(waiting) == 0 ==> woken == old(woken) && waiting == 0
    {
      counter := counter - 1;
      admitted := admitted - 1;
      if waiting > 0 {
        waiting, woken := waiting - 1, woken + 1;
      }
    }
  }
}
