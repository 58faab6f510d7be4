/** Frames that nobody is told about, and an engine that nobody wakes.

The receive interrupt of a class is raised while it is unmasked and its event bit is set.  The bit is
set when a frame completes and cleared by the receive thread before it starts to take frames.  The
engine goes to sleep when it finds no EMPTY descriptor, until the driver writes its doorbell.  This is
one class as its keeper sees it, the interface up, a frame to a descriptor; RxWakeup says who the
keeper is. */
module RxEvents {

  /** `Returning`: the ring was seen empty; `Restarted`: the doorbell has been written since. */
  datatype Keeper = Armed | Pulsed | Servicing | Returning | Restarted | Stopped

  /** `ready` counts the frames completed and not taken, in a ring of `size` descriptors; `active` is the
      engine's doorbell. */
  datatype State = State(size: nat, ready: nat, event: bool, keeper: Keeper, active: bool)

  datatype Step =
    | Complete   // engine: one more frame
    | Sleep      // engine: no EMPTY descriptor
    | Isr        // interrupt handler: mask, send the pulse
    | Pulse      // receive thread: take the pulse, clear the event
    | Take       // receive thread: take one frame
    | Stop       // receive thread: take one frame and stop for flow control
    | Empty      // receive thread: the ring is empty
    | Restart    // receive thread: write the doorbell
    | Unmask     // receive thread: enable the interrupt
    | Enable     // stack thread: enable the interrupt of a stopped class, write the doorbell

  predicate Enabled(s: State, step: Step)
  {
    match step
    case Complete => s.active && s.ready < s.size
    case Sleep => s.active && s.ready >= s.size
    case Isr => s.keeper == Armed && s.event
    case Pulse => s.keeper == Pulsed
    case Take => s.keeper == Servicing && s.ready > 0
    case Stop => s.keeper == Servicing && s.ready > 0
    case Empty => s.keeper == Servicing && s.ready == 0
    case Restart => s.keeper == Returning
    case Unmask => s.keeper == Restarted
    case Enable => s.keeper == Stopped
  }

  function Apply(s: State, step: Step): State
    requires Enabled(s, step)
  {
    match step
    case Complete => s.(ready := s.ready + 1, event := true)
    case Sleep => s.(active := false)
    case Isr => s.(keeper := Pulsed)
    case Pulse => s.(keeper := Servicing, event := false)
    case Take => s.(ready := s.ready - 1)
    case Stop => s.(ready := s.ready - 1, keeper := Stopped)
    case Empty => s.(keeper := Returning)
    case Restart => s.(keeper := Restarted, active := true)
    case Unmask => s.(keeper := Armed)
    case Enable => s.(keeper := Armed, active := true)
  }

  /** The interface has come up. */
  function Start(size: nat): State
  {
    State(size, 0, false, Armed, true)
  }

  predicate Legal(n: nat, steps: seq<Step>)
    decreases |steps|, 0
  {
    steps == [] || (Legal(n, steps[..|steps| - 1]) && Enabled(Run(n, steps[..|steps| - 1]), steps[|steps| - 1]))
  }

  function Run(n: nat, steps: seq<Step>): State
    requires Legal(n, steps)
    decreases |steps|, 1
  {
    if steps == [] then Start(n) else Apply(Run(n, steps[..|steps| - 1]), steps[|steps| - 1])
  }

  lemma Extend(n: nat, steps: seq<Step>, step: Step) returns (more: seq<Step>)
    requires Legal(n, steps) && Enabled(Run(n, steps), step)
    ensures more == steps + [step] && Legal(n, more) && Run(n, more) == Apply(Run(n, steps), step)
  {
    more := steps + [step];
    assert more[..|more| - 1] == steps;
  }

  /** The interrupt is enabled, frames are waiting, and no interrupt will come of them. */
  predicate Unnoticed(s: State)
  {
    s.keeper == Armed && s.ready > 0 && !s.event
  }

  // ---------------------------------------------------------------- the engine is woken

  /** A sleeping engine is remembered: by a pending event, or by a thread that has yet to write the
      doorbell. */
  lemma {:induction false} SleepIsRemembered(n: nat, steps: seq<Step>)
    requires n > 0 && Legal(n, steps)
    ensures var s := Run(n, steps);
            && s.size == n && s.ready <= n
            && (s.keeper in {Returning, Restarted} && s.ready > 0 ==> s.event)
            && (s.keeper in {Armed, Restarted, Returning, Stopped} ==> s.ready < n || s.event)
            && (s.keeper in {Armed, Restarted} && !s.active ==> s.event)
  {
    if steps != [] {
      SleepIsRemembered(n, steps[..|steps| - 1]);
    }
  }

  /** In every run, while the interrupt is enabled, either it is about to be raised, or the engine is
      awake with an EMPTY descriptor to go on with: receiving never comes to rest. */
  lemma NeverAtRest(n: nat, steps: seq<Step>)
    requires n > 0 && Legal(n, steps) && Run(n, steps).keeper == Armed
    ensures Enabled(Run(n, steps), Isr) || Enabled(Run(n, steps), Complete)
  {
    SleepIsRemembered(n, steps);
  }

  /** Frames that wait unnoticed wait for the next frame, which alone helps, and which can come. */
  lemma OnlyAFrameHelps(n: nat, steps: seq<Step>, step: Step)
    requires n > 0 && Legal(n, steps) && Unnoticed(Run(n, steps))
    ensures Enabled(Run(n, steps), Complete) && Apply(Run(n, steps), Complete).event
    ensures Enabled(Run(n, steps), step) ==> step == Complete
  {
    SleepIsRemembered(n, steps);
  }

  // ---------------------------------------------------------------- how frames come to wait

  /** The run ends with a pulse, and then `k` frames taken and none completed. */
  predicate TookSincePulse(steps: seq<Step>, k: nat)
  {
    steps != [] &&
    var front := steps[..|steps| - 1];
    match steps[|steps| - 1]
    case Pulse => k == 0
    case Take => k > 0 && TookSincePulse(front, k - 1)
    case Sleep => TookSincePulse(front, k)
    case _ => false
  }

  /** How many frames there were at the last pulse. */
  function AtPulse(n: nat, steps: seq<Step>): nat
    requires Legal(n, steps)
  {
    if steps == [] then 0
    else if steps[|steps| - 1] == Pulse then Run(n, steps).ready
    else AtPulse(n, steps[..|steps| - 1])
  }

  lemma {:induction false} PulseTook(n: nat, steps: seq<Step>, k: nat)
    requires Legal(n, steps) && TookSincePulse(steps, k)
    ensures var e := Run(n, steps);
            e.keeper == Servicing && !e.event && e.ready + k == AtPulse(n, steps)
  {
    var front := steps[..|steps| - 1];
    if steps[|steps| - 1] == Take {
      PulseTook(n, front, k - 1);
    } else if steps[|steps| - 1] == Sleep {
      PulseTook(n, front, k);
    }
  }

  /** While the thread is servicing and no frame has completed, it has done nothing but take frames since
      the pulse. */
  lemma {:induction false} QuietService(n: nat, steps: seq<Step>) returns (k: nat)
    requires Legal(n, steps) && Run(n, steps).keeper == Servicing && !Run(n, steps).event
    ensures TookSincePulse(steps, k)
  {
    var front := steps[..|steps| - 1];
    if steps[|steps| - 1] == Pulse {
      k := 0;
    } else {
      k := QuietService(n, front);
      k := if steps[|steps| - 1] == Take then k + 1 else k;
    }
  }

  /** Flow control stopped the class with frame `k + 1` after the pulse, and the stack thread enabled it. */
  predicate EndsStopped(steps: seq<Step>, k: nat)
  {
    && |steps| >= 2
    && steps[|steps| - 1] == Enable && steps[|steps| - 2] == Stop
    && TookSincePulse(steps[..|steps| - 2], k)
  }

  /** In every run frames wait unnoticed exactly when flow control has stopped the class before all the
      frames that were there at the pulse had been taken, and no frame has completed since the pulse. */
  lemma UnnoticedIff(n: nat, steps: seq<Step>)
    requires n > 0 && Legal(n, steps)
    ensures Unnoticed(Run(n, steps)) <==> exists k: nat :: EndsStopped(steps, k) && k + 1 < AtPulse(n, steps)
  {
    if Unnoticed(Run(n, steps)) {
      var k := HowUnnoticed(n, steps);
    }
    if k: nat :| EndsStopped(steps, k) && k + 1 < AtPulse(n, steps) {
      StopLeavesSome(n, steps, k);
    }
  }

  lemma HowUnnoticed(n: nat, steps: seq<Step>) returns (k: nat)
    requires n > 0 && Legal(n, steps) && Unnoticed(Run(n, steps))
    ensures EndsStopped(steps, k) && k + 1 < AtPulse(n, steps)
  {
    var one := QuietEnable(n, steps);
    var two := QuietStop(n, one);
    assert two == steps[..|steps| - 2];
    k := QuietService(n, two);
    PulseTook(n, two, k);
  }

  lemma StopLeavesSome(n: nat, steps: seq<Step>, k: nat)
    requires Legal(n, steps) && EndsStopped(steps, k) && k + 1 < AtPulse(n, steps)
    ensures Unnoticed(Run(n, steps))
  {
    var one := steps[..|steps| - 1];
    assert one[..|one| - 1] == steps[..|steps| - 2];
    PulseTook(n, one[..|one| - 1], k);
  }

  lemma QuietEnable(n: nat, steps: seq<Step>) returns (one: seq<Step>)
    requires n > 0 && Legal(n, steps) && Unnoticed(Run(n, steps))
    ensures steps != [] && steps[|steps| - 1] == Enable && one == steps[..|steps| - 1]
    ensures Legal(n, one) && Run(n, one).keeper == Stopped && !Run(n, one).event && Run(n, one).ready > 0
    ensures AtPulse(n, one) == AtPulse(n, steps)
  {
    one := steps[..|steps| - 1];
    SleepIsRemembered(n, one);
  }

  lemma QuietStop(n: nat, steps: seq<Step>) returns (one: seq<Step>)
    requires n > 0 && Legal(n, steps) && Run(n, steps).keeper == Stopped && !Run(n, steps).event
    ensures steps != [] && steps[|steps| - 1] == Stop && one == steps[..|steps| - 1]
    ensures Legal(n, one) && Run(n, one).keeper == Servicing && !Run(n, one).event
    ensures Run(n, one).ready == Run(n, steps).ready + 1
    ensures AtPulse(n, one) == AtPulse(n, steps)
  {
    one := steps[..|steps| - 1];
    SleepIsRemembered(n, one);
  }

  /** It happens: two frames, of which flow control lets one through. */
  lemma LeftUnnoticed(n: nat) returns (steps: seq<Step>)
    requires n >= 2
    ensures Legal(n, steps) && Unnoticed(Run(n, steps)) && Run(n, steps).ready == 1
  {
    hide Legal, Run;
    steps := Started(n);
    steps := Extend(n, steps, Complete);
    steps := Extend(n, steps, Complete);
    steps := Extend(n, steps, Isr);
    steps := Extend(n, steps, Pulse);
    steps := Extend(n, steps, Stop);
    steps := Extend(n, steps, Enable);
  }

  lemma Started(n: nat) returns (steps: seq<Step>)
    ensures steps == [] && Legal(n, steps) && Run(n, steps) == Start(n)
  {
    steps := [];
  }
}
