/** Who re-enables a receive interrupt.

The interrupt handler masks a class of traffic and sends a pulse; the receive thread services it and
unmasks it again, unless flow control stops it with the queue to the stack nearly full; then the
stack thread unmasks it after draining the queue.  The parties interleave at every access to shared
state and at every change of the interface flag; the theorems say exactly when a class of traffic is left
with nobody to look after it.
*/
module RxWakeup {
  /** The receive thread.  `Locked` and `Offered` hold the mutex, before and after the queue is
      touched; `Returning` has found its ring empty. */
  datatype RxThread = Waiting | Servicing(q: nat) | Locked(q: nat) | Offered(q: nat) | Returning(q: nat)

  /** The stack thread.  From `Holding` on it holds the mutex; `Enabling` found the queue empty;
      `Clearing` has unmasked and is about to clear the flags. */
  datatype StackThread = Off | Looping | Holding | Enabling | Clearing

  datatype Owner = Free | Rx | Stack

  datatype State = State(
    classes: nat, maxlen: nat, flow: bool, up: bool,
    mask: set<nat>, pulses: multiset<nat>, full: set<nat>, running: bool, qlen: nat,
    mutex: Owner, rx: RxThread, stack: StackThread, lost: set<nat>)

  datatype Step =
    | Isr(q: nat)        // interrupt handler: mask the class, send the pulse
    | Pulse(q: nat)      // receive thread: take a pulse
    | Lock               // receive thread: lock the mutex with a packet in hand
    | Offer              // receive thread: enqueue it, or find the queue full
    | Decide             // receive thread: stop for flow control, or go on; unlock
    | Drained            // receive thread: ring empty
    | Unmask             // receive thread: enable the interrupt
    | StackLock          // stack thread: lock the mutex
    | StackTake          // stack thread: dequeue and unlock, or find the queue empty
    | Enable             // stack thread: unmask the classes that were stopped
    | Clear              // stack thread: clear the flags, unlock
    | Up                 // the interface comes up
    | Down               // the interface goes down

  predicate Enabled(s: State, step: Step)
  {
    match step
    case Isr(q) => q in s.mask
    case Pulse(q) => s.rx == Waiting && q in s.pulses
    case Lock => s.rx.Servicing? && s.mutex == Free
    case Offer => s.rx.Locked?
    case Decide => s.rx.Offered?
    case Drained => s.rx.Servicing?
    case Unmask => s.rx.Returning?
    case StackLock => s.stack == Looping && s.mutex == Free
    case StackTake => s.stack == Holding
    case Enable => s.stack == Enabling
    case Clear => s.stack == Clearing
    case Up => !s.up
    case Down => s.up
  }

  function Apply(s: State, step: Step): State
    requires Enabled(s, step)
  {
    match step
    case Isr(q) => s.(mask := s.mask - {q}, pulses := s.pulses + multiset{q})
    case Pulse(q) => s.(pulses := s.pulses - multiset{q}, rx := Servicing(q))
    case Lock => s.(mutex := Rx, rx := Locked(s.rx.q))
    case Offer =>
      var t := s.(rx := Offered(s.rx.q));
      if s.qlen >= s.maxlen then t
      else if s.running then t.(qlen := s.qlen + 1)
      else t.(qlen := s.qlen + 1, running := true, stack := Looping)
    case Decide =>
      if s.flow && s.qlen >= s.maxlen - 1 then s.(full := s.full + {s.rx.q}, rx := Waiting, mutex := Free)
      else s.(rx := Servicing(s.rx.q), mutex := Free)
    case Drained => s.(rx := Returning(s.rx.q))
    case Unmask => s.(mask := s.mask + {s.rx.q}, rx := Waiting)
    case StackLock => s.(mutex := Stack, stack := Holding)
    case StackTake =>
      if s.qlen > 0 then s.(qlen := s.qlen - 1, mutex := Free, stack := Looping)
      else s.(stack := Enabling)
    case Enable =>
      if s.up then s.(mask := s.mask + s.full, stack := Clearing)
      else s.(lost := s.lost + s.full, stack := Clearing)
    case Clear => s.(full := {}, running := false, mutex := Free, stack := Off)
    case Up => s.(up := true)
    case Down => s.(up := false)
  }

  // ---------------------------------------------------------------- the invariant

  function Count(b: bool): nat { if b then 1 else 0 }

  /** The receive thread is looking after class `q`. */
  predicate Serviced(s: State, q: nat)
  {
    !s.rx.Waiting? && s.rx.q == q
  }

  /** Class `q` waits for the stack thread to unmask it. */
  predicate Stopped(s: State, q: nat)
  {
    q in s.full && s.stack != Clearing
  }

  function Keepers(s: State, q: nat): nat
  {
    Count(q in s.mask) + s.pulses[q] + Count(Serviced(s, q)) + Count(Stopped(s, q))
  }

  predicate Locks(s: State)
  {
    && (s.mutex == Rx <==> s.rx.Locked? || s.rx.Offered?)
    && (s.mutex == Stack <==> s.stack in {Holding, Enabling, Clearing})
  }

  /** Class `q` has one keeper, unless it has been lost. */
  predicate Kept(s: State, q: nat)
  {
    Keepers(s, q) + Count(q in s.lost) == Count(q < s.classes)
  }

  predicate Flags(s: State)
  {
    && s.maxlen > 0 && Locks(s)
    && (s.running <==> s.stack != Off)
    && (s.qlen > 0 || s.full != {} ==> s.running)
    && (s.stack in {Enabling, Clearing} ==> s.qlen == 0)
    && (s.rx.Offered? ==> s.qlen > 0)
  }

  ghost predicate Inv(s: State)
  {
    && Flags(s)
    && (forall q: nat {:trigger q in s.full} :: q in s.full ==> q < s.classes)
    && (forall q: nat {:trigger Kept(s, q)} :: Kept(s, q))
  }

  // ---------------------------------------------------------------- steps

  lemma ServicedExists(s: State)
    requires Inv(s) && !s.rx.Waiting?
    ensures s.rx.q < s.classes && s.rx.q !in s.mask && s.rx.q !in s.lost && !Stopped(s, s.rx.q) && s.pulses[s.rx.q] == 0
  {
    assert Kept(s, s.rx.q);
  }

  lemma IsrKeeps(s: State, q: nat)
    requires Inv(s) && Enabled(s, Isr(q))
    ensures Inv(Apply(s, Isr(q)))
  {
    forall r: nat ensures Kept(Apply(s, Isr(q)), r) {
      assert Kept(s, r);
    }
  }

  lemma PulseKeeps(s: State, q: nat)
    requires Inv(s) && Enabled(s, Pulse(q))
    ensures Inv(Apply(s, Pulse(q)))
  {
    forall r: nat ensures Kept(Apply(s, Pulse(q)), r) {
      assert Kept(s, r);
    }
  }

  predicate Inside(step: Step) { step.Lock? || step.Offer? || step.Drained? }

  /** Steps of the receive thread while it services a class. */
  lemma InsideKeeps(s: State, step: Step)
    requires Inv(s) && Enabled(s, step) && Inside(step)
    ensures Inv(Apply(s, step))
  {
    forall r: nat ensures Kept(Apply(s, step), r) {
      assert Kept(s, r);
    }
  }

  lemma DecideKeeps(s: State)
    requires Inv(s) && Enabled(s, Decide)
    ensures Inv(Apply(s, Decide))
  {
    ServicedExists(s);
    forall r: nat ensures Kept(Apply(s, Decide), r) {
      assert Kept(s, r);
    }
  }

  lemma UnmaskKeeps(s: State)
    requires Inv(s) && Enabled(s, Unmask)
    ensures Inv(Apply(s, Unmask))
  {
    ServicedExists(s);
    forall r: nat ensures Kept(Apply(s, Unmask), r) {
      assert Kept(s, r);
    }
  }

  lemma StackKeeps(s: State, step: Step)
    requires Inv(s) && Enabled(s, step) && (step.StackLock? || step.StackTake?)
    ensures Inv(Apply(s, step))
  {
    forall r: nat ensures Kept(Apply(s, step), r) {
      assert Kept(s, r);
    }
  }

  lemma EnableKeeps(s: State)
    requires Inv(s) && Enabled(s, Enable)
    ensures Inv(Apply(s, Enable))
  {
    forall r: nat ensures Kept(Apply(s, Enable), r) {
      assert Kept(s, r);
    }
  }

  lemma ClearKeeps(s: State)
    requires Inv(s) && Enabled(s, Clear)
    ensures Inv(Apply(s, Clear))
  {
    forall r: nat ensures Kept(Apply(s, Clear), r) {
      assert Kept(s, r);
    }
  }

  lemma InterfaceKeeps(s: State, step: Step)
    requires Inv(s) && Enabled(s, step) && (step.Up? || step.Down?)
    ensures Inv(Apply(s, step))
  {
    forall r: nat ensures Kept(Apply(s, step), r) {
      assert Kept(s, r);
    }
  }

  lemma StepKeeps(s: State, step: Step)
    requires Inv(s) && Enabled(s, step)
    ensures Inv(Apply(s, step)) && Apply(s, step).classes == s.classes
  {
    hide Inv;
    match step
    case Isr(q) => IsrKeeps(s, q);
    case Pulse(q) => PulseKeeps(s, q);
    case Decide => DecideKeeps(s);
    case Unmask => UnmaskKeeps(s);
    case StackLock => StackKeeps(s, step);
    case StackTake => StackKeeps(s, step);
    case Enable => EnableKeeps(s);
    case Clear => ClearKeeps(s);
    case Up => InterfaceKeeps(s, step);
    case Down => InterfaceKeeps(s, step);
    case _ => InsideKeeps(s, step);
  }

  // ---------------------------------------------------------------- runs

  /** The interface as it is attached: every interrupt enabled, nothing in progress. */
  ghost predicate Initial(s: State)
  {
    && s.maxlen > 0
    && (forall q: nat {:trigger q in s.mask} :: q in s.mask <==> q < s.classes) && s.pulses == multiset{} && s.full == {}
    && !s.running && s.qlen == 0 && s.mutex == Free && s.rx == Waiting && s.stack == Off && s.lost == {}
  }

  predicate Legal(s: State, steps: seq<Step>)
    decreases |steps|, 0
  {
    steps == [] ||
    (Legal(s, steps[..|steps| - 1]) && Enabled(Run(s, steps[..|steps| - 1]), steps[|steps| - 1]))
  }

  function Run(s: State, steps: seq<Step>): State
    requires Legal(s, steps)
    decreases |steps|, 1
  {
    if steps == [] then s else Apply(Run(s, steps[..|steps| - 1]), steps[|steps| - 1])
  }

  lemma InitialOk(s: State)
    requires Initial(s)
    ensures Inv(s)
  {
    forall q: nat ensures Kept(s, q) {
    }
  }

  lemma {:induction false} RunOk(s: State, steps: seq<Step>)
    requires Initial(s) && Legal(s, steps)
    ensures Inv(Run(s, steps)) && Run(s, steps).classes == s.classes
  {
    hide Initial, Inv, Enabled, Apply;
    if steps == [] {
      InitialOk(s);
    } else {
      RunOk(s, steps[..|steps| - 1]);
      StepKeeps(Run(s, steps[..|steps| - 1]), steps[|steps| - 1]);
    }
  }

  /** The enabling step of the stack thread came upon class `q` marked and the interface down. */
  predicate Loses(s: State, step: Step, q: nat)
  {
    step.Enable? && !s.up && q in s.full
  }

  ghost predicate LostBefore(s: State, steps: seq<Step>, q: nat)
  {
    exists j: nat :: LosesAt(s, steps, q, j)
  }

  ghost predicate LosesAt(s: State, steps: seq<Step>, q: nat, j: nat)
  {
    j < |steps| && Legal(s, steps[..j]) && Loses(Run(s, steps[..j]), steps[j], q)
  }

  lemma LostNext(s: State, steps: seq<Step>, q: nat)
    requires steps != [] && Legal(s, steps)
    ensures var n := |steps| - 1;
            LostBefore(s, steps, q) <==> LostBefore(s, steps[..n], q) || Loses(Run(s, steps[..n]), steps[n], q)
  {
    hide Legal, Run, Loses;
    var n := |steps| - 1;
    var front := steps[..n];
    LegalFront(s, steps);
    if Loses(Run(s, front), steps[n], q) {
      assert LosesAt(s, steps, q, n);
    }
    if j: nat :| LosesAt(s, front, q, j) {
      assert front[..j] == steps[..j];
      assert LosesAt(s, steps, q, j);
    }
    if j: nat :| j < n && LosesAt(s, steps, q, j) {
      assert front[..j] == steps[..j];
      assert LosesAt(s, front, q, j);
    }
  }

  lemma LegalFront(s: State, steps: seq<Step>)
    requires steps != [] && Legal(s, steps)
    ensures Legal(s, steps[..|steps| - 1])
  {
  }

  lemma LostStep(s: State, step: Step, q: nat)
    requires Enabled(s, step)
    ensures q in Apply(s, step).lost <==> q in s.lost || Loses(s, step, q)
  {
  }

  lemma {:induction false} LostIff(s: State, steps: seq<Step>, q: nat)
    requires Initial(s) && Legal(s, steps)
    ensures q in Run(s, steps).lost <==> LostBefore(s, steps, q)
  {
    hide Enabled, Apply, Loses;
    if steps == [] {
    } else {
      LostIff(s, steps[..|steps| - 1], q);
      LostStep(Run(s, steps[..|steps| - 1]), steps[|steps| - 1], q);
      LostNext(s, steps, q);
    }
  }

  /** In every run each class has exactly one keeper (its interrupt is enabled, or its pulse is pending,
      or the receive thread is servicing it, or it is marked for the stack thread) if and only if the
      stack thread never enabled interrupts with the class marked and the interface down; otherwise it
      has none.  Whenever a class is marked, or a packet is queued, the stack thread is on its way. */
  lemma NoLostWakeup(s: State, steps: seq<Step>, q: nat)
    requires Initial(s) && Legal(s, steps) && q < s.classes
    ensures var e := Run(s, steps);
            var keepers := Count(q in e.mask) + e.pulses[q] + Count(Serviced(e, q)) + Count(Stopped(e, q));
            && keepers == (if LostBefore(s, steps, q) then 0 else 1)
            && (e.qlen > 0 || e.full != {} ==> e.running && e.stack != Off)
  {
    hide Initial, Legal, Run, LostBefore;
    RunOk(s, steps);
    LostIff(s, steps, q);
    assert Kept(Run(s, steps), q);
  }

  // ---------------------------------------------------------------- stopped classes come back

  /** The stack thread left to itself, from wherever it is until it is off again. */
  function Drain(s: State): State
    requires Inv(s) && s.mutex != Rx
    decreases s.qlen, match s.stack case Off => 0 case Clearing => 1 case Enabling => 2 case Holding => 3 case Looping => 4
  {
    match s.stack
    case Off => s
    case Looping => StepKeeps(s, StackLock); Drain(Apply(s, StackLock))
    case Holding => StepKeeps(s, StackTake); Drain(Apply(s, StackTake))
    case Enabling => StepKeeps(s, Enable); Drain(Apply(s, Enable))
    case Clearing => StepKeeps(s, Clear); Drain(Apply(s, Clear))
  }

  /** What the stack thread has yet to unmask. */
  function Marked(s: State): set<nat>
  {
    if s.stack == Clearing then {} else s.full
  }

  /** Every class stopped by flow control is unmasked, or lost if the interface is down, by the time the
      stack thread has drained the queue; no mark and no packet is left, and no other class is touched. */
  lemma {:induction false} DrainEnables(s: State)
    requires Inv(s) && s.mutex != Rx
    ensures var e := Drain(s);
            && e.full == {} && e.qlen == 0 && !e.running && e.mutex == Free
            && e.mask == s.mask + (if s.up then Marked(s) else {})
            && e.lost == s.lost + (if s.up then {} else Marked(s))
            && e.pulses == s.pulses && e.rx == s.rx
    decreases s.qlen, match s.stack case Off => 0 case Clearing => 1 case Enabling => 2 case Holding => 3 case Looping => 4
  {
    match s.stack
    case Off =>
    case Looping => StepKeeps(s, StackLock); DrainEnables(Apply(s, StackLock));
    case Holding => StepKeeps(s, StackTake); DrainEnables(Apply(s, StackTake));
    case Enabling => StepKeeps(s, Enable); DrainEnables(Apply(s, Enable));
    case Clearing => StepKeeps(s, Clear); DrainEnables(Apply(s, Clear));
  }

  /** One turn of the stack thread's loop. */
  lemma DrainTurn(s: State)
    requires Inv(s) && s.stack == Looping && s.mutex == Free
    ensures var t := if s.qlen > 0 then s.(qlen := s.qlen - 1) else s.(mutex := Stack, stack := Enabling);
            Inv(t) && t.mutex != Rx && Drain(t) == Drain(s)
  {
    hide Kept;
    StepKeeps(s, StackLock);
    var h := Apply(s, StackLock);
    StepKeeps(h, StackTake);
    assert Drain(s) == Drain(h) == Drain(Apply(h, StackTake));
  }

  // ---------------------------------------------------------------- a class is lost

  /** The enabling step keeps every class's keeper exactly when the interface is up or none is marked. */
  lemma EnableKeepsIff(s: State)
    requires Inv(s) && s.stack == Enabling
    ensures (forall q: nat :: q < s.classes ==> Keepers(Apply(s, Enable), q) == Keepers(s, q)) <==> s.up || s.full == {}
  {
    var t := Apply(s, Enable);
    if s.up || s.full == {} {
      forall q: nat | q < s.classes ensures Keepers(t, q) == Keepers(s, q) {
        assert Kept(s, q);
      }
    } else {
      var q :| q in s.full;
      assert q < s.classes && Kept(s, q);
      assert Keepers(t, q) != Keepers(s, q);
    }
  }

  lemma Take(s: State, steps: seq<Step>, step: Step) returns (more: seq<Step>)
    requires Legal(s, steps) && Enabled(Run(s, steps), step)
    ensures more == steps + [step] && Legal(s, more) && Run(s, more) == Apply(Run(s, steps), step)
  {
    more := steps + [step];
    assert more[..|more| - 1] == steps;
  }

  /** With flow control on, the receive thread enqueues packets until it is stopped. */
  lemma {:induction false} FillUp(s: State, steps: seq<Step>, q: nat) returns (more: seq<Step>)
    requires Legal(s, steps)
    requires var e := Run(s, steps);
             e.rx == Servicing(q) && e.mutex == Free && e.flow && e.stack in {Off, Looping} &&
             (e.running <==> e.stack == Looping) && e.qlen < e.maxlen
    ensures Legal(s, more)
    ensures Run(s, more) == Run(s, steps).(qlen := Run(s, more).qlen, running := true, stack := Looping, rx := Waiting,
                                           full := Run(s, steps).full + {q})
    decreases Run(s, steps).maxlen - Run(s, steps).qlen
  {
    hide Legal, Run;
    more := Take(s, steps, Lock);
    more := Take(s, more, Offer);
    more := Take(s, more, Decide);
    if Run(s, more).rx != Waiting {
      more := FillUp(s, more, q);
    }
  }

  /** The stack thread empties the queue. */
  lemma {:induction false} EmptyOut(s: State, steps: seq<Step>) returns (more: seq<Step>)
    requires Legal(s, steps) && Run(s, steps).stack == Looping && Run(s, steps).mutex == Free
    ensures Legal(s, more)
    ensures Run(s, more) == Run(s, steps).(qlen := 0, mutex := Stack, stack := Enabling)
    decreases Run(s, steps).qlen
  {
    hide Legal, Run;
    more := Take(s, steps, StackLock);
    more := Take(s, more, StackTake);
    if Run(s, more).stack != Enabling {
      more := EmptyOut(s, more);
    }
  }

  /** It happens to every class, with any queue length: the class is stopped by flow control, the interface
      goes down, the stack thread drains the queue; when the interface is up again everybody is idle and
      nobody looks after the class. */
  lemma ClassLost(s: State, q: nat) returns (steps: seq<Step>)
    requires Initial(s) && s.up && s.flow && q < s.classes
    ensures Legal(s, steps) && LostBefore(s, steps, q)
    ensures var e := Run(s, steps);
            e.up && e.rx == Waiting && e.stack == Off && e.mutex == Free && Keepers(e, q) == 0
  {
    hide Legal, Run, LostBefore;
    steps := Started(s);
    steps := Take(s, steps, Isr(q));
    steps := Take(s, steps, Pulse(q));
    steps := FillUp(s, steps, q);
    steps := Take(s, steps, Down);
    steps := EmptyOut(s, steps);
    steps := Take(s, steps, Enable);
    steps := Take(s, steps, Clear);
    steps := Take(s, steps, Up);
    LostIff(s, steps, q);
    RunOk(s, steps);
    assert Kept(Run(s, steps), q);
  }

  lemma Started(s: State) returns (steps: seq<Step>)
    ensures steps == [] && Legal(s, steps) && Run(s, steps) == s
  {
    steps := [];
  }
}
