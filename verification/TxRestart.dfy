/** Who restarts transmission when the ring was full.

mx6q_start sets IFF_OACTIVE, which keeps the stack from calling it, and clears it when the queue is
empty.  If the ring stays full it leaves with the flag set and marks the ring as full; the transmit
interrupt sees the mark and has mx6q_start called again.  The mark is made after the last look at the
ring, and mx6q_start also returns, touching neither, when the link or the interface is down.  Packets,
frames and ring slots are counted; a frame takes one slot. */
module TxRestart {

  /** Where mx6q_start is: not running, in its loop, or on its way out of a full ring before the mark. */
  datatype Where = Out | Loop | Reaped

  /** `owned` frames are with the engine, which works on them if it is `awake`; `finished` ones wait to be
      reaped.  `again` says that mx6q_start was called by mx6q_process_interrupt, which will look at the
      mark once more. */
  datatype State = State(cap: nat, waiting: nat, owned: nat, finished: nat, awake: bool,
                         event: bool, full: bool, pulse: bool, again: bool,
                         at: Where, oactive: bool, up: bool, link: bool)

  datatype Step =
    | Queue      // the stack queues a packet
    | Call       // the stack calls mx6q_start
    | Send       // one packet into the ring
    | Done       // the queue is empty
    | Reap       // no room: reap, and look again
    | Mark       // still no room: mark the ring as full and leave
    | Process    // mx6q_process_interrupt, on the interrupt's behalf or round its loop
    | Direct     // mx6q_output on the same queue
    | Collect    // the reaping done for timestamps and by the monitor
    | Finish     // engine: one frame
    | Isr        // interrupt handler: clear the event, ring if needed, send for the thread if the mark is up
    | LinkUp | LinkDown
    | Up         // mx6q_init
    | Down       // mx6q_stop

  predicate Room(s: State) { s.owned + s.finished < s.cap }

  predicate Enabled(s: State, step: Step)
  {
    match step
    case Call => s.at == Out && !s.oactive
    case Send => s.at == Loop && Room(s) && s.waiting > 0
    case Done => s.at == Loop && Room(s) && s.waiting == 0
    case Reap => s.at == Loop && !Room(s)
    case Mark => s.at == Reaped
    case Process => (s.pulse || s.again) && s.at == Out
    case Direct => s.at == Out
    case Collect => s.at == Out
    case Finish => s.owned > 0 && s.awake && s.up
    case Isr => s.event
    case Up => s.at == Out && !s.up
    case Down => s.at == Out
    case _ => true
  }

  /** Calling mx6q_start. */
  function Start(s: State): State
  {
    if s.up && s.link then s.(at := Loop, oactive := true) else s.(waiting := 0)
  }

  function Reaping(s: State): State { s.(finished := 0) }

  function Apply(s: State, step: Step): State
    requires Enabled(s, step)
  {
    match step
    case Queue => s.(waiting := s.waiting + 1)
    case Call => Start(s)
    case Send => s.(waiting := s.waiting - 1, owned := s.owned + 1, awake := true)
    case Done => s.(at := Out, oactive := false)
    case Reap => Reaping(s).(at := if s.owned < s.cap then Loop else Reaped)
    case Mark => s.(full := true, at := Out)
    case Process =>
      if s.full then Start(s.(pulse := false, full := false, again := true))
      else s.(pulse := false, again := false)
    case Direct =>
      var t := if Room(s) then s else Reaping(s);
      if Room(t) then t.(owned := t.owned + 1, awake := t.awake || t.up) else t
    case Collect => Reaping(s)
    case Finish => s.(owned := s.owned - 1, finished := s.finished + 1, event := true)
    case Isr => s.(event := false, awake := s.awake || s.owned > 0, pulse := s.pulse || s.full)
    case LinkUp => s.(link := true)
    case LinkDown => s.(link := false)
    case Up => s.(up := true)
    case Down => s.(up := false, link := false, oactive := false, owned := 0, finished := 0, awake := false)
  }

  predicate Initial(s: State)
  {
    && s.cap > 0 && s.waiting == s.owned == s.finished == 0 && s.at == Out
    && !s.awake && !s.event && !s.full && !s.pulse && !s.again && !s.oactive
  }

  predicate Legal(s: State, steps: seq<Step>)
    decreases |steps|, 0
  {
    steps == [] ||
    (Legal(s, steps[..|steps| - 1]) && Enabled(Run(s, steps[..|steps| - 1]), steps[|steps| - 1]))
  }

  function Run(s: State, steps: seq<Step>): State
    requires Legal(s, steps)
    decreases |steps|, 1
  {
    if steps == [] then s else Apply(Run(s, steps[..|steps| - 1]), steps[|steps| - 1])
  }

  lemma Extend(s: State, steps: seq<Step>, step: Step) returns (more: seq<Step>)
    requires Legal(s, steps) && Enabled(Run(s, steps), step)
    ensures more == steps + [step] && Legal(s, more) && Run(s, more) == Apply(Run(s, steps), step)
  {
    more := steps + [step];
    assert more[..|more| - 1] == steps;
  }

  // ---------------------------------------------------------------- nobody comes back

  /** Something will bring mx6q_process_interrupt back, or keeps it there. */
  predicate Coming(s: State)
  {
    (s.owned > 0 && s.awake) || s.event || s.pulse || s.again
  }

  /** The queue stands still: the stack may not call, and nobody is coming who would find the mark. */
  predicate Stalled(s: State)
  {
    s.at == Out && s.oactive && !(s.full && Coming(s))
  }

  /** The mark is made with nobody coming. */
  predicate LateMark(s: State, step: Step)
  {
    step == Mark && !Coming(s)
  }

  /** The restart takes the mark down, and mx6q_start returns at once because the link is down. */
  predicate VainRestart(s: State, step: Step)
  {
    step == Process && s.full && s.oactive && !s.link
  }

  /** Stopping the interface revives the queue in any case; a frame sent directly does if the mark is up
      and the frame finds room. */
  predicate Revives(s: State, step: Step)
  {
    step == Down || (step == Direct && s.full && s.owned < s.cap)
  }

  predicate Inside(s: State)
  {
    && (s.at != Out ==> s.oactive)
    && (s.oactive ==> s.up)
  }

  lemma StepInside(s: State, step: Step)
    requires Inside(s) && Enabled(s, step)
    ensures Inside(Apply(s, step))
  {
  }

  lemma {:induction false} RunInside(s: State, steps: seq<Step>)
    requires Initial(s) && Legal(s, steps)
    ensures Inside(Run(s, steps))
  {
    hide Enabled, Apply;
    if steps != [] {
      RunInside(s, steps[..|steps| - 1]);
      StepInside(Run(s, steps[..|steps| - 1]), steps[|steps| - 1]);
    }
  }

  /** A stalled queue stays so until something revives it. */
  lemma StalledUntil(s: State, step: Step)
    requires Inside(s) && Stalled(s) && Enabled(s, step)
    ensures Stalled(Apply(s, step)) <==> !Revives(s, step)
  {
  }

  /** There are two ways into a stall and no other. */
  lemma StallsIff(s: State, step: Step)
    requires Inside(s) && Enabled(s, step)
    ensures Stalled(Apply(s, step)) <==>
            LateMark(s, step) || VainRestart(s, step) || (Stalled(s) && !Revives(s, step))
  {
  }

  /** Step `j` of the run stalls the queue, and nothing has revived it since. */
  ghost predicate StalledSince(s: State, steps: seq<Step>, j: nat)
  {
    && j < |steps| && Legal(s, steps[..j])
    && (LateMark(Run(s, steps[..j]), steps[j]) || VainRestart(Run(s, steps[..j]), steps[j]))
    && (forall i: nat :: j < i < |steps| && Legal(s, steps[..i]) ==> !Revives(Run(s, steps[..i]), steps[i]))
  }

  ghost predicate LeftStalled(s: State, steps: seq<Step>)
  {
    exists j: nat :: StalledSince(s, steps, j)
  }

  lemma LegalFront(s: State, steps: seq<Step>)
    requires Legal(s, steps) && steps != []
    ensures Legal(s, steps[..|steps| - 1])
  {
  }

  lemma LeftStalledNext(s: State, steps: seq<Step>)
    requires steps != [] && Legal(s, steps)
    ensures var n := |steps| - 1; var p := Run(s, steps[..n]);
            LeftStalled(s, steps) <==>
            LateMark(p, steps[n]) || VainRestart(p, steps[n]) || (LeftStalled(s, steps[..n]) && !Revives(p, steps[n]))
  {
    hide Legal, Run, LateMark, VainRestart, Revives;
    var n := |steps| - 1;
    var front := steps[..n];
    LegalFront(s, steps);
    if LateMark(Run(s, front), steps[n]) || VainRestart(Run(s, front), steps[n]) {
      assert StalledSince(s, steps, n);
    } else if j: nat :| StalledSince(s, front, j) && !Revives(Run(s, front), steps[n]) {
      SinceLonger(s, steps, j);
    } else if j: nat :| StalledSince(s, steps, j) {
      SinceShorter(s, steps, j);
    }
  }

  lemma SinceLonger(s: State, steps: seq<Step>, j: nat)
    requires steps != [] && Legal(s, steps) && StalledSince(s, steps[..|steps| - 1], j)
    requires !Revives(Run(s, steps[..|steps| - 1]), steps[|steps| - 1])
    ensures StalledSince(s, steps, j)
  {
    hide Legal, Run, LateMark, VainRestart, Revives;
    var n := |steps| - 1;
    var front := steps[..n];
    assert front[..j] == steps[..j];
    forall i: nat | j < i < |steps| && Legal(s, steps[..i]) ensures !Revives(Run(s, steps[..i]), steps[i]) {
      if i < n {
        assert front[..i] == steps[..i];
      }
    }
  }

  lemma SinceShorter(s: State, steps: seq<Step>, j: nat)
    requires steps != [] && Legal(s, steps) && StalledSince(s, steps, j) && j < |steps| - 1
    ensures StalledSince(s, steps[..|steps| - 1], j) && !Revives(Run(s, steps[..|steps| - 1]), steps[|steps| - 1])
  {
    hide Legal, Run, LateMark, VainRestart, Revives;
    var n := |steps| - 1;
    var front := steps[..n];
    LegalFront(s, steps);
    assert front[..j] == steps[..j];
    forall i: nat | j < i < n && Legal(s, front[..i]) ensures !Revives(Run(s, front[..i]), front[i]) {
      assert front[..i] == steps[..i];
    }
  }

  /** In every run the queue stands still exactly when the ring was marked as full with nobody coming, or a
      restart found the link down; and since then the interface has not been stopped nor, after a late
      mark, a frame sent directly. */
  lemma {:induction false} StalledIff(s: State, steps: seq<Step>)
    requires Initial(s) && Legal(s, steps)
    ensures Stalled(Run(s, steps)) <==> LeftStalled(s, steps)
  {
    hide Enabled, Apply, LeftStalled, Stalled, LateMark, VainRestart, Revives;
    if steps == [] {
      NotYet(s);
    } else {
      var front := steps[..|steps| - 1];
      StalledIff(s, front);
      RunInside(s, front);
      StallsIff(Run(s, front), steps[|steps| - 1]);
      LeftStalledNext(s, steps);
    }
  }

  lemma NotYet(s: State)
    requires Initial(s)
    ensures !LeftStalled(s, []) && !Stalled(s)
  {
  }

  // ---------------------------------------------------------------- it happens

  lemma {:induction false} QueueMany(s: State, steps: seq<Step>, k: nat) returns (more: seq<Step>)
    requires Legal(s, steps)
    ensures Legal(s, more) && Run(s, more) == Run(s, steps).(waiting := Run(s, steps).waiting + k)
    decreases k
  {
    hide Legal, Run;
    if k == 0 {
      more := steps;
    } else {
      more := Extend(s, steps, Queue);
      more := QueueMany(s, more, k - 1);
    }
  }

  lemma {:induction false} SendMany(s: State, steps: seq<Step>, k: nat) returns (more: seq<Step>)
    requires Legal(s, steps) && Run(s, steps).at == Loop
    requires Run(s, steps).owned + Run(s, steps).finished + k <= Run(s, steps).cap && k <= Run(s, steps).waiting
    ensures Legal(s, more)
    ensures Run(s, more) == Run(s, steps).(waiting := Run(s, steps).waiting - k, owned := Run(s, steps).owned + k,
                                           awake := Run(s, steps).awake || k > 0)
    decreases k
  {
    hide Legal, Run;
    if k == 0 {
      more := steps;
    } else {
      more := Extend(s, steps, Send);
      more := SendMany(s, more, k - 1);
    }
  }

  lemma {:induction false} FinishAll(s: State, steps: seq<Step>, k: nat) returns (more: seq<Step>)
    requires Legal(s, steps) && Run(s, steps).owned == k > 0 && Run(s, steps).awake && Run(s, steps).up
    ensures Legal(s, more)
    ensures Run(s, more) == Run(s, steps).(owned := 0, finished := Run(s, steps).finished + k, event := true)
    decreases k
  {
    hide Legal, Run;
    more := Extend(s, steps, Finish);
    if k > 1 {
      more := FinishAll(s, more, k - 1);
    }
  }

  /** The ring is filled, with one packet more in the queue, and mx6q_start is about to mark it. */
  lemma Fill(s: State) returns (steps: seq<Step>)
    requires Initial(s) && s.up && s.link
    ensures Legal(s, steps)
    ensures Run(s, steps) == s.(waiting := 1, owned := s.cap, awake := true, at := Reaped, oactive := true)
  {
    hide Legal, Run;
    steps := Started(s);
    steps := QueueMany(s, steps, s.cap + 1);
    steps := Extend(s, steps, Call);
    steps := SendMany(s, steps, s.cap);
    steps := Extend(s, steps, Reap);
  }

  /** For every ring size: between the last look at the ring and the mark the engine finishes everything
      and the interrupt is handled.  A packet is left in the queue. */
  lemma QueueStalls(s: State) returns (steps: seq<Step>)
    requires Initial(s) && s.up && s.link
    ensures Legal(s, steps)
    ensures var e := Run(s, steps); Stalled(e) && e.waiting == 1 && e.full && e.up && e.link && e.owned == 0
  {
    hide Legal, Run;
    steps := Fill(s);
    steps := FinishAll(s, steps, s.cap);
    steps := Extend(s, steps, Isr);
    steps := Extend(s, steps, Mark);
  }

  /** For every ring size: the mark is in time, but the link is down when the interrupt has mx6q_start
      called.  With the link up again packets wait in the queue, and the mark is gone. */
  lemma LinkStalls(s: State) returns (steps: seq<Step>)
    requires Initial(s) && s.up && s.link
    ensures Legal(s, steps)
    ensures var e := Run(s, steps); Stalled(e) && e.waiting == 1 && !e.full && e.up && e.link && e.owned == 0
  {
    hide Legal, Run;
    steps := Fill(s);
    steps := Extend(s, steps, Mark);
    steps := Extend(s, steps, LinkDown);
    steps := FinishAll(s, steps, s.cap);
    steps := Extend(s, steps, Isr);
    steps := Extend(s, steps, Process);
    steps := Extend(s, steps, LinkUp);
    steps := Extend(s, steps, Queue);
  }

  lemma {:induction false} DirectMany(s: State, steps: seq<Step>, k: nat) returns (more: seq<Step>)
    requires Legal(s, steps) && Run(s, steps).at == Out && !Run(s, steps).up
    requires Run(s, steps).owned + Run(s, steps).finished + k <= Run(s, steps).cap
    ensures Legal(s, more) && Run(s, more) == Run(s, steps).(owned := Run(s, steps).owned + k)
    decreases k
  {
    hide Legal, Run;
    if k == 0 {
      more := steps;
    } else {
      more := Extend(s, steps, Direct);
      more := DirectMany(s, more, k - 1);
    }
  }

  /** For every ring size: the ring is filled with frames sent directly while the interface is down, which
      are not kicked.  Once it is up, the first mark comes with nobody coming, and direct sends find no
      room. */
  lemma UnkickedStalls(s: State) returns (steps: seq<Step>)
    requires Initial(s) && !s.up
    ensures Legal(s, steps)
    ensures var e := Run(s, steps);
            Stalled(e) && e.waiting == 1 && e.full && e.up && e.link && e.owned == e.cap && !Revives(e, Direct)
  {
    hide Legal, Run;
    steps := Started(s);
    steps := DirectMany(s, steps, s.cap);
    steps := Extend(s, steps, Up);
    steps := Extend(s, steps, LinkUp);
    steps := Extend(s, steps, Queue);
    steps := Extend(s, steps, Call);
    steps := Extend(s, steps, Reap);
    steps := Extend(s, steps, Mark);
  }

  lemma Started(s: State) returns (steps: seq<Step>)
    ensures steps == [] && Legal(s, steps) && Run(s, steps) == s
  {
    steps := [];
  }
}
