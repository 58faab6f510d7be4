/** Transmission through a CAN mailbox.

A thread hands over a frame by queueing an element and calling the driver; if no transmission is in
progress the driver starts one.  From then on the interrupt handler keeps the mailbox busy until the
queue is empty.  The thread's steps are single accesses, between which the handler may run; the
handler itself runs as one step. */
module CanTransmit {
  import opened Packets
  import CanReceive

  datatype Item<T> = Item(id: nat, frame: T)

  /** Where the thread is in can_drvr_transmit; it may hold an element. */
  datatype Pc<T> = Idle | Called | Clear | Holding(item: Item<T>) | Marked(item: Item<T>) | Copied(id: nat)

  /** `enabled` is the flag that a transmission is in progress, `mailbox` the frame that the controller
      is sending.  `written` and `sent` record what threads queued and what went into the mailbox. */
  datatype State<T> = State(
    free: seq<nat>,
    queue: seq<Item<T>>,
    enabled: bool,
    mailbox: Option<T>,
    pc: Pc<T>,
    written: seq<T>,
    sent: seq<T>)

  datatype Step<T> = Write(frame: T) | Call | Test | Dequeue | Mark | Copy | Requeue | Interrupt

  predicate Enabled<T>(s: State<T>, step: Step<T>)
  {
    match step
    case Write(_) => s.pc.Idle? && s.free != []
    case Call => s.pc.Idle?
    case Test => s.pc.Called?
    case Dequeue => s.pc.Clear?
    case Mark => s.pc.Holding?
    case Copy => s.pc.Marked?
    case Requeue => s.pc.Copied?
    case Interrupt => s.mailbox.Some?
  }

  /** The handler's last act when it has found the queue empty. */
  function GiveUp<T>(s: State<T>): State<T>
  {
    s.(mailbox := None, enabled := false)
  }

  function Apply<T>(s: State<T>, step: Step<T>): State<T>
    requires Enabled(s, step)
  {
    match step
    case Write(m) =>
      s.(free := s.free[1..], queue := s.queue + [Item(s.free[0], m)], written := s.written + [m], pc := Called)
    case Call => s.(pc := Called)
    case Test => s.(pc := if s.enabled then Idle else Clear)
    case Dequeue => if s.queue == [] then s.(pc := Idle) else s.(queue := s.queue[1..], pc := Holding(s.queue[0]))
    case Mark => s.(enabled := true, pc := Marked(s.pc.item))
    case Copy =>
      s.(mailbox := Some(s.pc.item.frame), sent := s.sent + [s.pc.item.frame], pc := Copied(s.pc.item.id))
    case Requeue => s.(free := s.free + [s.pc.id], pc := Idle)
    case Interrupt =>
      if s.queue == [] then GiveUp(s)
      else
        s.(mailbox := Some(s.queue[0].frame), sent := s.sent + [s.queue[0].frame],
           free := s.free + [s.queue[0].id], queue := s.queue[1..])
  }

  // ---------------------------------------------------------------- the invariant

  function Ids<T>(q: seq<Item<T>>): (s: seq<nat>)
    ensures |s| == |q|
  {
    seq(|q|, (k: nat) requires k < |q| => q[k].id)
  }

  function Frames<T>(q: seq<Item<T>>): (s: seq<T>)
    ensures |s| == |q|
  {
    seq(|q|, (k: nat) requires k < |q| => q[k].frame)
  }

  /** The element the thread holds, and the frame in it if that is not in the mailbox yet. */
  function HeldIds<T>(pc: Pc<T>): seq<nat>
  {
    match pc
    case Holding(item) => [item.id]
    case Marked(item) => [item.id]
    case Copied(id) => [id]
    case _ => []
  }

  function HeldFrames<T>(pc: Pc<T>): seq<T>
  {
    match pc
    case Holding(item) => [item.frame]
    case Marked(item) => [item.frame]
    case _ => []
  }

  /** The flag is up exactly while a frame is in the mailbox, or about to be put there. */
  predicate FlagOk<T>(s: State<T>)
  {
    && (s.enabled <==> s.mailbox.Some? || s.pc.Marked?)
    && (s.pc.Clear? || s.pc.Holding? ==> !s.enabled)
    && (s.pc.Marked? ==> s.mailbox.None?)
  }

  /** Once the thread is done with its call, frames wait only behind one in flight. */
  predicate Moving<T>(s: State<T>)
  {
    (s.pc.Idle? || s.pc.Copied?) && s.queue != [] ==> s.mailbox.Some?
  }

  /** Frames go into the mailbox in the order in which they were queued, none twice and none lost. */
  predicate InOrder<T(==)>(s: State<T>)
  {
    s.written == s.sent + HeldFrames(s.pc) + Frames(s.queue)
  }

  ghost predicate Inv<T>(s: State<T>, n: nat)
  {
    && FlagOk(s) && Moving(s) && InOrder(s)
    && CanReceive.Conserved(s.free, Ids(s.queue), HeldIds(s.pc), n)
  }

  function Fresh<T>(n: nat): State<T>
  {
    State(CanReceive.All(n), [], false, None, Idle, [], [])
  }

  lemma FreshOk<T>(n: nat)
    ensures Inv(Fresh<T>(n), n)
  {
  }

  lemma HeadAndTail<T>(q: seq<Item<T>>)
    requires q != []
    ensures Ids(q) == [q[0].id] + Ids(q[1..])
    ensures Frames(q) == [q[0].frame] + Frames(q[1..])
  {
  }

  lemma WriteKeeps<T>(s: State<T>, m: T, n: nat)
    requires Inv(s, n) && Enabled(s, Write(m))
    ensures Inv(Apply(s, Write(m)), n)
  {
    var item := Item(s.free[0], m);
    assert s.free == [s.free[0]] + s.free[1..];
    assert Ids(s.queue + [item]) == Ids(s.queue) + [item.id];
    assert Frames(s.queue + [item]) == Frames(s.queue) + [m];
  }

  lemma DequeueKeeps<T>(s: State<T>, n: nat)
    requires Inv(s, n) && s.pc.Clear?
    ensures Inv(Apply(s, Dequeue), n)
  {
    if s.queue != [] {
      HeadAndTail(s.queue);
    }
  }

  lemma InterruptKeeps<T>(s: State<T>, n: nat)
    requires Inv(s, n) && s.mailbox.Some?
    ensures Inv(Apply(s, Interrupt), n)
  {
    if s.queue != [] {
      HeadAndTail(s.queue);
    }
  }

  lemma CopyKeeps<T>(s: State<T>, n: nat)
    requires Inv(s, n) && s.pc.Marked?
    ensures Inv(Apply(s, Copy), n)
  {
    hide CanReceive.Conserved;
    assert s.sent + [s.pc.item.frame] + [] == s.sent + [s.pc.item.frame];
  }

  lemma RequeueKeeps<T>(s: State<T>, n: nat)
    requires Inv(s, n) && s.pc.Copied?
    ensures Inv(Apply(s, Requeue), n)
  {
  }

  lemma FlagKeeps<T>(s: State<T>, step: Step<T>, n: nat)
    requires Inv(s, n) && Enabled(s, step) && (step.Call? || step.Test? || step.Mark?)
    ensures Inv(Apply(s, step), n)
  {
    hide CanReceive.Conserved;
  }

  lemma StepKeeps<T>(s: State<T>, step: Step<T>, n: nat)
    requires Inv(s, n) && Enabled(s, step)
    ensures Inv(Apply(s, step), n)
  {
    hide Inv, Apply;
    match step
    case Write(m) => WriteKeeps(s, m, n);
    case Dequeue => DequeueKeeps(s, n);
    case Copy => CopyKeeps(s, n);
    case Requeue => RequeueKeeps(s, n);
    case Interrupt => InterruptKeeps(s, n);
    case _ => FlagKeeps(s, step, n);
  }

  // ---------------------------------------------------------------- runs

  ghost predicate Legal<T>(s: State<T>, steps: seq<Step<T>>)
    decreases |steps|
  {
    steps != [] ==> Enabled(s, steps[0]) && Legal(Apply(s, steps[0]), steps[1..])
  }

  ghost function Run<T>(s: State<T>, steps: seq<Step<T>>): State<T>
    requires Legal(s, steps)
    decreases |steps|
  {
    if steps == [] then s else Run(Apply(s, steps[0]), steps[1..])
  }

  /** The invariant holds after every run, whenever the handler interrupts the thread. */
  lemma {:induction false} RunOk<T>(s: State<T>, steps: seq<Step<T>>, n: nat)
    requires Inv(s, n) && Legal(s, steps)
    ensures Inv(Run(s, steps), n)
    decreases |steps|
  {
    hide Inv, Apply, Enabled;
    if steps != [] {
      StepKeeps(s, steps[0], n);
      RunOk(Apply(s, steps[0]), steps[1..], n);
    }
  }

  /** What that means between calls: the flag tells whether a frame is in flight, waiting frames are
      behind one in flight, and each frame queued is in the mailbox's log or still queued, in order. */
  lemma BetweenCalls<T>(steps: seq<Step<T>>, n: nat)
    requires Legal(Fresh<T>(n), steps) && Run(Fresh(n), steps).pc.Idle?
    ensures var s := Run(Fresh<T>(n), steps);
            && (s.enabled <==> s.mailbox.Some?)
            && (s.queue != [] ==> s.mailbox.Some?)
            && s.written == s.sent + Frames(s.queue)
            && |s.free| + |s.queue| == n
  {
    FreshOk<T>(n);
    RunOk(Fresh(n), steps, n);
    hide Run, Legal, Fresh;
    var s := Run(Fresh(n), steps);
    CanReceive.Counted(s.free, Ids(s.queue), HeldIds(s.pc), n);
  }

  /** A frame is never put into a mailbox that still holds one. */
  lemma NeverOverwritten<T>(steps: seq<Step<T>>, n: nat)
    requires Legal(Fresh<T>(n), steps) && Enabled(Run(Fresh(n), steps), Copy)
    ensures Run(Fresh<T>(n), steps).mailbox == None
  {
    FreshOk<T>(n);
    RunOk(Fresh(n), steps, n);
  }

  // ---------------------------------------------------------------- progress

  /** The controller finishes `k` frames while no thread interferes. */
  function Finish<T>(s: State<T>, k: nat): State<T>
    decreases k
  {
    if k == 0 || s.mailbox.None? then s else Finish(Apply(s, Interrupt), k - 1)
  }

  /** Every queued frame goes out, one per interrupt, and then the transmitter is as new. */
  lemma {:induction false} Drains<T>(s: State<T>, n: nat)
    requires Inv(s, n) && s.pc.Idle? && s.mailbox.Some?
    ensures var t := Finish(s, |s.queue| + 1);
            && t.queue == [] && t.mailbox == None && !t.enabled
            && t.sent == t.written == s.written
            && multiset(t.free) == multiset(CanReceive.All(n))
    decreases |s.queue|
  {
    var next := Apply(s, Interrupt);
    InterruptKeeps(s, n);
    if s.queue == [] {
      assert Finish(s, 1) == Finish(next, 0);
    } else {
      Drains(next, n);
    }
  }

  // ---------------------------------------------------------------- when the handler is not one step

  /** If a thread could get in between the handler's finding the queue empty and its clearing the flag,
      its frame would be stranded: the call returns because the flag is still up, and then nothing is in
      flight to wake the queue. */
  lemma InterleavedHandlerStrands<T>(s: State<T>, m: T, n: nat)
    requires Inv(s, n) && s.pc.Idle? && s.mailbox.Some? && s.queue == [] && s.free != []
    ensures var t := GiveUp(Apply(Apply(s, Write(m)), Test));
            t.pc.Idle? && t.queue != [] && t.mailbox.None? && !Moving(t)
  {
    WriteKeeps(s, m, n);
  }

  // ---------------------------------------------------------------- the driver

  class Transmitter<T> {
    const size: nat
    var free: seq<nat>
    var queue: seq<Item<T>>
    var enabled: bool
    var mailbox: Option<T>
    ghost var pc: Pc<T>
    ghost var written: seq<T>
    ghost var sent: seq<T>

    ghost function View(): State<T>
      reads this
    {
      State(free, queue, enabled, mailbox, pc, written, sent)
    }

    ghost predicate Valid()
      reads this
    {
      Inv(View(), size)
    }

    constructor (size: nat)
      ensures Valid() && this.size == size && View() == Fresh(size)
    {
      this.size := size;
      free, queue, enabled, mailbox := CanReceive.All(size), [], false, None;
      pc, written, sent := Idle, [], [];
      new;
      FreshOk<T>(size);
    }

    /** The transmit part of can_intr. */
    method Interrupt()
      requires Valid() && mailbox.Some?
      modifies `free, `queue, `enabled, `mailbox, `sent
      ensures Valid() && View() == Apply(old(View()), Step.Interrupt)
    {
      hide Inv;
      InterruptKeeps(View(), size);
      ghost var after := Apply(View(), Step.Interrupt);
      if queue != [] {
        var item := queue[0];
        queue := queue[1..];
        mailbox := Some(item.frame);
        sent := sent + [item.frame];
        free := free + [item.id];
      } else {
        mailbox := None;
        enabled := false;
      }
      assert View() == after;
    }

    /** The controller may have finished any number of frames by now. */
    method Turn()
      requires Valid()
      modifies `free, `queue, `enabled, `mailbox, `sent
      ensures Valid() && pc == old(pc) && written == old(written)
    {
      hide Inv, Apply;
      var turns: nat := *;
      while turns > 0 && mailbox.Some?
        invariant Valid() && pc == old(pc) && written == old(written)
      {
        Interrupt();
        turns := turns - 1;
      }
    }

    /** A client queues a frame. */
    method Queue(frame: T) returns (ok: bool)
      requires Valid() && pc.Idle?
      modifies this
      ensures Valid() && (ok <==> old(free) != [])
      ensures ok ==> View() == Apply(old(View()), Write(frame))
      ensures !ok ==> View() == old(View())
    {
      ok := free != [];
      if ok {
        WriteKeeps(View(), frame, size);
        queue := queue + [Item(free[0], frame)];
        free := free[1..];
        written := written + [frame];
        pc := Called;
      }
    }

    /** can_drvr_transmit.  Between its steps the controller may finish frames, as many as there are. */
    method Transmit()
      requires Valid() && pc.Called?
      modifies this
      ensures Valid() && pc.Idle? && written == old(written)
      ensures queue != [] ==> mailbox.Some?
    {
      var busy := TestFlag();
      if !busy {
        Turn();
        var next := TakeFrame();
        if next.Some? {
          Turn();
          MarkBusy();
          Turn();
          CopyFrame(next.value);
          Turn();
          ReturnElement(next.value.id);
        }
      }
    }

    method TestFlag() returns (busy: bool)
      requires Valid() && pc.Called?
      modifies this`pc
      ensures Valid() && pc == if busy then Idle else Clear
    {
      StepKeeps(View(), Test, size);
      busy := enabled;
      pc := if busy then Idle else Clear;
    }

    method TakeFrame() returns (next: Option<Item<T>>)
      requires Valid() && pc.Clear?
      modifies this`pc, this`queue
      ensures Valid() && pc == if next.Some? then Holding(next.value) else Idle
    {
      DequeueKeeps(View(), size);
      if queue == [] {
        next, pc := None, Idle;
      } else {
        next := Some(queue[0]);
        pc := Holding(queue[0]);
        queue := queue[1..];
      }
    }

    method MarkBusy()
      requires Valid() && pc.Holding?
      modifies this`pc, this`enabled
      ensures Valid() && pc == Marked(old(pc).item)
    {
      StepKeeps(View(), Mark, size);
      enabled := true;
      pc := Marked(pc.item);
    }

    method CopyFrame(item: Item<T>)
      requires Valid() && pc == Marked(item)
      modifies this`pc, this`mailbox, this`sent
      ensures Valid() && pc == Copied(item.id) && sent == old(sent) + [item.frame]
    {
      StepKeeps(View(), Copy, size);
      mailbox := Some(item.frame);
      sent := sent + [item.frame];
      pc := Copied(item.id);
    }

    method ReturnElement(id: nat)
      requires Valid() && pc == Copied(id)
      modifies this`pc, this`free
      ensures Valid() && pc.Idle?
    {
      StepKeeps(View(), Requeue, size);
      free := free + [id];
      pc := Idle;
    }
  }
}
