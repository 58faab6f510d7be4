/** The handlers that mask, drain and unmask, as they update the driver's state in place. */
module RxControl {
  import opened Packets
  import opened RxWakeup

  class Control<T(0)> {
    const classes: nat       // 3 with the AVB queues, else 1
    const maxlen: nat
    const flow: bool
    var up: bool
    var mask: set<nat>
    var full: set<nat>
    var running: bool
    var queue: seq<T>
    var delivered: seq<T>
    var mutex: Owner

    var pulses: multiset<nat>
    var rx: RxThread
    ghost var lost: set<nat>
    ghost var offered: seq<T>    // what the receive thread has enqueued
    var budget: nat              // how many more steps others take during calls
    ghost var stack: StackThread

    ghost function View(): State
      reads this
    {
      State(classes, maxlen, flow, up, mask, pulses, full, running, |queue|, mutex, rx, stack, lost)
    }

    /** The receive part of mx6q_isr: the first enabled class with an event, looking at the AVB
        classes first, is masked and its pulse sent. */
    method Interrupt(events: set<nat>) returns (pulse: Option<nat>)
      requires Inv(View())
      modifies `mask, `pulses
      ensures Inv(View())
      ensures pulse.Some? ==>
                && Enabled(old(View()), Isr(pulse.value)) && View() == Apply(old(View()), Isr(pulse.value))
                && pulse.value in events
                && (pulse.value != 1 ==> 1 !in events * old(mask))
                && (pulse.value == 0 ==> 2 !in events * old(mask))
      ensures pulse == None ==> View() == old(View()) && events * mask * {0, 1, 2} == {}
    {
      ghost var v := View();
      var q := if 1 in mask && 1 in events then 1 else if 2 in mask && 2 in events then 2 else 0;
      if q in mask && q in events {
        mask := mask - {q};
        pulses := pulses + multiset{q};
        StepKeeps(v, Isr(q));
        pulse := Some(q);
      } else {
        pulse := None;
      }
    }

    // -------------------------------------------------------------- the receive thread

    /** The thread takes a pulse. */
    method TakePulse(q: nat)
      requires Inv(View()) && Enabled(View(), Pulse(q))
      modifies `pulses, `rx
      ensures Inv(View()) && View() == Apply(old(View()), Pulse(q))
    {
      hide Inv;
      StepKeeps(View(), Pulse(q));
      pulses := pulses - multiset{q};
      rx := Servicing(q);
    }

    /** Lock, Offer and Decide. */
    ghost predicate Hands(v: State, w: State)
    {
      && Enabled(v, Lock)
      && Enabled(Apply(v, Lock), Offer)
      && Enabled(Apply(Apply(v, Lock), Offer), Decide)
      && w == Apply(Apply(Apply(v, Lock), Offer), Decide)
    }

    lemma HandsKeep(v: State)
      requires Inv(v) && Enabled(v, Lock)
      ensures var a := Apply(v, Lock); Enabled(a, Offer)
      ensures var b := Apply(Apply(v, Lock), Offer); Enabled(b, Decide) && Inv(Apply(b, Decide))
    {
      hide Inv;
      StepKeeps(v, Lock);
      StepKeeps(Apply(v, Lock), Offer);
      StepKeeps(Apply(Apply(v, Lock), Offer), Decide);
    }

    /** The part of mx6q_receive under the mutex, for a packet of class `q`: enqueue it and wake the stack
        thread, unless the queue is full; stop if flow control is on and the queue is nearly full. */
    method OfferPacket(q: nat, m: T) returns (stop: bool)
      requires Inv(View()) && rx == Servicing(q) && mutex == Free
      modifies `queue, `offered, `running, `stack, `full, `rx
      ensures Inv(View()) && Hands(old(View()), View())
      ensures queue == (if |old(queue)| < maxlen then old(queue) + [m] else old(queue))
      ensures offered == (if |old(queue)| < maxlen then old(offered) + [m] else old(offered))
      ensures stop <==> flow && |queue| >= maxlen - 1
      ensures stop ==> q in full && rx == Waiting
      ensures old(stack) != Off ==> stack == old(stack)
    {
      hide Inv;
      ghost var v := View();
      HandsKeep(v);
      AwakeThread(v);
      if |queue| < maxlen {
        queue, offered := queue + [m], offered + [m];
        if !running {
          running := true;
          stack := Looping;
        }
      }
      stop := flow && |queue| >= maxlen - 1;
      if stop {
        full := full + {q};
        rx := Waiting;
      }
      assert Hands(v, View());
    }

    lemma AwakeThread(v: State)
      requires Inv(v)
      ensures v.running <==> v.stack != Off
    {
    }

    /** The ring is empty: the class is unmasked again. */
    method ServiceDone(q: nat)
      requires Inv(View()) && rx == Servicing(q)
      modifies `mask, `rx
      ensures Inv(View()) && View() == Apply(Apply(old(View()), Drained), Unmask)
    {
      hide Inv;
      ghost var v := View();
      StepKeeps(v, Drained);
      StepKeeps(Apply(v, Drained), Unmask);
      mask := mask + {q};
      rx := Waiting;
    }

    /** One step of the others while the stack thread does not hold the mutex. */
    method OtherStep()
      requires Inv(View()) && mutex == Free && budget > 0
      modifies `mask, `pulses, `rx, `queue, `offered, `running, `stack, `full, `budget
      ensures Inv(View()) && budget == old(budget) - 1 && |queue| <= |old(queue)| + 1
      ensures old(offered) <= offered && queue == old(queue) + offered[|old(offered)|..]
      ensures old(stack) != Off ==> stack == old(stack)
    {
      hide Inv, Hands;
      budget := budget - 1;
      var q: nat := *;
      var choice: nat := *;
      if choice == 0 {
        var pulse := Interrupt({q});
      } else if choice == 1 && rx == Waiting && q in pulses {
        TakePulse(q);
      } else if choice == 2 && rx == Servicing(q) {
        var m: T := *;
        var stop := OfferPacket(q, m);
      } else if choice == 3 && rx == Servicing(q) {
        ServiceDone(q);
      }
    }

    /** Any number of them. */
    method Others()
      requires Inv(View()) && mutex == Free
      modifies `mask, `pulses, `rx, `queue, `offered, `running, `stack, `full, `budget
      ensures Inv(View()) && 2 * budget + |queue| <= 2 * old(budget) + |old(queue)| && budget <= old(budget)
      ensures old(offered) <= offered && queue == old(queue) + offered[|old(offered)|..]
      ensures old(stack) != Off ==> stack == old(stack)
      ensures old(budget) == 0 ==> View() == old(View())
    {
      hide Inv;
      var turns: nat := *;
      while turns > 0 && budget > 0
        invariant Inv(View()) && 2 * budget + |queue| <= 2 * old(budget) + |old(queue)| && budget <= old(budget)
        invariant old(offered) <= offered && queue == old(queue) + offered[|old(offered)|..]
        invariant old(stack) != Off ==> stack == old(stack)
        invariant old(budget) == 0 ==> View() == old(View())
      {
        OtherStep();
        turns := turns - 1;
      }
    }

    // -------------------------------------------------------------- the stack thread

    /** mx6q_process_queue: hand queued packets to the stack until the queue is found empty, and
        keep the mutex then.  The others run whenever the mutex is free, and the packets they enqueue are
        handed over as well. */
    method ProcessQueue()
      requires Inv(View()) && stack == Looping && mutex == Free
      modifies `queue, `delivered, `mutex, `stack, `mask, `pulses, `rx, `offered, `running, `full, `budget
      ensures Inv(View()) && stack == Enabling && mutex == Stack && queue == []
      ensures old(offered) <= offered
      ensures delivered == old(delivered) + old(queue) + offered[|old(offered)|..]
      ensures old(budget) == 0 ==> offered == old(offered) && Drain(View()) == Drain(old(View()))
    {
      hide Inv, Drain;
      while true
        invariant Inv(View()) && stack == Looping && mutex == Free && budget <= old(budget)
        invariant old(offered) <= offered
        invariant delivered + queue == old(delivered) + old(queue) + offered[|old(offered)|..]
        invariant old(budget) == 0 ==> offered == old(offered) && Drain(View()) == Drain(old(View()))
        decreases 2 * budget + |queue|
      {
        ghost var before, waiting := offered, queue;
        Others();
        assert offered[|old(offered)|..] == before[|old(offered)|..] + offered[|before|..];
        assert delivered + queue == (delivered + waiting) + offered[|before|..];
        var more := TakePacket();
        if !more {
          assert delivered + queue == delivered;
          break;
        }
      }
    }

    /** One turn: lock, and take a packet and unlock, or find the queue empty. */
    method TakePacket() returns (more: bool)
      requires Inv(View()) && stack == Looping && mutex == Free
      modifies `queue, `delivered, `mutex, `stack
      ensures Inv(View()) && Drain(View()) == Drain(old(View()))
      ensures delivered + queue == old(delivered + queue)
      ensures more ==> stack == Looping && mutex == Free && |queue| == |old(queue)| - 1
      ensures !more ==> stack == Enabling && mutex == Stack && queue == []
    {
      hide Inv, Drain;
      DrainTurn(View());
      mutex, stack := Stack, Holding;
      more := queue != [];
      if more {
        var m := queue[0];
        queue := queue[1..];
        mutex, stack := Free, Looping;
        delivered := delivered + [m];
      } else {
        stack := Enabling;
      }
    }

    /** mx6q_enable_queue: unmask what flow control stopped, clear the flags and release the mutex.  If
        the interface is down the flags are cleared without unmasking. */
    method EnableQueue()
      requires Inv(View()) && stack == Enabling && mutex == Stack
      modifies `mask, `full, `running, `mutex, `stack, `lost
      ensures Inv(View()) && View() == Drain(old(View()))
      ensures mask == old(mask) + (if up then old(full) else {})
      ensures full == {} && !running && mutex == Free && stack == Off
    {
      hide Inv, Drain;
      ghost var v := View();
      EnableThenClear(v);
      if up {
        mask := mask + full;
      } else {
        lost := lost + full;
      }
      full := {};
      running := false;
      mutex, stack := Free, Off;
    }

    lemma EnableThenClear(v: State)
      requires Inv(v) && v.stack == Enabling && v.mutex == Stack
      ensures var w := Apply(v, Enable);
              Enabled(w, Clear) && Inv(Apply(w, Clear)) && Drain(v) == Apply(w, Clear)
    {
      StepKeeps(v, Enable);
      var w := Apply(v, Enable);
      StepKeeps(w, Clear);
      assert Drain(v) == Drain(w) == Drain(Apply(w, Clear));
    }
  }
}
