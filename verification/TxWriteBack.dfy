/** What the engine has written back in a run, and that a frame end is taken back only after that. */
module TxWriteBack {
  import opened RingArith
  import opened TxMachine
  import opened TxSafety
  import opened TxRuns

  /** The descriptors that `step` writes back. */
  function Writes(p: State, step: Step): set<nat>
  {
    match step
    case Send(done) => if done then {p.hw} else {}
    case Update(k) => {k}
    case _ => {}
  }

  /** The descriptors that the engine has written back so far: each when it is released or later. */
  function WroteBack(s: State, steps: seq<Step>): set<nat>
    requires Legal(s, steps)
  {
    if steps == [] then {}
    else
      var front := steps[..|steps| - 1];
      WroteBack(s, front) + Writes(Run(s, front), steps[|steps| - 1])
  }

  /** Only what was released is written back; in the ring the update-done flag says which, and nothing
      but that lets a frame end go. */
  ghost predicate Recorded(e: State, back: set<nat>)
    requires 0 < |e.bd| && e.hw <= |e.stream|
  {
    && (forall k {:trigger k in back} :: k in back ==> k < e.hw)
    && (forall k: nat {:trigger At(e, k)} :: e.tail <= k < e.hw ==> (e.bd[At(e, k)].done <==> k in back))
    && (forall k: nat {:trigger e.stream[k]} :: k < e.tail <= e.hw && e.stream[k].last ==> k in back)
  }

  lemma RecordedReap(p: State, back: set<nat>)
    requires Inv(p) && Recorded(p, back) && Enabled(p, Reap)
    ensures var e := Apply(p, Reap); 0 < |e.bd| && e.hw <= |e.stream| && Recorded(e, back)
  {
    hide Slot, Logs, Awake, Holds;
    var e := Apply(p, Reap);
    assert Place(p, p.tail);
    ReapedIsReleased(p);
    forall k: nat | e.tail <= k < e.hw ensures e.bd[At(e, k)].done <==> k in back {
      Apart(p, p.tail, k);
      assert At(p, k) == At(e, k);
    }
  }

  lemma RecordedSend(p: State, back: set<nat>, done: bool)
    requires Inv(p) && Recorded(p, back) && Enabled(p, Send(done))
    ensures var e := Apply(p, Send(done));
            0 < |e.bd| && e.hw <= |e.stream| && Recorded(e, back + if done then {p.hw} else {})
  {
    hide Slot, Logs, Awake, Holds;
    var e := Apply(p, Send(done));
    var more := back + if done then {p.hw} else {};
    assert Place(p, p.hw);
    SentIsPublished(p);
    forall k: nat | e.tail <= k < e.hw ensures e.bd[At(e, k)].done <==> k in more {
      assert At(p, k) == At(e, k);
      if k != p.hw {
        Apart(p, p.hw, k);
      }
    }
  }

  lemma RecordedUpdate(p: State, back: set<nat>, j: nat)
    requires Inv(p) && Recorded(p, back) && Enabled(p, Update(j))
    ensures var e := Apply(p, Update(j)); 0 < |e.bd| && e.hw <= |e.stream| && Recorded(e, back + {j})
  {
    hide Slot, Logs, Awake, Holds, Places;
    var e := Apply(p, Update(j));
    forall k: nat | e.tail <= k < e.hw ensures e.bd[At(e, k)].done <==> k in back + {j} {
      assert At(p, k) == At(e, k);
      if k != j {
        Apart(p, j, k);
      }
    }
  }

  /** The driver's own stores, and the doorbell, concern no released descriptor. */
  lemma RecordedElse(p: State, back: set<nat>, step: Step)
    requires Inv(p) && Recorded(p, back) && Enabled(p, step) && !step.Reap? && !step.Send? && !step.Update?
    ensures var e := Apply(p, step); 0 < |e.bd| && e.hw <= |e.stream| && Recorded(e, back)
  {
    hide Slot, Logs, Awake, Holds, Places, Cells, WriteDesc;
    var e := Apply(p, step);
    var j := if step.Write? then |p.stream| + p.phase.k
             else if step.Close? then |p.stream| + |Cells(p.phase.frame)| - 1
             else |p.stream|;
    forall k: nat | e.tail <= k < e.hw ensures e.bd[At(e, k)].done <==> k in back {
      assert At(p, k) == At(e, k);
      Apart(p, j, k);
    }
    assert forall k: nat :: k < e.tail ==> e.stream[k] == p.stream[k];
  }

  lemma {:induction false} RecordedRun(s: State, steps: seq<Step>)
    requires Fresh(s) && Legal(s, steps)
    ensures var e := Run(s, steps); Inv(e) && 0 < |e.bd| && e.hw <= |e.stream| && Recorded(e, WroteBack(s, steps))
  {
    hide Inv, Enabled, Apply, Recorded, Fresh;
    RunOk(s, steps);
    if steps == [] {
      NothingRecorded(s);
    } else {
      var front, step := steps[..|steps| - 1], steps[|steps| - 1];
      RecordedRun(s, front);
      var p, back := Run(s, front), WroteBack(s, front);
      assert back + {} == back;
      match step
      case Reap => RecordedReap(p, back);
      case Send(done) => RecordedSend(p, back, done);
      case Update(j) => RecordedUpdate(p, back, j);
      case _ => RecordedElse(p, back, step);
    }
  }

  lemma NothingRecorded(s: State)
    requires Fresh(s)
    ensures 0 < |s.bd| && s.hw <= |s.stream| && Recorded(s, {})
  {
  }

  /** In every run, at any time: each frame end that has been taken back had been written back by the
      engine.  Of the released descriptors still in the ring, exactly those with the update-done flag
      have been written back, and none that was not released. */
  lemma FrameEndsWrittenBack(s: State, steps: seq<Step>, e: State)
    requires Reaches(s, steps, e)
    ensures e.tail <= e.hw <= |e.stream| && 0 < |e.bd|
    ensures forall k: nat :: k < e.tail && e.stream[k].last ==> k in WroteBack(s, steps)
    ensures forall k: nat :: e.tail <= k < e.hw ==> (e.bd[At(e, k)].done <==> k in WroteBack(s, steps))
    ensures forall k :: k in WroteBack(s, steps) ==> k < e.hw
  {
    hide Fresh, Legal, Run, Slot, Logs, Places, Awake, WroteBack;
    RecordedRun(s, steps);
  }
}
