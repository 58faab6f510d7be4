/** Giving packets back: what reaping and stopping guarantee, and exactly when they fall short. */
module TxRelease {
  import opened Packets
  import opened RingArith
  import opened TxMachine
  import opened TxSafety
  import opened TxRuns

  // ---------------------------------------------------------------- building runs

  lemma Extend(s: State, steps: seq<Step>, e: State, step: Step)
    requires Reaches(s, steps, e) && Enabled(e, step)
    ensures Reaches(s, steps + [step], Apply(e, step))
  {
    hide Fresh, Enabled, Apply;
    var more := steps + [step];
    assert more[..|more| - 1] == steps;
  }

  /** What the transmit path leaves alone. */
  predicate SameBehind(e: State, e': State)
  {
    && |e'.bd| == |e.bd| && e'.base == e.base && e'.tail == e.tail && e'.hw == e.hw
    && e'.wire == e.wire && e'.freed == e.freed && e'.up == e.up
  }

  lemma {:induction false} LoadAll(s: State, steps: seq<Step>, e: State) returns (steps': seq<Step>, e': State)
    requires Reaches(s, steps, e) && Inv(e) && e.phase.Loading?
    ensures Reaches(s, steps', e') && Inv(e') && SameBehind(e, e')
    ensures e'.stream == e.stream && e'.frames == e.frames && e'.active == e.active
    ensures e'.phase == Loading(e.phase.frame, |Cells(e.phase.frame)|, 0)
    decreases |Cells(e.phase.frame)| - e.phase.k, 4 - e.phase.part
  {
    hide Reaches, Logs, Places, At, WriteDesc;
    if e.phase.k == |Cells(e.phase.frame)| {
      return steps, e;
    }
    Extend(s, steps, e, Write);
    StepKeeps(e, Write);
    steps', e' := LoadAll(s, steps + [Write], Apply(e, Write));
  }

  lemma Take(s: State, steps: seq<Step>, e: State, step: Step) returns (steps': seq<Step>, e': State)
    requires Reaches(s, steps, e) && Inv(e) && Enabled(e, step)
    ensures Reaches(s, steps', e') && Inv(e') && e' == Apply(e, step)
  {
    hide Reaches, Inv, Enabled, Apply;
    steps', e' := steps + [step], Apply(e, step);
    Extend(s, steps, e, step);
    StepKeeps(e, step);
  }

  /** Given room, the driver can hand over any packet that carries data; the engine is then awake
      exactly if it was, or if the interface is up. */
  lemma HandOver(s: State, steps: seq<Step>, e: State, f: Frame) returns (steps': seq<Step>, e': State)
    requires Reaches(s, steps, e) && Inv(e) && Enabled(e, Begin(f))
    ensures Reaches(s, steps', e') && Inv(e') && SameBehind(e, e')
    ensures e'.phase.Idle? && (e'.active <==> e.active || e.up)
    ensures e'.stream == e.stream + Cells(f) && e'.frames == e.frames + [f]
  {
    hide Reaches, Logs, Places, At, WriteDesc;
    steps', e' := Take(s, steps, e, Begin(f));
    steps', e' := LoadAll(s, steps', e');
    steps', e' := Announce(s, steps', e', f);
  }

  /** From the last write of the loading loop to the end of the call. */
  lemma Announce(s: State, steps: seq<Step>, e: State, f: Frame) returns (steps': seq<Step>, e': State)
    requires Reaches(s, steps, e) && Inv(e) && e.phase == Loading(f, |Cells(f)|, 0)
    ensures Reaches(s, steps', e') && Inv(e') && SameBehind(e, e')
    ensures e'.phase.Idle? && (e'.active <==> e.active || e.up)
    ensures e'.stream == e.stream + Cells(f) && e'.frames == e.frames + [f]
  {
    hide Reaches, Inv, Apply, Cells;
    steps', e' := TakeIn(s, steps, e, f);
    steps', e' := Reveal(s, steps', e', f);
    KickWakesIff(e');
    KickOnly(e');
    steps', e' := Take(s, steps', e', Kick);
  }

  /** Counting the frame in. */
  lemma TakeIn(s: State, steps: seq<Step>, e: State, f: Frame) returns (steps': seq<Step>, e': State)
    requires Reaches(s, steps, e) && Inv(e) && e.phase == Loading(f, |Cells(f)|, 0)
    ensures Reaches(s, steps', e') && Inv(e') && SameBehind(e, e') && e'.active == e.active
    ensures e'.phase == Loaded(f) && |Cells(f)| > 0 && e'.stream == e.stream && e'.frames == e.frames
  {
    hide Reaches, Logs, Places, Awake, At, Cells;
    steps', e' := Take(s, steps, e, Count);
  }

  /** LAST and READY. */
  lemma Reveal(s: State, steps: seq<Step>, e: State, f: Frame) returns (steps': seq<Step>, e': State)
    requires Reaches(s, steps, e) && Inv(e) && e.phase == Loaded(f) && |Cells(f)| > 0
    ensures Reaches(s, steps', e') && Inv(e') && SameBehind(e, e') && e'.active == e.active
    ensures e'.phase == Kicking && e'.stream == e.stream + Cells(f) && e'.frames == e.frames + [f]
  {
    hide Reaches, Logs, Places, Awake, At, Cells;
    steps', e' := steps, e;
    if |Cells(f)| > 1 {
      steps', e' := Take(s, steps, e, Close);
    }
    steps', e' := Take(s, steps', e', Publish);
  }

  lemma KickOnly(e: State)
    requires Enabled(e, Kick)
    ensures var t := Apply(e, Kick); SameBehind(e, t) && t.stream == e.stream && t.frames == e.frames
  {
  }

  // ---------------------------------------------------------------- reaping

  /** The last descriptor of the frame that descriptor `k` belongs to. */
  function FrameEnd(cs: seq<Cell>, k: nat): (e: nat)
    requires k < |cs|
    ensures k <= e < |cs|
    ensures forall j :: k <= j < e ==> !cs[j].last
    decreases |cs| - k
  {
    if cs[k].last || k + 1 == |cs| then k else FrameEnd(cs, k + 1)
  }

  predicate ReadyAt(s: State, k: nat)
    requires 0 < |s.bd|
  {
    s.bd[At(s, k)].status.ready
  }

  lemma OwnedByEngine(s: State, k: nat)
    requires Inv(s) && s.phase.Idle? && s.tail <= k < |s.stream|
    ensures ReadyAt(s, k) <==> s.hw <= k
  {
    hide Slot, Logs, Awake, Holds;
    assert Place(s, k);
  }

  /** Taking back a head descriptor frees the whole packet.  The engine still owns a fragment of it
      exactly when the last descriptor of the frame is still READY: the driver does not look. */
  lemma FreedWhileOwnedIff(s: State)
    requires Inv(s) && Enabled(s, Reap) && s.tail < |s.stream| && s.stream[s.tail].owner.Some?
    ensures Apply(s, Reap).freed == s.freed + [s.stream[s.tail].owner.value]
    ensures (exists k :: s.tail <= k <= FrameEnd(s.stream, s.tail) && ReadyAt(s, k))
            <==> ReadyAt(s, FrameEnd(s.stream, s.tail))
  {
    hide Slot, Logs, Awake, ReadyAt;
    assert Place(s, s.tail);
    var e := FrameEnd(s.stream, s.tail);
    OwnedByEngine(s, e);
    if k :| s.tail <= k <= e && ReadyAt(s, k) {
      OwnedByEngine(s, k);
    }
  }

  lemma CanSend(e: State)
    requires Inv(e) && e.active && e.hw < |e.stream|
    ensures Enabled(e, Send(true)) && e.bd[e.hp].status.ready
  {
    hide Slot, Logs, Awake;
    assert Place(e, e.hw);
  }

  lemma CanReap(e: State)
    requires Inv(e) && e.phase.Idle? && e.tail < e.hw && !e.stream[e.tail].last
    ensures Enabled(e, Reap)
  {
    hide Slot, Logs, Awake;
    assert Place(e, e.tail);
    Apart(e, e.tail, |e.stream|);
  }

  lemma LogsOf(e: State)
    requires Inv(e)
    ensures e.wire == Wire(e.stream[..e.hw]) && e.freed == Owners(e.stream[..e.tail])
  {
    hide Counts, Places, Awake, Wire, Owners;
  }

  /** It happens: for any packet of two fragments there is a run that frees it between them. */
  lemma FreedWhileOwnedHappens(s: State, f: Frame) returns (steps: seq<Step>, e: State)
    requires Fresh(s) && |s.bd| > MAX_FRAGS && |Cells(f)| == 2
    ensures Reaches(s, steps, e) && e.freed == [f.packet]
    ensures e.wire == [OnWire(Cells(f)[0])] && e.hp < |e.bd| && e.bd[e.hp].status.ready
  {
    hide Inv, At, WriteDesc, Legal, Run, Reaches;
    FreshOk(s);
    Unmoved(s);
    steps, e := BringUp(s);
    steps, e := HandOver(s, steps, e, f);
    CanSend(e);
    steps, e := Take(s, steps, e, Send(true));
    CanReap(e);
    steps, e := Take(s, steps, e, Reap);
    LogsOf(e);
    OwnersOfPart(f, 1);
    assert e.stream == Cells(f) && e.tail == 1 && e.hw == 1;
    assert Wire(e.stream[..1]) == [OnWire(Cells(f)[0])];
    ReadyAhead(e);
  }

  /** The interface goes up and down only between calls. */
  lemma CanChange(s: State)
    requires Inv(s) && s.phase.Idle?
    ensures Enabled(s, if s.up then Down else Up)
  {
    hide Slot, Logs, Places, Awake;
  }

  /** The interface comes up. */
  lemma BringUp(s: State) returns (steps: seq<Step>, e: State)
    requires Fresh(s)
    ensures Reaches(s, steps, e) && Inv(e) && e == s.(up := true)
  {
    hide Inv, Legal, Run;
    FreshOk(s);
    Unmoved(s);
    steps, e := [], s;
    if !s.up {
      steps, e := Take(s, steps, e, Up);
    }
  }

  /** A packet handed over while the interface is down stays in the ring, with the engine asleep and
      its first descriptor READY. */
  lemma KickMissed(s: State, f: Frame) returns (steps: seq<Step>, e: State)
    requires Fresh(s) && |s.bd| > MAX_FRAGS && 0 < |Cells(f)| <= MAX_FRAGS && !s.up && !s.active
    ensures Reaches(s, steps, e) && e.phase.Idle? && e.frames == [f] && LeftAsleep(s, steps)
    ensures !e.active && e.hp < |e.bd| && e.bd[e.hp].status.ready
  {
    hide Inv, At, WriteDesc, Legal, Run, Reaches, LeftAsleep;
    FreshOk(s);
    Unmoved(s);
    steps, e := HandOver(s, [], s, f);
    ReadyAhead(e);
    NoLostKick(s, steps, e);
  }

  /** Nor does bringing the interface up help: the frame waits for the next packet. */
  lemma StillMissed(s: State, f: Frame) returns (steps: seq<Step>, e: State)
    requires Fresh(s) && |s.bd| > MAX_FRAGS && 0 < |Cells(f)| <= MAX_FRAGS && !s.up && !s.active
    ensures Reaches(s, steps, e) && e.phase.Idle? && e.up && e.frames == [f]
    ensures !e.active && e.hp < |e.bd| && e.bd[e.hp].status.ready
  {
    hide Inv, At, WriteDesc, Legal, Run, Reaches, LeftAsleep;
    FreshOk(s);
    Unmoved(s);
    steps, e := HandOver(s, [], s, f);
    CanChange(e);
    steps, e := Take(s, steps, e, Up);
    ReadyAhead(e);
  }

  lemma ReadyAhead(e: State)
    requires Inv(e) && e.hw < |e.stream|
    ensures e.hp < |e.bd| && e.bd[e.hp].status.ready
  {
    hide Slot, Logs, Awake;
    assert Place(e, e.hw);
  }

  lemma Unmoved(s: State)
    requires Fresh(s)
    ensures Reaches(s, [], s)
  {
  }

  /** The reaper stops only at a descriptor that the engine has not released and written back, so
      nothing it could take back is left behind. */
  lemma ReapStopsAtEngine(s: State)
    requires Inv(s) && s.phase.Idle? && !Reapable(s) && s.cidx != s.pidx
    ensures s.tail < |s.stream|
    ensures s.hw == s.tail || (s.stream[s.tail].last && !s.bd[s.cidx].done)
  {
    hide Slot, Logs, Awake;
    assert Place(s, s.tail);
  }

  // ---------------------------------------------------------------- stopping the interface

  /** The clearing loop of mx6q_stop: only slots that remember a packet are cleared. */
  function StoppedDescs(bd: seq<Desc>, pkts: seq<Option<Packet>>): (r: seq<Desc>)
    requires |bd| == |pkts|
    ensures |r| == |bd|
  {
    seq(|bd|, i requires 0 <= i < |bd| =>
      if pkts[i].Some? then bd[i].(status := Status(false, bd[i].status.wrap, false, false)) else bd[i])
  }

  function NoPackets(n: nat): seq<Option<Packet>>
  {
    seq(n, i => None)
  }

  /** The ring after mx6q_stop, as the start of the next run. */
  function Restarted(s: State): (r: State)
    requires |s.bd| == |s.pkts|
  {
    s.(bd := StoppedDescs(s.bd, s.pkts),
       pkts := NoPackets(|s.pkts|),
       pidx := s.cidx, inuse := 0, base := s.cidx,
       frames := [], stream := [], tail := 0, hw := 0, wire := [], freed := [], missed := false)
  }

  /** Slot `i`, if outstanding, is the head of a frame that asked for no timestamp. */
  predicate Clearable(s: State, i: nat)
    requires i < |s.bd| == |s.pkts| && s.cidx < |s.bd|
  {
    Ahead(s, i) < s.inuse ==> s.pkts[i].Some? && !s.bd[i].stamp
  }

  /** What mx6q_stop silently relies on: the engine stands where the reaper stopped, and every slot
      still outstanding is cleared by the loop. */
  predicate StopsClean(s: State)
    requires |s.bd| == |s.pkts| && s.cidx < |s.bd|
  {
    s.hp == s.cidx && forall i: nat {:trigger Clearable(s, i)} :: i < |s.bd| ==> Clearable(s, i)
  }

  lemma OutstandingSlot(s: State, i: nat)
    requires Inv(s) && s.phase.Idle? && s.hp == s.cidx && i < |s.bd|
    ensures s.hw == s.tail
    ensures s.bd[i].status.wrap == (i == |s.bd| - 1)
    ensures if Ahead(s, i) < s.inuse then s.bd[i].status.ready && !s.bd[i].done
            else Blank(s.bd[i]) && s.pkts[i] == None
  {
    hide Slot, Logs, Awake, Holds, Blank;
    if s.hw != s.tail {
      Apart(s, s.tail, s.hw);
      assert false;
    }
    var j := SlotCovered(s.base + s.tail, i, |s.bd|);
    AheadIs(s, j - s.base);
    assert Place(s, j - s.base);
  }

  lemma FreshThenClean(s: State)
    requires Inv(s) && s.phase.Idle? && Fresh(Restarted(s))
    ensures StopsClean(s)
  {
    hide Slot, Logs, Places, Awake;
    forall i: nat | i < |s.bd| ensures Clearable(s, i) {
      assert Blank(Restarted(s).bd[i]);
      OutstandingSlot(s, i);
    }
  }

  lemma CleanThenFresh(s: State)
    requires Inv(s) && s.phase.Idle? && StopsClean(s)
    ensures Fresh(Restarted(s))
  {
    hide Slot, Logs, Places, Awake;
    var r := Restarted(s);
    forall i {:trigger r.bd[i]} | 0 <= i < |s.bd|
      ensures Blank(r.bd[i]) && r.bd[i].status.wrap == (i == |s.bd| - 1)
    {
      OutstandingSlot(s, i);
      assert Clearable(s, i);
    }
  }

  /** mx6q_stop leaves a usable ring exactly under that condition. */
  lemma StopCleanIff(s: State)
    requires Inv(s) && s.phase.Idle?
    ensures Fresh(Restarted(s)) <==> StopsClean(s)
  {
    hide Logs, Places, Awake, Fresh, StopsClean, Slot;
    if Fresh(Restarted(s)) {
      FreshThenClean(s);
    }
    if StopsClean(s) {
      CleanThenFresh(s);
    }
  }

  /** It fails: a packet of two fragments, not yet sent, leaves its second descriptor READY with no
      packet to account for it. */
  lemma StopLeavesReady(s: State, f: Frame) returns (steps: seq<Step>, e: State, i: nat)
    requires Fresh(s) && |s.bd| > MAX_FRAGS && |Cells(f)| == 2
    ensures Reaches(s, steps, e) && e.phase.Idle? && |e.bd| == |e.pkts| && i < |e.bd|
    ensures Restarted(e).bd[i].status.ready && e.pkts[i] == None
    ensures !Fresh(Restarted(e))
  {
    hide Inv, At, WriteDesc, Legal, Run, Reaches;
    FreshOk(s);
    Unmoved(s);
    steps, e := HandOver(s, [], s, f);
    i := SecondSlot(e, f);
    assert !Blank(Restarted(e).bd[i]);
  }

  lemma SecondSlot(e: State, f: Frame) returns (i: nat)
    requires Inv(e) && e.tail == e.hw == 0 && e.stream == Cells(f) && |Cells(f)| == 2
    ensures |e.bd| == |e.pkts| && i < |e.bd| && e.bd[i].status.ready && e.pkts[i] == None
  {
    hide Slot, Logs, Awake;
    assert Place(e, 1);
    i := At(e, 1);
  }

  // ---------------------------------------------------------------- what stopping frees

  lemma InRingStart(pkts: seq<Option<Packet>>)
    requires |pkts| > 0
    ensures InRing(pkts, 0, 0) == []
  {
  }

  lemma InRingNext(pkts: seq<Option<Packet>>, i: nat)
    requires i < |pkts|
    ensures InRing(pkts, 0, i + 1) == InRing(pkts, 0, i) + if pkts[i].Some? then [pkts[i].value] else []
  {
  }

  lemma {:induction false} InRingFront(pkts: seq<Option<Packet>>, from: nat, m: nat)
    requires |pkts| > 0 && m > 0
    ensures var p := pkts[Slot(from, |pkts|)];
            InRing(pkts, from, m) == (if p.Some? then [p.value] else []) + InRing(pkts, from + 1, m - 1)
  {
    hide Slot;
    if m > 1 {
      InRingFront(pkts, from, m - 1);
    }
  }

  /** Going round the ring once meets the same packets wherever one starts. */
  lemma {:induction false} InRingTurned(pkts: seq<Option<Packet>>, from: nat)
    requires |pkts| > 0
    ensures multiset(InRing(pkts, from, |pkts|)) == multiset(InRing(pkts, 0, |pkts|))
  {
    hide Slot, InRing;
    if from > 0 {
      InRingTurned(pkts, from - 1);
      TurnOne(pkts, from - 1);
    }
  }

  lemma TurnOne(pkts: seq<Option<Packet>>, from: nat)
    requires |pkts| > 0
    ensures multiset(InRing(pkts, from, |pkts|)) == multiset(InRing(pkts, from + 1, |pkts|))
  {
    hide Slot;
    var n := |pkts|;
    InRingFront(pkts, from, n);
    SlotTurn(from, n);
    var p := pkts[Slot(from, n)];
    var one := if p.Some? then [p.value] else [];
    assert InRing(pkts, from + 1, n) == InRing(pkts, from + 1, n - 1) + one;
  }

  /** Reaping and stopping together free every packet taken, each exactly once: the packets freed by
      reaping, and then those the stop loop meets going through the slots from 0. */
  lemma StopFreesTheRest(s: State, steps: seq<Step>, e: State)
    requires Reaches(s, steps, e) && e.phase.Idle?
    ensures 0 < |e.pkts|
    ensures multiset(e.freed + InRing(e.pkts, 0, |e.pkts|)) == multiset(PacketsOf(Begun(steps)))
  {
    hide Slot, InRing, Fresh, Legal, Run, Logs, Places, Awake;
    ReachedOk(s, steps, e);
    FreedPlusRing(e);
    PublishedInOrder(s, steps, e);
    InRingTurned(e.pkts, e.base + e.tail);
    assert Taken(e) == PacketsOf(Begun(steps));
  }
}
