/** What single accesses to the ring stand for in the protocol machine, and what the driver may
still rely on after the engine has run. */
module TxStores {
  import opened Packets
  import opened RingArith
  import opened TxMachine
  import opened TxSafety

  // ---------------------------------------------------------------- the engine between accesses

  /** What the driver may rely on when the engine has run: unpublished descriptors are untouched,
      released ones stay released, nothing of the driver's own changes. */
  ghost predicate Moved(s: State, s': State)
    requires 0 < |s.bd|
  {
    && |s'.bd| == |s.bd|
    && s'.pkts == s.pkts && s'.pidx == s.pidx && s'.cidx == s.cidx && s'.inuse == s.inuse
    && s'.phase == s.phase && s'.base == s.base && s'.frames == s.frames && s'.stream == s.stream
    && s'.tail == s.tail && s'.freed == s.freed && s.hw <= s'.hw && s'.up == s.up && (s'.missed ==> s.missed)
    && (forall k: nat {:trigger At(s, k)} :: Window(s, k) && k < s.hw ==>
          Settled(s.bd[At(s, k)], s'.bd[At(s, k)]))
    && (forall k: nat {:trigger At(s, k)} :: Window(s, k) && k >= |s.stream| ==>
          s'.bd[At(s, k)] == s.bd[At(s, k)])
  }

  /** A released descriptor changes only by being written back. */
  predicate Settled(d: Desc, d': Desc)
  {
    d'.status == d.status && (d.done ==> d'.done)
  }

  lemma MovedOn(s: State, t: State, u: State)
    requires 0 < |s.bd| && Moved(s, t) && Moved(t, u)
    ensures Moved(s, u)
  {
    hide Slot;
    forall k: nat | Window(s, k) ensures At(t, k) == At(s, k) {
    }
  }

  lemma SendFits(s: State)
    requires Inv(s) && s.active && s.bd[s.hp].status.ready
    ensures Enabled(s, Send(true)) && Enabled(s, Send(false))
  {
    hide Slot, Logs, Awake;
    assert Place(s, s.hw);
  }

  lemma MovedNowhere(s: State)
    requires Inv(s)
    ensures 0 < |s.bd| && Moved(s, s)
  {
    hide Slot, Logs, Places;
  }

  lemma KickEnabled(s: State)
    requires Inv(s) && s.phase.Kicking?
    ensures Enabled(s, Kick)
  {
    hide Slot, Logs, Places;
  }

  /** The store that `Write` stands for. */
  lemma CanWrite(s: State)
    requires Inv(s) && s.phase.Loading? && s.phase.k < |Cells(s.phase.frame)|
    ensures 0 < |s.bd| && Enabled(s, Write) && Window(s, |s.stream| + s.phase.k)
    ensures var i := At(s, |s.stream| + s.phase.k);
            Apply(s, Write) == s.(bd := s.bd[i := WriteDesc(s.bd[i], s.phase)], phase := WritePhase(s.phase))
  {
    hide Slot, Logs, Places, WriteDesc;
  }

  /** The three stores that `Count` stands for. */
  lemma CanCount(s: State, f: Frame)
    requires Inv(s) && s.phase == Loading(f, |Cells(f)|, 0)
    ensures 0 < |s.bd| == |s.pkts| && s.pidx < |s.pkts| && Enabled(s, Count)
    ensures Apply(s, Count) ==
            s.(inuse := s.inuse + |Cells(f)|, pkts := s.pkts[s.pidx := Some(f.packet)],
               pidx := At(s, |s.stream| + |Cells(f)|), phase := Loaded(f))
  {
    hide Slot, Logs, Places;
  }

  /** The store that makes a frame visible, for a frame of one descriptor or a closed one. */
  lemma CanPublish(s: State)
    requires Inv(s) && (s.phase.Closed? || (s.phase.Loaded? && |Cells(s.phase.frame)| == 1))
    ensures 0 < |s.bd| && Enabled(s, Publish)
    ensures var i := At(s, |s.stream|);
            var st := s.bd[i].status;
            Apply(s, Publish).bd == s.bd[i := s.bd[i].(status :=
              if s.phase.Closed? then st.(ready := true) else st.(ready := true, last := true, crc := true))]
    ensures Apply(s, Publish).phase == Kicking && Apply(s, Publish).frames == s.frames + [s.phase.frame]
  {
    hide Slot, Logs, Places;
  }

  lemma CanClose(s: State)
    requires Inv(s) && s.phase.Loaded? && |Cells(s.phase.frame)| != 1
    ensures 0 < |s.bd| && |Cells(s.phase.frame)| > 1 && Enabled(s, Close)
    ensures var i := At(s, |s.stream| + |Cells(s.phase.frame)| - 1);
            Apply(s, Close) == s.(phase := Closed(s.phase.frame),
              bd := s.bd[i := s.bd[i].(status := s.bd[i].status.(last := true, crc := true))])
  {
    hide Slot, Logs, Places;
  }

  /** The four writes, one by one. */
  lemma WritesAre(d: Desc, f: Frame, k: nat, m: Mbuf)
    requires k < |Cells(f)| && m == NonEmpty(f.packet.chain)[k]
    ensures WriteDesc(d, Loading(f, k, 0)) == d.(buffer := m)
    ensures WriteDesc(d, Loading(f, k, 1)) == d.(length := |m.data|)
    ensures WriteDesc(d, Loading(f, k, 2)) == if k > 0 then d.(status := d.status.(ready := true)) else d
    ensures WriteDesc(d, Loading(f, k, 3)) == if f.stamp then d.(stamp := true) else d
  {
  }

  lemma StartIndex(s: State)
    requires Inv(s)
    ensures 0 < |s.bd| && |s.stream| < s.tail + |s.bd| && (s.phase.Loading? ==> s.pidx == At(s, |s.stream|))
    ensures s.phase.Loaded? ==> |Cells(s.phase.frame)| > 0 && Window(s, |s.stream|)
  {
    hide Slot, Logs, Places;
  }

  /** Unpublished descriptors, and where the driver is with its frame, survive the engine. */
  lemma StillMine(s: State, s': State, k: nat)
    requires 0 < |s.bd| && Moved(s, s') && Window(s, k) && k >= |s.stream|
    ensures s'.bd[At(s, k)] == s.bd[At(s, k)] && At(s', k) == At(s, k)
    ensures s'.phase == s.phase && s'.frames == s.frames && s'.stream == s.stream
  {
    hide Slot;
  }

  lemma SameWork(s: State, s': State)
    requires 0 < |s.bd| && Moved(s, s')
    ensures s'.phase == s.phase && s'.frames == s.frames && s'.stream == s.stream
    ensures s'.missed ==> s.missed
  {
    hide Slot;
  }

  /** The stores that `Send` stands for. */
  lemma SendIs(s: State, done: bool)
    requires Enabled(s, Send(done))
    ensures s.hp < |s.bd| && s.bd[s.hp].length <= |s.bd[s.hp].buffer.data|
    ensures var d := s.bd[s.hp];
            Apply(s, Send(done)) ==
            s.(bd := s.bd[s.hp := d.(status := d.status.(ready := false), done := done)],
               wire := s.wire + [Sent(d.buffer.data[..d.length], d.status.last, d.status.crc, d.stamp)],
               hp := if d.status.wrap then 0 else s.hp + 1, hw := s.hw + 1)
  {
  }

  /** The stores that `Reap` stands for. */
  lemma ReapIs(s: State)
    requires Enabled(s, Reap)
    ensures s.cidx < |s.bd| == |s.pkts|
    ensures Apply(s, Reap) ==
            s.(bd := s.bd[s.cidx := Blanked(s.bd[s.cidx])],
               freed := s.freed + (if s.pkts[s.cidx].Some? then [s.pkts[s.cidx].value] else []),
               pkts := s.pkts[s.cidx := None],
               inuse := s.inuse - 1, cidx := Next(s.cidx, |s.bd|), tail := s.tail + 1)
  {
  }

  /** A descriptor seen released, and then seen written back if it is the last of its frame, can be
      taken back whatever the engine did meanwhile. */
  lemma StillReleased(s: State, t: State, u: State)
    requires Inv(s) && s.phase.Idle? && s.pidx != s.cidx && !s.bd[s.cidx].status.ready
    requires Moved(s, t) && 0 < |t.bd| && Moved(t, u) && Inv(u)
    requires s.bd[s.cidx].status.last ==> t.bd[s.cidx].done
    ensures Enabled(u, Reap) && u.bd[u.cidx].status == s.bd[s.cidx].status
  {
    hide Slot, Logs, Awake, Filling;
    assert Place(s, s.tail);
    assert s.tail < s.hw;
    assert At(s, s.tail) == At(t, t.tail) == At(u, u.tail);
    assert Settled(s.bd[s.cidx], t.bd[s.cidx]);
    assert Settled(t.bd[s.cidx], u.bd[s.cidx]);
  }

  lemma OneDescriptor(s: State, f: Frame)
    requires Inv(s) && s.phase == Loaded(f) && At(s, |s.stream|) == At(s, |s.stream| + |Cells(f)| - 1)
    ensures |Cells(f)| == 1
  {
    hide Slot, Logs, Places;
    if |Cells(f)| > 1 {
      Apart(s, |s.stream|, |s.stream| + |Cells(f)| - 1);
    }
  }

  lemma CanBegin(s: State, f: Frame)
    requires Inv(s) && s.phase.Idle? && 0 < |Cells(f)| <= MAX_FRAGS && |s.bd| - s.inuse > MAX_FRAGS
    ensures Enabled(s, Begin(f)) && Apply(s, Begin(f)) == s.(phase := Loading(f, 0, 0))
  {
    hide Slot, Logs, Places;
  }

  predicate EngineStep(step: Step) { step.Send? || step.Update? || step.Sleep? || step.Isr? }

  lemma EngineMoves(s: State, step: Step)
    requires Inv(s) && Enabled(s, step) && EngineStep(step)
    ensures Moved(s, Apply(s, step))
  {
    hide Slot, Logs, Awake, At;
    var s' := Apply(s, step);
    assert Place(s, s.hw);
    if step.Send? {
      SentIsPublished(s);
    }
    var j := if step.Send? then s.hw else if step.Update? then step.k else s.tail;
    forall k: nat | Window(s, k) && k != j ensures At(s, k) != At(s, j) {
      Apart(s, j, k);
    }
  }
}
