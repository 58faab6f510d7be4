/** Every step of the driver and of the engine keeps the ring invariant.

For each step one lemma treats a single descriptor, one the whole ring and one the counters. */
module TxSafety {
  import opened Packets
  import opened RingArith
  import opened TxMachine

  /** Two descriptors of the current turn never share a slot. */
  lemma Apart(s: State, j: nat, k: nat)
    requires 0 < |s.bd| && Window(s, j) && Window(s, k) && j != k
    ensures At(s, j) != At(s, k)
  {
    if j < k {
      SlotsDiffer(s.base + j, s.base + k, |s.bd|);
    } else {
      SlotsDiffer(s.base + k, s.base + j, |s.bd|);
    }
  }

  // ---------------------------------------------------------------- a single descriptor

  lemma BeginPlace(s: State, f: Frame, k: nat)
    requires Counts(s) && Enabled(s, Begin(f)) && Window(s, k) && Place(s, k)
    ensures Place(Apply(s, Begin(f)), k)
  {
    hide Slot;
  }

  /** The descriptor being loaded after one more write. */
  lemma WriteHere(d: Desc, ph: Phase)
    requires ph.Loading? && ph.k < |Cells(ph.frame)| && ph.part <= 3 && Filling(d, ph, ph.k)
    ensures Filling(WriteDesc(d, ph), WritePhase(ph), ph.k)
    ensures WriteDesc(d, ph).status.wrap == d.status.wrap
  {
  }

  lemma WriteElsewhere(d: Desc, ph: Phase, j: nat)
    requires ph.Loading? && ph.k < |Cells(ph.frame)| && j < |Cells(ph.frame)| && j != ph.k && Filling(d, ph, j)
    ensures Filling(d, WritePhase(ph), j)
  {
  }

  lemma WritePlace(s: State, k: nat)
    requires Counts(s) && Enabled(s, Write) && Window(s, k) && Place(s, k)
    ensures Place(Apply(s, Write), k)
  {
    hide Slot, Filling, Holds, Flags, Blank, WriteDesc;
    var j := |s.stream| + s.phase.k;
    if k == j {
      WriteHere(s.bd[At(s, k)], s.phase);
    } else {
      Apart(s, j, k);
      if |s.stream| <= k < |s.stream| + |Pending(s)| {
        WriteElsewhere(s.bd[At(s, k)], s.phase, k - |s.stream|);
      }
    }
  }

  lemma CountPlace(s: State, k: nat)
    requires Counts(s) && Enabled(s, Count) && Window(s, k) && Place(s, k)
    ensures Place(Apply(s, Count), k)
  {
    hide Slot, Cells, Holds, Blank;
    if k != |s.stream| {
      Apart(s, |s.stream|, k);
    }
  }

  lemma ClosePlace(s: State, k: nat)
    requires Counts(s) && Enabled(s, Close) && Window(s, k) && Place(s, k)
    ensures Place(Apply(s, Close), k)
  {
    hide Slot, Cells, Filling, Holds, Flags, Blank;
    var j := |s.stream| + |Cells(s.phase.frame)| - 1;
    if k == j {
      CloseHere(s.bd[At(s, k)], s.phase.frame);
    } else {
      Apart(s, j, k);
      if |s.stream| <= k < j {
        CloseElsewhere(s.bd[At(s, k)], s.phase.frame, k - |s.stream|);
      }
    }
  }

  lemma CloseHere(d: Desc, f: Frame)
    requires |Cells(f)| > 1 && Filling(d, Loaded(f), |Cells(f)| - 1)
    ensures Filling(d.(status := d.status.(last := true, crc := true)), Closed(f), |Cells(f)| - 1)
  {
  }

  lemma CloseElsewhere(d: Desc, f: Frame, j: nat)
    requires j + 1 < |Cells(f)| && Filling(d, Loaded(f), j)
    ensures Filling(d, Closed(f), j)
  {
  }

  lemma PublishPlace(s: State, k: nat)
    requires Counts(s) && Enabled(s, Publish) && Window(s, k) && Place(s, k)
    ensures Place(Apply(s, Publish), k)
  {
    hide Slot, Cells, Filling, Holds, Flags, Blank;
    var s' := Apply(s, Publish);
    if k != |s.stream| {
      Apart(s, |s.stream|, k);
    }
    if |s.stream| <= k < |s'.stream| {
      assert s'.stream[k] == Cells(s.phase.frame)[k - |s.stream|];
      PublishedHere(s.bd[At(s, k)], s.phase, k - |s.stream|);
    }
  }

  /** A loaded descriptor is as it should be once READY is in the head, and LAST with it if it is the
      only one. */
  lemma PublishedHere(d: Desc, ph: Phase, j: nat)
    requires (ph.Closed? || (ph.Loaded? && |Cells(ph.frame)| == 1)) && j < |Cells(ph.frame)| && Filling(d, ph, j)
    ensures var c := Cells(ph.frame)[j];
            var d' := if j > 0 then d
                      else d.(status := if ph.Closed? then d.status.(ready := true)
                                        else d.status.(ready := true, last := true, crc := true));
            Holds(d', c) && Flags(d', true, c.last) && !d'.done &&
            c.owner == if j == 0 then Some(ph.frame.packet) else None
  {
  }

  lemma ReapPlace(s: State, k: nat)
    requires Counts(s) && Enabled(s, Reap) && s.tail < s.hw && Place(s, s.tail)
    requires k == s.tail + |s.bd| || (Window(s, k) && k != s.tail && Place(s, k))
    ensures Place(Apply(s, Reap), k)
  {
    hide Slot;
    if k == s.tail + |s.bd| {
      SlotTurn(s.base + s.tail, |s.bd|);
    } else {
      Apart(s, s.tail, k);
    }
  }

  lemma SendPlace(s: State, done: bool, k: nat)
    requires Counts(s) && Enabled(s, Send(done)) && s.hw < |s.stream| && Window(s, k) && Place(s, k)
    ensures Place(Apply(s, Send(done)), k)
  {
    hide Slot;
    if k != s.hw {
      Apart(s, s.hw, k);
    }
  }

  lemma UpdatePlace(s: State, j: nat, k: nat)
    requires Counts(s) && Enabled(s, Update(j)) && Window(s, k) && Place(s, k)
    ensures Place(Apply(s, Update(j)), k)
  {
    hide Slot;
    if k != j {
      Apart(s, j, k);
    }
  }

  predicate Bell(step: Step) { step.Kick? || step.Isr? || step.Sleep? || step.Up? || step.Down? }

  lemma BellPlace(s: State, step: Step, k: nat)
    requires Counts(s) && Enabled(s, step) && Bell(step) && Window(s, k) && Place(s, k)
    ensures Place(Apply(s, step), k)
  {
    hide Slot, Cells, Holds, Flags, Blank, Filling;
  }

  // ---------------------------------------------------------------- counters and logs

  lemma SameLogs(s: State, s': State)
    requires s.tail <= s.hw <= |s.stream| && Logs(s)
    requires s'.frames == s.frames && s'.stream == s.stream && s'.hw == s.hw && s'.tail == s.tail
    requires s'.wire == s.wire && s'.freed == s.freed
    ensures Logs(s')
  {
  }

  lemma BeginCounts(s: State, f: Frame)
    requires Counts(s) && Logs(s) && Awake(s) && Enabled(s, Begin(f))
    ensures var s' := Apply(s, Begin(f)); Counts(s') && Logs(s') && Awake(s')
  {
    hide Slot, Logs, Cells, WriteDesc;
    SameLogs(s, Apply(s, Begin(f)));
  }

  lemma WriteCounts(s: State)
    requires Counts(s) && Logs(s) && Awake(s) && Enabled(s, Write)
    ensures var s' := Apply(s, Write); Counts(s') && Logs(s') && Awake(s')
  {
    hide Slot, Logs, Cells, WriteDesc;
    SameLogs(s, Apply(s, Write));
  }

  lemma CountCounts(s: State)
    requires Counts(s) && Logs(s) && Awake(s) && Enabled(s, Count)
    ensures var s' := Apply(s, Count); Counts(s') && Logs(s') && Awake(s')
  {
    hide Slot, Logs, Cells, WriteDesc;
    SameLogs(s, Apply(s, Count));
  }

  lemma CloseCounts(s: State)
    requires Counts(s) && Logs(s) && Awake(s) && Enabled(s, Close)
    ensures var s' := Apply(s, Close); Counts(s') && Logs(s') && Awake(s')
  {
    hide Slot, Logs, Cells, WriteDesc;
    SameLogs(s, Apply(s, Close));
  }

  lemma PublishCounts(s: State)
    requires Counts(s) && Logs(s) && Awake(s) && Enabled(s, Publish)
    ensures var s' := Apply(s, Publish); Counts(s') && Logs(s') && Awake(s')
  {
    hide Slot, Logs, Cells, WriteDesc;
    PublishLogs(s);
  }

  lemma PublishLogs(s: State)
    requires Counts(s) && Logs(s) && Enabled(s, Publish)
    ensures Logs(Apply(s, Publish))
  {
    hide Slot, At, Owners, Wire;
    var s' := Apply(s, Publish);
    assert s'.frames[..|s'.frames| - 1] == s.frames;
    assert s'.stream[..s.hw] == s.stream[..s.hw] && s'.stream[..s.tail] == s.stream[..s.tail];
  }

  /** A descriptor that passes the reaper's test was published, and the engine has released it. */
  lemma ReapedIsReleased(s: State)
    requires Counts(s) && Place(s, s.tail) && Enabled(s, Reap)
    ensures s.tail < s.hw
  {
    hide Slot;
    assert s.tail < |s.stream|;
  }

  lemma ReapLogs(s: State)
    requires Counts(s) && Logs(s) && Enabled(s, Reap) && s.tail < s.hw && Place(s, s.tail)
    ensures Logs(Apply(s, Reap))
  {
    hide Slot, Flatten, Wire, Cells;
    var cs := s.stream[..s.tail + 1];
    assert cs[..|cs| - 1] == s.stream[..s.tail];
  }

  lemma ReapCounts(s: State)
    requires Counts(s) && Logs(s) && Awake(s) && Enabled(s, Reap) && s.tail < s.hw && Place(s, s.tail)
    ensures var s' := Apply(s, Reap); Counts(s') && Logs(s') && Awake(s')
  {
    hide Slot, Logs, Cells;
    SlotNext(s.base + s.tail, |s.bd|);
    ReapLogs(s);
  }

  lemma WireNext(cs: seq<Cell>, k: nat)
    requires k < |cs|
    ensures Wire(cs[..k + 1]) == Wire(cs[..k]) + [OnWire(cs[k])]
  {
  }

  /** The engine finds only published descriptors READY. */
  lemma SentIsPublished(s: State)
    requires Counts(s) && s.bd[s.hp].status.ready && Place(s, s.hw)
    ensures s.hw < |s.stream|
  {
    hide Slot;
  }

  lemma SendLogs(s: State, done: bool)
    requires Counts(s) && Logs(s) && Enabled(s, Send(done)) && s.hw < |s.stream| && Place(s, s.hw)
    ensures Logs(Apply(s, Send(done)))
  {
    hide Slot, Flatten, Owners;
    WireNext(s.stream, s.hw);
    var d := s.bd[s.hp];
    assert Sent(d.buffer.data[..d.length], d.status.last, d.status.crc, d.stamp) == OnWire(s.stream[s.hw]);
  }

  lemma SendCounts(s: State, done: bool)
    requires Counts(s) && Logs(s) && Awake(s) && Enabled(s, Send(done)) && s.hw < |s.stream| && Place(s, s.hw)
    ensures var s' := Apply(s, Send(done)); Counts(s') && Logs(s') && Awake(s')
  {
    hide Slot, Logs, Cells, Holds;
    SlotNext(s.base + s.hw, |s.bd|);
    SendLogs(s, done);
  }

  lemma UpdateCounts(s: State, j: nat)
    requires Counts(s) && Logs(s) && Awake(s) && Enabled(s, Update(j))
    ensures var s' := Apply(s, Update(j)); Counts(s') && Logs(s') && Awake(s')
  {
    hide Slot, Logs, Cells, WriteDesc;
    SameLogs(s, Apply(s, Update(j)));
  }

  lemma {:induction false} EndsWithLast(fs: seq<Frame>)
    requires fs != [] && forall f :: f in fs ==> Cells(f) != []
    ensures Flatten(fs) != [] && Flatten(fs)[|Flatten(fs)| - 1].last
  {
    var f := fs[|fs| - 1];
    var flat := Flatten(fs);
    assert flat[|flat| - 1] == Cells(f)[|Cells(f)| - 1];
  }

  lemma WholeAtEnd(s: State)
    requires s.tail <= s.hw <= |s.stream| && Logs(s)
    ensures 0 < s.hw == |s.stream| ==> s.stream[s.hw - 1].last
  {
    if s.frames != [] {
      EndsWithLast(s.frames);
    }
  }

  /** The engine drops the doorbell only when nothing published is left. */
  lemma BellCounts(s: State, step: Step)
    requires Counts(s) && Logs(s) && Awake(s) && Enabled(s, step) && Bell(step) && Place(s, s.hw)
    ensures var s' := Apply(s, step); Counts(s') && Logs(s') && Awake(s')
  {
    hide Slot, Logs, Holds, Blank, Cells;
    SameLogs(s, Apply(s, step));
    WholeAtEnd(s);
  }

  // ---------------------------------------------------------------- the whole ring

  lemma StepPlace(s: State, step: Step, k: nat)
    requires Counts(s) && Enabled(s, step) && Place(s, s.tail) && Place(s, s.hw)
    requires !step.Reap? && Window(s, k) && Place(s, k)
    ensures |Apply(s, step).bd| == |Apply(s, step).pkts| == |s.bd|
    ensures Apply(s, step).hw <= |Apply(s, step).stream| && Place(Apply(s, step), k)
  {
    hide Place, At, Slot;
    match step
    case Begin(f) => BeginPlace(s, f, k);
    case Write => WritePlace(s, k);
    case Count => CountPlace(s, k);
    case Close => ClosePlace(s, k);
    case Publish => PublishPlace(s, k);
    case Send(done) => SentIsPublished(s); SendPlace(s, done, k);
    case Update(j) => UpdatePlace(s, j, k);
    case _ => BellPlace(s, step, k);
  }

  lemma StepPlaces(s: State, step: Step)
    requires Counts(s) && Places(s) && Enabled(s, step)
    requires Counts(Apply(s, step))
    ensures Places(Apply(s, step))
  {
    hide Place, At, Slot;
    var s' := Apply(s, step);
    assert Place(s, s.tail) && Place(s, s.hw);
    forall k: nat | Window(s', k) ensures Place(s', k) {
      if step.Reap? {
        ReapedIsReleased(s);
        if k < s.tail + |s.bd| {
          assert Place(s, k);
        }
        ReapPlace(s, k);
      } else {
        assert Place(s, k);
        StepPlace(s, step, k);
      }
    }
  }

  lemma StepCounts(s: State, step: Step)
    requires Counts(s) && Logs(s) && Awake(s) && Enabled(s, step) && Place(s, s.tail) && Place(s, s.hw)
    ensures var s' := Apply(s, step); Counts(s') && Logs(s') && Awake(s')
  {
    hide Place, At, Slot, Apply;
    match step
    case Begin(f) => BeginCounts(s, f);
    case Write => WriteCounts(s);
    case Count => CountCounts(s);
    case Close => CloseCounts(s);
    case Publish => PublishCounts(s);
    case Reap => ReapedIsReleased(s); ReapCounts(s);
    case Send(done) => SentIsPublished(s); SendCounts(s, done);
    case Update(j) => UpdateCounts(s, j);
    case _ => BellCounts(s, step);
  }

  lemma StepKeeps(s: State, step: Step)
    requires Inv(s) && Enabled(s, step)
    ensures Inv(Apply(s, step)) && |Apply(s, step).bd| == |s.bd|
  {
    hide Place, Slot, Enabled, Apply, Logs, Awake;
    assert Place(s, s.tail) && Place(s, s.hw);
    StepCounts(s, step);
    StepPlaces(s, step);
    StepSize(s, step);
  }

  lemma StepSize(s: State, step: Step)
    requires Enabled(s, step)
    ensures |Apply(s, step).bd| == |s.bd|
  {
    hide At, WriteDesc, Blanked, Cells;
  }
}
