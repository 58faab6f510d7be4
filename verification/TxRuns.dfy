/** What holds in every run of the transmit ring, whatever the interleaving. */
module TxRuns {
  import opened Packets
  import opened RingArith
  import opened TxMachine
  import opened TxSafety

  /** An unused ring: as the attach routine leaves it, with the indices at slot 0, or turned. */
  predicate Fresh(s: State)
  {
    && 0 < |s.bd| == |s.pkts|
    && (forall i {:trigger s.bd[i]} :: 0 <= i < |s.bd| ==>
          Blank(s.bd[i]) && s.bd[i].status.wrap == (i == |s.bd| - 1))
    && (forall i {:trigger s.pkts[i]} :: 0 <= i < |s.pkts| ==> s.pkts[i] == None)
    && s.pidx == s.cidx == s.hp == s.base < |s.bd| && s.inuse == 0 && s.phase == Idle && !s.missed
    && s.frames == [] && s.stream == [] && s.tail == s.hw == 0 && s.wire == [] && s.freed == []
  }

  /** A run is a list of steps, each enabled where it is taken. */
  predicate Legal(s: State, steps: seq<Step>)
    decreases |steps|, 0
  {
    steps == [] ||
    (Legal(s, steps[..|steps| - 1]) && Enabled(Run(s, steps[..|steps| - 1]), steps[|steps| - 1]))
  }

  function Run(s: State, steps: seq<Step>): State
    requires Legal(s, steps)
    decreases |steps|, 1
  {
    if steps == [] then s
    else Apply(Run(s, steps[..|steps| - 1]), steps[|steps| - 1])
  }

  lemma FreshOk(s: State)
    requires Fresh(s)
    ensures Inv(s)
  {
    assert s.wire == Wire(s.stream[..0]);
    forall k: nat | Window(s, k) ensures Place(s, k) {
    }
  }

  lemma {:induction false} RunOk(s: State, steps: seq<Step>)
    requires Fresh(s) && Legal(s, steps)
    ensures Inv(Run(s, steps)) && |Run(s, steps).bd| == |s.bd|
  {
    hide Inv, Enabled, Apply;
    if steps == [] {
      FreshOk(s);
    } else {
      RunOk(s, steps[..|steps| - 1]);
      StepKeeps(Run(s, steps[..|steps| - 1]), steps[|steps| - 1]);
    }
  }

  /** A run from an unused ring that ends in state `e`. */
  predicate Reaches(s: State, steps: seq<Step>, e: State)
  {
    Fresh(s) && Legal(s, steps) && e == Run(s, steps)
  }

  lemma ReachedOk(s: State, steps: seq<Step>, e: State)
    requires Reaches(s, steps, e)
    ensures Inv(e) && |e.bd| == |s.bd|
  {
    hide Fresh, Legal, Run, Inv;
    RunOk(s, steps);
  }

  // ---------------------------------------------------------------- order of frames

  function Begun(steps: seq<Step>): seq<Frame>
  {
    if steps == [] then []
    else
      var step := steps[|steps| - 1];
      Begun(steps[..|steps| - 1]) + if step.Begin? then [step.frame] else []
  }

  function InHand(s: State): seq<Frame>
  {
    if s.phase.Loading? || s.phase.Loaded? || s.phase.Closed? then [s.phase.frame] else []
  }

  lemma PublishedStep(s: State, step: Step)
    requires Enabled(s, step)
    ensures Apply(s, step).frames + InHand(Apply(s, step)) ==
            s.frames + InHand(s) + if step.Begin? then [step.frame] else []
  {
    hide At, WriteDesc, Blanked, Cells;
  }

  lemma {:induction false} PublishedRun(s: State, steps: seq<Step>)
    requires Fresh(s) && Legal(s, steps)
    ensures Run(s, steps).frames + InHand(Run(s, steps)) == Begun(steps)
  {
    hide Enabled, Apply;
    if steps != [] {
      PublishedRun(s, steps[..|steps| - 1]);
      PublishedStep(Run(s, steps[..|steps| - 1]), steps[|steps| - 1]);
    }
  }

  /** Frames are published in the order in which the driver took the packets. */
  lemma PublishedInOrder(s: State, steps: seq<Step>, e: State)
    requires Reaches(s, steps, e)
    ensures e.frames + InHand(e) == Begun(steps)
  {
    PublishedRun(s, steps);
  }

  // ---------------------------------------------------------------- what the wire carries

  /** A receiver that cuts the byte stream after every LAST: finished frames and the open one. */
  function Cut(w: seq<Sent>): (r: (seq<seq<byte>>, seq<byte>))
  {
    if w == [] then ([], [])
    else
      var (done, open) := Cut(w[..|w| - 1]);
      var d := w[|w| - 1];
      if d.last then (done + [open + d.bytes], []) else (done, open + d.bytes)
  }

  function Payloads(fs: seq<Frame>): seq<seq<byte>>
  {
    seq(|fs|, i requires 0 <= i < |fs| => Bytes(fs[i].packet.chain))
  }

  lemma {:induction false} CutCells(w: seq<Sent>, f: Frame, k: nat)
    requires Cut(w).1 == [] && k <= |Cells(f)|
    ensures Cut(w + Wire(Cells(f)[..k])) ==
            if 0 < k == |Cells(f)| then (Cut(w).0 + [Bytes(f.packet.chain)], [])
            else (Cut(w).0, Bytes(NonEmpty(f.packet.chain)[..k]))
  {
    var cs, ms := Cells(f), NonEmpty(f.packet.chain);
    if k == 0 {
      assert w + Wire(cs[..0]) == w;
    } else {
      hide Cells, Cut, Bytes, NonEmpty;
      CutCells(w, f, k - 1);
      CutNext(w, cs, k);
      CellBytes(f, k);
      if k == |cs| {
        assert ms[..k] == ms;
        NonEmptyBytes(f.packet.chain);
      }
    }
  }

  lemma CutNext(w: seq<Sent>, cs: seq<Cell>, k: nat)
    requires 0 < k <= |cs|
    ensures var (done, open) := Cut(w + Wire(cs[..k - 1]));
            var c := cs[k - 1];
            Cut(w + Wire(cs[..k])) ==
            if c.last then (done + [open + c.mbuf.data], []) else (done, open + c.mbuf.data)
  {
    var v := w + Wire(cs[..k]);
    assert v[..|v| - 1] == w + Wire(cs[..k - 1]);
    assert v[|v| - 1] == OnWire(cs[k - 1]);
  }

  lemma CellBytes(f: Frame, k: nat)
    requires 0 < k <= |Cells(f)|
    ensures var ms, c := NonEmpty(f.packet.chain), Cells(f)[k - 1];
            c.mbuf == ms[k - 1] && (c.last <==> k == |Cells(f)|) &&
            Bytes(ms[..k]) == Bytes(ms[..k - 1]) + c.mbuf.data
  {
    var ms := NonEmpty(f.packet.chain);
    assert ms[..k][..k - 1] == ms[..k - 1];
  }

  lemma WireConcat(a: seq<Cell>, b: seq<Cell>)
    ensures Wire(a + b) == Wire(a) + Wire(b)
  {
  }

  lemma {:induction false} CutFrames(fs: seq<Frame>)
    requires forall f :: f in fs ==> Cells(f) != []
    ensures Cut(Wire(Flatten(fs))) == (Payloads(fs), [])
  {
    if fs == [] {
      assert Payloads(fs) == [];
    } else {
      var front, f := fs[..|fs| - 1], fs[|fs| - 1];
      CutFrames(front);
      WireConcat(Flatten(front), Cells(f));
      var w := Wire(Flatten(front));
      CutCells(w, f, |Cells(f)|);
      assert Cells(f)[..|Cells(f)|] == Cells(f);
      assert Payloads(fs) == Payloads(front) + [Bytes(f.packet.chain)];
    }
  }

  /** Cutting a prefix finds a prefix of the frames, and the beginning of the next one. */
  lemma {:induction false} CutPrefix(w: seq<Sent>, k: nat)
    requires k <= |w|
    ensures var (done, open) := Cut(w[..k]);
            && done <= Cut(w).0
            && (|done| < |Cut(w).0| ==> open <= Cut(w).0[|done|])
            && (|done| == |Cut(w).0| ==> open <= Cut(w).1)
    decreases |w| - k
  {
    if k == |w| {
      assert w[..k] == w;
    } else {
      CutPrefix(w, k + 1);
      assert w[..k + 1][..k] == w[..k];
    }
  }

  lemma CutWire(e: State)
    requires Inv(e)
    ensures var (done, open) := Cut(e.wire);
            && done <= Payloads(e.frames)
            && (open != [] ==> |done| < |e.frames| && open <= Payloads(e.frames)[|done|])
            && (e.hw == |e.stream| ==> done == Payloads(e.frames) && open == [])
  {
    hide Places, Awake, Flatten, Slot;
    CutFrames(e.frames);
    var w := Wire(Flatten(e.frames));
    assert e.wire == w[..e.hw];
    CutPrefix(w, e.hw);
    if e.hw == |e.stream| {
      assert w[..e.hw] == w;
    }
  }

  /** A receiver sees exactly the packets handed over, whole and in order, however the engine is
      interleaved with the writes of the driver; once the engine has caught up, it sees all that
      were published. */
  lemma WireCarriesPackets(s: State, steps: seq<Step>, e: State)
    requires Reaches(s, steps, e)
    ensures var (done, open) := Cut(e.wire);
            && done <= Payloads(Begun(steps))
            && (open != [] ==> |done| < |Begun(steps)| && open <= Payloads(Begun(steps))[|done|])
            && (e.hw == |e.stream| ==> done == Payloads(e.frames) && open == [])
  {
    hide Inv, Fresh, Legal, Run, Cut;
    ReachedOk(s, steps, e);
    PublishedInOrder(s, steps, e);
    CutWire(e);
    assert Payloads(e.frames) == Payloads(Begun(steps))[..|e.frames|];
  }

  // ---------------------------------------------------------------- frames are never torn

  lemma MidFrame(e: State)
    requires Inv(e) && e.wire != [] && !e.wire[|e.wire| - 1].last
    ensures e.hw < |e.stream| && e.hp < |e.bd| && e.bd[e.hp].status.ready && e.active
  {
    hide Slot, Owners;
    assert e.wire[|e.wire| - 1] == OnWire(e.stream[e.hw - 1]);
    WholeAtEnd(e);
    assert Place(e, e.hw);
  }

  /** Once the engine has sent part of a frame, the next descriptor of it is READY and the engine is
      running, interface up or down: it never starves mid-frame. */
  lemma NeverStarvesMidFrame(s: State, steps: seq<Step>, e: State)
    requires Reaches(s, steps, e) && e.wire != [] && !e.wire[|e.wire| - 1].last
    ensures e.hp < |e.bd| && e.bd[e.hp].status.ready && e.active
  {
    hide Inv, Fresh, Legal, Run;
    ReachedOk(s, steps, e);
    MidFrame(e);
  }

  // ---------------------------------------------------------------- when the doorbell stays down

  lemma ReadyIsPublished(e: State)
    requires Inv(e)
    ensures e.hp < |e.bd| && (e.bd[e.hp].status.ready <==> e.hw < |e.stream|)
  {
    hide Slot, Logs, Awake;
    assert Place(e, e.hw);
  }

  /** The driver skips the doorbell, the interface being down, with the engine asleep on this work. */
  predicate Skips(s: State, step: Step)
  {
    step.Kick? && !s.up && !s.active && s.hw < |s.stream|
  }

  predicate Rings(s: State, step: Step)
  {
    step.Isr? || (step.Kick? && s.up)
  }

  /** Step `j` of the run skips the doorbell, and no later step rings it. */
  ghost predicate SkippedAt(s: State, steps: seq<Step>, j: nat)
  {
    && j < |steps| && Legal(s, steps[..j]) && Skips(Run(s, steps[..j]), steps[j])
    && (forall i: nat :: j < i < |steps| && Legal(s, steps[..i]) ==> !Rings(Run(s, steps[..i]), steps[i]))
  }

  ghost predicate LeftAsleep(s: State, steps: seq<Step>)
  {
    exists j: nat :: SkippedAt(s, steps, j)
  }

  lemma {:induction false} LegalPrefix(s: State, steps: seq<Step>, k: nat)
    requires Legal(s, steps) && k <= |steps|
    ensures Legal(s, steps[..k])
  {
    hide Enabled, Apply;
    if k == |steps| {
      assert steps[..k] == steps;
    } else {
      assert steps[..|steps| - 1][..k] == steps[..k];
      LegalPrefix(s, steps[..|steps| - 1], k);
    }
  }

  /** What one more step does to the fact that the engine was left asleep. */
  lemma LeftAsleepNext(s: State, steps: seq<Step>)
    requires steps != [] && Legal(s, steps)
    ensures var p, step := Run(s, steps[..|steps| - 1]), steps[|steps| - 1];
            LeftAsleep(s, steps) <==> Skips(p, step) || (LeftAsleep(s, steps[..|steps| - 1]) && !Rings(p, step))
  {
    hide Legal, Run, Skips, Rings;
    var n := |steps| - 1;
    var front := steps[..n];
    LegalPrefix(s, steps, n);
    assert forall i: nat {:trigger steps[..i]} :: i <= n ==> front[..i] == steps[..i];
    if Skips(Run(s, front), steps[n]) {
      assert SkippedAt(s, steps, n);
    } else if j: nat :| SkippedAt(s, front, j) && !Rings(Run(s, front), steps[n]) {
      SkippedLonger(s, steps, j);
    } else if j: nat :| SkippedAt(s, steps, j) {
      SkippedShorter(s, steps, j);
    }
  }

  lemma SkippedLonger(s: State, steps: seq<Step>, j: nat)
    requires steps != [] && Legal(s, steps)
    requires SkippedAt(s, steps[..|steps| - 1], j) && !Rings(Run(s, steps[..|steps| - 1]), steps[|steps| - 1])
    ensures SkippedAt(s, steps, j)
  {
    hide Legal, Run, Skips, Rings;
    var n := |steps| - 1;
    var front := steps[..n];
    assert front[..j] == steps[..j];
    forall i: nat | j < i < |steps| && Legal(s, steps[..i]) ensures !Rings(Run(s, steps[..i]), steps[i]) {
      if i < n {
        assert front[..i] == steps[..i];
      }
    }
  }

  lemma SkippedShorter(s: State, steps: seq<Step>, j: nat)
    requires steps != [] && Legal(s, steps) && SkippedAt(s, steps, j)
    requires !Skips(Run(s, steps[..|steps| - 1]), steps[|steps| - 1])
    ensures SkippedAt(s, steps[..|steps| - 1], j) && !Rings(Run(s, steps[..|steps| - 1]), steps[|steps| - 1])
  {
    hide Legal, Run, Skips, Rings;
    var n := |steps| - 1;
    var front := steps[..n];
    LegalPrefix(s, steps, n);
    assert front[..j] == steps[..j];
    forall i: nat | j < i < n && Legal(s, front[..i]) ensures !Rings(Run(s, front[..i]), front[i]) {
      assert front[..i] == steps[..i];
    }
  }

  lemma MissedNext(p: State, step: Step)
    requires Inv(p) && Enabled(p, step)
    ensures Apply(p, step).missed <==> Skips(p, step) || (p.missed && !Rings(p, step))
  {
    hide Slot, Logs, Places, At, WriteDesc;
  }

  lemma {:induction false} MissedIff(s: State, steps: seq<Step>)
    requires Fresh(s) && Legal(s, steps)
    ensures Run(s, steps).missed <==> LeftAsleep(s, steps)
  {
    hide Inv, Enabled, Apply, LeftAsleep, Skips, Rings;
    if steps == [] {
      NeverSkipped(s);
    } else {
      var front := steps[..|steps| - 1];
      MissedIff(s, front);
      RunOk(s, front);
      MissedNext(Run(s, front), steps[|steps| - 1]);
      LeftAsleepNext(s, steps);
    }
  }

  lemma NeverSkipped(s: State)
    ensures !LeftAsleep(s, [])
  {
  }

  /** In every run, except between a publication and the look at the doorbell that follows it, the
      doorbell is down with a READY descriptor at the engine's pointer exactly when a doorbell was
      skipped because the interface was down, and has not been rung since. */
  lemma NoLostKick(s: State, steps: seq<Step>, e: State)
    requires Reaches(s, steps, e) && !e.phase.Kicking?
    ensures e.hp < |e.bd|
    ensures !e.active && e.bd[e.hp].status.ready <==> LeftAsleep(s, steps)
  {
    hide Inv, Fresh, Legal, Run, LeftAsleep;
    ReachedOk(s, steps, e);
    ReadyIsPublished(e);
    AsleepIsMissed(e);
    MissedIff(s, steps);
  }

  lemma AsleepIsMissed(e: State)
    requires Inv(e) && !e.phase.Kicking?
    ensures e.missed <==> !e.active && e.hw < |e.stream|
  {
    hide Counts, Logs, Places;
  }

  /** Looking at the doorbell leaves the engine awake exactly when the interface is up or the doorbell
      was up already. */
  lemma KickWakesIff(s: State)
    requires Inv(s) && s.phase.Kicking?
    ensures Enabled(s, Kick) && Apply(s, Kick).phase.Idle?
    ensures Apply(s, Kick).active <==> s.up || s.active
  {
    hide Slot, Logs, Places;
  }

  /** The interrupt handler rings the doorbell exactly when unsent descriptors are waiting. */
  lemma LastActiveMeansWork(s: State)
    requires Inv(s) && (s.phase.Idle? || s.phase.Kicking?)
    ensures LastActive(s) <==> s.hw < |s.stream|
  {
    hide Slot, Logs, Awake, Holds;
    var n := |s.bd|;
    if |s.stream| > s.tail {
      var j := |s.stream| - 1;
      SlotNext(s.base + j, n);
      assert Place(s, j);
    } else {
      SlotTurn(s.base + s.tail, n);
      SlotNext(s.base + s.tail + n - 1, n);
      assert Place(s, s.tail + n - 1);
    }
  }

  // ---------------------------------------------------------------- indices and slots

  /** How far slot `i` lies after the consumer index. */
  function Ahead(s: State, i: nat): nat
    requires i < |s.bd| && s.cidx < |s.bd|
  {
    Distance(s.cidx, i, |s.bd|)
  }

  lemma {:induction false} AheadIs(s: State, k: nat)
    requires Counts(s) && Window(s, k)
    ensures Ahead(s, At(s, k)) == k - s.tail
    decreases k
  {
    hide Slot;
    if k > s.tail {
      AheadIs(s, k - 1);
      SlotNext(s.base + k - 1, |s.bd|);
      Apart(s, s.tail, k);
    }
  }

  lemma SlotBetweenCalls(e: State, i: nat)
    requires Inv(e) && e.phase.Idle? && i < |e.bd|
    ensures e.bd[i].status.wrap == (i == |e.bd| - 1)
    ensures Ahead(e, i) >= e.inuse ==> Blank(e.bd[i]) && e.pkts[i] == None
  {
    hide Slot, Logs, Holds, Blank;
    var j := SlotCovered(e.base + e.tail, i, |e.bd|);
    assert Place(e, j - e.base);
    AheadIs(e, j - e.base);
  }

  /** The ring between two calls: the count is the distance of the indices and never fills the
      ring, WRAP marks the last slot only, and the slots outside the outstanding stretch carry no
      flag and no packet. */
  lemma RingBetweenCalls(s: State, steps: seq<Step>, e: State)
    requires Reaches(s, steps, e) && e.phase.Idle?
    ensures |e.bd| == |e.pkts| == |s.bd| && e.pidx < |e.bd| && e.cidx < |e.bd|
    ensures e.inuse == Ahead(e, e.pidx) <= |e.bd| - 1
    ensures e.pidx == e.cidx <==> e.inuse == 0
    ensures forall i {:trigger e.bd[i]} :: 0 <= i < |e.bd| ==>
              && e.bd[i].status.wrap == (i == |e.bd| - 1)
              && (Ahead(e, i) >= e.inuse ==> Blank(e.bd[i]) && e.pkts[i] == None)
  {
    hide Fresh, Legal, Run, Logs, Places, Slot, Blank;
    ReachedOk(s, steps, e);
    AheadIs(e, |e.stream|);
    forall i {:trigger e.bd[i]} | 0 <= i < |e.bd|
      ensures e.bd[i].status.wrap == (i == |e.bd| - 1)
      ensures Ahead(e, i) >= e.inuse ==> Blank(e.bd[i]) && e.pkts[i] == None
    {
      SlotBetweenCalls(e, i);
    }
  }

  lemma FreeToLoad(s: State)
    requires Inv(s) && Enabled(s, Write) && s.phase.part == 0
    ensures !s.bd[At(s, |s.stream| + s.phase.k)].status.ready
  {
    hide Slot, Logs, Awake, Holds;
    assert Place(s, |s.stream| + s.phase.k);
  }

  /** The descriptor about to be loaded is never READY: the branch of mx6q_tx that says it should
      never happen does not. */
  lemma LoadedSlotIsFree(s: State, steps: seq<Step>, e: State)
    requires Reaches(s, steps, e) && Enabled(e, Write) && e.phase.part == 0
    ensures !e.bd[At(e, |e.stream| + e.phase.k)].status.ready
  {
    hide Inv, Fresh, Legal, Run;
    ReachedOk(s, steps, e);
    FreeToLoad(e);
  }

  // ---------------------------------------------------------------- packets are freed once

  /** The packets remembered in `m` consecutive slots, in ring order. */
  function InRing(pkts: seq<Option<Packet>>, from: nat, m: nat): seq<Packet>
    requires |pkts| > 0
  {
    if m == 0 then []
    else
      var p := pkts[Slot(from + m - 1, |pkts|)];
      InRing(pkts, from, m - 1) + if p.Some? then [p.value] else []
  }

  lemma {:induction false} OwnersAppend(a: seq<Cell>, b: seq<Cell>)
    ensures Owners(a + b) == Owners(a) + Owners(b)
  {
    if b == [] {
      assert a + b == a;
    } else {
      var c := a + b;
      assert c[..|c| - 1] == a + b[..|b| - 1];
      OwnersAppend(a, b[..|b| - 1]);
    }
  }

  lemma {:induction false} OwnersOfPart(f: Frame, k: nat)
    requires 0 < k <= |Cells(f)|
    ensures Owners(Cells(f)[..k]) == [f.packet]
  {
    var cs := Cells(f)[..k];
    assert cs[..k - 1] == Cells(f)[..k - 1];
    if k > 1 {
      OwnersOfPart(f, k - 1);
    }
  }

  lemma FlattenNext(fs: seq<Frame>)
    requires fs != []
    ensures Flatten(fs) == Flatten(fs[..|fs| - 1]) + Cells(fs[|fs| - 1])
  {
  }

  lemma NoOwners()
    ensures Owners(Flatten([])) == []
  {
  }

  lemma {:induction false} OwnersOfFrames(fs: seq<Frame>)
    requires forall f :: f in fs ==> Cells(f) != []
    ensures Owners(Flatten(fs)) == PacketsOf(fs)
  {
    hide Cells, Owners, Flatten;
    if fs == [] {
      NoOwners();
    } else {
      var front, f := fs[..|fs| - 1], fs[|fs| - 1];
      OwnersOfFrames(front);
      OwnersAppend(Flatten(front), Cells(f));
      assert f in fs;
      OwnersOfPart(f, |Cells(f)|);
      assert Cells(f)[..|Cells(f)|] == Cells(f);
      FlattenNext(fs);
      assert PacketsOf(fs) == PacketsOf(front) + [f.packet];
    }
  }

  /** The packets whose heads lie among the `m` descriptors after the consumer index. */
  function RingOwners(s: State, m: nat): seq<Packet>
    requires s.tail <= |s.stream|
  {
    if s.tail + m <= |s.stream| then Owners(s.stream[s.tail..s.tail + m])
    else Owners(s.stream[s.tail..]) + (if Counted(s) > 0 then [s.phase.frame.packet] else [])
  }

  /** The slot array, read from the consumer index, is the rest of the stream's owners. */
  lemma {:induction false} InRingIs(s: State, m: nat)
    requires Counts(s) && Places(s) && m <= |s.bd|
    ensures InRing(s.pkts, s.base + s.tail, m) == RingOwners(s, m)
  {
    hide Slot, SlotOk;
    if m > 0 {
      InRingIs(s, m - 1);
      assert Place(s, s.tail + m - 1);
      InRingStep(s, m);
    } else {
      RingOwnersNone(s);
    }
  }

  lemma RingOwnersNone(s: State)
    requires Counts(s)
    ensures RingOwners(s, 0) == []
  {
    assert s.stream[s.tail..s.tail] == [];
  }

  lemma InRingStep(s: State, m: nat)
    requires Counts(s) && 0 < m <= |s.bd| && PktOk(s, s.tail + m - 1)
    requires InRing(s.pkts, s.base + s.tail, m - 1) == RingOwners(s, m - 1)
    ensures InRing(s.pkts, s.base + s.tail, m) == RingOwners(s, m)
  {
    hide Slot, Cells;
    var k := s.tail + m - 1;
    assert s.pkts[At(s, k)] == Remembered(s, k);
    if k < |s.stream| {
      var cs := s.stream[s.tail..k + 1];
      assert cs[..|cs| - 1] == s.stream[s.tail..k];
      assert RingOwners(s, m) == Owners(cs);
      assert RingOwners(s, m - 1) == Owners(s.stream[s.tail..k]);
    } else if k == |s.stream| {
      assert s.stream[s.tail..k] == s.stream[s.tail..];
    }
  }

  /** The packets of all published frames, and of the one in hand once it has been counted. */
  function Taken(s: State): seq<Packet>
  {
    PacketsOf(s.frames) + if Counted(s) > 0 then [s.phase.frame.packet] else []
  }

  lemma FreedPlusRing(s: State)
    requires Inv(s)
    ensures s.freed + InRing(s.pkts, s.base + s.tail, |s.pkts|) == Taken(s)
  {
    hide Slot, Flatten, Owners, Place, InRing;
    InRingIs(s, |s.bd|);
    OwnersOfFrames(s.frames);
    OwnersAppend(s.stream[..s.tail], s.stream[s.tail..]);
    assert s.stream[..s.tail] + s.stream[s.tail..] == s.stream;
  }

  /** Every packet taken by the driver is either freed or remembered in exactly one slot: the freed
      packets followed by the slots in ring order are the packets, each once and in order. */
  lemma PacketsConserved(s: State, steps: seq<Step>, e: State)
    requires Reaches(s, steps, e)
    ensures 0 < |e.pkts| == |s.bd|
    ensures e.freed + InRing(e.pkts, e.base + e.tail, |e.pkts|) == Taken(e) <= PacketsOf(Begun(steps))
  {
    hide Fresh, Legal, Run, Logs, Places, Slot, InRing;
    ReachedOk(s, steps, e);
    PublishedInOrder(s, steps, e);
    FreedPlusRing(e);
  }
}
