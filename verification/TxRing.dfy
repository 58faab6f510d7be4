/** The transmit path of the driver, one ring, with the DMA engine running between any two of its
accesses to shared memory.  `View` is the state of the protocol machine; every method extends a
legal run of that machine, so what is proved of all runs holds of every execution. */
module TxRing {
  import opened Packets
  import opened RingArith
  import opened TxMachine
  import opened TxSafety
  import opened TxRuns
  import opened TxRelease
  import opened TxIntake
  import opened TxStores
  import opened TxReaping
  import opened TxWriteBack

  // ---------------------------------------------------------------- the driver

  class Ring {
    const env: Env

    // shared with the engine
    const bd: array<Desc>
    var hp: nat
    var active: bool

    // the driver's own
    const pkts: array<Option<Packet>>
    var pidx: nat
    var cidx: nat
    var inuse: int
    var output: seq<Packet>
    var outputActive: bool
    var full: bool
    var running: bool
    var linkDown: bool

    // history
    ghost var phase: Phase
    ghost var base: nat
    ghost var frames: seq<Frame>
    ghost var stream: seq<Cell>
    ghost var tail: nat
    ghost var hw: nat
    ghost var wire: seq<Sent>
    ghost var freed: seq<Packet>
    ghost var dropped: seq<Packet>
    ghost var missed: bool
    ghost var start: State
    ghost var steps: seq<Step>

    ghost function View(): State
      reads bd, pkts, `pidx, `cidx, `inuse, `hp, `active, `missed, `running, `phase,
            `base, `frames, `stream, `tail, `hw, `wire, `freed
    {
      State(bd[..], pkts[..], pidx, cidx, inuse, hp, active, running, phase, base, frames, stream, tail, hw, wire, freed,
            missed)
    }

    ghost predicate Valid()
      reads bd, pkts, `pidx, `cidx, `inuse, `hp, `active, `missed, `running, `phase,
            `base, `frames, `stream, `tail, `hw, `wire, `freed, `start, `steps
    {
      Faithful(env) && Reaches(start, steps, View()) && Inv(View()) && AllFit(env, frames)
    }

    /** The slot of descriptor number `k`. */
    ghost function Position(k: nat): (i: nat)
      reads `base
      requires 0 < bd.Length
      ensures i < bd.Length
    {
      Slot(base + k, bd.Length)
    }

    ghost method Took(v: State, step: Step)
      requires Reaches(start, steps, v) && Inv(v) && Enabled(v, step) && View() == Apply(v, step)
      requires Faithful(env) && AllFit(env, frames)
      modifies `steps
      ensures Valid() && View() == Apply(v, step) && steps == old(steps) + [step]
    {
      hide Reaches, Inv, Enabled, Apply, Faithful, AllFit;
      Extend(start, steps, v, step);
      StepKeeps(v, step);
      steps := steps + [step];
      assert View() == Apply(v, step);
    }

    // -------------------------------------------------------------- attaching

    /** Ring initialisation for one queue. */
    constructor (env: Env, requested: nat)
      requires Faithful(env)
      ensures this.env == env && bd.Length == RingSize(requested, 64)
      ensures Valid()
      ensures Fresh(View()) && base == 0 && steps == [] && dropped == [] && output == []
      ensures fresh(bd) && fresh(pkts)
    {
      var n := RingSize(requested, 64);
      var ring := new Desc[n](_ => Desc(Status(false, false, false, false), Mbuf([], true), 0, false, false));
      var owners := new Option<Packet>[n](_ => None);
      this.env, bd, pkts := env, ring, owners;
      pidx, cidx, inuse, hp, base, tail, hw := 0, 0, 0, 0, 0, 0, 0;
      active, outputActive, full, running, linkDown := false, false, false, false, true;
      output, frames, stream, wire, freed, dropped, phase, missed := [], [], [], [], [], [], Idle, false;
      new;
      hide Valid, Faithful, AllFit, Fresh, Blank;
      BlankSlots();
      MarkSlots();
      start, steps := View(), [];
      StartAfresh();
    }

    lemma BlankSlots()
      requires forall k :: 0 <= k < bd.Length ==>
                 bd[k] == Desc(Status(false, false, false, false), Mbuf([], true), 0, false, false)
      ensures forall k :: 0 <= k < bd.Length ==> Blank(bd[k]) && !bd[k].status.wrap
    {
    }

    /** The loop over the slots of a new ring. */
    method MarkSlots()
      requires forall k :: 0 <= k < bd.Length ==> Blank(bd[k]) && !bd[k].status.wrap
      requires 0 < bd.Length == pkts.Length && forall k :: 0 <= k < pkts.Length ==> pkts[k] == None
      requires pidx == cidx == inuse == hp == base == tail == hw == 0 && phase == Idle && !missed
      requires frames == [] && stream == [] && wire == [] && freed == []
      modifies bd
      ensures Fresh(View())
      ensures forall k :: 0 <= k < bd.Length ==> Blank(bd[k]) && (bd[k].status.wrap <==> k == bd.Length - 1)
    {
      for i := 0 to bd.Length
        invariant forall k :: 0 <= k < bd.Length ==>
                    Blank(bd[k]) && (bd[k].status.wrap <==> k < i && k == bd.Length - 1)
      {
        bd[i] := bd[i].(status := Status(false, i == bd.Length - 1, false, false), stamp := false);
      }
    }

    // -------------------------------------------------------------- the engine

    /** The engine and the interrupt handler run for as long as they like. */
    method Engine()
      requires Valid()
      modifies bd, `hp, `active, `missed, `hw, `wire, `steps
      ensures Valid() && Moved(old(View()), View())
      ensures old(steps) <= steps
    {
      hide Reaches, Inv, Faithful, AllFit, Moved;
      var turns: nat := *;
      MovedNowhere(View());
      while turns > 0
        invariant Valid() && 0 < |old(View()).bd| && Moved(old(View()), View()) && old(steps) <= steps
      {
        ghost var v := View();
        var choice: nat := *;
        EngineTurn(choice);
        MovedOn(old(View()), v, View());
        turns := turns - 1;
      }
    }

    method EngineSend()
      requires Valid() && hp < bd.Length && active && bd[hp].status.ready
      modifies bd, `hp, `hw, `wire, `steps
      ensures Valid() && 0 < |old(View()).bd| && Moved(old(View()), View())
      ensures old(steps) <= steps
    {
      hide Reaches, Inv, Slot, Moved, Enabled, Apply, Faithful, AllFit;
      ghost var v := View();
      SendFits(v);
      var done := *;
      SendIs(v, done);
      var d := bd[hp];
      bd[hp] := d.(status := d.status.(ready := false), done := done);
      wire := wire + [Sent(d.buffer.data[..d.length], d.status.last, d.status.crc, d.stamp)];
      hp := if d.status.wrap then 0 else hp + 1;
      hw := hw + 1;
      assert View() == Apply(v, Send(done));
      Took(v, Send(done));
      EngineMoves(v, Send(done));
    }

    /** Write back descriptor slot `i`, if the engine has released it and the driver still has it. */
    method EngineUpdate(i: nat)
      requires Valid()
      modifies bd, `steps
      ensures Valid() && 0 < |old(View()).bd| && Moved(old(View()), View())
      ensures old(steps) <= steps
    {
      hide Reaches, Logs, Places, Awake, Slot, Moved;
      ghost var v := View();
      MovedNowhere(v);
      if i < bd.Length && Distance(cidx, i, bd.Length) < Distance(cidx, hp, bd.Length) {
        ghost var j := SlotCovered(base + tail, i, bd.Length);
        ghost var k := j - base;
        AheadIs(v, k);
        AheadIs(v, hw);
        bd[i] := bd[i].(done := true);
        assert View() == Apply(v, Update(k));
        Took(v, Update(k));
        EngineMoves(v, Update(k));
      }
    }

    method EngineTurn(choice: nat)
      requires Valid()
      modifies bd, `hp, `active, `missed, `hw, `wire, `steps
      ensures Valid() && 0 < |old(View()).bd| && Moved(old(View()), View())
      ensures old(steps) <= steps
    {
      hide Reaches, Logs, Places, Awake, Slot, Moved;
      ghost var v := View();
      MovedNowhere(v);
      if choice == 0 && active && bd[hp].status.ready {
        EngineSend();
      } else if choice == 1 && active && !bd[hp].status.ready {
        active := false;
        Took(v, Sleep);
        EngineMoves(v, Sleep);
      } else if choice == 2 && !active && bd[if pidx != 0 then pidx - 1 else bd.Length - 1].status.ready {
        active := true;
        missed := false;
        Took(v, Isr);
        EngineMoves(v, Isr);
      } else if choice >= 3 {
        EngineUpdate(choice - 3);
      }
    }

    // -------------------------------------------------------------- handing a packet over

    /** One store to descriptor `i` that the engine could observe. */
    method Store(i: nat, d: Desc, ghost step: Step)
      requires Valid() && Enabled(View(), step) && (step.Write? || step.Close? || step.Publish?)
      requires i < bd.Length && Apply(View(), step).bd == bd[..][i := d]
      requires step.Publish? ==> Fit(env, phase.frame)
      modifies bd, `phase, `frames, `stream, `steps
      ensures Valid() && View() == Apply(old(View()), step)
      ensures old(steps) <= steps
    {
      hide Reaches, Inv, At, WriteDesc, Slot, Flags, Faithful, AllFit;
      ghost var v := View();
      ghost var v' := Apply(v, step);
      bd[i] := d;
      phase, frames, stream := v'.phase, v'.frames, v'.stream;
      PublishFit(env, v, step);
      assert View() == v';
      Took(v, step);
    }

    /** Fragment `k` of frame `f` is next, to go into slot `i`, with `part` of its stores done. */
    ghost predicate Filling(f: Frame, k: nat, part: nat, i: nat)
      reads this, bd, pkts
    {
      && phase == Loading(f, k, part) && k < |Cells(f)| && 0 < bd.Length
      && i == Position(|stream| + k) && i < bd.Length
    }

    /** The next of the four stores to slot `i`, and then the engine. */
    method Fill(i: nat, d: Desc, ghost f: Frame, ghost k: nat, ghost part: nat)
      requires Valid() && Filling(f, k, part, i) && part <= 3
      requires d == WriteDesc(bd[i], phase)
      modifies bd, `phase, `frames, `stream, `steps, `hp, `active, `missed, `hw, `wire
      ensures Valid() && frames == old(frames) && stream == old(stream)
      ensures old(steps) <= steps
      ensures phase == WritePhase(Loading(f, k, part)) && bd[i] == d
      ensures part < 3 ==> Filling(f, k, part + 1, i)
    {
      hide Reaches, Inv, Slot, WriteDesc, Faithful, AllFit, Apply, Enabled, Moved;
      CanWrite(View());
      Store(i, d, Write);
      ghost var v := View();
      Engine();
      StillMine(v, View(), |stream| + k);
    }

    /** Fill the descriptor for one fragment: buffer, length, READY unless it is the first of the
        frame, and the timestamp request if the frame needs one. */
    method LoadDescriptor(i: nat, m: Mbuf, first: bool, stampNeeded: bool, ghost f: Frame, ghost k: nat)
      requires Valid() && Filling(f, k, 0, i)
      requires m == NonEmpty(f.packet.chain)[k] && first == (k == 0) && stampNeeded == f.stamp
      modifies bd, `phase, `frames, `stream, `steps, `hp, `active, `missed, `hw, `wire
      ensures Valid() && frames == old(frames) && stream == old(stream)
      ensures old(steps) <= steps
      ensures phase == Loading(f, k + 1, 0)
    {
      hide Valid, Filling;
      PointAt(i, m, f, k);
      SetFlags(i, m, first, stampNeeded, f, k);
    }

    /** Buffer and length. */
    method PointAt(i: nat, m: Mbuf, ghost f: Frame, ghost k: nat)
      requires Valid() && Filling(f, k, 0, i) && m == NonEmpty(f.packet.chain)[k]
      modifies bd, `phase, `frames, `stream, `steps, `hp, `active, `missed, `hw, `wire
      ensures Valid() && Filling(f, k, 2, i) && frames == old(frames) && stream == old(stream)
      ensures old(steps) <= steps
    {
      hide Valid, WriteDesc, Cells, NonEmpty, Position;
      WritesAre(bd[i], f, k, m);
      Fill(i, bd[i].(buffer := m), f, k, 0);
      WritesAre(bd[i], f, k, m);
      Fill(i, bd[i].(length := |m.data|), f, k, 1);
    }

    /** READY, unless withheld, and the timestamp request, if any. */
    method SetFlags(i: nat, m: Mbuf, first: bool, stampNeeded: bool, ghost f: Frame, ghost k: nat)
      requires Valid() && Filling(f, k, 2, i)
      requires m == NonEmpty(f.packet.chain)[k] && first == (k == 0) && stampNeeded == f.stamp
      modifies bd, `phase, `frames, `stream, `steps, `hp, `active, `missed, `hw, `wire
      ensures Valid() && frames == old(frames) && stream == old(stream)
      ensures old(steps) <= steps
      ensures phase == Loading(f, k + 1, 0)
    {
      hide Valid, WriteDesc, Cells, NonEmpty, Position;
      WritesAre(bd[i], f, k, m);
      if first {
        Fill(i, bd[i], f, k, 2);
      } else {
        Fill(i, bd[i].(status := bd[i].status.(ready := true)), f, k, 2);
      }
      WritesAre(bd[i], f, k, m);
      if stampNeeded {
        Fill(i, bd[i].(stamp := true), f, k, 3);
      } else {
        Fill(i, bd[i], f, k, 3);
      }
    }

    /** Load one fragment and step to the next slot.  The slot is never READY. */
    method LoadFragment(i: nat, m: Mbuf, first: bool, stampNeeded: bool, ghost f: Frame, ghost k: nat)
      returns (next: nat)
      requires Valid() && Filling(f, k, 0, i)
      requires m == NonEmpty(f.packet.chain)[k] && first == (k == 0) && stampNeeded == f.stamp
      modifies bd, `phase, `frames, `stream, `steps, `hp, `active, `missed, `hw, `wire
      ensures Valid() && frames == old(frames) && stream == old(stream)
      ensures old(steps) <= steps
      ensures phase == Loading(f, k + 1, 0) && 0 < bd.Length && next == Position(|stream| + k + 1)
    {
      hide Reaches, Inv, Slot, Faithful, AllFit, WriteDesc, Apply;
      CanWrite(View());
      FreeToLoad(View());
      if bd[i].status.ready {
        assert false;
      }
      LoadDescriptor(i, m, first, stampNeeded, f, k);
      SlotNext(base + |stream| + k, bd.Length);
      next := Next(i, bd.Length);
    }

    lemma StartAt()
      requires Valid()
      ensures 0 < bd.Length && (phase.Loading? ==> pidx == Position(|stream|))
    {
      hide Reaches, Inv, Slot;
      StartIndex(View());
    }

    /** Load the descriptors of a frame, starting at the producer index. */
    method LoadFrame(stampNeeded: bool, chain: seq<Mbuf>, ghost f: Frame) returns (first: nat, last: nat, idx: nat)
      requires Valid() && phase == Loading(f, 0, 0) && NonEmpty(chain) != []
      requires chain == f.packet.chain && stampNeeded == f.stamp
      modifies bd, `phase, `frames, `stream, `steps, `hp, `active, `missed, `hw, `wire
      ensures Valid() && frames == old(frames) && stream == old(stream)
      ensures old(steps) <= steps
      ensures phase == Loading(f, |Cells(f)|, 0) && 0 < bd.Length
      ensures first == Position(|stream|) && last == Position(|stream| + |Cells(f)| - 1)
      ensures idx == Position(|stream| + |Cells(f)|)
    {
      hide Valid, Position, Cells, NonEmpty, View;
      StartAt();
      first, last, idx := pidx, pidx, pidx;
      var started := false;
      ghost var k := 0;
      assert chain[..0] == [];
      for i := 0 to |chain|
        invariant Valid() && frames == old(frames) && stream == old(stream) && old(steps) <= steps
        invariant phase == Loading(f, k, 0) && k == |NonEmpty(chain[..i])| && started == (k > 0) && 0 < bd.Length
        invariant idx == Position(|stream| + k) && first == Position(|stream|)
        invariant last == Position(|stream| + if k > 0 then k - 1 else 0)
      {
        NextFragment(chain, i);
        if chain[i].data != [] {
          last := idx;
          idx := LoadFragment(idx, chain[i], !started, stampNeeded, f, k);
          started := true;
          k := k + 1;
        }
      }
      assert chain[..|chain|] == chain;
    }

    /** Account for the loaded frame: count, packet pointer, producer index. */
    method CountFrame(idx: nat, numFrag: nat, p: Packet, ghost f: Frame)
      requires Valid() && phase == Loading(f, |Cells(f)|, 0) && p == f.packet && numFrag == |Cells(f)|
      requires 0 < bd.Length && idx == Position(|stream| + |Cells(f)|)
      modifies pkts, `inuse, `pidx, `phase, `steps
      ensures Valid() && phase == Loaded(f)
      ensures old(steps) <= steps
    {
      hide Reaches, Inv, Slot, Faithful, AllFit, Apply, Enabled, Cells;
      ghost var v := View();
      CanCount(v, f);
      inuse := inuse + numFrag;
      pkts[pidx] := Some(p);
      pidx := idx;
      phase := Loaded(f);
      assert View() == Apply(v, Count);
      Took(v, Count);
    }

    /** LAST in the final one of several descriptors; the engine runs. */
    method CloseFrame(last: nat, ghost f: Frame)
      requires Valid() && phase == Loaded(f) && 0 < bd.Length && |Cells(f)| > 1
      requires last == Position(|stream| + |Cells(f)| - 1)
      modifies bd, `phase, `frames, `stream, `steps, `hp, `active, `missed, `hw, `wire
      ensures Valid() && phase == Closed(f) && frames == old(frames) && stream == old(stream)
      ensures old(steps) <= steps
    {
      hide Reaches, Inv, Slot, Faithful, AllFit, Moved, Apply, Enabled, Cells;
      CanClose(View());
      Store(last, bd[last].(status := bd[last].status.(last := true, crc := true)), Close);
      ghost var v := View();
      Engine();
      SameWork(v, View());
    }

    /** Make the frame visible to the engine: LAST in its last descriptor, READY in its first. */
    method PublishFrame(first: nat, last: nat, ghost f: Frame)
      requires Valid() && phase == Loaded(f) && 0 < bd.Length && |Cells(f)| > 0
      requires first == Position(|stream|) && last == Position(|stream| + |Cells(f)| - 1)
      requires Fit(env, f)
      modifies bd, `phase, `frames, `stream, `steps, `hp, `active, `missed, `hw, `wire
      ensures Valid() && phase == Kicking && frames == old(frames) + [f]
      ensures old(steps) <= steps
    {
      hide Reaches, Inv, Slot, Faithful, AllFit, Moved, Apply, Enabled;
      ghost var v := View();
      StartIndex(v);
      if first == last {
        OneDescriptor(v, f);
        CanPublish(v);
        Store(first, bd[first].(status := bd[first].status.(ready := true, last := true, crc := true)), Publish);
      } else {
        CloseFrame(last, f);
        CanPublish(View());
        Store(first, bd[first].(status := bd[first].status.(ready := true)), Publish);
      }
    }

    /** If the interface is running, ring the doorbell unless it is seen up four times. */
    method Kick()
      requires Valid() && phase == Kicking
      modifies bd, `phase, `steps, `hp, `active, `missed, `hw, `wire
      ensures Valid() && phase == Idle
      ensures old(steps) <= steps
      ensures running ==> !missed
      ensures !running ==> active == old(active) && hw == old(hw)
    {
      hide Reaches, Inv, At, Faithful, AllFit, Moved;
      if running {
        Ring();
      } else {
        KickEnabled(View());
        Looked();
      }
    }

    /** The driver is done with the doorbell. */
    ghost method Looked()
      requires Valid() && Enabled(View(), TxMachine.Kick) && (running ==> active)
      modifies `phase, `steps, `missed
      ensures Valid() && phase == Idle && (running ==> !missed)
      ensures old(steps) <= steps
    {
      hide Reaches, Inv, At, Faithful, AllFit;
      ghost var v := View();
      missed := !active && hw < |stream|;
      phase := Idle;
      Took(v, TxMachine.Kick);
    }

    /** The engine runs. */
    method EngineRuns()
      requires Valid()
      modifies bd, `hp, `active, `missed, `hw, `wire, `steps
      ensures Valid() && (missed ==> old(missed))
      ensures old(steps) <= steps
    {
      hide Reaches, Inv, Faithful, AllFit, Moved;
      ghost var v := View();
      MovedNowhere(v);
      Engine();
      SameWork(v, View());
    }

    method RingOnce()
      requires Valid() && Enabled(View(), TxMachine.Kick) && running
      modifies `phase, `steps, `active, `missed
      ensures Valid() && phase == Idle && !missed
      ensures old(steps) <= steps
    {
      hide Reaches, Inv, At, Faithful, AllFit;
      ghost var v := View();
      active := true;
      missed := false;
      phase := Idle;
      Took(v, TxMachine.Kick);
    }

    /** The doorbell loop. */
    method Ring()
      requires Valid() && phase == Kicking && running
      modifies bd, `phase, `steps, `hp, `active, `missed, `hw, `wire
      ensures Valid() && phase == Idle && !missed
      ensures old(steps) <= steps
    {
      hide Reaches, Inv, At, Faithful, AllFit, Moved;
      var t := 0;
      while t < 4
        invariant Valid() && old(steps) <= steps && t <= 4 && phase == (if t < 4 then Kicking else Idle) && (t == 4 ==> !missed)
      {
        KickEnabled(View());
        if !active {
          RingOnce();
          return;
        }
        t := t + 1;
        if t == 4 {
          Looked();
        }
        EngineRuns();
      }
    }

    // -------------------------------------------------------------- mx6q_tx

    lemma CellCount(f: Frame)
      ensures |Cells(f)| == |NonEmpty(f.packet.chain)|
    {
    }

    /** The driver starts on a frame. */
    ghost method TakeUp(f: Frame)
      requires Valid() && phase == Idle && bd.Length - inuse > MAX_FRAGS && 0 < |Cells(f)| <= MAX_FRAGS
      modifies `phase, `steps
      ensures Valid() && phase == Loading(f, 0, 0)
      ensures old(steps) <= steps
    {
      hide Reaches, Inv, Cells, Faithful, AllFit, Enabled, Apply;
      ghost var v := View();
      CanBegin(v, f);
      phase := Loading(f, 0, 0);
      Took(v, Begin(f));
    }

    /** Load, count, publish and kick: the part of mx6q_tx after the packet has been admitted. */
    method Transmit(m: Packet, numFrag: nat, event: bool)
      requires Valid() && phase == Idle && bd.Length - inuse > MAX_FRAGS
      requires numFrag == |NonEmpty(m.chain)| && 0 < numFrag <= MAX_FRAGS && Fit(env, Frame(m, event))
      modifies bd, pkts, `inuse, `pidx, `phase, `frames, `stream, `steps, `hp, `active, `missed, `hw, `wire
      ensures Valid() && phase == Idle && frames == old(frames) + [Frame(m, event)]
      ensures old(steps) <= steps
      ensures running ==> !missed
    {
      hide Valid, Position, NonEmpty, Cells, Fit;
      ghost var f := Frame(m, event);
      CellCount(f);
      TakeUp(f);
      var first, last, idx := LoadFrame(event, m.chain, f);
      CountFrame(idx, numFrag, m, f);
      Announce(first, last, f);
    }

    /** Publish a counted frame and kick, the engine running before and after. */
    method Announce(first: nat, last: nat, ghost f: Frame)
      requires Valid() && phase == Loaded(f) && 0 < bd.Length && |Cells(f)| > 0
      requires first == Position(|stream|) && last == Position(|stream| + |Cells(f)| - 1)
      requires Fit(env, f)
      modifies bd, `phase, `frames, `stream, `steps, `hp, `active, `missed, `hw, `wire
      ensures Valid() && phase == Idle && frames == old(frames) + [f]
      ensures old(steps) <= steps
      ensures running ==> !missed
    {
      hide Reaches, Inv, Position, Faithful, AllFit, Moved, Cells;
      ghost var v := View();
      Engine();
      SameWork(v, View());
      PublishFrame(first, last, f);
      v := View();
      Engine();
      SameWork(v, View());
      Kick();
    }

    /** Count fragments; a misaligned one counts as too many. */
    method CountFragments(p: Packet) returns (num: nat)
      ensures num > MAX_FRAGS <==> NeedsDefrag(env, p)
      ensures num <= 10 <==> Readable(env.slx, p.chain) && |NonEmpty(p.chain)| <= 10
      ensures num <= MAX_FRAGS ==> num == |NonEmpty(p.chain)|
    {
      num := 0;
      ghost var bad := false;
      assert p.chain[..0] == [];
      for i := 0 to |p.chain|
        invariant bad == (!env.slx && exists j :: 0 <= j < i && p.chain[j].data != [] && !p.chain[j].aligned)
        invariant if bad then num > MAX_FRAGS else num == |NonEmpty(p.chain[..i])|
      {
        NextFragment(p.chain, i);
        var m := p.chain[i];
        if m.data != [] {
          if !env.slx && !m.aligned {
            num := num + MAX_FRAGS + 1;
            bad := true;
          } else {
            num := num + 1;
          }
        }
      }
      assert p.chain[..|p.chain|] == p.chain;
      NeedsDefragIff(env, p);
    }

    /** mx6q_defrag: copy into one cluster, or duplicate a packet larger than a cluster. */
    method Defrag(p: Packet) returns (q: Option<Packet>)
      requires NeedsDefrag(env, p)
      modifies `dropped
      ensures q == Admitted(env, p) && dropped == old(dropped) + Dropped(env, p)
    {
      if |Bytes(p.chain)| > env.clusterSize {
        var copy := env.dup(p);
        dropped := dropped + [p];
        if copy == None {
          return None;
        }
        var m := Packet(env.copyId(p), copy.value);
        if |copy.value| > MAX_FRAGS {
          dropped := dropped + [m];
          return None;
        }
        return Some(m);
      }
      dropped := dropped + [p];
      if !env.cluster(p) {
        return None;
      }
      return Some(Packet(env.copyId(p), [Mbuf(Bytes(p.chain), true)]));
    }

    /** mx6q_tx: hand one packet to the engine. */
    method Tx(p: Packet) returns (rc: Errno)
      requires Valid() && phase == Idle && Bytes(p.chain) != [] && bd.Length - inuse > MAX_FRAGS
      modifies bd, pkts, `inuse, `pidx, `phase, `frames, `stream, `steps, `hp, `active, `missed, `hw, `wire, `dropped
      ensures Valid() && phase == Idle
      ensures old(steps) <= steps
      ensures dropped == old(dropped) + Dropped(env, p)
      ensures rc == (if Admitted(env, p).Some? then EOK else ENOMEM)
      ensures frames == old(frames) + FramesOf(env, [p])
      ensures running && rc == EOK ==> !missed
    {
      hide Reaches, Inv, At, NeedsDefrag, Jumbo, Bytes, NonEmpty, Misaligned, Cells;
      AdmittedFits(env, p);
      if Admitted(env, p).Some? {
        AdmittedReadable(env, p);
      }
      FramesOfOne(env, p);
      var m := p;
      var numFrag := CountFragments(p);
      if numFrag > MAX_FRAGS {
        var copy := Defrag(p);
        if copy == None {
          return ENOMEM;
        }
        m := copy.value;
        numFrag := |NonEmpty(m.chain)|;
      }
      Transmit(m, numFrag, env.event(m));
      rc := EOK;
    }

    // -------------------------------------------------------------- mx6q_transmit_complete

    /** Take back the descriptor at the consumer index. */
    method TakeBack(status: Status)
      requires Valid() && Enabled(View(), Reap) && status == bd[cidx].status
      modifies bd, pkts, `inuse, `cidx, `tail, `freed, `steps
      ensures Valid() && View() == Apply(old(View()), Reap)
      ensures old(steps) <= steps
    {
      hide Reaches, Inv, Slot, Faithful, AllFit, Enabled, Apply, Next;
      ghost var v := View();
      ReapIs(v);
      var idx := cidx;
      FreePacket(idx);
      bd[idx] := bd[idx].(status := Status(false, status.wrap, false, false), stamp := false, done := false);
      inuse := inuse - 1;
      cidx := Next(idx, bd.Length);
      tail := tail + 1;
      assert View() == Apply(v, Reap);
      Took(v, Reap);
    }

    /** Free the packet that slot `i` remembers, if any. */
    method FreePacket(i: nat)
      requires i < pkts.Length
      modifies pkts, `freed
      ensures pkts[..] == old(pkts[..])[i := None]
      ensures freed == old(freed) + (if old(pkts[i]).Some? then [old(pkts[i]).value] else [])
    {
      var m := pkts[i];
      if m.Some? {
        freed := freed + [m.value];
        pkts[i] := None;
      }
    }

    /** No frame end has left the ring before the engine wrote it back. */
    ghost predicate EndsWrittenBack()
      reads `start, `steps, `tail, `stream
    {
      && Legal(start, steps) && tail <= |stream|
      && forall k: nat :: k < tail && stream[k].last ==> k in WroteBack(start, steps)
    }

    lemma TakenBackWrittenBack()
      requires Valid()
      ensures EndsWrittenBack()
    {
      hide Inv, Faithful, AllFit, Fresh, Legal, Run, WroteBack;
      FrameEndsWrittenBack(start, steps, View());
    }

    /** Take back what the engine has finished with; stop at the first descriptor it still owns. */
    method TransmitComplete()
      requires Valid() && phase == Idle
      modifies bd, pkts, `inuse, `cidx, `tail, `freed, `steps, `hp, `active, `missed, `hw, `wire
      ensures Valid() && phase == Idle && old(freed) <= freed
      ensures old(steps) <= steps
      ensures inuse <= old(inuse)
      ensures 0 < |old(View()).bd| && Reaped(old(View()), View())
      ensures EndsWrittenBack()
    {
      hide Valid, Moved, Enabled, Apply, Later, Reaped, EndsWrittenBack;
      Owned();
      ghost var o := View();
      StartReaping(o);
      while pidx != cidx
        invariant Valid() && phase == Idle && old(freed) <= freed && 0 <= inuse <= old(inuse) && old(steps) <= steps
        invariant cidx < bd.Length && Later(o, View())
        decreases inuse
      {
        var again := TakeBackOne(o);
        if !again {
          TakenBackWrittenBack();
          return;
        }
      }
      NothingLeft(o);
      TakenBackWrittenBack();
    }

    lemma StartReaping(o: State)
      requires Valid() && o == View()
      ensures 0 < |o.bd| && Later(o, View())
    {
      hide Reaches, Inv, Faithful, AllFit;
      LaterSelf(o);
    }

    lemma NothingLeft(o: State)
      requires Valid() && phase == Idle && pidx == cidx && 0 < |o.bd| && 0 < bd.Length && Later(o, View())
      ensures Reaped(o, View())
    {
      hide Reaches, Inv, Faithful, AllFit, Later;
      Owned();
      ReadyEndsIt(o, View());
    }

    lemma Owned()
      requires Valid()
      ensures 0 <= inuse && cidx < bd.Length && pidx < bd.Length
    {
      hide Reaches, Logs, Places, Slot;
    }

    /** One turn of the loop: the status word and the done flag are read separately. */
    method TakeBackOne(ghost o: State) returns (again: bool)
      requires Valid() && phase == Idle && pidx != cidx && cidx < bd.Length
      requires 0 < |o.bd| && Later(o, View())
      modifies bd, pkts, `inuse, `cidx, `tail, `freed, `steps, `hp, `active, `missed, `hw, `wire
      ensures Valid() && phase == Idle && old(freed) <= freed
      ensures old(steps) <= steps
      ensures inuse == old(inuse) - (if again then 1 else 0) && 0 <= inuse && cidx < bd.Length
      ensures Later(o, View()) && (!again ==> Reaped(o, View()))
      ensures EndsWrittenBack()
    {
      hide EndsWrittenBack, Reaches, Inv, Slot, Faithful, AllFit, Moved, Later, Reaped, Enabled, Blanked, Cells;
      ghost var v := View();
      var status := bd[cidx].status;
      Engine();
      SameWork(v, View());
      ghost var w := View();
      var done := bd[cidx].done;
      Engine();
      SameWork(w, View());
      LaterReads(o, v, w, View());
      if status.ready || (status.last && !done) {
        Owned();
        again := false;
      } else {
        StillReleased(v, w, View());
        LaterReap(o, View());
        TakeBack(status);
        Owned();
        again := true;
      }
      TakenBackWrittenBack();
    }

    // -------------------------------------------------------------- mx6q_init and the link

    /** The part of mx6q_init that concerns the transmit path: the interface is marked as running.  The
        doorbell is left alone. */
    method Init()
      requires Valid() && phase == Idle
      modifies `running, `steps
      ensures Valid() && running
      ensures old(steps) <= steps
    {
      hide Reaches, Inv, Faithful, AllFit;
      if !running {
        ghost var v := View();
        running := true;
        CanChange(v);
        Took(v, Up);
      }
    }

    /** A link callback. */
    method LinkChange(down: bool)
      requires Valid()
      modifies `linkDown
      ensures Valid() && linkDown == down
    {
      hide Valid;
      linkDown := down;
    }

    // -------------------------------------------------------------- mx6q_start and mx6q_output

    /** The first `k` packets of the queue `all` have left it: each became a frame or was freed, in
        order, on top of the frames `fs` and the freed packets `ds` of before. */
    ghost predicate Drained(all: seq<Packet>, k: nat, fs: seq<Frame>, ds: seq<Packet>)
      reads `output, `frames, `dropped
    {
      && k <= |all| && output == all[k..]
      && frames == fs + FramesOf(env, all[..k])
      && dropped == ds + DroppedOf(env, all[..k])
    }

    /** A reap began after the first `n` steps of the run, nothing was published after that, and all that
        the engine had finished by then has been taken back. */
    ghost predicate ReapedAfter(n: nat)
      reads bd, pkts, `pidx, `cidx, `inuse, `hp, `active, `missed, `running, `phase,
            `base, `frames, `stream, `tail, `hw, `wire, `freed, `start, `steps
    {
      && n <= |steps| && Legal(start, steps[..n])
      && var o := Run(start, steps[..n]);
         o.frames == frames && 0 < |o.bd| && Reaped(o, View())
    }

    ghost predicate ReapedSince(m: nat)
      reads bd, pkts, `pidx, `cidx, `inuse, `hp, `active, `missed, `running, `phase,
            `base, `frames, `stream, `tail, `hw, `wire, `freed, `start, `steps
    {
      exists n: nat :: m <= n && ReapedAfter(n)
    }

    lemma ReapedNow(m: nat, before: seq<Step>, o: State)
      requires Reaches(start, before, o) && m <= |before| && before <= steps
      requires o.frames == frames && 0 < |o.bd| && Reaped(o, View())
      ensures ReapedSince(m)
    {
      hide Reaped, Fresh, Legal, Run;
      assert steps[..|before|] == before;
      assert ReapedAfter(|before|);
    }

    /** mx6q_start: move the output queue into the ring while there is room for the largest frame. */
    method Start()
      requires Valid() && phase == Idle
      requires AllHaveData(output)
      modifies `output, `outputActive, `full, bd, pkts, `inuse, `pidx, `cidx, `tail, `freed, `phase, `frames, `stream,
               `steps, `hp, `active, `missed, `hw, `wire, `dropped
      ensures Valid() && phase == Idle && old(freed) <= freed
      ensures old(steps) <= steps
      ensures old(!running || linkDown) ==>
                && output == [] && frames == old(frames) && dropped == old(dropped) + old(output)
                && outputActive == old(outputActive) && full == old(full) && steps == old(steps)
      ensures old(running && !linkDown) ==>
                && |output| <= |old(output)|
                && Drained(old(output), |old(output)| - |output|, old(frames), old(dropped))
                && (if outputActive then full && bd.Length - inuse <= MAX_FRAGS && ReapedSince(|old(steps)|)
                    else output == [] && full == old(full))
    {
      hide Valid, Drained, AllHaveData, Reaped, ReapedSince, Reaches;
      if !running || linkDown {
        dropped := dropped + output;
        output := [];
        return;
      }
      outputActive := true;
      ghost var all := output;
      NoneDrained();
      ghost var k := 0;
      while true
        invariant Valid() && phase == Idle && old(freed) <= freed && outputActive && full == old(full)
        invariant k == |all| - |output| && Drained(all, k, old(frames), old(dropped)) && old(steps) <= steps
        decreases |output|
      {
        var room := CheckRoom(|old(steps)|);
        if !room {
          full := true;
          return;
        }
        if output == [] {
          break;
        }
        SendNext(all, k, old(frames), old(dropped));
        k := k + 1;
      }
      outputActive := false;
    }

    /** The space check, with what a reap in vain means for the run. */
    method CheckRoom(ghost m: nat) returns (room: bool)
      requires Valid() && phase == Idle && m <= |steps|
      modifies bd, pkts, `inuse, `cidx, `tail, `freed, `steps, `hp, `active, `missed, `hw, `wire
      ensures Valid() && phase == Idle && old(freed) <= freed
      ensures old(steps) <= steps
      ensures room <==> bd.Length - inuse > MAX_FRAGS
      ensures !room ==> ReapedSince(m)
    {
      hide Valid, Reaped, ReapedSince, Reaches, View;
      ghost var before, o := steps, View();
      RunSoFar();
      room := MakeRoom();
      if !room {
        ReapedNow(m, before, o);
      }
    }

    lemma RunSoFar()
      requires Valid()
      ensures Reaches(start, steps, View()) && View().frames == frames
    {
      hide Reaches, Inv, Faithful, AllFit;
    }

    lemma NoneDrained()
      ensures Drained(output, 0, frames, dropped)
    {
      NothingYet(env, output);
    }

    /** Dequeue one packet and send it. */
    method SendNext(ghost all: seq<Packet>, ghost k: nat, ghost fs: seq<Frame>, ghost ds: seq<Packet>)
      requires Valid() && phase == Idle && output != [] && bd.Length - inuse > MAX_FRAGS
      requires Drained(all, k, fs, ds) && AllHaveData(all)
      modifies `output, bd, pkts, `inuse, `pidx, `phase, `frames, `stream, `steps,
               `hp, `active, `missed, `hw, `wire, `dropped
      ensures Valid() && phase == Idle && |output| == |old(output)| - 1
      ensures old(steps) <= steps
      ensures Drained(all, k + 1, fs, ds)
    {
      hide Valid, FramesOf, DroppedOf, Dropped, Bytes;
      OneMore(env, all, k);
      var m := output[0];
      output := output[1..];
      var rc := Tx(m);
    }

    /** The space check of mx6q_start and mx6q_output. */
    method MakeRoom() returns (room: bool)
      requires Valid() && phase == Idle
      modifies bd, pkts, `inuse, `cidx, `tail, `freed, `steps, `hp, `active, `missed, `hw, `wire
      ensures Valid() && phase == Idle && old(freed) <= freed
      ensures old(steps) <= steps
      ensures room <==> bd.Length - inuse > MAX_FRAGS
      ensures !room ==> 0 < |old(View()).bd| && Reaped(old(View()), View())
    {
      hide Valid, Reaped;
      if bd.Length - inuse <= MAX_FRAGS {
        TransmitComplete();
      }
      room := bd.Length - inuse > MAX_FRAGS;
    }

    /** mx6q_output for a priority that bypasses the stack: the Ethernet header, moved down by the
        caller, is put back, and the packet is sent at once or dropped. */
    method Output(p: Packet, header: seq<byte>, aligned: bool) returns (rc: Errno)
      requires Valid() && phase == Idle && p.chain != [] && |header| == 14
      modifies bd, pkts, `inuse, `pidx, `cidx, `tail, `freed, `phase, `frames, `stream, `steps,
               `hp, `active, `missed, `hw, `wire, `dropped
      ensures Valid() && phase == Idle && old(freed) <= freed
      ensures old(steps) <= steps
      ensures rc == ENOBUFS ==> frames == old(frames) && dropped == old(dropped) + [p] && bd.Length - inuse <= MAX_FRAGS &&
                                0 < |old(View()).bd| && Reaped(old(View()), View())
      ensures rc != ENOBUFS ==> var q := WithHeader(p, header, aligned);
                Bytes(q.chain) == header + Bytes(p.chain) && dropped == old(dropped) + Dropped(env, q) &&
                frames == old(frames) + FramesOf(env, [q]) &&
                rc == (if Admitted(env, q).Some? then EOK else ENOMEM)
      ensures running && rc == EOK ==> !missed
    {
      hide Valid, FramesOf, Dropped, Bytes, Reaped;
      var room := MakeRoom();
      if !room {
        dropped := dropped + [p];
        return ENOBUFS;
      }
      HeaderBytes(p, header, aligned);
      rc := Tx(WithHeader(p, header, aligned));
    }

    // -------------------------------------------------------------- mx6q_stop

    /** The ring part of mx6q_stop: reap, free what is left, and clear the slots of heads.  `v` is
        the state after reaping; the engine is asleep from then on. */
    method Stop() returns (ghost v: State)
      requires Valid() && phase == Idle
      modifies this, bd, pkts
      ensures Inv(v) && v.phase.Idle? && v.frames == old(frames) && old(freed) <= v.freed
      ensures 0 < |old(View()).bd| && Reaped(old(View()), v)
      ensures View() == Restarted(v) && start == View() && steps == []
      ensures dropped == old(dropped) + InRing(v.pkts, 0, |v.pkts|)
      ensures Valid() <==> StopsClean(v)
      ensures !running && linkDown && !outputActive && full == old(full) && output == old(output)
    {
      hide Slot, InRing, StopsClean, NoPackets, Restarted, Valid, View, Inv, Reaped;
      v := LastReap();
      ClearSlots(v);
      linkDown, outputActive := true, false;
      Restart(v);
    }

    /** The interface is marked as down, and what the engine has finished is taken back. */
    method LastReap() returns (ghost v: State)
      requires Valid() && phase == Idle
      modifies bd, pkts, `inuse, `cidx, `tail, `freed, `steps, `hp, `active, `missed, `hw, `wire, `running
      ensures Valid() && v == View() && Inv(v) && v.phase.Idle? && v.frames == old(frames) && old(freed) <= v.freed
      ensures 0 < |old(View()).bd| && Reaped(old(View()), v)
      ensures |v.bd| == |v.pkts| == bd.Length == pkts.Length && Faithful(env) && !running
      ensures v.cidx == cidx && v.hp == hp && v.active == active && v.phase == phase && v.up == running && v.cidx < |v.bd|
      ensures Fresh(Restarted(v)) <==> StopsClean(v)
    {
      hide Slot, Faithful, AllFit, StopsClean, Restarted, Valid, View, Fresh, Inv, Reaped;
      MarkDown();
      TransmitComplete();
      v := View();
      ReapedDown(old(View()), v);
      Sizes(v);
      Owned();
      StopCleanIff(v);
    }

    method MarkDown()
      requires Valid() && phase == Idle
      modifies `running, `steps
      ensures Valid() && !running && View() == old(View()).(up := false)
      ensures old(steps) <= steps
    {
      hide Reaches, Inv, Faithful, AllFit;
      if running {
        ghost var v := View();
        CanChange(v);
        running := false;
        Took(v, Down);
      }
    }

    /** The indices meet at the consumer index, and a new run begins. */
    method Restart(ghost v: State)
      requires |v.bd| == |v.pkts| == bd.Length == pkts.Length && Faithful(env)
      requires bd[..] == StoppedDescs(v.bd, v.pkts) && pkts[..] == NoPackets(|v.pkts|)
      requires cidx == v.cidx && hp == v.hp && active == v.active && phase == v.phase && running == v.up
      modifies `pidx, `inuse, `base, `frames, `stream, `tail, `hw, `wire, `freed, `missed, `start, `steps
      ensures View() == Restarted(v) && start == View() && steps == []
      ensures Valid() <==> Fresh(Restarted(v))
    {
      hide Slot, Faithful, AllFit, StoppedDescs, NoPackets, Restarted, Valid, View, Fresh;
      pidx := cidx;
      inuse := 0;
      ForgetHistory();
      start, steps := Restarted(v), [];
      ClearedIsRestarted(v);
      StartAfresh();
    }

    /** A new run begins with an empty history. */
    ghost method ForgetHistory()
      modifies `base, `frames, `stream, `tail, `hw, `wire, `freed, `missed
      ensures base == cidx && frames == [] && stream == [] && tail == hw == 0 && wire == [] && freed == [] && !missed
    {
      base, tail, hw := cidx, 0, 0;
      frames, stream, wire, freed, missed := [], [], [], [], false;
    }

    lemma Sizes(v: State)
      requires Valid() && v == View()
      ensures Faithful(env) && Inv(v) && |v.bd| == |v.pkts| == bd.Length == pkts.Length && v.phase == phase && v.frames == frames
      ensures v.cidx == cidx && v.hp == hp && v.active == active && v.freed == freed && v.up == running
    {
      hide Logs, Places, Slot, Reaches;
    }

    lemma ClearedIsRestarted(v: State)
      requires |v.bd| == |v.pkts| == bd.Length == pkts.Length
      requires bd[..] == StoppedDescs(v.bd, v.pkts) && pkts[..] == NoPackets(|v.pkts|)
      requires pidx == cidx == base == v.cidx && inuse == 0 && hp == v.hp && active == v.active && phase == v.phase && running == v.up
      requires !missed && frames == [] && stream == [] && tail == hw == 0 && wire == [] && freed == []
      ensures View() == Restarted(v)
    {
    }

    lemma NothingPublished(v: State)
      requires Fresh(v)
      ensures v.frames == []
    {
    }

    lemma StartAfresh()
      requires Faithful(env) && start == View() && steps == []
      ensures Valid() <==> Fresh(View())
    {
      hide Inv, Fresh;
      if Fresh(View()) {
        FreshOk(View());
        NothingPublished(View());
      }
    }

    /** The clearing loop: free each packet still remembered and clear the status of its slot. */
    method ClearSlots(ghost v: State)
      requires Valid() && v == View()
      modifies bd, pkts, `dropped
      ensures bd.Length == pkts.Length && bd[..] == StoppedDescs(v.bd, v.pkts)
      ensures pkts[..] == NoPackets(|v.pkts|)
      ensures dropped == old(dropped) + InRing(v.pkts, 0, |v.pkts|)
    {
      hide Reaches, Logs, Places, Awake, Faithful, AllFit, Slot, InRing;
      InRingStart(v.pkts);
      for i := 0 to bd.Length
        invariant forall j :: 0 <= j < i ==> bd[j] == StoppedDescs(v.bd, v.pkts)[j] && pkts[j] == None
        invariant forall j :: i <= j < bd.Length ==> bd[j] == v.bd[j] && pkts[j] == v.pkts[j]
        invariant dropped == old(dropped) + InRing(v.pkts, 0, i)
      {
        InRingNext(v.pkts, i);
        var m := pkts[i];
        if m.Some? {
          dropped := dropped + [m.value];
          pkts[i] := None;
          bd[i] := bd[i].(status := Status(false, bd[i].status.wrap, false, false));
        }
      }
    }

    // -------------------------------------------------------------- what the methods add up to

    /** Whatever the methods have done so far, a receiver that cuts the wire after every LAST sees the
        bytes of the frames in order, whole but for the one being sent; all of them, once the engine
        has caught up. */
    lemma OnTheWire()
      requires Valid()
      ensures var (done, open) := Cut(wire);
              && done <= Payloads(frames)
              && (open != [] ==> |done| < |frames| && open <= Payloads(frames)[|done|])
              && (hw == |stream| ==> done == Payloads(frames) && open == [])
    {
      hide Reaches, Inv, Faithful, AllFit;
      CutWire(View());
    }

    /** Every mbuf the engine has been given it can read, and the one under its pointer too. */
    lemma EngineReads()
      requires Valid()
      ensures forall c :: c in stream ==> env.slx || c.mbuf.aligned
      ensures hp < bd.Length && (bd[hp].status.ready ==> env.slx || bd[hp].buffer.aligned)
    {
      hide Reaches, Slot, Awake, Faithful, AllFit, Flatten, Wire, Owners;
      forall c | c in stream ensures env.slx || c.mbuf.aligned {
        var f := CellFit(env, frames, c);
      }
      assert Place(View(), hw);
    }

    /** What is sent for a frame asks for a timestamp exactly if its packet is an event, and for the CRC
        exactly at its end. */
    lemma WireFlags(i: nat) returns (f: Frame)
      requires Valid() && i < |wire|
      ensures i < |stream| && f in frames && stream[i] in Cells(f) && wire[i].bytes == stream[i].mbuf.data
      ensures wire[i].stamp == env.event(f.packet)
      ensures wire[i].crc == wire[i].last
    {
      hide Reaches, Slot, Places, Awake, Faithful, AllFit, Flatten, Owners;
      assert wire[i] == OnWire(stream[i]);
      f := CellFit(env, frames, stream[i]);
    }

    /** Between calls, `missed` is what it says: published work with the engine asleep, because a
        doorbell was skipped with the interface down and has not been rung since. */
    lemma AsleepIff()
      requires Valid() && phase.Idle?
      ensures missed <==> !active && hw < |stream|
      ensures missed <==> LeftAsleep(start, steps)
    {
      hide Inv, Faithful, AllFit, LeftAsleep, Fresh, Legal, Run;
      AsleepIsMissed(View());
      MissedIff(start, steps);
    }

    /** Between calls every packet of a frame is freed or remembered in one slot, once and in order. */
    lemma PacketsAccounted()
      requires Valid() && phase.Idle?
      ensures pkts.Length > 0
      ensures freed + InRing(pkts[..], base + tail, pkts.Length) == PacketsOf(frames)
    {
      hide Reaches, Logs, Places, Awake, Slot, InRing, Faithful, AllFit;
      FreedPlusRing(View());
    }

    lemma FramesAccounted(all: seq<Packet>, k: nat, fs: seq<Frame>)
      requires Valid() && phase.Idle? && k <= |all| && frames == fs + FramesOf(env, all[..k])
      ensures pkts.Length > 0
      ensures freed + InRing(pkts[..], base + tail, pkts.Length) ==
              PacketsOf(fs) + PacketsOf(FramesOf(env, all[..k]))
    {
      hide Valid, InRing, FramesOf;
      PacketsAccounted();
      assert PacketsOf(frames) == PacketsOf(fs) + PacketsOf(FramesOf(env, all[..k]));
    }

    /** Conservation over a whole `Start`: after it has taken `k` packets off the queue `all`, on top of
        earlier frames `fs` and earlier drops `ds`, each of the packets taken and of the copies made for
        them is at one place, once: in a slot of the ring, freed by reaping, or dropped. */
    lemma StartConserves(all: seq<Packet>, k: nat, fs: seq<Frame>, ds: seq<Packet>)
      requires Valid() && phase.Idle? && Drained(all, k, fs, ds)
      ensures pkts.Length > 0
      ensures multiset(freed) + multiset(InRing(pkts[..], base + tail, pkts.Length)) + multiset(dropped) ==
              multiset(PacketsOf(fs)) + multiset(ds) + multiset(all[..k]) + multiset(CopiedOf(env, all[..k]))
    {
      hide Valid, InRing, FramesOf, DroppedOf, CopiedOf;
      FramesAccounted(all, k, fs);
      IntakeConserves(env, all[..k]);
      var a, b := PacketsOf(fs), PacketsOf(FramesOf(env, all[..k]));
      var d := DroppedOf(env, all[..k]);
      var slots := InRing(pkts[..], base + tail, pkts.Length);
      assert multiset(freed) + multiset(slots) == multiset(freed + slots) == multiset(a + b) == multiset(a) + multiset(b);
      assert multiset(dropped) == multiset(ds + d) == multiset(ds) + multiset(d);
      Regroup(multiset(a), multiset(ds), multiset(b), multiset(d),
              multiset(a), multiset(ds), multiset(all[..k]), multiset(CopiedOf(env, all[..k])));
    }
  }
}
