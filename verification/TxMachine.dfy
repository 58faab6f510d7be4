/** The transmit descriptor ring as a protocol between the driver and the DMA engine.

A state holds the shared descriptor memory, the driver's indices and the engine's position and
doorbell register.  A step is one access that the other side can observe; the engine's steps are
enabled at any time, so the legal runs are exactly the interleavings.
*/
module TxMachine {
  import opened Packets
  import opened RingArith

  const MAX_FRAGS: nat := 10

  /** The status word of a descriptor: READY, WRAP, LAST and transmit-CRC. */
  datatype Status = Status(ready: bool, wrap: bool, last: bool, crc: bool)

  /** `stamp` is the timestamp request of the extended status, `done` the update-done flag. */
  datatype Desc = Desc(status: Status, buffer: Mbuf, length: nat, stamp: bool, done: bool)

  /** A packet to be sent, with the decision to timestamp it. */
  datatype Frame = Frame(packet: Packet, stamp: bool)

  /** What one descriptor of a frame is meant to say; the head descriptor owns the packet. */
  datatype Cell = Cell(mbuf: Mbuf, owner: Option<Packet>, last: bool, stamp: bool)

  /** What the engine put on the wire for one descriptor. */
  datatype Sent = Sent(bytes: seq<byte>, last: bool, crc: bool, stamp: bool)

  /** How far the driver is with the frame in hand.
      `Loading`: `k` descriptors filled, `part` writes done to the next one, nothing published.
      `Loaded`: indices advanced.  `Closed`: LAST written, the head's READY withheld.
      `Kicking`: published, the doorbell not yet looked at. */
  datatype Phase =
    | Idle
    | Loading(frame: Frame, k: nat, part: nat)
    | Loaded(frame: Frame)
    | Closed(frame: Frame)
    | Kicking

  datatype State = State(
    bd: seq<Desc>, pkts: seq<Option<Packet>>, pidx: nat, cidx: nat, inuse: int,
    hp: nat, active: bool, up: bool, phase: Phase,
    base: nat, frames: seq<Frame>, stream: seq<Cell>, tail: nat, hw: nat,
    wire: seq<Sent>, freed: seq<Packet>, missed: bool)

  // ---------------------------------------------------------------- frames and their descriptors

  function Cells(f: Frame): (s: seq<Cell>)
    ensures |s| == |NonEmpty(f.packet.chain)|
  {
    var ms := NonEmpty(f.packet.chain);
    seq(|ms|, i requires 0 <= i < |ms| =>
      Cell(ms[i], if i == 0 then Some(f.packet) else None, i == |ms| - 1, f.stamp))
  }

  function Flatten(fs: seq<Frame>): seq<Cell>
  {
    if fs == [] then [] else Flatten(fs[..|fs| - 1]) + Cells(fs[|fs| - 1])
  }

  function PacketsOf(fs: seq<Frame>): seq<Packet>
  {
    seq(|fs|, i requires 0 <= i < |fs| => fs[i].packet)
  }

  /** The packets whose head descriptor lies in `cs`, in order. */
  function Owners(cs: seq<Cell>): seq<Packet>
  {
    if cs == [] then []
    else
      var c := cs[|cs| - 1];
      Owners(cs[..|cs| - 1]) + if c.owner.Some? then [c.owner.value] else []
  }

  function OnWire(c: Cell): Sent
  {
    Sent(c.mbuf.data, c.last, c.last, c.stamp)
  }

  function Wire(cs: seq<Cell>): seq<Sent>
  {
    seq(|cs|, i requires 0 <= i < |cs| => OnWire(cs[i]))
  }

  /** The slot of descriptor number `k`; counting starts at slot `base`. */
  function At(s: State, k: nat): (i: nat)
    requires 0 < |s.bd|
    ensures i < |s.bd|
  {
    Slot(s.base + k, |s.bd|)
  }

  /** The frame being handed over, not yet visible to the engine. */
  function Pending(s: State): (cs: seq<Cell>)
  {
    if s.phase.Loading? || s.phase.Loaded? || s.phase.Closed? then Cells(s.phase.frame) else []
  }

  function Counted(s: State): nat
  {
    if s.phase.Loaded? || s.phase.Closed? then |Cells(s.phase.frame)| else 0
  }

  // ---------------------------------------------------------------- the ring invariant

  predicate Holds(d: Desc, c: Cell)
  {
    d.buffer == c.mbuf && d.length == |c.mbuf.data| && d.stamp == c.stamp
  }

  predicate Flags(d: Desc, ready: bool, last: bool)
  {
    d.status.ready == ready && d.status.last == last && d.status.crc == last
  }

  predicate Blank(d: Desc)
  {
    Flags(d, false, false) && !d.stamp && !d.done
  }

  /** The descriptor of fragment `j` while its frame is being handed over. */
  predicate Filling(d: Desc, ph: Phase, j: nat)
    requires !ph.Idle? && !ph.Kicking? && j < |Cells(ph.frame)|
  {
    var c := Cells(ph.frame)[j];
    !d.done &&
    match ph
    case Loading(_, k, part) =>
      if j < k then Holds(d, c) && Flags(d, j > 0, false)
      else if j > k then Blank(d)
      else
        && (part >= 1 ==> d.buffer == c.mbuf)
        && (part >= 2 ==> d.length == |c.mbuf.data|)
        && Flags(d, part >= 3 && j > 0, false)
        && !d.stamp
    case Loaded(_) => Holds(d, c) && Flags(d, j > 0, false)
    case Closed(_) => Holds(d, c) && Flags(d, j > 0, c.last)
  }

  /** Descriptor number `k` is what the driver's and the engine's progress say it should be. */
  predicate SlotOk(s: State, k: nat)
    requires |s.bd| > 0 && s.hw <= |s.stream|
  {
    var d := s.bd[At(s, k)];
    && d.status.wrap == (At(s, k) == |s.bd| - 1)
    && if k < s.hw then Holds(d, s.stream[k]) && Flags(d, false, s.stream[k].last)
       else if k < |s.stream| then Holds(d, s.stream[k]) && Flags(d, true, s.stream[k].last) && !d.done
       else if k < |s.stream| + |Pending(s)| then Filling(d, s.phase, k - |s.stream|)
       else Blank(d)
  }

  /** Which packet the driver remembers for descriptor number `k`. */
  function Remembered(s: State, k: nat): Option<Packet>
  {
    if k < |s.stream| then s.stream[k].owner
    else if k == |s.stream| && Counted(s) > 0 then Some(s.phase.frame.packet)
    else None
  }

  predicate PktOk(s: State, k: nat)
    requires 0 < |s.bd| == |s.pkts|
  {
    s.pkts[At(s, k)] == Remembered(s, k)
  }

  predicate PhaseOk(s: State)
  {
    match s.phase
    case Idle => true
    case Loading(f, k, part) =>
      0 < |Cells(f)| && part <= 3 && (k < |Cells(f)| || (k == |Cells(f)| && part == 0))
    case Loaded(f) => 0 < |Cells(f)|
    case Closed(f) => 1 < |Cells(f)|
    case Kicking => true
  }

  /** Sizes, indices and counters. */
  predicate Counts(s: State)
  {
    && 0 < |s.bd| == |s.pkts|
    && PhaseOk(s)
    && s.tail <= s.hw <= |s.stream|
    && |s.stream| + |Pending(s)| < s.tail + |s.bd|
    && s.pidx == At(s, |s.stream| + Counted(s))
    && s.cidx == At(s, s.tail)
    && s.hp == At(s, s.hw)
    && s.inuse == |s.stream| + Counted(s) - s.tail
  }

  /** What has been published, sent and freed so far. */
  predicate Logs(s: State)
    requires s.tail <= s.hw <= |s.stream|
  {
    && s.stream == Flatten(s.frames)
    && (forall f :: f in s.frames ==> Cells(f) != [])
    && s.wire == Wire(s.stream[..s.hw])
    && s.freed == Owners(s.stream[..s.tail])
  }

  /** Descriptor number `k` is in its slot, and so is the packet it owns. */
  predicate Place(s: State, k: nat)
    requires 0 < |s.bd| == |s.pkts| && s.hw <= |s.stream|
  {
    SlotOk(s, k) && PktOk(s, k)
  }

  predicate Window(s: State, k: nat)
  {
    s.tail <= k < s.tail + |s.bd|
  }

  ghost predicate Places(s: State)
    requires 0 < |s.bd| == |s.pkts| && s.hw <= |s.stream|
  {
    forall k {:trigger Place(s, k)} :: Window(s, k) ==> Place(s, k)
  }

  /** The engine sleeps on published work until the driver looks at the doorbell, and after that only
      if the driver skipped the doorbell; never in the middle of a frame. */
  predicate Awake(s: State)
    requires s.hw <= |s.stream|
  {
    && (s.missed ==> !s.active && s.hw < |s.stream|)
    && (s.phase.Kicking? || s.hw >= |s.stream| || s.active || s.missed)
    && (s.hw > 0 && !s.stream[s.hw - 1].last ==> s.active)
  }

  ghost predicate Inv(s: State)
  {
    Counts(s) && Logs(s) && Places(s) && Awake(s)
  }

  // ---------------------------------------------------------------- steps

  datatype Step =
    | Begin(frame: Frame)      // mx6q_tx takes a packet
    | Write                    // one write of the descriptor loading loop
    | Count                    // tx_descr_inuse, tx_pkts and tx_pidx
    | Close                    // LAST into the last of several descriptors
    | Publish                  // READY into the head descriptor
    | Kick                     // the doorbell loop
    | Reap                     // one turn of mx6q_transmit_complete
    | Up                       // mx6q_init marks the interface as running
    | Down                     // mx6q_stop marks it as down
    | Isr                      // the transmit part of the interrupt handler
    | Send(done: bool)         // engine: send the descriptor it points at and release it
    | Update(k: nat)           // engine: write back a released descriptor
    | Sleep                    // engine: find no READY descriptor and drop the doorbell

  /** mx6q_last_bd_active: READY in the descriptor before the producer index. */
  predicate LastActive(s: State)
    requires |s.bd| > 0 && s.pidx < |s.bd|
  {
    s.bd[if s.pidx != 0 then s.pidx - 1 else |s.bd| - 1].status.ready
  }

  /** The test by which mx6q_transmit_complete takes a descriptor back. */
  predicate Reapable(s: State)
    requires s.cidx < |s.bd|
  {
    var d := s.bd[s.cidx];
    s.pidx != s.cidx && !d.status.ready && !(d.status.last && !d.done)
  }

  predicate Enabled(s: State, step: Step)
  {
    && 0 < |s.bd| == |s.pkts| && s.pidx < |s.bd| && s.cidx < |s.bd| && s.hp < |s.bd| && s.tail <= s.hw
    && match step
       case Begin(f) =>
         s.phase.Idle? && 0 < |Cells(f)| <= MAX_FRAGS && |s.bd| - s.inuse > MAX_FRAGS
       case Write => s.phase.Loading? && s.phase.k < |Cells(s.phase.frame)|
       case Count => s.phase.Loading? && s.phase.k == |Cells(s.phase.frame)|
       case Close => s.phase.Loaded? && |Cells(s.phase.frame)| > 1
       case Publish => s.phase.Closed? || (s.phase.Loaded? && |Cells(s.phase.frame)| == 1)
       case Kick => s.phase.Kicking?
       case Reap => s.phase.Idle? && Reapable(s)
       case Up => s.phase.Idle? && !s.up
       case Down => s.phase.Idle? && s.up
       case Isr => !s.active && LastActive(s)
       case Send(_) => s.active && s.bd[s.hp].status.ready && s.bd[s.hp].length <= |s.bd[s.hp].buffer.data|
       case Update(k) => s.tail <= k < s.hw
       case Sleep => s.active && !s.bd[s.hp].status.ready
  }

  /** The four writes to a descriptor, in program order. */
  function WriteDesc(d: Desc, ph: Phase): Desc
    requires ph.Loading? && ph.k < |Cells(ph.frame)|
  {
    var c := Cells(ph.frame)[ph.k];
    if ph.part == 0 then d.(buffer := c.mbuf)
    else if ph.part == 1 then d.(length := |c.mbuf.data|)
    else if ph.part == 2 then (if ph.k > 0 then d.(status := d.status.(ready := true)) else d)
    else (if c.stamp then d.(stamp := true) else d)
  }

  function WritePhase(ph: Phase): Phase
    requires ph.Loading?
  {
    if ph.part < 3 then ph.(part := ph.part + 1) else Loading(ph.frame, ph.k + 1, 0)
  }

  function Blanked(d: Desc): Desc
  {
    d.(status := Status(false, d.status.wrap, false, false), stamp := false, done := false)
  }

  function Apply(s: State, step: Step): State
    requires Enabled(s, step)
  {
    var n := |s.bd|;
    match step
    case Begin(f) => s.(phase := Loading(f, 0, 0))
    case Write =>
      var i := At(s, |s.stream| + s.phase.k);
      s.(bd := s.bd[i := WriteDesc(s.bd[i], s.phase)], phase := WritePhase(s.phase))
    case Count =>
      var m := |Cells(s.phase.frame)|;
      s.(inuse := s.inuse + m,
         pkts := s.pkts[s.pidx := Some(s.phase.frame.packet)],
         pidx := At(s, |s.stream| + m),
         phase := Loaded(s.phase.frame))
    case Close =>
      var i := At(s, |s.stream| + |Cells(s.phase.frame)| - 1);
      s.(bd := s.bd[i := s.bd[i].(status := s.bd[i].status.(last := true, crc := true))],
         phase := Closed(s.phase.frame))
    case Publish =>
      var i := At(s, |s.stream|);
      var st := s.bd[i].status;
      s.(bd := s.bd[i := s.bd[i].(status :=
           if s.phase.Closed? then st.(ready := true) else st.(ready := true, last := true, crc := true))],
         frames := s.frames + [s.phase.frame],
         stream := s.stream + Cells(s.phase.frame),
         phase := Kicking)
    case Kick =>
      var rung := s.active || s.up;
      s.(active := rung, missed := !rung && s.hw < |s.stream|, phase := Idle)
    case Reap =>
      s.(bd := s.bd[s.cidx := Blanked(s.bd[s.cidx])],
         freed := s.freed + (if s.pkts[s.cidx].Some? then [s.pkts[s.cidx].value] else []),
         pkts := s.pkts[s.cidx := None],
         inuse := s.inuse - 1,
         cidx := Next(s.cidx, n),
         tail := s.tail + 1)
    case Up => s.(up := true)
    case Down => s.(up := false)
    case Isr => s.(active := true, missed := false)
    case Send(done) =>
      var d := s.bd[s.hp];
      s.(bd := s.bd[s.hp := d.(status := d.status.(ready := false), done := done)],
         wire := s.wire + [Sent(d.buffer.data[..d.length], d.status.last, d.status.crc, d.stamp)],
         hp := if d.status.wrap then 0 else s.hp + 1,
         hw := s.hw + 1)
    case Update(k) =>
      s.(bd := s.bd[At(s, k) := s.bd[At(s, k)].(done := true)])
    case Sleep => s.(active := false)
  }
}
