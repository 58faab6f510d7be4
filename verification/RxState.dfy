/** The receive ring and the ownership of receive buffers, as values. */
module RxState {
  import opened Packets
  import opened RingArith
  import opened RxAssembly

  /** A receive descriptor; `buffer` names the mbuf whose storage it points at, and `data` is what
      the engine wrote there; `stamp` is the timestamp, which the driver never writes. */
  datatype Desc = Desc(empty: bool, wrap: bool, last: bool, err: bool, length: nat, buffer: nat, data: seq<byte>, stamp: nat)

  /** What the engine stored for one descriptor. */
  datatype Arrival = Arrival(data: seq<byte>, length: nat, last: bool, err: bool)

  function Content(d: Desc): Arrival
  {
    Arrival(d.data, d.length, d.last, d.err)
  }

  function ContentOf(t: Taken): Arrival
  {
    Arrival(t.data, t.length, t.last, t.err)
  }

  // ---------------------------------------------------------------- the ring

  /** Descriptor number `k` is EMPTY unless it has arrived, and its slot owns the mbuf it names. */
  predicate SlotOk(bd: seq<Desc>, pkts: seq<Option<nat>>, arrived: seq<Arrival>, k: nat)
    requires 0 < |bd| == |pkts|
  {
    var i := Slot(k, |bd|);
    && bd[i].wrap == (i == |bd| - 1)
    && pkts[i] == Some(bd[i].buffer)
    && (if k < |arrived| then !bd[i].empty && Content(bd[i]) == arrived[k] else bd[i].empty)
  }

  ghost predicate RingOk(bd: seq<Desc>, pkts: seq<Option<nat>>, cidx: nat, hp: nat, took: nat, arrived: seq<Arrival>)
  {
    && 0 < |bd| == |pkts|
    && cidx == Slot(took, |bd|) && hp == Slot(|arrived|, |bd|)
    && took <= |arrived| <= took + |bd|
    && forall k {:trigger SlotOk(bd, pkts, arrived, k)} :: took <= k < took + |bd| ==> SlotOk(bd, pkts, arrived, k)
  }

  lemma FillKeeps(bd: seq<Desc>, pkts: seq<Option<nat>>, cidx: nat, hp: nat, took: nat, arrived: seq<Arrival>, a: Arrival,
                  stamp: nat)
    requires RingOk(bd, pkts, cidx, hp, took, arrived) && |arrived| < took + |bd|
    ensures var d := bd[hp].(empty := false, last := a.last, err := a.err, length := a.length, data := a.data, stamp := stamp);
            RingOk(bd[hp := d], pkts, cidx, if d.wrap then 0 else hp + 1, took, arrived + [a])
  {
    hide Slot;
    var d := bd[hp].(empty := false, last := a.last, err := a.err, length := a.length, data := a.data, stamp := stamp);
    var bd', arrived' := bd[hp := d], arrived + [a];
    assert SlotOk(bd, pkts, arrived, |arrived|);
    SlotNext(|arrived|, |bd|);
    forall k: nat | took <= k < took + |bd| ensures SlotOk(bd', pkts, arrived', k) {
      assert SlotOk(bd, pkts, arrived, k);
      if k < |arrived| {
        SlotsDiffer(k, |arrived|, |bd|);
      } else if k > |arrived| {
        SlotsDiffer(|arrived|, k, |bd|);
      }
    }
  }

  /** mx6q_add_pkt: a descriptor that owns mbuf `m` and is the engine's again. */
  function Supply(i: nat, n: nat, m: nat, stamp: nat): Desc
  {
    Desc(true, i == n - 1, false, false, 0, m, [], stamp)
  }

  lemma SupplyKeeps(bd: seq<Desc>, pkts: seq<Option<nat>>, cidx: nat, hp: nat, took: nat, arrived: seq<Arrival>, m: nat,
                    stamp: nat)
    requires RingOk(bd, pkts, cidx, hp, took, arrived) && took < |arrived|
    ensures RingOk(bd[cidx := Supply(cidx, |bd|, m, stamp)], pkts[cidx := Some(m)], Next(cidx, |bd|), hp, took + 1, arrived)
  {
    hide Slot;
    var bd', pkts' := bd[cidx := Supply(cidx, |bd|, m, stamp)], pkts[cidx := Some(m)];
    SlotNext(took, |bd|);
    SlotTurn(took, |bd|);
    forall k: nat | took + 1 <= k < took + 1 + |bd| ensures SlotOk(bd', pkts', arrived, k) {
      if k < took + |bd| {
        assert SlotOk(bd, pkts, arrived, k);
        SlotsDiffer(took, k, |bd|);
      }
    }
  }

  // ---------------------------------------------------------------- timestamps

  /** Each slot shows the timestamp of the descriptor last completed in it. */
  ghost predicate Stamped(bd: seq<Desc>, stamps: seq<nat>)
  {
    |bd| > 0 && forall k: nat {:trigger stamps[k]} :: |stamps| - |bd| <= k < |stamps| ==> bd[Slot(k, |bd|)].stamp == stamps[k]
  }

  lemma StampKeeps(bd: seq<Desc>, stamps: seq<nat>, hp: nat, d: Desc)
    requires Stamped(bd, stamps) && hp == Slot(|stamps|, |bd|)
    ensures Stamped(bd[hp := d], stamps + [d.stamp])
  {
    hide Slot;
    var bd', stamps' := bd[hp := d], stamps + [d.stamp];
    forall k: nat | |stamps'| - |bd'| <= k < |stamps'| ensures bd'[Slot(k, |bd'|)].stamp == stamps'[k] {
      if k < |stamps| {
        SlotsDiffer(k, |stamps|, |bd|);
      }
    }
  }

  /** What the slot of descriptor number `k` shows after the descriptor has been given back: its own
      timestamp exactly until the engine has come round to the slot again. */
  lemma StampAfterwards(bd: seq<Desc>, stamps: seq<nat>, k: nat)
    requires Stamped(bd, stamps) && k < |stamps| <= k + 1 + |bd|
    ensures bd[Slot(k, |bd|)].stamp == stamps[if |stamps| <= k + |bd| then k else k + |bd|]
  {
    hide Slot;
    SlotTurn(k, |bd|);
  }

  // ---------------------------------------------------------------- who owns which mbuf

  function Names(ps: seq<Part>): seq<nat>
  {
    seq(|ps|, i requires 0 <= i < |ps| => ps[i].mbuf)
  }

  function NamesOf(rs: seq<Received>): seq<nat>
  {
    if rs == [] then [] else NamesOf(rs[..|rs| - 1]) + Names(rs[|rs| - 1].parts)
  }

  function InSlots(pkts: seq<Option<nat>>): multiset<nat>
  {
    if pkts == [] then multiset{}
    else
      var p := pkts[|pkts| - 1];
      InSlots(pkts[..|pkts| - 1]) + if p.Some? then multiset{p.value} else multiset{}
  }

  /** Mbufs 0 to n-1, once each: all that were ever allocated. */
  function Allocated(n: nat): multiset<nat>
  {
    if n == 0 then multiset{} else Allocated(n - 1) + multiset{n - 1}
  }

  lemma {:induction false} AllocatedOnce(n: nat, m: nat)
    ensures Allocated(n)[m] == if m < n then 1 else 0
  {
    if n > 0 {
      AllocatedOnce(n - 1, m);
    }
  }

  lemma {:induction false} AllSlotsNew(pkts: seq<Option<nat>>)
    requires forall i {:trigger pkts[i]} :: 0 <= i < |pkts| ==> pkts[i] == Some(i)
    ensures InSlots(pkts) == Allocated(|pkts|)
  {
    if pkts != [] {
      AllSlotsNew(pkts[..|pkts| - 1]);
    }
  }

  lemma {:induction false} NamesOfAppend(a: seq<Received>, b: seq<Received>)
    ensures NamesOf(a + b) == NamesOf(a) + NamesOf(b)
  {
    if b == [] {
      assert a + b == a;
    } else {
      var c := a + b;
      assert c[..|c| - 1] == a + b[..|b| - 1];
      NamesOfAppend(a, b[..|b| - 1]);
    }
  }

  lemma NamesOfOne(r: Received)
    ensures NamesOf([r]) == Names(r.parts)
  {
    assert [r][..0] == [];
  }

  /** Swapping the mbuf in one slot. */
  lemma {:induction false} InSlotsSwap(pkts: seq<Option<nat>>, i: nat, m: nat)
    requires i < |pkts| && pkts[i].Some?
    ensures InSlots(pkts[i := Some(m)]) + multiset{pkts[i].value} == InSlots(pkts) + multiset{m}
  {
    var j := |pkts| - 1;
    var next := pkts[i := Some(m)];
    if i == j {
      assert next[..j] == pkts[..j];
    } else {
      InSlotsSwap(pkts[..j], i, m);
      assert next[..j] == pkts[..j][i := Some(m)];
      var e := if pkts[j].Some? then multiset{pkts[j].value} else multiset{};
      SwapAside(InSlots(next[..j]), InSlots(pkts[..j]), e, multiset{pkts[i].value}, multiset{m});
    }
  }

  lemma SwapAside(a: multiset<nat>, b: multiset<nat>, e: multiset<nat>, o: multiset<nat>, m: multiset<nat>)
    requires a + o == b + m
    ensures (a + e) + o == (b + e) + m
  {
    assert (a + e) + o == (a + o) + e && (b + e) + m == (b + m) + e;
  }

  // ---------------------------------------------------------------- what becomes of a completed packet

  datatype Fate = Direct | Queued | Refused

  /** The packets with a given fate, in order. */
  function Select(rs: seq<Received>, fates: seq<Fate>, f: Fate): seq<Received>
    requires |rs| == |fates|
  {
    if rs == [] then []
    else
      var j := |rs| - 1;
      Select(rs[..j], fates[..j], f) + if fates[j] == f then [rs[j]] else []
  }

  lemma SelectNext(rs: seq<Received>, fates: seq<Fate>, r: Received, g: Fate, f: Fate)
    requires |rs| == |fates|
    ensures Select(rs + [r], fates + [g], f) == Select(rs, fates, f) + if g == f then [r] else []
  {
    assert (rs + [r])[..|rs|] == rs && (fates + [g])[..|fates|] == fates;
  }

  /** The flow control setting, with the values of its C enumeration. */
  datatype Flow = AUTO | NONE | BOTH | TX | RX
  {
    function Value(): int
    {
      match this case AUTO => -1 case NONE => 0 case BOTH => 1 case TX => 2 case RX => 3
    }
  }

  /** `flow_status & (MX6_FLOW_TX | MX6_FLOW_BOTH)`: one of the two low bits is set. */
  predicate FlowStops(f: Flow)
  {
    f.Value() % 4 != 0
  }

  /** The test reads as "flow control on transmit", but is true of every setting except NONE. */
  lemma FlowStopsUnlessNone(f: Flow)
    ensures FlowStops(f) <==> f != NONE
  {
    match f case AUTO => case NONE => case BOTH => case TX => case RX =>
  }

  /** The test on the first mbuf: encapsulated protocol VLAN, and inside it the type of IEEE 1722. */
  predicate Is1722(r: Received)
  {
    r.parts != [] &&
    var d := r.parts[0].data;
    |d| >= 18 && d[12] == 0x81 && d[13] == 0x00 && d[16] == 0x22 && d[17] == 0xF0
  }

  /** An Ethernet frame with a VLAN tag: both addresses, the tag protocol, the tag, the type, the rest. */
  function TaggedFrame(addresses: seq<byte>, tag: seq<byte>, kind: seq<byte>, rest: seq<byte>): seq<byte>
  {
    addresses + [0x81, 0x00] + tag + kind + rest
  }

  /** The first mbuf begins as a VLAN tagged IEEE 1722 frame does. */
  ghost predicate Avtp(r: Received)
  {
    r.parts != [] &&
    exists addresses, tag, rest ::
      |addresses| == 12 && |tag| == 2 && r.parts[0].data == TaggedFrame(addresses, tag, [0x22, 0xF0], rest)
  }

  lemma Is1722Iff(r: Received)
    ensures Is1722(r) <==> Avtp(r)
  {
    if Is1722(r) {
      var d := r.parts[0].data;
      assert d == TaggedFrame(d[..12], d[14..16], [0x22, 0xF0], d[18..]);
    }
  }

  /** Of the tagged frames it is those of type 22 F0; one of type 08 00, IPv4, is not. */
  lemma TaggedIsAvtpIff(r: Received, addresses: seq<byte>, tag: seq<byte>, kind: seq<byte>, rest: seq<byte>)
    requires |addresses| == 12 && |tag| == 2 && |kind| == 2
    requires r.parts != [] && r.parts[0].data == TaggedFrame(addresses, tag, kind, rest)
    ensures Avtp(r) <==> kind == [0x22, 0xF0]
    ensures kind == [0x08, 0x00] ==> !Avtp(r)
  {
    Is1722Iff(r);
    var d := r.parts[0].data;
    assert d[12] == 0x81 && d[13] == 0x00 && d[16] == kind[0] && d[17] == kind[1];
  }

  /** Without a tag the type itself does not count. */
  lemma UntaggedIsNotAvtp(r: Received, addresses: seq<byte>, rest: seq<byte>)
    requires |addresses| == 12 && r.parts != [] && r.parts[0].data == addresses + [0x22, 0xF0] + rest
    ensures !Avtp(r)
  {
    Is1722Iff(r);
    assert r.parts[0].data[12] == 0x22;
  }
}
