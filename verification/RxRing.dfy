/** The receive path of the driver for one class of traffic: the descriptor ring, reassembly and the
bounded queue to the stack, with the engine and the stack thread running between turns. */
module RxRing {
  import opened Packets
  import opened RingArith
  import opened RxAssembly
  import opened RxState

  datatype Turn = Nothing | More | Stop

  class Ring {
    // shared with the engine
    const bd: array<Desc>
    var hp: nat

    // the driver's own
    const pkts: array<Option<nat>>
    var cidx: nat
    var chain: seq<Part>
    var length: nat
    var full: bool
    var nextMbuf: nat
    const flow: Flow
    const allocates: nat -> bool     // whether the allocator has an mbuf, descriptor by descriptor

    // shared with the stack thread
    var queue: seq<Received>     // this class's packets in the queue
    var others: nat              // how many packets of the other classes are in it
    const maxlen: int
    var running: bool

    // history
    ghost var arrived: seq<Arrival>
    ghost var taken: seq<Taken>
    ghost var out: seq<Received>
    ghost var stamps: seq<nat>       // the timestamps, descriptor by descriptor
    ghost var fates: seq<Fate>
    ghost var found: seq<int>        // how long the queue was when each packet met its fate
    ghost var direct: seq<Received>
    ghost var handed: seq<Received>
    ghost var freed: seq<nat>
    var budget: nat      // how many more descriptors the engine will complete
    var turns: nat       // how many descriptors the driver has taken

    /** What the driver makes of descriptor number `k`: an mbuf is asked for unless it is in error. */
    ghost predicate TakenAs(t: Taken, a: Arrival, k: nat)
    {
      ContentOf(t) == a && (!a.err ==> (t.spare.Some? <==> allocates(k)))
    }

    /** The ring is sound, and descriptors are taken in the order in which the engine filled them. */
    ghost predicate Ringed()
      reads bd, pkts, `cidx, `hp, `arrived, `taken, `turns, `stamps
    {
      && turns == |taken| && |stamps| == |arrived| && Stamped(bd[..], stamps)
      && RingOk(bd[..], pkts[..], cidx, hp, |taken|, arrived)
      && (forall k: nat {:trigger taken[k]} :: k < |taken| ==> TakenAs(taken[k], arrived[k], k))
    }

    /** The partial packet and the completed ones are what reassembly makes of the descriptors taken. */
    ghost predicate Assembled()
      reads `chain, `length, `taken, `out
    {
      Asm(chain, length, out) == Run(Asm([], 0, []), taken)
    }

    /** Every completed packet but those in `hand` has met its fate. */
    ghost predicate Routed(hand: seq<Received>)
      reads `out, `fates, `found, `direct, `handed, `queue
    {
      && |fates| + |hand| == |out| && out[|fates|..] == hand
      && (forall i {:trigger fates[i]} :: 0 <= i < |fates| ==> (fates[i] == Direct <==> Avtp(out[i])))
      && |found| == |fates|
      && (forall i {:trigger fates[i]} :: 0 <= i < |fates| ==> (fates[i] == Refused <==> !Avtp(out[i]) && found[i] >= maxlen))
      && Select(out[..|fates|], fates, Direct) == direct
      && Select(out[..|fates|], fates, Queued) == handed + queue
    }

    /** The mbufs that are not in the ring: in the partial packet, in the packet in hand, in the
        queue, with the stack, or freed. */
    ghost function Elsewhere(hand: seq<Received>): multiset<nat>
      reads `chain, `queue, `handed, `direct, `freed
    {
      multiset(Names(chain)) + multiset(NamesOf(hand)) + multiset(NamesOf(queue)) +
      multiset(NamesOf(handed)) + multiset(NamesOf(direct)) + multiset(freed)
    }

    /** Every mbuf ever allocated has exactly one owner. */
    ghost predicate Owned(hand: seq<Received>)
      reads pkts, `chain, `queue, `handed, `direct, `freed, `nextMbuf
    {
      InSlots(pkts[..]) + Elsewhere(hand) == Allocated(nextMbuf)
    }

    ghost predicate Valid()
      reads bd, pkts, `cidx, `hp, `chain, `length, `arrived, `stamps, `taken, `turns, `out,
            `fates, `found, `direct, `handed, `queue, `freed, `nextMbuf
    {
      Ringed() && Assembled() && Routed([]) && Owned([])
    }

    // -------------------------------------------------------------- attaching

    /** Ring initialisation for one class: every slot gets an mbuf of its own. */
    constructor (requested: nat, maxlen: int, flow: Flow, budget: nat, allocates: nat -> bool)
      ensures bd.Length == RingSize(requested, 16) && this.flow == flow && this.maxlen == maxlen
      ensures this.allocates == allocates
      ensures Valid()
      ensures arrived == [] && taken == [] && queue == [] && !full && !running
    {
      hide Valid;
      var n := RingSize(requested, 16);
      this.maxlen, this.flow, this.budget, this.allocates := maxlen, flow, budget, allocates;
      bd := new Desc[n](i => Supply(i, n, i, 0));
      pkts := new Option<nat>[n](i => Some(i));
      hp, cidx, chain, length, full, nextMbuf, queue, others, running := 0, 0, [], 0, false, n, [], 0, false;
      turns := 0;
      arrived, taken, out, fates, direct, handed, freed := [], [], [], [], [], [], [];
      stamps, found := [], [];
      new;
      Attached(n);
    }

    lemma Attached(n: nat)
      requires 0 < n == bd.Length == pkts.Length && hp == cidx == 0 && nextMbuf == n && length == 0
      requires forall i :: 0 <= i < n ==> bd[i] == Supply(i, n, i, 0) && pkts[i] == Some(i)
      requires turns == 0 && arrived == [] && taken == [] && chain == [] && freed == [] && fates == []
      requires stamps == [] && found == []
      requires out == queue == direct == handed == []
      ensures Valid()
    {
      hide Allocated, InSlots;
      forall k: nat | 0 <= k < n ensures SlotOk(bd[..], pkts[..], arrived, k) {
      }
      AllSlotsNew(pkts[..]);
      assert Elsewhere([]) == multiset{};
    }

    // -------------------------------------------------------------- the other parties

    lemma Sizes()
      requires Ringed()
      ensures 0 < bd.Length == pkts.Length && cidx < bd.Length && hp < bd.Length
      ensures |taken| <= |arrived| <= |taken| + bd.Length
    {
      hide Slot;
    }

    lemma ValidSizes()
      requires Valid()
      ensures cidx < bd.Length && cidx < pkts.Length && pkts[cidx].Some? && turns == |taken|
    {
      Sizes();
      SlotOwner();
    }

    /** An EMPTY descriptor under the engine's pointer is one the driver has supplied. */
    lemma EmptyIsSupplied()
      requires Ringed() && hp < bd.Length && bd[hp].empty
      ensures |arrived| < |taken| + bd.Length
    {
      hide Slot;
      SlotTurn(|taken|, bd.Length);
      assert SlotOk(bd[..], pkts[..], arrived, |taken|);
    }

    /** The engine completes one descriptor, if it has an EMPTY one. */
    method Fill(a: Arrival, stamp: nat)
      requires Ringed()
      modifies bd, `hp, `arrived, `stamps, `budget
      ensures Ringed() && budget + |arrived| == old(budget + |arrived|) && old(arrived) <= arrived
      ensures old(stamps) <= stamps
      ensures cidx < bd.Length && (!old(bd[cidx].empty) ==> bd[cidx] == old(bd[cidx]))
    {
      hide Slot, RingOk, Stamped;
      Sizes();
      var d := bd[hp];
      if d.empty && budget > 0 {
        EmptyIsSupplied();
        AtPointer();
        FillKeeps(bd[..], pkts[..], cidx, hp, |taken|, arrived, a, stamp);
        ghost var was := bd[..];
        bd[hp] := d.(empty := false, last := a.last, err := a.err, length := a.length, data := a.data, stamp := stamp);
        assert bd[..] == was[hp := bd[hp]];
        StampKeeps(was, stamps, hp, bd[hp]);
        hp := if d.wrap then 0 else hp + 1;
        arrived, stamps := arrived + [a], stamps + [stamp];
        budget := budget - 1;
      }
    }

    lemma AtPointer()
      requires Ringed()
      ensures 0 < bd.Length && hp == Slot(|arrived|, bd.Length)
    {
      hide Slot;
    }

    /** The engine alone. */
    method Completing()
      requires Ringed()
      modifies bd, `hp, `arrived, `stamps, `budget
      ensures Ringed() && budget + |arrived| == old(budget + |arrived|) && old(arrived) <= arrived
      ensures old(stamps) <= stamps
    {
      hide Ringed;
      var turns: nat := *;
      while turns > 0
        invariant Ringed() && budget + |arrived| == old(budget + |arrived|) && old(arrived) <= arrived
        invariant old(stamps) <= stamps
      {
        var a: Arrival := *;
        var stamp: nat := *;
        Fill(a, stamp);
        turns := turns - 1;
      }
    }

    /** The stack thread takes one packet off the queue. */
    method Dequeue()
      requires Valid()
      modifies `queue, `handed
      ensures Valid() && handed + queue == old(handed + queue)
    {
      hide Ringed, Assembled, Select, Allocated, NamesOf;
      if queue != [] {
        var m := queue[0];
        NamesOfAppend(handed, [m]);
        NamesOfAppend([m], queue[1..]);
        assert queue == [m] + queue[1..];
        handed, queue := handed + [m], queue[1..];
        assert handed + queue == old(handed + queue);
      }
    }

    /** The engine completes descriptors, the stack thread takes packets off the queue, and the other
        classes put theirs on it. */
    method Others()
      requires Valid()
      modifies bd, `hp, `arrived, `stamps, `budget, `queue, `handed, `others
      ensures Valid() && budget + |arrived| == old(budget + |arrived|) && old(arrived) <= arrived
      ensures cidx < bd.Length && (!old(bd[cidx].empty) ==> bd[cidx] == old(bd[cidx]))
      ensures handed + queue == old(handed + queue)
    {
      hide Ringed, Assembled, Routed, Owned;
      var turns: nat := *;
      ValidSizes();
      while turns > 0
        invariant Valid() && budget + |arrived| == old(budget + |arrived|) && old(arrived) <= arrived
        invariant cidx < bd.Length && (!old(bd[cidx].empty) ==> bd[cidx] == old(bd[cidx]))
        invariant handed + queue == old(handed + queue)
      {
        var a: Arrival := *;
        var engine: bool := *;
        if !engine {
          Dequeue();
        } else {
          var stamp: nat := *;
          Fill(a, stamp);
        }
        others := *;
        turns := turns - 1;
      }
    }

    // -------------------------------------------------------------- one turn of the receive loop

    /** Put mbuf `m` into the slot at the consumer index, give the descriptor back and move on. */
    method Resupply(m: nat, ghost t: Taken)
      requires Ringed() && cidx < bd.Length && !bd[cidx].empty && TakenAs(t, Content(bd[cidx]), |taken|)
      modifies bd, pkts, `cidx, `taken, `turns
      ensures Ringed() && taken == old(taken) + [t] && |taken| <= |arrived|
      ensures old(cidx) < pkts.Length && old(pkts[cidx]).Some?
      ensures pkts[..] == old(pkts[..])[old(cidx) := Some(m)]
      ensures InSlots(pkts[..]) + multiset{old(pkts[cidx]).value} == old(InSlots(pkts[..])) + multiset{m}
    {
      hide Slot, InSlots;
      Sizes();
      assert SlotOk(bd[..], pkts[..], arrived, |taken|);
      SupplyKeeps(bd[..], pkts[..], cidx, hp, |taken|, arrived, m, bd[cidx].stamp);
      InSlotsSwap(pkts[..], cidx, m);
      var i := cidx;
      ghost var was, had := bd[..], pkts[..];
      cidx := Next(i, bd.Length);
      pkts[i] := Some(m);
      bd[i] := Supply(i, bd.Length, m, bd[i].stamp);
      assert bd[..] == was[i := bd[i]] && pkts[..] == had[i := Some(m)];
      taken := taken + [t];
      turns := turns + 1;
    }

    /** The error path and the allocation failure path: the mbuf goes straight back, and a packet
        half way is discarded. */
    method Recycle(ghost t: Taken)
      requires Valid() && cidx < bd.Length && !bd[cidx].empty && TakenAs(t, Content(bd[cidx]), |taken|)
      requires t.err || t.spare == None
      modifies bd, pkts, `cidx, `taken, `turns, `chain, `length, `freed
      ensures Valid() && |taken| == |old(taken)| + 1 && |taken| <= |arrived|
    {
      hide Ringed, Routed, Owned, Run, TakenAs;
      RunNext(taken, t);
      PutBack(t);
      DiscardPartial();
    }

    /** Give the descriptor in hand back with the mbuf it has. */
    method PutBack(ghost t: Taken)
      requires Ringed() && Owned([]) && cidx < bd.Length && !bd[cidx].empty
      requires TakenAs(t, Content(bd[cidx]), |taken|)
      modifies bd, pkts, `cidx, `taken, `turns
      ensures Ringed() && Owned([]) && taken == old(taken) + [t] && |taken| <= |arrived|
    {
      hide Ringed, InSlots, Elsewhere, Allocated, TakenAs;
      SlotOwner();
      Resupply(pkts[cidx].value, t);
      assert pkts[..] == old(pkts[..]);
    }

    method DiscardPartial()
      requires Owned([])
      modifies `chain, `length, `freed
      ensures Owned([])
      ensures if old(chain) != [] then chain == [] && length == 0 else chain == [] && length == old(length)
    {
      hide InSlots, NamesOf, Allocated;
      if chain != [] {
        freed := freed + Names(chain);
        chain := [];
        length := 0;
      }
    }

    lemma SlotOwner()
      requires Ringed() && cidx < bd.Length
      ensures cidx < pkts.Length && pkts[cidx].Some?
    {
      hide Slot;
      assert SlotOk(bd[..], pkts[..], arrived, |taken|);
    }

    lemma RunNext(ts: seq<Taken>, t: Taken)
      ensures Run(Asm([], 0, []), ts + [t]) == Take(Run(Asm([], 0, []), ts), t)
    {
      assert (ts + [t])[..|ts|] == ts;
    }

    /** Link the mbuf of the descriptor in hand as `part`, and put a new one in its slot. */
    method Exchange(part: Part, ghost t: Taken)
      requires Ringed() && Owned([]) && cidx < bd.Length && !bd[cidx].empty
      requires TakenAs(t, Content(bd[cidx]), |taken|) && cidx < pkts.Length && pkts[cidx] == Some(part.mbuf)
      modifies bd, pkts, `cidx, `taken, `turns, `chain, `nextMbuf
      ensures Ringed() && Owned([]) && taken == old(taken) + [t] && |taken| <= |arrived|
      ensures chain == old(chain) + [part]
    {
      hide Ringed, InSlots, NamesOf, Names, Elsewhere, Allocated, TakenAs;
      Resupply(nextMbuf, t);
      nextMbuf := nextMbuf + 1;
      LinkPart(part);
      Swapped(old(InSlots(pkts[..])), InSlots(pkts[..]), old(Elsewhere([])), part.mbuf, nextMbuf - 1);
    }

    /** A descriptor that does not end its frame. */
    method Extend(ghost t: Taken)
      requires Valid() && cidx < bd.Length && !bd[cidx].empty && TakenAs(t, Content(bd[cidx]), |taken|)
      requires !t.err && !t.last && t.spare.Some? && cidx < pkts.Length && Some(t.mbuf) == pkts[cidx]
      modifies bd, pkts, `cidx, `taken, `turns, `chain, `length, `nextMbuf
      ensures Valid() && |taken| == |old(taken)| + 1 && |taken| <= |arrived|
    {
      hide Ringed, Owned, Routed, Run;
      var d := bd[cidx];
      assert t.data == d.data && t.length == d.length;
      hide TakenAs;
      RunNext(taken, t);
      Exchange(Part(pkts[cidx].value, d.data, d.length), t);
      length := length + d.length;
    }

    /** The last descriptor of a frame: link its mbuf, fix the lengths, and take the packet out.  The
        timestamp is read after the descriptor has been given back; it is the frame's own unless the
        engine has completed every descriptor of the ring by then. */
    method Finish(ghost t: Taken) returns (r: Received, stamp: nat)
      requires Valid() && cidx < bd.Length && !bd[cidx].empty && TakenAs(t, Content(bd[cidx]), |taken|)
      requires !t.err && t.last && t.spare.Some? && cidx < pkts.Length && Some(t.mbuf) == pkts[cidx]
      modifies bd, pkts, `cidx, `taken, `turns, `chain, `length, `out, `nextMbuf, `hp, `arrived, `stamps, `budget
      ensures Ringed() && Assembled() && |taken| == |old(taken)| + 1 && |taken| <= |arrived|
      ensures Routed([r]) && Owned([r])
      ensures budget + |arrived| == old(budget + |arrived|) && old(arrived) <= arrived && old(stamps) <= stamps
      ensures |old(taken)| < |stamps| <= |taken| + bd.Length
      ensures stamp == stamps[if |stamps| < |taken| + bd.Length then |old(taken)| else |old(taken)| + bd.Length]
    {
      hide Ringed, Assembled, Routed, Owned, Slot, TakenAs;
      var i := cidx;
      InSlot();
      r := Assemble(t);
      stamp := ReadStamp(i, |old(taken)|);
    }

    method Assemble(ghost t: Taken) returns (r: Received)
      requires Valid() && cidx < bd.Length && !bd[cidx].empty && TakenAs(t, Content(bd[cidx]), |taken|)
      requires !t.err && t.last && t.spare.Some? && cidx < pkts.Length && Some(t.mbuf) == pkts[cidx]
      modifies bd, pkts, `cidx, `taken, `turns, `chain, `length, `out, `nextMbuf
      ensures Ringed() && Assembled() && |taken| == |old(taken)| + 1 && |taken| <= |arrived|
      ensures Routed([r]) && Owned([r])
    {
      hide Ringed, Routed, Run, InSlots, Elsewhere, Allocated;
      var d := bd[cidx];
      assert t.data == d.data && t.length == d.length;
      hide TakenAs;
      RunNext(taken, t);
      Exchange(Part(pkts[cidx].value, d.data, d.length - length), t);
      r := TakeOut(d.length);
      length := 0;
    }

    /** The engine goes on, and then the timestamp of descriptor number `k`, just given back, is read. */
    method ReadStamp(i: nat, ghost k: nat) returns (stamp: nat)
      requires Ringed() && |taken| == k + 1 && 0 < bd.Length && i == Slot(k, bd.Length)
      modifies bd, `hp, `arrived, `stamps, `budget
      ensures Ringed() && |taken| <= |arrived|
      ensures budget + |arrived| == old(budget + |arrived|) && old(arrived) <= arrived && old(stamps) <= stamps
      ensures k < |stamps| <= |taken| + bd.Length
      ensures stamp == stamps[if |stamps| < |taken| + bd.Length then k else k + bd.Length]
    {
      hide Ringed, Slot;
      Completing();
      StampThere(k);
      stamp := bd[i].stamp;
    }

    lemma InSlot()
      requires Ringed()
      ensures 0 < bd.Length && cidx == Slot(|taken|, bd.Length)
    {
      hide Slot;
    }

    lemma StampThere(k: nat)
      requires Ringed() && |taken| == k + 1
      ensures 0 < bd.Length && k < |stamps| <= |taken| + bd.Length && |taken| <= |arrived|
      ensures bd[Slot(k, bd.Length)].stamp == stamps[if |stamps| < |taken| + bd.Length then k else k + bd.Length]
    {
      hide Slot;
      StampAfterwards(bd[..], stamps, k);
    }

    method LinkPart(part: Part)
      modifies `chain
      ensures chain == old(chain) + [part] && Elsewhere([]) == old(Elsewhere([])) + multiset{part.mbuf}
    {
      hide Names, NamesOf;
      NamesPush(chain, part);
      chain := chain + [part];
    }

    method TakeOut(total: nat) returns (r: Received)
      requires Routed([])
      modifies `chain, `out
      ensures Routed([r])
      ensures r == Received(old(chain), total) && chain == [] && out == old(out) + [r]
      ensures Elsewhere([r]) == old(Elsewhere([]))
    {
      hide NamesOf, Select;
      r := Received(chain, total);
      NamesOfOne(r);
      NamesOfNone();
      chain, out := [], out + [r];
      assert out[..|fates|] == old(out)[..|fates|];
    }

    lemma Swapped(slots: multiset<nat>, slots': multiset<nat>, rest: multiset<nat>, m: nat, spare: nat)
      requires slots + rest == Allocated(spare) && slots' + multiset{m} == slots + multiset{spare}
      ensures slots' + (rest + multiset{m}) == Allocated(spare + 1)
    {
      assert slots' + (rest + multiset{m}) == (slots' + multiset{m}) + rest;
      assert (slots + multiset{spare}) + rest == (slots + rest) + multiset{spare};
    }

    // -------------------------------------------------------------- handing packets over

    method GoDirect(p: Received)
      requires Routed([p]) && Owned([p]) && Avtp(p)
      modifies `direct, `fates, `found
      ensures Routed([]) && Owned([]) && fates == old(fates) + [Direct] && found == old(found) + [|queue| + others]
    {
      hide Select, InSlots, Names, NamesOf, Allocated;
      NamesOfNone();
      Fated(p, Direct);
      direct, fates, found := direct + [p], fates + [Direct], found + [|queue| + others];
    }

    method Refuse(p: Received)
      requires Routed([p]) && Owned([p]) && !Avtp(p) && |queue| + others >= maxlen
      modifies `freed, `fates, `found
      ensures Routed([]) && Owned([]) && fates == old(fates) + [Refused] && found == old(found) + [|queue| + others]
    {
      hide Select, InSlots, Names, NamesOf, Allocated;
      NamesOfNone();
      Fated(p, Refused);
      freed, fates, found := freed + NamesOf([p]), fates + [Refused], found + [|queue| + others];
    }

    method Enqueue(p: Received)
      requires Routed([p]) && Owned([p]) && !Avtp(p) && |queue| + others < maxlen
      modifies `queue, `fates, `found, `running
      ensures Routed([]) && Owned([]) && fates == old(fates) + [Queued]
      ensures found == old(found) + [|old(queue)| + others]
      ensures queue == old(queue) + [p] && running
    {
      hide Select, InSlots, Names, NamesOf, Allocated;
      NamesOfNone();
      Fated(p, Queued);
      found := found + [|queue| + others];
      queue, fates := queue + [p], fates + [Queued];
      running := true;
      assert handed + queue == handed + old(queue) + [p];
    }

    /** A completed packet goes straight to the stack, or onto the queue, or is refused because the
        queue is full.  Receiving stops when flow control is on and the queue is nearly full. */
    method HandOver(p: Received) returns (stop: bool)
      requires Ringed() && Assembled() && Routed([p]) && Owned([p])
      modifies `queue, `running, `full, `fates, `found, `direct, `freed
      ensures Valid()
      ensures stop <==> !Avtp(p) && FlowStops(flow) && |queue| + others >= maxlen - 1
      ensures full == (old(full) || stop)
      ensures fates == old(fates) + [if Avtp(p) then Direct else if |old(queue)| + others >= maxlen then Refused else Queued]
      ensures queue == old(queue) + (if !Avtp(p) && |old(queue)| + others < maxlen then [p] else [])
      ensures queue != old(queue) ==> running
    {
      hide Ringed, Assembled, Routed, Owned, Is1722, Avtp;
      Is1722Iff(p);
      if Is1722(p) {
        GoDirect(p);
        return false;
      }
      if |queue| + others >= maxlen {
        Refuse(p);
      } else {
        Enqueue(p);
      }
      stop := FlowStops(flow) && |queue| + others >= maxlen - 1;
      if stop {
        full := true;
      }
    }

    lemma NamesOfNone()
      ensures NamesOf([]) == []
    {
    }

    lemma NamesPush(ps: seq<Part>, p: Part)
      ensures Names(ps + [p]) == Names(ps) + [p.mbuf]
    {
    }

    /** What recording fate `g` for the packet in hand does to the three lists. */
    lemma Fated(p: Received, g: Fate)
      requires Routed([p])
      ensures out[..|out| - 1] == out[..|fates|] && |out| == |fates| + 1
      ensures forall f :: Select(out[..|fates| + 1], fates + [g], f) ==
                          Select(out[..|fates|], fates, f) + if g == f then [p] else []
      ensures NamesOf(queue + [p]) == NamesOf(queue) + NamesOf([p])
      ensures NamesOf(direct + [p]) == NamesOf(direct) + NamesOf([p])
    {
      hide Select, NamesOf;
      assert out[..|fates| + 1] == out[..|fates|] + [p];
      forall f ensures Select(out[..|fates| + 1], fates + [g], f) ==
                       Select(out[..|fates|], fates, f) + if g == f then [p] else []
      {
        SelectNext(out[..|fates|], fates, p, g, f);
      }
      NamesOfAppend(queue, [p]);
      NamesOfAppend(direct, [p]);
    }

    // -------------------------------------------------------------- mx6q_receive

    /** One turn of the loop.  The allocator may or may not have an mbuf. */
    method ReceiveOne() returns (turn: Turn)
      requires Valid()
      modifies this, bd, pkts
      ensures Valid() && budget + |arrived| == old(budget + |arrived|)
      ensures |taken| == |old(taken)| + (if turn == Nothing then 0 else 1) && |taken| <= |arrived|
      ensures turn == Nothing ==> |taken| == |arrived|
      ensures turn == Stop ==> FlowStops(flow) && |queue| + others >= maxlen - 1
      ensures full == (old(full) || turn == Stop)
      ensures fates == old(fates) || exists f :: fates == old(fates) + [f] && (f == Refused ==> |queue| + others >= maxlen)
    {
      hide Valid, Ringed, Assembled, Routed, Owned;
      Others();
      ValidSizes();
      if bd[cidx].empty {
        CaughtUp();
        return Nothing;
      }
      Others();
      ValidSizes();
      var d := bd[cidx];
      var supplied := allocates(turns);
      var m := pkts[cidx].value;
      ghost var t := Taken(m, d.data, d.length, d.last, d.err, if supplied then Some(nextMbuf) else None);
      if d.err || !supplied {
        Recycle(t);
        return More;
      }
      if !d.last {
        Extend(t);
        return More;
      }
      var p, stamp := Finish(t);
      var stop := HandOver(p);
      turn := if stop then Stop else More;
    }

    /** mx6q_receive: take descriptors until one is EMPTY, or until flow control stops. */
    method Receive() returns (enable: bool)
      requires Valid()
      modifies this, bd, pkts
      ensures Valid()
      ensures enable ==> |taken| == |arrived|
      ensures !enable ==> FlowStops(flow) && |queue| + others >= maxlen - 1
      ensures full == (old(full) || !enable)
    {
      hide Valid;
      BehindEngine();
      while true
        invariant Valid() && |taken| <= |arrived| && full == old(full)
        decreases budget + |arrived| - |taken|
      {
        var turn := ReceiveOne();
        if turn == Nothing {
          return true;
        }
        if turn == Stop {
          return false;
        }
      }
    }

    lemma BehindEngine()
      requires Valid()
      ensures |taken| <= |arrived|
    {
      Sizes();
    }

    /** At an EMPTY descriptor the driver has taken everything the engine has completed. */
    lemma CaughtUp()
      requires Valid() && cidx < bd.Length && bd[cidx].empty
      ensures |taken| == |arrived|
    {
      hide Slot, Assembled, Routed, Owned;
      Sizes();
      assert SlotOk(bd[..], pkts[..], arrived, |taken|);
    }

    // -------------------------------------------------------------- what all this achieves

    /** At any time, whatever the engine, the allocator and the stack thread have done: if the
        descriptors taken so far are whole frames and the beginning of one more, the packets
        completed are exactly the error-free frames, if and only if none of them was torn by an
        allocation failure; and the stack has got, in order, those that did not bypass the queue and
        were not refused, except for those still waiting. */
    lemma Delivered(fs: seq<seq<Taken>>, next: seq<Taken>, k: nat)
      requires Valid() && Frames(fs) && IsFrame(next) && k < |next| && taken == Concat(fs) + next[..k]
      ensures |out| == |Good(fs)| == |fates| == |found|
      ensures forall i {:trigger fates[i]} :: 0 <= i < |fates| ==>
                && (fates[i] == Direct <==> Avtp(out[i]))
                && (fates[i] == Refused <==> !Avtp(out[i]) && found[i] >= maxlen)
      ensures out == Good(fs) <==> forall i {:trigger fs[i]} :: 0 <= i < |fs| ==> !Torn(fs[i])
      ensures out == Good(fs) ==> handed + queue == Select(Good(fs), fates, Queued) &&
                                  direct == Select(Good(fs), fates, Direct)
    {
      hide Ringed, Owned, Select, Run, Good, Concat, IsFrame, Torn;
      var a := Asm([], 0, []);
      StreamIntactIff(a, fs);
      RunSplit(a, Concat(fs), next[..k]);
      MidFrame(Run(a, Concat(fs)), next, k);
      assert out[..|fates|] == out;
    }

    /** Each mbuf ever allocated is at exactly one place. */
    lemma OneOwner(m: nat)
      requires Valid() && m < nextMbuf
      ensures InSlots(pkts[..])[m] + Elsewhere([])[m] == 1
    {
      hide Ringed, Assembled, Routed, InSlots, Elsewhere, Allocated;
      AllocatedOnce(nextMbuf, m);
      assert (InSlots(pkts[..]) + Elsewhere([]))[m] == 1;
    }

    /** Every slot's mbuf is the one its descriptor points at. */
    lemma SlotsMatch(i: nat)
      requires Valid() && i < bd.Length
      ensures i < pkts.Length && pkts[i] == Some(bd[i].buffer)
    {
      hide Slot, Assembled, Routed, Owned;
      var k := SlotCovered(|taken|, i, bd.Length);
      assert SlotOk(bd[..], pkts[..], arrived, k);
    }
  }
}
