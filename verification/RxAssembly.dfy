/** Putting received frames together.

The engine splits a frame over several descriptors; the driver takes descriptors one at a time,
links their mbufs into a chain and fixes the lengths when the last one arrives. */
module RxAssembly {
  import opened Packets

  /** One completed descriptor as the driver takes it: the mbuf in its slot, the bytes the engine
      wrote there, the length field, LAST, any error bit, and the replacement mbuf the allocator
      came up with. */
  datatype Taken = Taken(mbuf: nat, data: seq<byte>, length: nat, last: bool, err: bool, spare: Option<nat>)

  /** An mbuf of a received chain: its name, the bytes in it, and `m_len`. */
  datatype Part = Part(mbuf: nat, data: seq<byte>, len: int)

  datatype Received = Received(parts: seq<Part>, len: int)

  /** The partial packet, its length so far, and the packets completed. */
  datatype Asm = Asm(chain: seq<Part>, length: nat, out: seq<Received>)

  predicate Clean(a: Asm)
  {
    a.chain == [] && a.length == 0
  }

  function Discard(a: Asm): Asm
  {
    if a.chain != [] then Asm([], 0, a.out) else a
  }

  /** One turn of the receive loop, up to the hand-over of a completed packet. */
  function Take(a: Asm, t: Taken): Asm
  {
    if t.err || t.spare == None then Discard(a)
    else if t.last then
      var tail := Part(t.mbuf, t.data, t.length - a.length);
      Asm([], 0, a.out + [Received(a.chain + [tail], t.length)])
    else
      Asm(a.chain + [Part(t.mbuf, t.data, t.length)], a.length + t.length, a.out)
  }

  function Run(a: Asm, ts: seq<Taken>): Asm
  {
    if ts == [] then a else Take(Run(a, ts[..|ts| - 1]), ts[|ts| - 1])
  }

  /** How the descriptors are spread over calls makes no difference. */
  lemma {:induction false} RunSplit(a: Asm, ts: seq<Taken>, us: seq<Taken>)
    ensures Run(a, ts + us) == Run(Run(a, ts), us)
  {
    if us == [] {
      assert ts + us == ts;
    } else {
      var all := ts + us;
      assert all[..|all| - 1] == ts + us[..|us| - 1];
      RunSplit(a, ts, us[..|us| - 1]);
    }
  }

  // ---------------------------------------------------------------- frames as the engine writes them

  function Total(ts: seq<Taken>): nat
  {
    if ts == [] then 0 else Total(ts[..|ts| - 1]) + |ts[|ts| - 1].data|
  }

  /** The descriptors of one frame: LAST, and any error, only on the final one, whose length field
      is that of the whole frame; no fragment is empty. */
  predicate IsFrame(ts: seq<Taken>)
  {
    && ts != []
    && (forall i :: 0 <= i < |ts| ==> ts[i].data != [] && (ts[i].last <==> i == |ts| - 1))
    && (forall i :: 0 <= i < |ts| - 1 ==> !ts[i].err && ts[i].length == |ts[i].data|)
    && ts[|ts| - 1].length == Total(ts)
  }

  /** The frame as it should reach the stack. */
  function Whole(ts: seq<Taken>): Received
  {
    Received(seq(|ts|, i requires 0 <= i < |ts| => Part(ts[i].mbuf, ts[i].data, |ts[i].data|)), Total(ts))
  }

  function Lengths(ps: seq<Part>): int
  {
    if ps == [] then 0 else Lengths(ps[..|ps| - 1]) + ps[|ps| - 1].len
  }

  /** The header length of a whole frame is the sum of its `m_len`s, each that of its own bytes. */
  lemma {:induction false} WholeAddsUp(ts: seq<Taken>)
    ensures Whole(ts).len == Lengths(Whole(ts).parts)
    ensures forall p :: p in Whole(ts).parts ==> p.len == |p.data|
  {
    if ts != [] {
      var front := ts[..|ts| - 1];
      WholeAddsUp(front);
      assert Whole(ts).parts[..|ts| - 1] == Whole(front).parts;
    }
  }

  /** Frames in error, and frames whose last mbuf could not be replaced, are dropped. */
  predicate Kept(ts: seq<Taken>)
    requires ts != []
  {
    !ts[|ts| - 1].err && ts[|ts| - 1].spare.Some?
  }

  /** No allocation failed in the middle of the frame. */
  predicate Supplied(ts: seq<Taken>)
  {
    forall i :: 0 <= i < |ts| - 1 ==> ts[i].spare.Some?
  }

  /** The parts linked after the last allocation failure among the first `k` descriptors. */
  function Linked(ts: seq<Taken>, k: nat): seq<Part>
    requires k <= |ts|
  {
    if k == 0 then []
    else if ts[k - 1].spare == None then []
    else Linked(ts, k - 1) + [Part(ts[k - 1].mbuf, ts[k - 1].data, |ts[k - 1].data|)]
  }

  function LinkedLength(ts: seq<Taken>, k: nat): nat
    requires k <= |ts|
  {
    if k == 0 || ts[k - 1].spare == None then 0 else LinkedLength(ts, k - 1) + |ts[k - 1].data|
  }

  lemma {:induction false} MidFrame(a: Asm, ts: seq<Taken>, k: nat)
    requires Clean(a) && IsFrame(ts) && k < |ts|
    ensures Run(a, ts[..k]) == Asm(Linked(ts, k), LinkedLength(ts, k), a.out)
  {
    if k > 0 {
      MidFrame(a, ts, k - 1);
      assert ts[..k][..k - 1] == ts[..k - 1];
    }
  }

  lemma {:induction false} LinkedWhole(ts: seq<Taken>, k: nat)
    requires k < |ts| && forall i :: 0 <= i < k ==> ts[i].spare.Some?
    ensures Linked(ts, k) == Whole(ts).parts[..k] && LinkedLength(ts, k) == Total(ts[..k])
  {
    if k > 0 {
      LinkedWhole(ts, k - 1);
      assert ts[..k][..k - 1] == ts[..k - 1];
      assert Whole(ts).parts[..k] == Whole(ts).parts[..k - 1] + [Whole(ts).parts[k - 1]];
    }
  }

  lemma {:induction false} LinkedShort(ts: seq<Taken>, k: nat, j: nat)
    requires j < k < |ts| && ts[j].spare == None
    ensures |Linked(ts, k)| < k
    decreases k
  {
    if j < k - 1 {
      LinkedShort(ts, k - 1, j);
    }
  }

  /** What one frame adds to the completed packets. */
  function Added(ts: seq<Taken>): seq<Received>
    requires IsFrame(ts)
  {
    if Kept(ts) then
      var k := |ts| - 1;
      [Received(Linked(ts, k) + [Part(ts[k].mbuf, ts[k].data, Total(ts) - LinkedLength(ts, k))], Total(ts))]
    else []
  }

  lemma NothingLinked(ts: seq<Taken>, k: nat)
    requires k <= |ts|
    ensures Linked(ts, k) == [] ==> LinkedLength(ts, k) == 0
  {
  }

  lemma OneFrame(a: Asm, ts: seq<Taken>)
    requires Clean(a) && IsFrame(ts)
    ensures Run(a, ts) == Asm([], 0, a.out + Added(ts))
  {
    hide Linked, LinkedLength, Total;
    MidFrame(a, ts, |ts| - 1);
    NothingLinked(ts, |ts| - 1);
    assert Run(a, ts) == Take(Run(a, ts[..|ts| - 1]), ts[|ts| - 1]);
  }

  /** A kept frame reaches the stack whole, with every `m_len` and the header length right, exactly
      when no allocation failed before its last descriptor. */
  lemma FrameIntactIff(a: Asm, ts: seq<Taken>)
    requires Clean(a) && IsFrame(ts) && Kept(ts)
    ensures Added(ts) == [Whole(ts)] <==> Supplied(ts)
  {
    var k := |ts| - 1;
    if Supplied(ts) {
      LinkedWhole(ts, k);
      assert ts[..k] + [ts[k]] == ts;
      assert Whole(ts).parts == Whole(ts).parts[..k] + [Whole(ts).parts[k]];
    } else {
      var j :| 0 <= j < k && ts[j].spare == None;
      LinkedShort(ts, k, j);
      assert |Added(ts)[0].parts| < |Whole(ts).parts|;
    }
  }

  // ---------------------------------------------------------------- streams of frames

  function Concat(fs: seq<seq<Taken>>): seq<Taken>
  {
    if fs == [] then [] else Concat(fs[..|fs| - 1]) + fs[|fs| - 1]
  }

  predicate Frames(fs: seq<seq<Taken>>)
  {
    forall i {:trigger fs[i]} :: 0 <= i < |fs| ==> IsFrame(fs[i])
  }

  /** The frames that should arrive, in order. */
  function Good(fs: seq<seq<Taken>>): seq<Received>
    requires Frames(fs)
  {
    if fs == [] then []
    else
      var f := fs[|fs| - 1];
      Good(fs[..|fs| - 1]) + if Kept(f) then [Whole(f)] else []
  }

  /** A frame that the driver would deliver torn. */
  predicate Torn(ts: seq<Taken>)
    requires IsFrame(ts)
  {
    Kept(ts) && !Supplied(ts)
  }

  /** From a clean start exactly the error-free frames come out, whole and in order, if and only if
      no delivered frame suffered an allocation failure before its last descriptor. */
  lemma {:induction false} StreamIntactIff(a: Asm, fs: seq<seq<Taken>>)
    requires Clean(a) && Frames(fs)
    ensures Clean(Run(a, Concat(fs)))
    ensures |Run(a, Concat(fs)).out| == |a.out| + |Good(fs)|
    ensures Run(a, Concat(fs)).out == a.out + Good(fs) <==>
            forall i {:trigger fs[i]} :: 0 <= i < |fs| ==> !Torn(fs[i])
  {
    hide Supplied, Whole, Run, Added, Kept, IsFrame;
    if fs == [] {
      assert a.out + Good(fs) == a.out;
      RunNone(a);
    } else {
      var front, f := fs[..|fs| - 1], fs[|fs| - 1];
      StreamIntactIff(a, front);
      var b := Run(a, Concat(front));
      assert Concat(fs) == Concat(front) + f;
      RunSplit(a, Concat(front), f);
      OneFrame(b, f);
      AddedIff(f);
      var e := if Kept(f) then [Whole(f)] else [];
      SameEnds(b.out, Added(f), a.out + Good(front), e);
      assert a.out + Good(fs) == a.out + Good(front) + e;
      assert forall i {:trigger fs[i]} :: 0 <= i < |front| ==> front[i] == fs[i];
      assert fs[|fs| - 1] == f;
    }
  }

  lemma RunNone(a: Asm)
    ensures Run(a, []) == a
  {
  }

  /** What a frame adds is what it should, exactly if it is not torn. */
  lemma AddedIff(f: seq<Taken>)
    requires IsFrame(f)
    ensures f != [] && |Added(f)| == if Kept(f) then 1 else 0
    ensures Added(f) == (if Kept(f) then [Whole(f)] else []) <==> !Torn(f)
  {
    hide Supplied, Whole, Linked, LinkedLength, Total;
    if Kept(f) {
      FrameIntactIff(Asm([], 0, []), f);
    }
  }

  lemma SameEnds<T>(a: seq<T>, b: seq<T>, c: seq<T>, d: seq<T>)
    requires |a| == |c| && |b| == |d|
    ensures a + b == c + d <==> a == c && b == d
  {
    if a + b == c + d {
      assert a == (a + b)[..|a|] && b == (a + b)[|a|..];
      assert c == (c + d)[..|c|] && d == (c + d)[|c|..];
    }
  }

  /** It happens: a frame of two fragments whose first mbuf could not be replaced arrives as its
      second fragment alone, with lengths that still count the first. */
  lemma TornExample(a: Asm)
    requires Clean(a)
    ensures var ts := [Taken(0, [1], 1, false, false, None), Taken(1, [2], 2, true, false, Some(2))];
            IsFrame(ts) && Run(a, ts).out == a.out + [Received([Part(1, [2], 2)], 2)]
  {
    var ts := [Taken(0, [1], 1, false, false, None), Taken(1, [2], 2, true, false, Some(2))];
    assert ts[..1] == [ts[0]];
    assert Run(a, ts) == Take(Run(a, [ts[0]]), ts[1]);
    TornFirst(a, ts[0]);
    TornTotal(ts);
    assert a.chain + [Part(1, [2], 2)] == [Part(1, [2], 2)];
  }

  lemma TornFirst(a: Asm, t: Taken)
    requires Clean(a) && t.spare == None
    ensures Run(a, [t]) == a
  {
    assert [t][..0] == [];
  }

  lemma TornTotal(ts: seq<Taken>)
    requires |ts| == 2
    ensures Total(ts) == |ts[0].data| + |ts[1].data|
  {
    assert ts[..1] == [ts[0]] && [ts[0]][..0] == [];
    assert Total([ts[0]]) == |ts[0].data|;
  }
}
