/** What becomes of a packet before it reaches the ring: counting fragments, and copying packets
that are misaligned or scattered over too many mbufs. */
module TxIntake {
  import opened Packets
  import opened TxMachine

  datatype Errno = EOK | ENOMEM | ENOBUFS

  /** Answers from outside the driver: the mbuf allocator, and the PTP event test applied to a
      packet.  `slx` builds do not force aligned fragments; `clusterSize` is MCLBYTES. */
  datatype Env = Env(slx: bool, clusterSize: nat, cluster: Packet -> bool,
                     dup: Packet -> Option<seq<Mbuf>>, event: Packet -> bool, copyId: Packet -> nat)

  /** m_dup copies all bytes, to the beginning of new buffers, and a copy is not its original. */
  ghost predicate Faithful(env: Env)
  {
    && (forall p: Packet {:trigger env.dup(p)} :: env.dup(p).Some? ==> Bytes(env.dup(p).value) == Bytes(p.chain))
    && (forall p: Packet {:trigger env.dup(p)} :: env.dup(p).Some? ==> Readable(false, env.dup(p).value))
    && (forall p: Packet {:trigger env.copyId(p)} :: env.copyId(p) != p.id)
  }

  /** The engine can fetch the data of each mbuf of the chain: from anywhere in `slx` hardware, else
      from 8 byte boundaries only. */
  ghost predicate Readable(slx: bool, chain: seq<Mbuf>)
  {
    forall m :: m in chain && m.data != [] ==> slx || m.aligned
  }

  // ---------------------------------------------------------------- what becomes of a packet

  predicate Misaligned(env: Env, p: Packet)
  {
    !env.slx && exists i :: 0 <= i < |p.chain| && p.chain[i].data != [] && !p.chain[i].aligned
  }

  predicate NeedsDefrag(env: Env, p: Packet)
  {
    |NonEmpty(p.chain)| > MAX_FRAGS || Misaligned(env, p)
  }

  predicate Jumbo(env: Env, p: Packet)
  {
    |Bytes(p.chain)| > env.clusterSize
  }

  /** The packet that goes into the ring in place of `p`, if any. */
  function Admitted(env: Env, p: Packet): Option<Packet>
  {
    if !NeedsDefrag(env, p) then Some(p)
    else if Jumbo(env, p) then
      if env.dup(p).Some? && |env.dup(p).value| <= MAX_FRAGS then Some(Packet(env.copyId(p), env.dup(p).value))
      else None
    else if env.cluster(p) then Some(Packet(env.copyId(p), [Mbuf(Bytes(p.chain), true)]))
    else None
  }

  /** The packets freed on the way in: the original once a copy was tried, and a useless copy. */
  function Dropped(env: Env, p: Packet): seq<Packet>
  {
    if !NeedsDefrag(env, p) then []
    else if Jumbo(env, p) && env.dup(p).Some? && |env.dup(p).value| > MAX_FRAGS then
      [p, Packet(env.copyId(p), env.dup(p).value)]
    else [p]
  }

  function FramesOf(env: Env, ps: seq<Packet>): seq<Frame>
  {
    if ps == [] then []
    else
      var q := Admitted(env, ps[|ps| - 1]);
      FramesOf(env, ps[..|ps| - 1]) + if q.Some? then [Frame(q.value, env.event(q.value))] else []
  }

  function DroppedOf(env: Env, ps: seq<Packet>): seq<Packet>
  {
    if ps == [] then [] else DroppedOf(env, ps[..|ps| - 1]) + Dropped(env, ps[|ps| - 1])
  }

  lemma BytesOne(m: Mbuf)
    ensures Bytes([m]) == m.data
  {
    assert [m][..0] == [];
  }

  /** A packet that enters the ring carries the bytes of the original, in one to MAX_FRAGS
      descriptors; a packet is freed on the way in exactly when it does not enter itself. */
  lemma AdmittedFits(env: Env, p: Packet)
    requires Faithful(env) && Bytes(p.chain) != []
    ensures var q := Admitted(env, p);
            && (q.Some? ==> Bytes(q.value.chain) == Bytes(p.chain) && 0 < |NonEmpty(q.value.chain)| <= MAX_FRAGS)
            && multiset(Dropped(env, p))[p] == (if NeedsDefrag(env, p) then 1 else 0)
            && (q.Some? && !NeedsDefrag(env, p) ==> q.value == p)
  {
    hide Misaligned, Bytes, NonEmpty;
    NonEmptyBytes(p.chain);
    if NeedsDefrag(env, p) {
      assert Dropped(env, p)[0] == p;
      if Admitted(env, p).Some? {
        BytesOne(Mbuf(Bytes(p.chain), true));
        NonEmptyBytes(Admitted(env, p).value.chain);
      }
    }
  }

  /** Whatever enters the ring can be read by the engine. */
  lemma AdmittedReadable(env: Env, p: Packet)
    requires Faithful(env) && Admitted(env, p).Some?
    ensures Readable(env.slx, Admitted(env, p).value.chain)
  {
    hide Bytes, NonEmpty, Jumbo, NeedsDefrag;
    NeedsDefragIff(env, p);
  }

  lemma NeedsDefragIff(env: Env, p: Packet)
    ensures NeedsDefrag(env, p) <==> !(Readable(env.slx, p.chain) && |NonEmpty(p.chain)| <= 10)
  {
    hide NonEmpty;
    if Misaligned(env, p) {
      var i :| 0 <= i < |p.chain| && p.chain[i].data != [] && !p.chain[i].aligned;
      assert p.chain[i] in p.chain;
    } else {
      forall m | m in p.chain && m.data != [] ensures env.slx || m.aligned {
        var i :| 0 <= i < |p.chain| && p.chain[i] == m;
      }
    }
  }

  /** A packet goes into the ring itself, with nothing freed, exactly when the engine can read it and it
      has at most ten mbufs with data; otherwise it is freed, and at most a copy goes in. */
  lemma AdmittedItselfIff(env: Env, p: Packet)
    requires Faithful(env)
    ensures Readable(env.slx, p.chain) && |NonEmpty(p.chain)| <= 10 <==> Admitted(env, p) == Some(p)
    ensures Readable(env.slx, p.chain) && |NonEmpty(p.chain)| <= 10 <==> Dropped(env, p) == []
  {
    hide Bytes, NonEmpty, Jumbo, NeedsDefrag, Readable;
    NeedsDefragIff(env, p);
    assert env.copyId(p) != p.id;
  }

  /** A copy is one mbuf, of no more than a cluster, unless the packet is larger than a cluster and is
      duplicated. */
  lemma CopyFits(env: Env, p: Packet)
    requires Faithful(env) && Admitted(env, p).Some? && Admitted(env, p).value != p
    ensures var q := Admitted(env, p).value;
            if |Bytes(p.chain)| <= env.clusterSize
            then |q.chain| == 1 && q.chain[0].data == Bytes(p.chain) && |q.chain[0].data| <= env.clusterSize
            else env.dup(p) == Some(q.chain) && |q.chain| <= 10
  {
  }

  // ---------------------------------------------------------------- what the engine is given to read

  /** The engine can read the frame, and is asked for a timestamp exactly if the packet is an event. */
  ghost predicate Fit(env: Env, f: Frame)
  {
    Readable(env.slx, f.packet.chain) && f.stamp == env.event(f.packet)
  }

  ghost predicate AllFit(env: Env, fs: seq<Frame>)
  {
    forall f :: f in fs ==> Fit(env, f)
  }

  lemma PublishFit(env: Env, s: State, step: Step)
    requires Enabled(s, step) && AllFit(env, s.frames)
    requires step.Publish? ==> Fit(env, s.phase.frame)
    ensures AllFit(env, Apply(s, step).frames)
  {
    hide At, WriteDesc, Blanked, Fit;
  }

  lemma {:induction false} NonEmptyIn(chain: seq<Mbuf>, m: Mbuf)
    requires m in NonEmpty(chain)
    ensures m in chain && m.data != []
  {
    if m in NonEmpty(chain[..|chain| - 1]) {
      NonEmptyIn(chain[..|chain| - 1], m);
    }
  }

  lemma {:induction false} CellFit(env: Env, fs: seq<Frame>, c: Cell) returns (f: Frame)
    requires AllFit(env, fs) && c in Flatten(fs)
    ensures f in fs && c in Cells(f)
    ensures (env.slx || c.mbuf.aligned) && c.stamp == env.event(f.packet)
  {
    hide NonEmpty;
    f := fs[|fs| - 1];
    if c in Cells(f) {
      assert f in fs && Fit(env, f);
      NonEmptyIn(f.packet.chain, c.mbuf);
    } else {
      f := CellFit(env, fs[..|fs| - 1], c);
    }
  }

  // ---------------------------------------------------------------- along a queue of packets

  lemma FramesOfOne(env: Env, p: Packet)
    ensures var q := Admitted(env, p);
            FramesOf(env, [p]) == if q.Some? then [Frame(q.value, env.event(q.value))] else []
  {
    assert [p][..0] == [];
  }

  lemma NothingYet(env: Env, ps: seq<Packet>)
    ensures FramesOf(env, ps[..0]) == [] && DroppedOf(env, ps[..0]) == []
  {
  }

  predicate AllHaveData(ps: seq<Packet>)
  {
    forall p :: p in ps ==> Bytes(p.chain) != []
  }

  lemma OneMore(env: Env, ps: seq<Packet>, k: nat)
    requires k < |ps| && AllHaveData(ps)
    ensures Bytes(ps[k].chain) != []
    ensures FramesOf(env, ps[..k + 1]) == FramesOf(env, ps[..k]) + FramesOf(env, [ps[k]])
    ensures DroppedOf(env, ps[..k + 1]) == DroppedOf(env, ps[..k]) + Dropped(env, ps[k])
  {
    hide Bytes;
    assert ps[..k + 1][..k] == ps[..k];
    FramesOfOne(env, ps[k]);
  }

  // ---------------------------------------------------------------- the Ethernet header

  function WithHeader(p: Packet, header: seq<byte>, aligned: bool): Packet
    requires p.chain != []
  {
    p.(chain := [Mbuf(header + p.chain[0].data, aligned)] + p.chain[1..])
  }

  lemma HeaderBytes(p: Packet, header: seq<byte>, aligned: bool)
    requires p.chain != [] && |header| == 14
    ensures var q := WithHeader(p, header, aligned);
            Bytes(q.chain) == header + Bytes(p.chain) && Bytes(q.chain) != []
  {
    var m := Mbuf(header + p.chain[0].data, aligned);
    BytesAppend([m], p.chain[1..]);
    BytesAppend([p.chain[0]], p.chain[1..]);
    assert p.chain == [p.chain[0]] + p.chain[1..];
    BytesOne(m);
    BytesOne(p.chain[0]);
  }

  // ---------------------------------------------------------------- no packet is lost or freed twice

  /** The copy allocated for `p`, if any. */
  function Copied(env: Env, p: Packet): seq<Packet>
  {
    if !NeedsDefrag(env, p) then []
    else if Jumbo(env, p) then
      if env.dup(p).Some? then [Packet(env.copyId(p), env.dup(p).value)] else []
    else if env.cluster(p) then [Packet(env.copyId(p), [Mbuf(Bytes(p.chain), true)])]
    else []
  }

  function CopiedOf(env: Env, ps: seq<Packet>): seq<Packet>
  {
    if ps == [] then [] else CopiedOf(env, ps[..|ps| - 1]) + Copied(env, ps[|ps| - 1])
  }

  function Entered(env: Env, p: Packet): seq<Packet>
  {
    if Admitted(env, p).Some? then [Admitted(env, p).value] else []
  }

  lemma OneConserved(env: Env, p: Packet)
    ensures multiset(Entered(env, p)) + multiset(Dropped(env, p)) == multiset([p]) + multiset(Copied(env, p))
  {
    hide NeedsDefrag, Jumbo;
  }

  /** Every packet handed in, and every copy made, either becomes a frame or is freed on the way, once. */
  lemma {:induction false} IntakeConserves(env: Env, ps: seq<Packet>)
    ensures multiset(PacketsOf(FramesOf(env, ps))) + multiset(DroppedOf(env, ps)) ==
            multiset(ps) + multiset(CopiedOf(env, ps))
  {
    hide Admitted, Dropped, Copied;
    if ps == [] {
      assert PacketsOf([]) == [];
    } else {
      var front, p := ps[..|ps| - 1], ps[|ps| - 1];
      IntakeConserves(env, front);
      OneConserved(env, p);
      assert ps == front + [p];
      var fs := FramesOf(env, front);
      assert PacketsOf(FramesOf(env, ps)) == PacketsOf(fs) + Entered(env, p);
      Regroup(multiset(PacketsOf(fs)), multiset(DroppedOf(env, front)), multiset(Entered(env, p)), multiset(Dropped(env, p)),
              multiset(front), multiset(CopiedOf(env, front)), multiset([p]), multiset(Copied(env, p)));
    }
  }

  lemma Regroup<T>(a: multiset<T>, b: multiset<T>, c: multiset<T>, d: multiset<T>,
                   e: multiset<T>, f: multiset<T>, g: multiset<T>, h: multiset<T>)
    requires a + b == e + f && c + d == g + h
    ensures (a + c) + (b + d) == (e + g) + (f + h)
  {
    assert (a + c) + (b + d) == (a + b) + (c + d);
    assert (e + g) + (f + h) == (e + f) + (g + h);
  }

  /** Copies bear names that no packet of the queue has. */
  ghost predicate FreshCopies(env: Env, ps: seq<Packet>)
  {
    forall p, q :: p in ps && q in ps ==> env.copyId(q) != p.id
  }

  lemma {:induction false} CopiesAreNew(env: Env, ps: seq<Packet>, p: Packet)
    requires forall q :: q in ps ==> env.copyId(q) != p.id
    ensures p !in CopiedOf(env, ps)
  {
    hide NeedsDefrag, Jumbo;
    if ps != [] {
      CopiesAreNew(env, ps[..|ps| - 1], p);
      assert ps[|ps| - 1] in ps;
    }
  }

  /** So a packet queued once becomes a frame or is freed, once. */
  lemma QueuedOnce(env: Env, ps: seq<Packet>, p: Packet)
    requires FreshCopies(env, ps) && p in ps
    ensures multiset(PacketsOf(FramesOf(env, ps)))[p] + multiset(DroppedOf(env, ps))[p] == multiset(ps)[p]
  {
    IntakeConserves(env, ps);
    CopiesAreNew(env, ps, p);
    assert (multiset(PacketsOf(FramesOf(env, ps))) + multiset(DroppedOf(env, ps)))[p] ==
           (multiset(ps) + multiset(CopiedOf(env, ps)))[p];
  }
}
