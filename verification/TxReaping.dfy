/** How much the reaper takes back, while the engine goes on releasing and writing back. */
module TxReaping {
  import opened RingArith
  import opened TxMachine
  import opened TxSafety
  import opened TxStores

  /** The engine has released descriptor `k`, and has written it back if it is the last of a frame. */
  predicate WrittenBack(s: State, k: nat)
    requires 0 < |s.bd|
  {
    s.bd[At(s, k)].status.last ==> s.bd[At(s, k)].done
  }

  /** Since `o`, descriptors were only taken back and written back. */
  ghost predicate Later(o: State, s: State)
    requires 0 < |o.bd| && 0 < |s.bd|
  {
    && o.base == s.base && |o.bd| == |s.bd| && o.tail <= s.tail && o.hw <= s.hw
    && (forall k: nat {:trigger At(s, k)} :: s.tail <= k < o.hw ==> Settled(o.bd[At(o, k)], s.bd[At(s, k)]))
  }

  /** Everything that the engine had finished at `o` has been taken back at `s`: the reaper is past all
      that was released, or stands at the end of a frame that was not written back. */
  predicate Reaped(o: State, s: State)
    requires 0 < |o.bd|
  {
    s.tail >= o.hw || !WrittenBack(o, s.tail)
  }

  lemma ReapedDown(o: State, s: State)
    requires 0 < |o.bd| && Reaped(o.(up := false), s)
    ensures Reaped(o, s)
  {
    hide Slot;
    assert At(o.(up := false), s.tail) == At(o, s.tail);
  }

  lemma LaterSelf(s: State)
    requires Inv(s)
    ensures 0 < |s.bd| && Later(s, s)
  {
    hide Slot, Logs, Places, Awake;
  }

  lemma LaterMoved(o: State, s: State, s': State)
    requires Inv(s) && 0 < |o.bd| && 0 < |s.bd| && Later(o, s) && Moved(s, s')
    ensures 0 < |s'.bd| && Later(o, s')
  {
    hide Slot, Logs, Places, Awake;
    forall k: nat | s'.tail <= k < o.hw ensures Settled(o.bd[At(o, k)], s'.bd[At(s', k)]) {
      assert At(s, k) == At(s', k);
      assert Window(s, k) && Settled(s.bd[At(s, k)], s'.bd[At(s, k)]);
    }
  }

  lemma LaterReap(o: State, s: State)
    requires Inv(s) && 0 < |o.bd| && 0 < |s.bd| && Later(o, s) && Enabled(s, Reap)
    ensures 0 < |Apply(s, Reap).bd| && Later(o, Apply(s, Reap))
  {
    hide Slot, Logs, Awake, Holds;
    assert Place(s, s.tail);
    ReapedIsReleased(s);
    var s' := Apply(s, Reap);
    forall k: nat | s'.tail <= k < o.hw ensures Settled(o.bd[At(o, k)], s'.bd[At(s', k)]) {
      Apart(s, s.tail, k);
      assert At(s, k) == At(s', k);
    }
  }

  /** A READY descriptor at the consumer index has not been released. */
  lemma ReadyEndsIt(o: State, s: State)
    requires Inv(s) && 0 < |o.bd| && 0 < |s.bd| && Later(o, s)
    requires s.cidx < |s.bd| && (s.bd[s.cidx].status.ready || (s.phase.Idle? && s.pidx == s.cidx))
    ensures Reaped(o, s)
  {
    hide Slot, Logs, Awake, Holds;
    assert Place(s, s.tail);
    if s.phase.Idle? && s.pidx == s.cidx && s.tail < |s.stream| {
      Apart(s, s.tail, |s.stream|);
    }
  }

  /** The end of a frame that is not written back now was not written back then. */
  lemma UndoneEndsIt(o: State, s: State)
    requires Inv(s) && 0 < |o.bd| && 0 < |s.bd| && Later(o, s)
    requires s.cidx < |s.bd| && s.bd[s.cidx].status.last && !s.bd[s.cidx].done
    ensures Reaped(o, s)
  {
    hide Slot, Logs, Places, Awake;
    assert s.cidx == At(s, s.tail);
  }

  /** What the two reads of one turn tell, the engine running in between and after: unless the head was
      seen released and written back, there was nothing more to take. */
  lemma LaterReads(o: State, v: State, w: State, u: State)
    requires Inv(v) && Inv(w) && v.phase.Idle? && v.pidx != v.cidx
    requires 0 < |o.bd| && 0 < |v.bd| && Later(o, v) && Moved(v, w) && 0 < |w.bd| && Moved(w, u)
    ensures 0 < |u.bd| && Later(o, u)
    ensures v.cidx < |v.bd| && v.cidx < |w.bd|
    ensures v.bd[v.cidx].status.ready || (v.bd[v.cidx].status.last && !w.bd[v.cidx].done) ==> Reaped(o, u)
  {
    hide Slot, Logs, Awake, Holds, Places, Later, Reaped;
    LaterMoved(o, v, w);
    LaterMoved(o, w, u);
    if v.bd[v.cidx].status.ready {
      ReadyEndsIt(o, v);
      ReapedStill(o, v, u);
    } else if v.bd[v.cidx].status.last && !w.bd[v.cidx].done {
      LastSeen(v, w);
      UndoneEndsIt(o, w);
      ReapedStill(o, w, u);
    }
  }

  lemma ReapedStill(o: State, s: State, u: State)
    requires 0 < |o.bd| && Reaped(o, s) && u.tail == s.tail
    ensures Reaped(o, u)
  {
  }

  lemma LastSeen(v: State, w: State)
    requires Inv(v) && v.phase.Idle? && v.pidx != v.cidx && 0 < |v.bd| && Moved(v, w)
    requires v.cidx < |v.bd| && v.bd[v.cidx].status.last && !v.bd[v.cidx].status.ready
    ensures v.cidx < |w.bd| && w.cidx == v.cidx && w.bd[v.cidx].status.last
  {
    hide Slot, Logs, Awake, Holds;
    assert Place(v, v.tail);
    assert v.tail < v.hw;
    assert Settled(v.bd[At(v, v.tail)], w.bd[At(v, v.tail)]);
  }
}
