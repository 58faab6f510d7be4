/** Reception into a CAN mailbox's message queue.

A mailbox owns a fixed number of message elements.  They are in the free queue, in the queue of
received messages, or with a client that is copying one out.  A received message goes into a free
element; if there is none, into the element of the oldest unread message. */
module CanReceive {
  import opened Packets

  // ---------------------------------------------------------------- a FIFO that drops the oldest

  /** The last `n` elements of `s`. */
  function Newest<T>(s: seq<T>, n: nat): (r: seq<T>)
    ensures |r| == if |s| <= n then |s| else n
    ensures |r| <= |s| && r == s[|s| - |r|..]
  {
    if |s| <= n then s else s[|s| - n..]
  }

  /** One more message for a queue of `n`. */
  function Arrive<T>(q: seq<T>, m: T, n: nat): seq<T>
  {
    Newest(q + [m], n)
  }

  function ArriveAll<T>(q: seq<T>, ms: seq<T>, n: nat): seq<T>
  {
    if ms == [] then q
    else Arrive(ArriveAll(q, ms[..|ms| - 1], n), ms[|ms| - 1], n)
  }

  /** A burst leaves the newest messages, whatever was there before. */
  lemma {:induction false} BurstKeepsNewest<T>(q: seq<T>, ms: seq<T>, n: nat)
    requires |q| <= n
    ensures ArriveAll(q, ms, n) == Newest(q + ms, n)
  {
    if ms == [] {
      assert q + ms == q;
    } else {
      var front, m := ms[..|ms| - 1], ms[|ms| - 1];
      BurstKeepsNewest(q, front, n);
      assert ms == front + [m];
      assert q + ms == (q + front) + [m];
      NewestTwice(q + front, m, n);
    }
  }

  lemma NewestTwice<T>(s: seq<T>, m: T, n: nat)
    ensures Newest(Newest(s, n) + [m], n) == Newest(s + [m], n)
  {
  }

  lemma DropOldest<T>(q: seq<T>, m: T, n: nat)
    requires 0 < n && |q| <= n
    ensures Arrive(q, m, n) == (if |q| < n then q else q[1..]) + [m]
  {
  }

  /** A message arrives, with `room` elements not held by clients, or a client takes the oldest one. */
  datatype Event<T> = Arrival(message: T, room: nat) | Read

  /** The queue, what was read so far, and how many messages were overwritten unread. */
  datatype Outcome<T> = Outcome(queue: seq<T>, seen: seq<T>, dropped: nat)

  function Step<T>(o: Outcome<T>, e: Event<T>): Outcome<T>
  {
    match e
    case Arrival(m, room) =>
      var q := Arrive(o.queue, m, room);
      Outcome(q, o.seen, o.dropped + (|o.queue| + 1 - |q|))
    case Read => if o.queue == [] then o else Outcome(o.queue[1..], o.seen + [o.queue[0]], o.dropped)
  }

  function Run<T>(es: seq<Event<T>>): Outcome<T>
  {
    if es == [] then Outcome([], [], 0) else Step(Run(es[..|es| - 1]), es[|es| - 1])
  }

  function Carried<T>(e: Event<T>): seq<T>
  {
    match e case Arrival(m, _) => [m] case Read => []
  }

  function Arrivals<T>(es: seq<Event<T>>): seq<T>
  {
    if es == [] then [] else Arrivals(es[..|es| - 1]) + Carried(es[|es| - 1])
  }

  // ---------------------------------------------------------------- subsequences

  /** `s` is `a` with some elements left out. */
  ghost predicate Subsequence<T>(s: seq<T>, a: seq<T>)
    decreases |a|
  {
    s == [] ||
    (a != [] &&
     ((s[|s| - 1] == a[|a| - 1] && Subsequence(s[..|s| - 1], a[..|a| - 1])) || Subsequence(s, a[..|a| - 1])))
  }

  lemma SubsequenceNext<T>(s: seq<T>, a: seq<T>, m: T)
    requires Subsequence(s, a)
    ensures Subsequence(s + [m], a + [m])
  {
    assert (s + [m])[..|s|] == s && (a + [m])[..|a|] == a;
  }

  /** Leaving out a stretch leaves a subsequence. */
  lemma {:induction false} SubsequenceSkip<T>(x: seq<T>, y: seq<T>, z: seq<T>, a: seq<T>)
    requires Subsequence(x + y + z, a)
    ensures Subsequence(x + z, a)
    decreases |a|
  {
    var s := x + y + z;
    if x + z == [] || y == [] {
      assert y == [] ==> s == x + z;
    } else {
      var front := a[..|a| - 1];
      if Subsequence(s, front) {
        SubsequenceSkip(x, y, z, front);
      } else if z != [] {
        assert s[..|s| - 1] == x + y + z[..|z| - 1];
        SubsequenceSkip(x, y, z[..|z| - 1], front);
        assert (x + z)[..|x + z| - 1] == x + z[..|z| - 1];
      } else {
        assert s[..|s| - 1] == x + y[..|y| - 1] + z;
        SubsequenceSkip(x, y[..|y| - 1], z, front);
      }
    }
  }

  // ---------------------------------------------------------------- what a run amounts to

  /** `o` accounts for the arrivals `a`: the queue holds the newest of them in order, every one is read,
      dropped or queued, none out of order, and as long as none is dropped, none is missing. */
  ghost predicate Accounts<T>(o: Outcome<T>, a: seq<T>)
  {
    && o.queue == Newest(a, |o.queue|)
    && |o.seen| + |o.queue| + o.dropped == |a|
    && Subsequence(o.seen + o.queue, a)
    && (o.dropped == 0 ==> o.seen + o.queue == a)
  }

  lemma NewestAppend<T>(a: seq<T>, q: seq<T>, m: T, n: nat)
    requires q == Newest(a, |q|)
    ensures Arrive(q, m, n) == Newest(a + [m], |Arrive(q, m, n)|)
  {
    assert q + [m] == (a + [m])[|a| - |q|..];
    var r := Arrive(q, m, n);
    assert r == (q + [m])[|q| + 1 - |r|..] == (a + [m])[|a| + 1 - |r|..];
  }

  lemma ArrivalKeepsOrder<T>(o: Outcome<T>, a: seq<T>, m: T, room: nat)
    requires Subsequence(o.seen + o.queue, a)
    ensures Subsequence(o.seen + Arrive(o.queue, m, room), a + [m])
  {
    hide Subsequence;
    var q, r := o.queue + [m], Arrive(o.queue, m, room);
    SubsequenceNext(o.seen + o.queue, a, m);
    var y := q[..|q| - |r|];
    assert q == y + r;
    assert (o.seen + o.queue) + [m] == o.seen + y + r;
    SubsequenceSkip(o.seen, y, r, a + [m]);
  }

  lemma ArrivalAccounts<T>(o: Outcome<T>, a: seq<T>, m: T, room: nat)
    requires Accounts(o, a)
    ensures Accounts(Step(o, Arrival(m, room)), a + [m])
  {
    NewestAppend(a, o.queue, m, room);
    ArrivalKeepsOrder(o, a, m, room);
    hide Newest, Subsequence;
    var r := Arrive(o.queue, m, room);
    if |r| == |o.queue| + 1 {
      Unshortened(o.queue + [m], room);
      assert o.seen + (o.queue + [m]) == (o.seen + o.queue) + [m];
    }
  }

  lemma Unshortened<T>(s: seq<T>, n: nat)
    requires |Newest(s, n)| == |s|
    ensures Newest(s, n) == s
  {
  }

  lemma ReadAccounts<T>(o: Outcome<T>, a: seq<T>)
    requires Accounts(o, a)
    ensures Accounts(Step(o, Read), a)
  {
    if o.queue != [] {
      assert o.queue == [o.queue[0]] + o.queue[1..];
      assert (o.seen + [o.queue[0]]) + o.queue[1..] == o.seen + o.queue;
    }
  }

  /** After any run, with clients holding any number of elements at any time, the queue holds the newest
      arrivals in order, and what was read and what is queued are arrivals in order. */
  lemma {:induction false} QueueIsNewest<T>(es: seq<Event<T>>)
    ensures Accounts(Run(es), Arrivals(es))
  {
    hide Accounts, Step;
    if es == [] {
      NothingAccounts<T>();
    } else {
      var front := es[..|es| - 1];
      QueueIsNewest(front);
      match es[|es| - 1]
      case Arrival(m, room) =>
        ArrivalAccounts(Run(front), Arrivals(front), m, room);
      case Read =>
        ReadAccounts(Run(front), Arrivals(front));
        assert Arrivals(es) == Arrivals(front);
    }
  }

  lemma NothingAccounts<T>()
    ensures Accounts<T>(Outcome([], [], 0), [])
  {
  }

  /** The arrival number `k` of the run, if it is one, finds room behind the unread ones. */
  ghost predicate Fits<T>(es: seq<Event<T>>, k: nat)
    requires k < |es|
  {
    es[k].Arrival? ==> |Arrivals(es[..k])| < |Run(es[..k]).seen| + es[k].room
  }

  /** Readers never fall behind by as much as there is room. */
  ghost predicate KeepsUp<T>(es: seq<Event<T>>)
  {
    forall k: nat :: k < |es| ==> Fits(es, k)
  }

  lemma KeepsUpStep<T>(es: seq<Event<T>>)
    requires es != []
    ensures KeepsUp(es) <==> KeepsUp(es[..|es| - 1]) && Fits(es, |es| - 1)
  {
    var n := |es| - 1;
    var front := es[..n];
    forall k: nat | k < n ensures Fits(front, k) <==> Fits(es, k) {
      assert front[..k] == es[..k];
    }
  }

  lemma LosslessStep<T>(es: seq<Event<T>>)
    requires es != [] && Accounts(Run(es[..|es| - 1]), Arrivals(es[..|es| - 1]))
    ensures Run(es).dropped == 0 <==> Run(es[..|es| - 1]).dropped == 0 && Fits(es, |es| - 1)
  {
    var o, e := Run(es[..|es| - 1]), es[|es| - 1];
    assert Run(es) == Step(o, e);
    hide Run, Arrivals, Subsequence, Newest;
    if e.Arrival? {
      FitsIff(o.queue, e.message, e.room);
    }
  }

  lemma FitsIff<T>(q: seq<T>, m: T, room: nat)
    ensures |Arrive(q, m, room)| <= |q| + 1
    ensures |Arrive(q, m, room)| == |q| + 1 <==> |q| < room
  {
  }

  /** Nothing is lost exactly when the readers keep up; then what was read and what is queued together
      are what arrived, in order. */
  lemma {:induction false} LosslessIff<T>(es: seq<Event<T>>)
    ensures Run(es).dropped == 0 <==> KeepsUp(es)
    ensures Run(es).dropped == 0 ==> Run(es).seen + Run(es).queue == Arrivals(es)
  {
    hide Fits, Step;
    QueueIsNewest(es);
    if es != [] {
      var front := es[..|es| - 1];
      LosslessIff(front);
      QueueIsNewest(front);
      KeepsUpStep(es);
      LosslessStep(es);
    }
  }

  // ---------------------------------------------------------------- the elements

  function All(n: nat): (s: seq<nat>)
    ensures |s| == n
  {
    seq(n, (i: nat) => i)
  }

  /** Every element is in exactly one place. */
  ghost predicate Conserved(free: seq<nat>, queue: seq<nat>, held: seq<nat>, n: nat)
  {
    multiset(free) + multiset(queue) + multiset(held) == multiset(All(n))
  }

  lemma {:induction false} AllOnce(n: nat, e: nat)
    ensures multiset(All(n))[e] == if e < n then 1 else 0
  {
    if n > 0 {
      AllOnce(n - 1, e);
      assert All(n) == All(n - 1) + [n - 1];
    }
  }

  lemma Counted(free: seq<nat>, queue: seq<nat>, held: seq<nat>, n: nat)
    requires Conserved(free, queue, held, n)
    ensures |free| + |queue| + |held| == n
  {
    assert |multiset(free) + multiset(queue) + multiset(held)| == |multiset(All(n))|;
  }

  lemma Placed(free: seq<nat>, queue: seq<nat>, held: seq<nat>, n: nat, e: nat)
    requires Conserved(free, queue, held, n)
    ensures e in free || e in queue || e in held ==> e < n
    ensures multiset(free)[e] + multiset(queue)[e] + multiset(held)[e] <= 1
  {
    AllOnce(n, e);
    assert (multiset(free) + multiset(queue) + multiset(held))[e] == multiset(All(n))[e];
    assert e in free ==> multiset(free)[e] > 0;
    assert e in queue ==> multiset(queue)[e] > 0;
    assert e in held ==> multiset(held)[e] > 0;
  }

  /** The first of a queue is nowhere else. */
  lemma FirstIsAlone(s: seq<nat>, free: seq<nat>, queue: seq<nat>, held: seq<nat>, n: nat)
    requires Conserved(free, queue, held, n) && s != [] && (s == free || s == queue)
    ensures s[0] < n && s[0] !in s[1..] && s[0] !in held
    ensures s == free ==> s[0] !in queue
  {
    Placed(free, queue, held, n, s[0]);
    assert s == [s[0]] + s[1..];
  }

  /** An element moves from the clients to the free queue. */
  lemma GiveBack(free: seq<nat>, queue: seq<nat>, held: seq<nat>, k: nat, n: nat)
    requires Conserved(free, queue, held, n) && k < |held|
    ensures Conserved(free + [held[k]], queue, held[..k] + held[k + 1..], n)
  {
    assert held == held[..k] + [held[k]] + held[k + 1..];
  }

  ghost predicate Below(s: seq<nat>, n: nat)
  {
    forall i :: 0 <= i < |s| ==> s[i] < n
  }

  /** The messages in the elements `ids`. */
  ghost function Messages<T>(cells: seq<T>, ids: seq<nat>): (s: seq<T>)
    requires Below(ids, |cells|)
    ensures |s| == |ids|
  {
    seq(|ids|, (k: nat) requires k < |ids| => cells[ids[k]])
  }

  /** Writing an element that is not among them leaves them alone. */
  lemma MessagesElsewhere<T>(cells: seq<T>, ids: seq<nat>, e: nat, m: T)
    requires Below(ids, |cells|) && e < |cells| && e !in ids
    ensures Messages(cells[e := m], ids) == Messages(cells, ids)
  {
    forall k | 0 <= k < |ids| ensures cells[e := m][ids[k]] == cells[ids[k]] {
      assert ids[k] in ids;
    }
  }

  lemma MessagesAppend<T>(cells: seq<T>, ids: seq<nat>, e: nat)
    requires Below(ids, |cells|) && e < |cells|
    ensures Messages(cells, ids + [e]) == Messages(cells, ids) + [cells[e]]
  {
  }

  lemma MessagesTail<T>(cells: seq<T>, ids: seq<nat>)
    requires Below(ids, |cells|) && ids != []
    ensures Messages(cells, ids[1..]) == Messages(cells, ids)[1..]
    ensures Messages(cells, ids)[0] == cells[ids[0]]
  {
  }

  // ---------------------------------------------------------------- the mailbox

  class Mailbox<T> {
    const size: nat
    const cells: array<T>
    var free: seq<nat>
    var queue: seq<nat>
    var held: seq<nat>
    ghost var history: seq<Event<T>>

    /** The elements are where they should be, and the unread messages are what the history of arrivals
        and reads leaves. */
    ghost predicate Valid()
      reads this, cells
    {
      Sound() && Messages(cells[..], queue) == Run(history).queue
    }

    ghost predicate Sound()
      reads `free, `queue, `held, cells
    {
      && cells.Length == size
      && Conserved(free, queue, held, size)
      && Below(free, size) && Below(queue, size) && Below(held, size)
    }

    /** The unread messages, oldest first. */
    ghost function Unread(): (s: seq<T>)
      requires Valid()
      reads this, cells
      ensures |s| == |queue|
    {
      Messages(cells[..], queue)
    }

    /** How many messages can wait: all elements but those that clients hold. */
    ghost function Room(): int
      reads this
    {
      size - |held|
    }

    constructor (size: nat, blank: T)
      ensures Valid() && fresh(cells) && this.size == size && queue == [] && held == [] && history == []
    {
      this.size := size;
      cells := new T[size](_ => blank);
      free, queue, held := All(size), [], [];
      history := [];
    }

    /** One reception in can_intr.  It fails, with both queues empty, exactly when clients hold every
        element. */
    method Receive(message: T) returns (ok: bool)
      requires Valid()
      modifies this`free, this`queue, this`history, cells
      ensures Valid() && Room() >= 0 && history == old(history) + [Arrival(message, Room())]
      ensures ok <==> Room() > 0
      ensures Unread() == Arrive(old(Unread()), message, Room())
      ensures !ok ==> free == old(free) && queue == old(queue) && cells[..] == old(cells[..])
      ensures forall i :: 0 <= i < |held| ==> cells[held[i]] == old(cells[held[i]])
    {
      hide Sound, Messages, Conserved, Below, Arrive, Run;
      ghost var before := Unread();
      var e;
      ok, e := NextElement();
      if ok {
        Store(e, message);
        DropOldest(before, message, Room());
      } else {
        NoRoom(before, message);
      }
      RunNext(history, Arrival(message, Room()));
      history := history + [Arrival(message, Room())];
    }

    /** A free element, or else that of the oldest message. */
    method NextElement() returns (ok: bool, e: nat)
      requires Sound()
      modifies this`free, this`queue
      ensures 0 <= Room() && (ok <==> Room() > 0)
      ensures !ok ==> free == old(free) && queue == old(queue) && Sound()
      ensures old(|Messages(cells[..], queue)|) <= Room()
      ensures ok ==>
                && Below(free, size) && Below(queue, size) && Conserved(free, queue + [e], held, size)
                && e < size && e !in queue && e !in held
                && Messages(cells[..], queue) ==
                   if old(|Messages(cells[..], queue)|) < Room() then old(Messages(cells[..], queue))
                   else old(Messages(cells[..], queue))[1..]
      ensures Below(held, size) && cells.Length == size
    {
      hide Messages;
      Counted(free, queue, held, size);
      ok := true;
      if free != [] {
        FirstIsAlone(free, free, queue, held, size);
        assert free == [free[0]] + free[1..];
        e, free := free[0], free[1..];
      } else if queue != [] {
        FirstIsAlone(queue, free, queue, held, size);
        assert queue == [queue[0]] + queue[1..];
        MessagesTail(cells[..], queue);
        e, queue := queue[0], queue[1..];
      } else {
        ok, e := false, 0;
      }
    }

    /** Fill element `e`, which is in neither queue, and append it to the messages. */
    method Store(e: nat, message: T)
      requires cells.Length == size && Below(free, size) && Below(queue, size) && Below(held, size)
      requires e < size && e !in queue && e !in held && Conserved(free, queue + [e], held, size)
      modifies this`queue, cells
      ensures Sound() && queue == old(queue) + [e]
      ensures Messages(cells[..], queue) == old(Messages(cells[..], queue)) + [message]
      ensures forall i :: 0 <= i < |held| ==> cells[held[i]] == old(cells[held[i]])
    {
      hide Messages;
      MessagesElsewhere(cells[..], queue, e, message);
      ghost var written := cells[..][e := message];
      cells[e] := message;
      assert cells[..] == written;
      MessagesAppend(written, queue, e);
      queue := queue + [e];
    }

    lemma NoRoom(q: seq<T>, m: T)
      requires |q| == 0
      ensures Arrive(q, m, 0) == q
    {
    }

    lemma RunNext(es: seq<Event<T>>, e: Event<T>)
      ensures Run(es + [e]) == Step(Run(es), e)
    {
      assert (es + [e])[..|es|] == es;
    }

    /** Take the oldest message off the queue. */
    method Dequeue() returns (e: nat)
      requires Sound() && queue != []
      modifies this`queue
      ensures Below(queue, size) && e < size && Conserved(free, queue, held + [e], size)
      ensures cells[e] == old(Messages(cells[..], queue))[0]
      ensures Messages(cells[..], queue) == old(Messages(cells[..], queue))[1..]
    {
      hide Messages;
      assert queue == [queue[0]] + queue[1..];
      MessagesTail(cells[..], queue);
      e, queue := queue[0], queue[1..];
    }

    /** A client's read, in one step: the oldest message is copied and its element returned. */
    method Fetch() returns (r: Option<T>)
      requires Valid()
      modifies this`free, this`queue, this`history
      ensures Valid() && history == old(history) + [Read]
      ensures r == if old(Unread()) == [] then None else Some(old(Unread())[0])
      ensures Unread() == if old(Unread()) == [] then [] else old(Unread())[1..]
    {
      hide Messages, Conserved, Run;
      RunNext(history, Read);
      history := history + [Read];
      if queue == [] {
        return None;
      }
      var e := Dequeue();
      r := Some(cells[e]);
      GiveBack(free, queue, held + [e], |held|, size);
      assert (held + [e])[..|held|] + (held + [e])[|held| + 1..] == held;
      free := free + [e];
    }

    /** The first half of a read that is interrupted ... */
    method Take() returns (r: Option<nat>)
      requires Valid()
      modifies this`queue, this`held, this`history
      ensures Valid() && history == old(history) + [Read]
      ensures old(Unread()) == [] ==> r == None && held == old(held)
      ensures old(Unread()) != [] ==>
                && r.Some? && r.value < cells.Length && cells[r.value] == old(Unread())[0]
                && held == old(held) + [r.value]
                && Unread() == old(Unread())[1..]
    {
      hide Messages, Conserved, Run;
      RunNext(history, Read);
      history := history + [Read];
      if queue == [] {
        return None;
      }
      var e := Dequeue();
      r := Some(e);
      held := held + [e];
    }

    /** ... and the second half. */
    method Return(k: nat)
      requires Valid() && k < |held|
      modifies this`free, this`held
      ensures Valid() && Unread() == old(Unread()) && Room() == old(Room()) + 1
    {
      hide Messages, Conserved, Run;
      GiveBack(free, queue, held, k, size);
      free := free + [held[k]];
      held := held[..k] + held[k + 1..];
    }

    /** Whatever receptions and reads there were: the unread messages are the newest arrivals in order,
        what clients took and what is unread are arrivals in order, and nothing is missing exactly if
        the readers kept up. */
    lemma UnreadAreNewest()
      requires Valid()
      ensures var o, a := Run(history), Arrivals(history);
              && Unread() == o.queue == Newest(a, |o.queue|)
              && Subsequence(o.seen + o.queue, a)
              && (o.seen + o.queue == a <==> KeepsUp(history))
    {
      hide Sound, Messages, Run, Newest, Subsequence, KeepsUp;
      QueueIsNewest(history);
      LosslessIff(history);
    }
  }
}
