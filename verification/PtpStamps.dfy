/** The tables of recent message timestamps, one of 64 entries for received messages and one of 16 for transmitted
ones.

A table is an array of fixed size that is overwritten round and round and searched from slot 0.
Its meaning is the history of what was recorded since the table was last cleared, with as many blank
entries before it as the table has slots: the table shows the end of that history. */
module PtpStamps {
  import opened RingArith
  import opened Packets
  import PtpMessage

  datatype Key = Key(messageType: nat, sequence: nat, port: nat, identity: seq<byte>)
  datatype Stamp = Stamp(sec: nat, nsec: nat)
  datatype Entry = Entry(key: Key, stamp: Stamp)

  const BLANK: Entry := Entry(Key(0, 0, 0, [0, 0, 0, 0, 0, 0, 0, 0]), Stamp(0, 0))

  /** The key of a message, from its header. */
  function KeyOf(header: seq<byte>): Key
    requires |header| == PtpMessage.PTP_HEADER
  {
    Key(header[0] % 16, PtpMessage.Word(header, 30), PtpMessage.Word(header, 28), header[20..28])
  }

  /** Only version 2 messages are recorded. */
  predicate Recorded(header: seq<byte>)
    requires |header| == PtpMessage.PTP_HEADER
  {
    header[1] % 16 == 2
  }

  // ---------------------------------------------------------------- a header, field by field

  /** The fields of a version 2 header in their order; `middle` are length, domain, flags, correction
      and what is reserved between, `rest` are control and message interval. */
  datatype Fields = Fields(transport: nat, messageType: nat, reserved: nat, version: nat, middle: seq<byte>,
                           identity: seq<byte>, port: nat, sequence: nat, rest: seq<byte>)

  predicate InRange(f: Fields)
  {
    && f.transport < 16 && f.messageType < 16 && f.reserved < 16 && f.version < 16
    && |f.middle| == 18 && |f.identity| == 8 && f.port < 65536 && f.sequence < 65536 && |f.rest| == 2
  }

  function Encode(f: Fields): (s: seq<byte>)
    requires InRange(f)
    ensures |s| == 34
  {
    [16 * f.transport + f.messageType, 16 * f.reserved + f.version] + f.middle + f.identity +
    [f.port / 256, f.port % 256] + [f.sequence / 256, f.sequence % 256] + f.rest
  }

  /** The key has the message type, sequence number, port and clock identity, and the version decides. */
  lemma KeyOfFields(f: Fields)
    requires InRange(f)
    ensures PtpMessage.PTP_HEADER == 34
    ensures KeyOf(Encode(f)) == Key(f.messageType, f.sequence, f.port, f.identity)
    ensures Recorded(Encode(f)) <==> f.version == 2
  {
    var s := Encode(f);
    assert s[0] == 16 * f.transport + f.messageType && s[1] == 16 * f.reserved + f.version;
    assert s[20..28] == f.identity;
    assert s[28] == f.port / 256 && s[29] == f.port % 256;
    assert s[30] == f.sequence / 256 && s[31] == f.sequence % 256;
  }

  /** Every header is that of some fields. */
  lemma HeaderHasFields(header: seq<byte>) returns (f: Fields)
    requires |header| == PtpMessage.PTP_HEADER
    ensures InRange(f) && Encode(f) == header
  {
    f := Fields(header[0] / 16, header[0] % 16, header[1] / 16, header[1] % 16, header[2..20], header[20..28],
                PtpMessage.Word(header, 28), PtpMessage.Word(header, 30), header[32..]);
    var s := Encode(f);
    forall k | 0 <= k < 34 ensures s[k] == header[k] {
    }
  }

  // ---------------------------------------------------------------- which entry a search finds

  /** Entry `k` of the history is still in a table of `n` slots. */
  predicate Kept(h: seq<Entry>, n: nat, k: nat)
  {
    |h| - n <= k < |h|
  }

  predicate Holds(h: seq<Entry>, n: nat, k: nat, key: Key)
  {
    Kept(h, n, k) && h[k].key == key
  }

  /** A search for `key` stops at entry `m`: of the kept entries with that key the one in the lowest
      slot.  Entry `k` is in slot `Slot(base + k, n)`. */
  ghost predicate StopsAt(h: seq<Entry>, base: nat, n: nat, key: Key, m: nat)
    requires n > 0
  {
    && Holds(h, n, m, key)
    && (forall k: nat :: Holds(h, n, k, key) ==> Slot(base + m, n) <= Slot(base + k, n))
  }

  /** What a search returns. */
  ghost predicate Answers(h: seq<Entry>, base: nat, n: nat, key: Key, r: Option<Stamp>)
    requires n > 0
  {
    match r
    case None => forall k: nat :: !Holds(h, n, k, key)
    case Some(stamp) => exists m: nat :: StopsAt(h, base, n, key, m) && h[m].stamp == stamp
  }

  lemma StopsOnce(h: seq<Entry>, base: nat, n: nat, key: Key, a: nat, b: nat)
    requires n > 0 && StopsAt(h, base, n, key, a) && StopsAt(h, base, n, key, b)
    ensures a == b
  {
    if a < b {
      SlotsDiffer(base + a, base + b, n);
    } else if b < a {
      SlotsDiffer(base + b, base + a, n);
    }
  }

  /** There is only one answer. */
  lemma AnswerUnique(h: seq<Entry>, base: nat, n: nat, key: Key, r: Option<Stamp>, q: Option<Stamp>)
    requires n > 0 && Answers(h, base, n, key, r) && Answers(h, base, n, key, q)
    ensures r == q
  {
    if r.Some? && q.Some? {
      var a := Stopped(h, base, n, key, r);
      var b := Stopped(h, base, n, key, q);
      StopsOnce(h, base, n, key, a, b);
    }
  }

  lemma Stopped(h: seq<Entry>, base: nat, n: nat, key: Key, r: Option<Stamp>) returns (m: nat)
    requires n > 0 && r.Some? && Answers(h, base, n, key, r)
    ensures Holds(h, n, m, key) && StopsAt(h, base, n, key, m) && h[m] == Entry(key, r.value)
  {
    m :| StopsAt(h, base, n, key, m) && h[m].stamp == r.value;
  }

  /** With a repeated key the search finds the newest entry exactly when the write index came round to
      slot 0 after every older one kept: the number of records written decides, not their contents. */
  lemma FindsNewestIff(h: seq<Entry>, base: nat, n: nat, key: Key, newest: nat)
    requires n > 0 && Holds(h, n, newest, key)
    requires forall k: nat :: Holds(h, n, k, key) ==> k <= newest
    ensures StopsAt(h, base, n, key, newest) <==>
            forall k: nat :: k < newest && Holds(h, n, k, key) ==> Turn(base + k, n) < Turn(base + newest, n)
  {
    hide Slot, Turn;
    forall k: nat | k < newest && Holds(h, n, k, key)
      ensures Slot(base + newest, n) != Slot(base + k, n)
      ensures Slot(base + newest, n) < Slot(base + k, n) <==> Turn(base + k, n) < Turn(base + newest, n)
    {
      SlotsDiffer(base + k, base + newest, n);
      LowerAfterTurn(base + k, base + newest, n);
    }
  }

  /** It may be the older one: two entries with the same key in a fresh table. */
  lemma FindsOlder(key: Key, a: Stamp, b: Stamp, n: nat)
    requires n >= 2
    ensures var h := Blank(n) + [Entry(key, a), Entry(key, b)];
            key != BLANK.key ==> Answers(h, 0, n, key, Some(a))
  {
    var h := Blank(n) + [Entry(key, a), Entry(key, b)];
    if key != BLANK.key {
      assert h[n].stamp == a;
      assert forall k: nat :: Holds(h, n, k, key) ==> k == n || k == n + 1;
      SlotTurn(0, n);
      SlotTurn(1, n);
      assert StopsAt(h, 0, n, key, n);
    }
  }

  /** A message just recorded is found by its type, sequence number, port and identity, if no other
      record that is still there has the same four. */
  lemma RecordedIsFound(h: seq<Entry>, base: nat, n: nat, f: Fields, stamp: Stamp, r: Option<Stamp>)
    requires 0 < n <= |h| && InRange(f)
    requires forall k: nat :: |h| - n < k < |h| ==> h[k].key != Key(f.messageType, f.sequence, f.port, f.identity)
    requires Answers(h + [Entry(KeyOf(Encode(f)), stamp)], base, n, Key(f.messageType, f.sequence, f.port, f.identity), r)
    ensures r == Some(stamp)
  {
    hide Answers, StopsAt, KeyOf, Encode;
    KeyOfFields(f);
    var e := Entry(KeyOf(Encode(f)), stamp);
    assert forall j: nat :: Holds(h + [e], n, j, e.key) ==> j == |h|;
    OnlyHolder(h + [e], base, n, e.key, |h|, r);
  }

  /** A search that differs in any of the four finds what it found before, unless that was overwritten. */
  lemma OthersStay(h: seq<Entry>, base: nat, n: nat, f: Fields, stamp: Stamp, key: Key, was: Option<Stamp>, r: Option<Stamp>)
    requires 0 < n <= |h| && InRange(f) && h[|h| - n].key != key
    requires key.messageType != f.messageType || key.sequence != f.sequence ||
             key.port != f.port || key.identity != f.identity
    requires Answers(h, base, n, key, was) && Answers(h + [Entry(KeyOf(Encode(f)), stamp)], base, n, key, r)
    ensures r == was
  {
    hide Answers, StopsAt, KeyOf, Encode;
    KeyOfFields(f);
    SameAnswer(h, Entry(KeyOf(Encode(f)), stamp), base, n, key, r);
    AnswerUnique(h, base, n, key, r, was);
  }

  lemma SameAnswer(h: seq<Entry>, e: Entry, base: nat, n: nat, key: Key, r: Option<Stamp>)
    requires n > 0 && |h| >= n && key != e.key && h[|h| - n].key != key
    requires Answers(h + [e], base, n, key, r)
    ensures Answers(h, base, n, key, r)
  {
    assert forall k: nat :: Holds(h + [e], n, k, key) <==> Holds(h, n, k, key);
    if r.Some? {
      var m := Stopped(h + [e], base, n, key, r);
      assert StopsAt(h, base, n, key, m);
    }
  }

  // ---------------------------------------------------------------- a faithful bounded map

  function Blank(n: nat): (s: seq<Entry>)
    ensures |s| == n
  {
    seq(n, _ => BLANK)
  }

  /** What was recorded since the table was cleared. */
  function Since(h: seq<Entry>, n: nat): seq<Entry>
    requires |h| >= n
  {
    h[n..]
  }

  /** The records that are still in the table. */
  function Recent(h: seq<Entry>, n: nat): seq<Entry>
    requires |h| >= n
  {
    var s := Since(h, n);
    if |s| <= n then s else s[|s| - n..]
  }

  ghost predicate DistinctKeys(s: seq<Entry>)
  {
    forall i, j :: 0 <= i < j < |s| ==> s[i].key != s[j].key
  }

  /** If the keys of the recent records are distinct, a key other than the blank one maps to its
      record, and to nothing if it has none. */
  lemma FaithfulMap(h: seq<Entry>, base: nat, n: nat, key: Key, r: Option<Stamp>)
    requires n > 0 && |h| >= n && h[..n] == Blank(n)
    requires DistinctKeys(Recent(h, n)) && key != BLANK.key
    requires Answers(h, base, n, key, r)
    ensures forall i :: 0 <= i < |Recent(h, n)| && Recent(h, n)[i].key == key ==> r == Some(Recent(h, n)[i].stamp)
    ensures r.Some? ==> Entry(key, r.value) in Recent(h, n)
  {
    hide Answers, StopsAt, Recent, DistinctKeys;
    forall i | 0 <= i < |Recent(h, n)| && Recent(h, n)[i].key == key
      ensures r == Some(Recent(h, n)[i].stamp)
    {
      RecentIsFound(h, base, n, i, r);
    }
    if r.Some? {
      var m := Stopped(h, base, n, key, r);
      HoldsIsRecent(h, n, m, key);
    }
  }

  lemma RecentIsFound(h: seq<Entry>, base: nat, n: nat, i: nat, r: Option<Stamp>)
    requires n > 0 && |h| >= n && h[..n] == Blank(n)
    requires DistinctKeys(Recent(h, n)) && i < |Recent(h, n)|
    requires Recent(h, n)[i].key != BLANK.key
    requires Answers(h, base, n, Recent(h, n)[i].key, r)
    ensures r == Some(Recent(h, n)[i].stamp)
  {
    hide Answers;
    var key, k := Recent(h, n)[i].key, |h| - |Recent(h, n)| + i;
    assert h[k] == Recent(h, n)[i];
    forall j: nat | Holds(h, n, j, key) ensures j == k {
      HoldsIsRecent(h, n, j, key);
    }
    OnlyHolder(h, base, n, key, k, r);
  }

  lemma HoldsIsRecent(h: seq<Entry>, n: nat, j: nat, key: Key)
    requires n > 0 && |h| >= n && h[..n] == Blank(n) && key != BLANK.key && Holds(h, n, j, key)
    ensures |h| - |Recent(h, n)| <= j && Recent(h, n)[j - (|h| - |Recent(h, n)|)] == h[j]
  {
    if j < n {
      BlankAt(h, n, j);
    }
  }

  lemma BlankAt(h: seq<Entry>, n: nat, j: nat)
    requires j < n <= |h| && h[..n] == Blank(n)
    ensures h[j] == BLANK
  {
    assert h[j] == h[..n][j];
  }

  lemma SinceHas(h: seq<Entry>, n: nat, m: nat)
    requires n <= m < |h|
    ensures h[m] in Since(h, n)
  {
    assert h[m] == Since(h, n)[m - n];
  }

  lemma OnlyHolder(h: seq<Entry>, base: nat, n: nat, key: Key, k: nat, r: Option<Stamp>)
    requires n > 0 && Holds(h, n, k, key) && Answers(h, base, n, key, r)
    requires forall j: nat :: Holds(h, n, j, key) ==> j == k
    ensures r == Some(h[k].stamp)
  {
  }

  /** The blank key is found, though nobody recorded it, exactly while some slot is unused. */
  lemma BlankFoundIff(h: seq<Entry>, base: nat, n: nat, r: Option<Stamp>)
    requires n > 0 && |h| >= n && h[..n] == Blank(n)
    requires forall e :: e in Since(h, n) ==> e.key != BLANK.key
    requires Answers(h, base, n, BLANK.key, r)
    ensures r.Some? <==> |Since(h, n)| < n
  {
    hide Answers, StopsAt;
    forall k | n <= k < |h| ensures h[k].key != BLANK.key {
      SinceHas(h, n, k);
    }
    if r.Some? {
      var m := Stopped(h, base, n, BLANK.key, r);
    } else if |Since(h, n)| < n {
      BlankAt(h, n, n - 1);
      NothingHolds(h, base, n, BLANK.key, n - 1);
    }
  }

  lemma NothingHolds(h: seq<Entry>, base: nat, n: nat, key: Key, k: nat)
    requires n > 0 && Answers(h, base, n, key, None)
    ensures !Holds(h, n, k, key)
  {
  }

  // ---------------------------------------------------------------- the table

  class Table {
    const size: nat
    const slots: array<Entry>
    var count: nat
    ghost var base: nat
    ghost var history: seq<Entry>

    ghost predicate Valid()
      reads this, slots
    {
      && slots.Length == size > 0
      && |history| >= size && history[..size] == Blank(size)
      && count == Slot(base + |history|, size)
      && (forall k: nat :: Kept(history, size, k) ==> slots[Slot(base + k, size)] == history[k])
    }

    constructor (size: nat)
      requires size > 0
      ensures Valid() && this.size == size && history == Blank(size) && fresh(slots)
    {
      this.size := size;
      slots := new Entry[size](_ => BLANK);
      count := 0;
      base := 0;
      history := Blank(size);
      new;
      SlotTurn(0, size);
    }

    /** mx6q_ptp_add_rx_timestamp and mx6q_ptp_add_tx_timestamp, given the seconds that go with the
        captured nanoseconds. */
    method Add(header: seq<byte>, sec: nat, nsec: nat)
      requires Valid() && |header| == PtpMessage.PTP_HEADER
      modifies this`count, this`history, slots
      ensures Valid()
      ensures history == if Recorded(header) then old(history) + [Entry(KeyOf(header), Stamp(sec, nsec))]
                         else old(history)
      ensures forall f: Fields :: InRange(f) && Encode(f) == header ==>
                history == if f.version == 2 then
                             old(history) + [Entry(Key(f.messageType, f.sequence, f.port, f.identity), Stamp(sec, nsec))]
                           else old(history)
    {
      hide KeyOf, Blank, Answers, InRange, Encode;
      forall f: Fields | InRange(f) && Encode(f) == header
        ensures KeyOf(header) == Key(f.messageType, f.sequence, f.port, f.identity) && (Recorded(header) <==> f.version == 2)
      {
        KeyOfFields(f);
      }
      if header[1] % 16 != 2 {
        return;
      }
      var e := Entry(KeyOf(header), Stamp(sec, nsec));
      ghost var last := |history|;
      SlotNext(base + last, size);
      slots[count] := e;
      count := (count + 1) % size;
      history := history + [e];
      assert history[..size] == old(history)[..size];
      forall k: nat | Kept(history, size, k) ensures slots[Slot(base + k, size)] == history[k] {
        if k < last {
          SlotsDiffer(base + k, base + last, size);
          assert Kept(old(history), size, k);
        }
      }
    }

    /** mx6q_ptp_get_rx_timestamp, and the search in mx6q_ptp_get_tx_timestamp. */
    method Lookup(key: Key) returns (r: Option<Stamp>)
      requires Valid()
      ensures Answers(history, base, size, key, r)
    {
      for i := 0 to size
        invariant forall k: nat :: Holds(history, size, k, key) ==> Slot(base + k, size) >= i
      {
        ghost var k := Occupant(i);
        if key == slots[i].key {
          assert StopsAt(history, base, size, key, k);
          return Some(slots[i].stamp);
        }
        forall j: nat | Holds(history, size, j, key) ensures Slot(base + j, size) != i {
          assert slots[Slot(base + j, size)] == history[j];
        }
      }
      r := None;
    }

    lemma Occupant(i: nat) returns (k: nat)
      requires Valid() && i < size
      ensures Kept(history, size, k) && Slot(base + k, size) == i && slots[i] == history[k]
    {
      var at := SlotCovered(base + |history| - size, i, size);
      k := at - base;
      assert Kept(history, size, k);
    }

    /** Setting the time wipes the table; the next record still goes where it would have gone. */
    method Clear()
      requires Valid()
      modifies this`history, this`base, slots
      ensures Valid() && history == Blank(size) && count == old(count)
    {
      forall i | 0 <= i < size {
        slots[i] := BLANK;
      }
      base := count;
      history := Blank(size);
      SlotTurn(count, size);
    }
  }
}
