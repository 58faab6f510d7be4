/** Packets as the network stack hands them over: chains of mbufs. */
module Packets {

  type byte = b: int | 0 <= b < 256

  datatype Option<+T> = None | Some(value: T)

  /** One mbuf.  `data` is the buffer's valid part (`m_data`, `m_len`); `aligned` says that
      `m_data` lies on an 8 byte boundary. */
  datatype Mbuf = Mbuf(data: seq<byte>, aligned: bool)

  /** A packet is named by its head mbuf `id` and holds its chain. */
  datatype Packet = Packet(id: nat, chain: seq<Mbuf>)

  /** The bytes of a chain, in order; the packet header's length field counts them. */
  function Bytes(chain: seq<Mbuf>): (s: seq<byte>)
  {
    if chain == [] then [] else Bytes(chain[..|chain| - 1]) + chain[|chain| - 1].data
  }

  /** The mbufs that carry data; zero length ones get no descriptor. */
  function NonEmpty(chain: seq<Mbuf>): (s: seq<Mbuf>)
    ensures forall i :: 0 <= i < |s| ==> s[i].data != []
    ensures |s| <= |chain|
  {
    if chain == [] then []
    else
      var m := chain[|chain| - 1];
      NonEmpty(chain[..|chain| - 1]) + if m.data == [] then [] else [m]
  }

  lemma {:induction false} BytesAppend(a: seq<Mbuf>, b: seq<Mbuf>)
    ensures Bytes(a + b) == Bytes(a) + Bytes(b)
  {
    if b == [] {
      assert a + b == a;
    } else {
      var c := a + b;
      assert c[..|c| - 1] == a + b[..|b| - 1];
      BytesAppend(a, b[..|b| - 1]);
    }
  }

  lemma {:induction false} NonEmptyAppend(a: seq<Mbuf>, b: seq<Mbuf>)
    ensures NonEmpty(a + b) == NonEmpty(a) + NonEmpty(b)
  {
    if b == [] {
      assert a + b == a;
    } else {
      var c := a + b;
      assert c[..|c| - 1] == a + b[..|b| - 1];
      NonEmptyAppend(a, b[..|b| - 1]);
    }
  }

  /** Skipping zero length mbufs loses no data. */
  lemma {:induction false} NonEmptyBytes(chain: seq<Mbuf>)
    ensures Bytes(NonEmpty(chain)) == Bytes(chain)
    ensures NonEmpty(chain) == [] <==> Bytes(chain) == []
  {
    if chain != [] {
      var front, m := chain[..|chain| - 1], chain[|chain| - 1];
      NonEmptyBytes(front);
      if m.data != [] {
        var s := NonEmpty(chain);
        assert s == NonEmpty(front) + [m];
        assert s[..|s| - 1] == NonEmpty(front);
      } else {
        assert NonEmpty(chain) == NonEmpty(front);
        assert Bytes(chain) == Bytes(front);
      }
    }
  }

  lemma NextFragment(chain: seq<Mbuf>, i: nat)
    requires i < |chain|
    ensures var k := |NonEmpty(chain[..i])|;
            if chain[i].data == [] then NonEmpty(chain[..i + 1]) == NonEmpty(chain[..i])
            else |NonEmpty(chain[..i + 1])| == k + 1 && k < |NonEmpty(chain)| && NonEmpty(chain)[k] == chain[i]
  {
    assert chain[..i + 1][..i] == chain[..i];
    assert chain[..i + 1] + chain[i + 1..] == chain;
    NonEmptyAppend(chain[..i + 1], chain[i + 1..]);
  }
}
