/** Finding the PTP message in a received or transmitted packet.

The packet is a chain of mbufs; the driver walks a cursor along it.  The reference is a function on
the flat bytes: an Ethernet frame carrying PTP directly (IEEE 1588-2008 Annex F, ethertype 0x88F7)
or in a UDP datagram over IPv4 to port 319 (Annex D). */
module PtpMessage {
  import opened Packets

  const ETHER_HEADER: nat := 14
  const UDP_HEADER: nat := 8
  const PTP_HEADER: nat := 34
  const IPPROTO_UDP: nat := 17
  const EVENT_PORT: nat := 319
  const TYPE_PTP: nat := 0x88F7
  const TYPE_IP: nat := 0x0800

  // ---------------------------------------------------------------- on flat bytes

  /** A 16 bit field in network byte order. */
  function Word(s: seq<byte>, at: nat): nat
    requires at + 2 <= |s|
  {
    var high: int := s[at];
    256 * high + s[at + 1]
  }

  /** The length of the IP header, as it says itself. */
  function HeaderLength(s: seq<byte>): nat
    requires |s| > ETHER_HEADER
  {
    4 * (s[ETHER_HEADER] % 16)
  }

  predicate IsUdp(s: seq<byte>)
  {
    && |s| >= ETHER_HEADER + PTP_HEADER
    && Word(s, 12) == TYPE_IP
    && s[ETHER_HEADER + 9] == IPPROTO_UDP
    && |s| >= ETHER_HEADER + HeaderLength(s) + UDP_HEADER + PTP_HEADER
  }

  /** Where the driver sees a PTP message in a packet with these bytes. */
  function EventOffset(s: seq<byte>): Option<nat>
  {
    if |s| < ETHER_HEADER + PTP_HEADER then None
    else if Word(s, 12) == TYPE_PTP then Some(ETHER_HEADER)
    else if IsUdp(s) && Word(s, ETHER_HEADER + HeaderLength(s) + 2) == EVENT_PORT then
      Some(ETHER_HEADER + HeaderLength(s) + UDP_HEADER)
    else None
  }

  /** A PTP message directly in an Ethernet frame. */
  function Native(addresses: seq<byte>, message: seq<byte>): seq<byte>
  {
    addresses + [0x88, 0xF7] + message
  }

  /** A PTP message in a UDP datagram. */
  function Datagram(addresses: seq<byte>, ip: seq<byte>, udp: seq<byte>, message: seq<byte>): seq<byte>
  {
    addresses + [0x08, 0x00] + ip + udp + message
  }

  /** An IPv4 header of an unfragmented UDP datagram: version 4, at least five words of header,
      no more fragments and fragment offset 0. */
  predicate IpHeader(ip: seq<byte>)
  {
    && |ip| >= 20 && |ip| == 4 * (ip[0] % 16) && ip[0] / 16 == 4
    && ip[6] % 64 == 0 && ip[7] == 0 && ip[9] == 17
  }

  /** The parts of the IP header that the driver does not look at. */
  predicate Unchecked(s: seq<byte>)
    requires |s| >= ETHER_HEADER + PTP_HEADER
  {
    && s[ETHER_HEADER] / 16 == 4 && s[ETHER_HEADER] % 16 >= 5
    && s[ETHER_HEADER + 6] % 64 == 0 && s[ETHER_HEADER + 7] == 0
  }

  ghost predicate IsNative(s: seq<byte>, off: nat, addresses: seq<byte>, message: seq<byte>)
  {
    && |addresses| == 12 && |message| >= 34
    && s == Native(addresses, message) && off == |s| - |message|
  }

  ghost predicate IsDatagram(s: seq<byte>, off: nat, addresses: seq<byte>, ip: seq<byte>, udp: seq<byte>,
                             message: seq<byte>)
  {
    && |addresses| == 12 && IpHeader(ip) && |udp| == 8 && udp[2..4] == [1, 63]
    && |message| >= 34
    && s == Datagram(addresses, ip, udp, message) && off == |s| - |message|
  }

  /** The message of the frame `s` starts at `off`, going by the standard's encapsulations. */
  ghost predicate Carries(s: seq<byte>, off: nat)
  {
    || (exists addresses: seq<byte>, message: seq<byte> :: IsNative(s, off, addresses, message))
    || (exists addresses: seq<byte>, ip: seq<byte>, udp: seq<byte>, message: seq<byte> ::
          IsDatagram(s, off, addresses, ip, udp, message))
  }

  lemma NativeLayout(s: seq<byte>, off: nat, addresses: seq<byte>, message: seq<byte>)
    requires IsNative(s, off, addresses, message)
    ensures |s| >= ETHER_HEADER + PTP_HEADER && off == ETHER_HEADER && Word(s, 12) == TYPE_PTP
  {
    assert s[12] == 0x88 && s[13] == 0xF7;
  }

  lemma DatagramLayout(s: seq<byte>, addresses: seq<byte>, ip: seq<byte>, udp: seq<byte>, message: seq<byte>)
    requires |addresses| == 12 && |ip| >= 20 && |udp| == UDP_HEADER
    requires s == Datagram(addresses, ip, udp, message)
    ensures |s| == ETHER_HEADER + |ip| + UDP_HEADER + |message|
    ensures s[12] == 0x08 && s[13] == 0x00
    ensures s[ETHER_HEADER..ETHER_HEADER + |ip|] == ip
    ensures s[ETHER_HEADER + |ip|..ETHER_HEADER + |ip| + UDP_HEADER] == udp
  {
    var front := addresses + [0x08, 0x00];
    assert s == front + ip + udp + message;
    assert s[..12] == addresses;
  }

  lemma DatagramFields(s: seq<byte>, off: nat, addresses: seq<byte>, ip: seq<byte>, udp: seq<byte>,
                       message: seq<byte>)
    requires IsDatagram(s, off, addresses, ip, udp, message)
    ensures IsUdp(s) && Unchecked(s)
    ensures off == ETHER_HEADER + HeaderLength(s) + UDP_HEADER
    ensures Word(s, ETHER_HEADER + HeaderLength(s) + 2) == EVENT_PORT
  {
    hide Datagram;
    DatagramLayout(s, addresses, ip, udp, message);
    var h := ETHER_HEADER + |ip|;
    assert forall k :: 0 <= k < |ip| ==> s[ETHER_HEADER + k] == s[ETHER_HEADER..h][k] == ip[k];
    assert s[ETHER_HEADER] == ip[0] && s[ETHER_HEADER + 9] == ip[9];
    assert s[ETHER_HEADER + 6] == ip[6] && s[ETHER_HEADER + 7] == ip[7];
    assert s[h + 2] == s[h..h + UDP_HEADER][2] == udp[2] && s[h + 3] == s[h..h + UDP_HEADER][3] == udp[3];
  }

  /** Whatever the encapsulations build is found, at the place where the message starts. */
  lemma CarriedIsFound(s: seq<byte>, off: nat)
    requires Carries(s, off)
    ensures EventOffset(s) == Some(off)
    ensures Word(s, 12) == TYPE_PTP || Unchecked(s)
  {
    hide IsNative, IsDatagram;
    if addresses: seq<byte>, message: seq<byte> :| IsNative(s, off, addresses, message) {
      NativeLayout(s, off, addresses, message);
    } else {
      var addresses: seq<byte>, ip: seq<byte>, udp: seq<byte>, message: seq<byte> :|
        IsDatagram(s, off, addresses, ip, udp, message);
      DatagramFields(s, off, addresses, ip, udp, message);
    }
  }

  /** What is found is a message of the standard exactly when, in an IP packet, the parts that the
      driver does not look at are in order as well. */
  lemma FoundIsCarriedIff(s: seq<byte>, off: nat)
    requires EventOffset(s) == Some(off)
    ensures Carries(s, off) <==> Word(s, 12) == TYPE_PTP || Unchecked(s)
  {
    hide Carries;
    if Carries(s, off) {
      CarriedIsFound(s, off);
    }
    if Word(s, 12) == TYPE_PTP {
      NativeSplits(s);
    } else if Unchecked(s) {
      DatagramSplits(s);
    }
  }

  /** The message type: Sync, Delay_Req, Pdelay_Req and Pdelay_Resp are the event messages, numbers 0 to
      3; the general messages have larger numbers. */
  function MessageType(s: seq<byte>, off: nat): nat
    requires off < |s|
  {
    s[off] % 16
  }

  /** The frame carries a PTP event message. */
  ghost predicate CarriesEvent(s: seq<byte>, off: nat)
  {
    off < |s| && Carries(s, off) && MessageType(s, off) < 4
  }

  /** Every event message is found, and what is found is one exactly when the message type, which the
      driver does not look at either, is that of an event. */
  lemma FoundIsEventIff(s: seq<byte>, off: nat)
    ensures CarriesEvent(s, off) ==> EventOffset(s) == Some(off)
    ensures EventOffset(s) == Some(off) ==>
              off < |s| &&
              (CarriesEvent(s, off) <==>
               (Word(s, 12) == TYPE_PTP || Unchecked(s)) && MessageType(s, off) < 4)
  {
    hide Carries;
    if CarriesEvent(s, off) {
      CarriedIsFound(s, off);
    }
    if EventOffset(s) == Some(off) {
      FoundIsCarriedIff(s, off);
    }
  }

  /** An Announce message, a general one, directly in an Ethernet frame. */
  function Announce(): seq<byte>
  {
    seq(ETHER_HEADER + PTP_HEADER, (k: int) => if k == 12 then 0x88 else if k == 13 then 0xF7 else if k == 14 then 11 else 0)
  }

  /** It is taken for an event message, and is none. */
  lemma AnnounceIsFound()
    ensures EventOffset(Announce()) == Some(14)
    ensures Carries(Announce(), 14) && !CarriesEvent(Announce(), 14)
  {
    hide Carries;
    var s := Announce();
    assert s[12] == 0x88 && s[13] == 0xF7 && s[14] == 11;
    FoundIsCarriedIff(s, 14);
  }

  /** A later fragment of some datagram whose data happen to spell a port number. */
  function LaterFragment(): seq<byte>
  {
    seq(ETHER_HEADER + 20 + UDP_HEADER + PTP_HEADER, (k: int) =>
      if k == 12 then 0x08 else if k == 14 then 0x45 else if k == 21 then 1 else if k == 23 then 17
      else if k == 36 then 1 else if k == 37 then 63 else 0)
  }

  /** It is taken for an event message, and is none. */
  lemma LaterFragmentIsFound()
    ensures EventOffset(LaterFragment()) == Some(42) && !Carries(LaterFragment(), 42)
  {
    hide Carries;
    var s := LaterFragment();
    assert s[12] == 8 && s[13] == 0 && s[14] == 0x45 && s[21] == 1 && s[23] == 17 && s[36] == 1 && s[37] == 63;
    FoundIsCarriedIff(s, 42);
  }

  lemma NativeSplits(s: seq<byte>)
    requires |s| >= ETHER_HEADER + PTP_HEADER && Word(s, 12) == TYPE_PTP
    ensures Carries(s, ETHER_HEADER)
  {
    assert IsNative(s, ETHER_HEADER, s[..12], s[14..]);
  }

  lemma DatagramSplits(s: seq<byte>)
    requires IsUdp(s) && Unchecked(s)
    requires Word(s, ETHER_HEADER + HeaderLength(s) + 2) == EVENT_PORT
    ensures Carries(s, ETHER_HEADER + HeaderLength(s) + UDP_HEADER)
  {
    var h := ETHER_HEADER + HeaderLength(s);
    var ip, udp, message := s[ETHER_HEADER..h], s[h..h + UDP_HEADER], s[h + UDP_HEADER..];
    assert s[..12] + [0x08, 0x00] == s[..14];
    assert s == Datagram(s[..12], ip, udp, message);
    assert IsDatagram(s, h + UDP_HEADER, s[..12], ip, udp, message);
  }

  // ---------------------------------------------------------------- along the chain

  /** The offset in the packet of the first byte of mbuf `i`. */
  function Start(chain: seq<Mbuf>, i: nat): (n: nat)
    requires i <= |chain|
    ensures i == 0 ==> n == 0
  {
    |Bytes(chain[..i])|
  }

  /** The `n` bytes at `off` lie within one mbuf. */
  ghost predicate InOneMbuf(chain: seq<Mbuf>, off: nat, n: nat)
  {
    exists i: nat :: i < |chain| && Start(chain, i) <= off && off + n <= Start(chain, i + 1)
  }

  lemma StartNext(chain: seq<Mbuf>, i: nat)
    requires i < |chain|
    ensures Start(chain, i + 1) == Start(chain, i) + |chain[i].data|
    ensures Bytes(chain[..i + 1]) == Bytes(chain[..i]) + chain[i].data
  {
    assert chain[..i + 1][..i] == chain[..i];
  }

  lemma {:induction false} StartsGrow(chain: seq<Mbuf>, i: nat, j: nat)
    requires i <= j <= |chain|
    ensures Start(chain, i) <= Start(chain, j) <= |Bytes(chain)|
  {
    assert chain[..j] == chain[..i] + chain[i..j];
    BytesAppend(chain[..i], chain[i..j]);
    assert chain == chain[..j] + chain[j..];
    BytesAppend(chain[..j], chain[j..]);
  }

  /** An mbuf's data are the packet's bytes from its start on. */
  lemma ByteAt(chain: seq<Mbuf>, i: nat, r: nat)
    requires i < |chain| && r < |chain[i].data|
    ensures Start(chain, i) + r < |Bytes(chain)|
    ensures chain[i].data[r] == Bytes(chain)[Start(chain, i) + r]
  {
    StartNext(chain, i);
    assert chain == chain[..i + 1] + chain[i + 1..];
    BytesAppend(chain[..i + 1], chain[i + 1..]);
  }

  lemma BytesAt(chain: seq<Mbuf>, i: nat, r: nat, n: nat)
    requires i < |chain| && r + n <= |chain[i].data|
    ensures Start(chain, i) + r + n <= |Bytes(chain)|
    ensures chain[i].data[r..r + n] == Bytes(chain)[Start(chain, i) + r..Start(chain, i) + r + n]
  {
    hide Bytes;
    StartNext(chain, i);
    assert chain == chain[..i + 1] + chain[i + 1..];
    BytesAppend(chain[..i + 1], chain[i + 1..]);
    Middle(Bytes(chain[..i]), chain[i].data, Bytes(chain[i + 1..]), r, n);
  }

  lemma Middle(a: seq<byte>, b: seq<byte>, c: seq<byte>, r: nat, n: nat)
    requires r + n <= |b|
    ensures b[r..r + n] == (a + b + c)[|a| + r..|a| + r + n]
  {
  }

  /** The mbuf that holds the byte at `off` is the only one that can hold a run starting there. */
  lemma OnlyMbuf(chain: seq<Mbuf>, i: nat, r: nat, n: nat)
    requires i < |chain| && r < |chain[i].data| && n > 0
    ensures InOneMbuf(chain, Start(chain, i) + r, n) <==> r + n <= |chain[i].data|
  {
    StartNext(chain, i);
    var off := Start(chain, i) + r;
    if j: nat :| j < |chain| && Start(chain, j) <= off && off + n <= Start(chain, j + 1) {
      if j < i {
        StartsGrow(chain, j + 1, i);
      } else if j > i {
        StartsGrow(chain, i + 1, j);
      }
    }
  }

  /** Reading two bytes of a header through the cursor reads the packet. */
  lemma ThroughCursor(chain: seq<Mbuf>, i: nat, r: nat, n: nat, a: nat, b: nat)
    requires i < |chain| && r < |chain[i].data| && a < n && b < n
    requires InOneMbuf(chain, Start(chain, i) + r, n)
    ensures r + n <= |chain[i].data|
    ensures Start(chain, i) + r + n <= |Bytes(chain)|
    ensures chain[i].data[r + a] == Bytes(chain)[Start(chain, i) + r + a]
    ensures chain[i].data[r + b] == Bytes(chain)[Start(chain, i) + r + b]
  {
    OnlyMbuf(chain, i, r, n);
    StartNext(chain, i);
    StartsGrow(chain, i + 1, |chain|);
    ByteAt(chain, i, r + a);
    ByteAt(chain, i, r + b);
  }

  /** The cursor walk: skip whole mbufs, empty ones included, until the offset lies inside one. */
  method Walk(chain: seq<Mbuf>, from: nat, distance: nat) returns (i: nat, r: nat)
    requires from < |chain| && Start(chain, from) + distance < |Bytes(chain)|
    ensures i < |chain| && r < |chain[i].data|
    ensures Start(chain, i) + r == Start(chain, from) + distance
  {
    i, r := from, distance;
    assert chain[..|chain|] == chain;
    while r >= |chain[i].data|
      invariant i < |chain|
      invariant Start(chain, i) + r == Start(chain, from) + distance
      decreases |chain| - i
    {
      StartNext(chain, i);
      r := r - |chain[i].data|;
      i := i + 1;
    }
  }

  /** What the driver takes for granted of the packets it looks at: the Ethernet, IP and UDP headers
      each lie within one mbuf. */
  ghost predicate HeadersContiguous(chain: seq<Mbuf>)
  {
    var s := Bytes(chain);
    |s| >= ETHER_HEADER + PTP_HEADER ==>
      && |chain[0].data| >= ETHER_HEADER
      && (Word(s, 12) == TYPE_IP ==> InOneMbuf(chain, ETHER_HEADER, 20))
      && (IsUdp(s) ==> InOneMbuf(chain, ETHER_HEADER + HeaderLength(s), UDP_HEADER))
  }

  /** mx6q_ptp_is_eventmsg, for any fragmentation: true exactly when the flat packet has a message and
      the message's header lies in one mbuf; then the cursor is at that header. */
  method IsEventMessage(chain: seq<Mbuf>) returns (found: bool, i: nat, r: nat)
    requires HeadersContiguous(chain)
    ensures var event := EventOffset(Bytes(chain));
            && (found <==> event.Some? && InOneMbuf(chain, event.value, PTP_HEADER))
            && (found ==> i < |chain| && r + PTP_HEADER <= |chain[i].data| &&
                          event.value + PTP_HEADER <= |Bytes(chain)| &&
                          Start(chain, i) + r == event.value &&
                          chain[i].data[r..r + PTP_HEADER] == Bytes(chain)[event.value..event.value + PTP_HEADER])
  {
    ghost var s := Bytes(chain);
    var length := PacketLength(chain);
    if length < ETHER_HEADER + PTP_HEADER {
      return false, 0, 0;
    }
    ByteAt(chain, 0, 12);
    ByteAt(chain, 0, 13);
    var etherType := Word(chain[0].data, 12);
    if etherType == TYPE_PTP {
      i, r := Walk(chain, 0, ETHER_HEADER);
      found := HeaderFits(chain, i, r);
    } else if etherType == TYPE_IP {
      found, i, r := InDatagram(chain, length);
    } else {
      return false, 0, 0;
    }
  }

  /** The packet header's length field. */
  method PacketLength(chain: seq<Mbuf>) returns (n: nat)
    ensures n == |Bytes(chain)|
  {
    n := 0;
    for k := 0 to |chain|
      invariant n == Start(chain, k)
    {
      StartNext(chain, k);
      n := n + |chain[k].data|;
    }
    assert chain[..|chain|] == chain;
  }

  method HeaderFits(chain: seq<Mbuf>, i: nat, r: nat) returns (fits: bool)
    requires i < |chain| && r < |chain[i].data|
    ensures fits <==> InOneMbuf(chain, Start(chain, i) + r, PTP_HEADER)
    ensures fits ==>
              && r + PTP_HEADER <= |chain[i].data|
              && Start(chain, i) + r + PTP_HEADER <= |Bytes(chain)|
              && chain[i].data[r..r + PTP_HEADER] ==
                 Bytes(chain)[Start(chain, i) + r..Start(chain, i) + r + PTP_HEADER]
  {
    OnlyMbuf(chain, i, r, PTP_HEADER);
    fits := |chain[i].data| - r >= PTP_HEADER;
    if fits {
      BytesAt(chain, i, r, PTP_HEADER);
    }
  }

  method InDatagram(chain: seq<Mbuf>, length: nat) returns (found: bool, i: nat, r: nat)
    requires chain != [] && HeadersContiguous(chain) && length == |Bytes(chain)| >= ETHER_HEADER + PTP_HEADER
    requires Word(Bytes(chain), 12) == TYPE_IP
    ensures var event := EventOffset(Bytes(chain));
            && (found <==> event.Some? && InOneMbuf(chain, event.value, PTP_HEADER))
            && (found ==> i < |chain| && r + PTP_HEADER <= |chain[i].data| &&
                          event.value + PTP_HEADER <= |Bytes(chain)| &&
                          Start(chain, i) + r == event.value &&
                          chain[i].data[r..r + PTP_HEADER] == Bytes(chain)[event.value..event.value + PTP_HEADER])
  {
    hide InOneMbuf, Bytes, Start;
    i, r := Walk(chain, 0, ETHER_HEADER);
    ThroughCursor(chain, i, r, 20, 0, 9);
    if chain[i].data[r + 9] != IPPROTO_UDP {
      return false, 0, 0;
    }
    var header := 4 * (chain[i].data[r] % 16);
    if length < ETHER_HEADER + header + UDP_HEADER + PTP_HEADER {
      return false, 0, 0;
    }
    i, r := Walk(chain, i, r + header);
    ThroughCursor(chain, i, r, UDP_HEADER, 2, 3);
    if Word(chain[i].data, r + 2) != EVENT_PORT {
      return false, 0, 0;
    }
    i, r := Walk(chain, i, r + UDP_HEADER);
    found := HeaderFits(chain, i, r);
  }
}
