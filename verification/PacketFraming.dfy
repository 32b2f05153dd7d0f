/** Packets on a connection: twenty header bytes and a payload, which for a batch is a chain of
    packets; and how they are recognised in a stream that arrives in arbitrary pieces. */
module PacketFraming {
  import opened Common
  import opened Wire

  const HEADER := 20
  const MAGIC := 0xFFFF_FFFF
  const MAX_DATA := 0x400_0000
  const BATCH := 20

  datatype Packet = Packet(command: nat, seqId: nat, reserved: nat, payload: seq<Octet>)

  predicate PacketOk(p: Packet) { p.command < U32 && p.seqId < U32 && p.reserved < U32 && |p.payload| <= MAX_DATA }

  /** `encode_packet`, `tdhs_encode` */
  function EncodePacket(p: Packet): (s: seq<Octet>)
    requires PacketOk(p)
    ensures |s| == HEADER + |p.payload|
  {
    Be32(MAGIC) + (Be32(p.command) + (Be32(p.seqId) + (Be32(p.reserved) + (Be32(|p.payload|) + p.payload))))
  }

  function Word(s: seq<Octet>, i: nat): nat
    requires 4 * i + 4 <= |s|
  {
    FromBe32(s[4 * i..4 * i + 4])
  }

  /** The packets of a batch, one after another; their magic codes are not looked at, and bytes after
      the last one are ignored. */
  function Chain(s: seq<Octet>, n: nat): Option<seq<Packet>> {
    if n == 0 then Some([])
    else if |s| < HEADER then None
    else
      var size := Word(s, 4);
      if |s| - HEADER < size then None
      else
        Attach([Packet(Word(s, 1), Word(s, 2), 0, s[HEADER..HEADER + size])], Chain(s[HEADER + size..], n - 1))
  }

  function Attach(ps: seq<Packet>, more: Option<seq<Packet>>): Option<seq<Packet>> {
    match more case None => None case Some(qs) => Some(ps + qs)
  }

  /** `awaited` is the number of bytes to wait for, or 0 while it is not known. */
  datatype Frame = Message(packet: Packet, chain: seq<Packet>, rest: seq<Octet>) | NeedMore(awaited: nat) | Reject

  function ChainOf(p: Packet): Option<seq<Packet>> { Chain(p.payload, if p.command == BATCH then p.reserved else 0) }

  /** What the bytes received so far amount to. */
  function DecodeFrame(s: seq<Octet>): Frame {
    if |s| < HEADER then NeedMore(0)
    else if Word(s, 0) != MAGIC then Reject
    else
      var size := Word(s, 4);
      if size > MAX_DATA then Reject
      else if |s| - HEADER < size then NeedMore(size - (|s| - HEADER))
      else
        var p := Packet(Word(s, 1), Word(s, 2), Word(s, 3), s[HEADER..HEADER + size]);
        match ChainOf(p) case None => Reject case Some(ps) => Message(p, ps, s[HEADER + size..])
  }

  lemma AttachNone(more: Option<seq<Packet>>)
    ensures Attach([], more) == more
  {
    if more.Some? { assert [] + more.value == more.value; }
  }

  lemma AttachOn(ps: seq<Packet>, p: Packet, more: Option<seq<Packet>>)
    ensures Attach(ps, Attach([p], more)) == Attach(ps + [p], more)
  {
    if more.Some? { assert ps + ([p] + more.value) == ps + [p] + more.value; }
  }

  lemma WordAt(s: seq<Octet>, pos: nat, i: nat)
    requires pos <= |s| && 4 * i + 4 <= |s| - pos
    ensures Word(s[pos..], i) == FromBe32(s[pos + 4 * i..pos + 4 * i + 4])
  {
    assert s[pos..][4 * i..4 * i + 4] == s[pos + 4 * i..pos + 4 * i + 4];
  }

  lemma ChainStep(data: seq<Octet>, pos: nat, n: nat)
    requires n > 0 && pos + HEADER <= |data|
    ensures var at := pos + HEADER;
            var size := FromBe32(data[pos + 16..pos + 20]);
            if |data| - at < size then Chain(data[pos..], n) == None
            else
              var p := Packet(FromBe32(data[pos + 4..pos + 8]), FromBe32(data[pos + 8..pos + 12]), 0,
                data[at..at + size]);
              Chain(data[pos..], n) == Attach([p], Chain(data[at + size..], n - 1))
  {
    hide FromBe32, Word;
    WordAt(data, pos, 1);
    WordAt(data, pos, 2);
    WordAt(data, pos, 4);
    var at, size, tail := pos + HEADER, FromBe32(data[pos + 16..pos + 20]), data[pos..];
    if |data| - at >= size {
      assert data[at..at + size] == tail[HEADER..HEADER + size] && data[at + size..] == tail[HEADER + size..];
    }
  }

  /** The loop over the packets of a batch, by a position and the length that is left. */
  method LinkChain(data: seq<Octet>, n: nat) returns (r: Option<seq<Packet>>)
    ensures r == Chain(data, n)
  {
    hide FromBe32;
    var chain: seq<Packet>, pos: nat, left: nat := [], 0, |data|;
    assert data[0..] == data;
    AttachNone(Chain(data, n));
    for i := 0 to n
      invariant pos + left == |data| && Chain(data, n) == Attach(chain, Chain(data[pos..], n - i))
    {
      if left < HEADER { return None; }
      ChainStep(data, pos, n - i);
      var command, seqId := FromBe32(data[pos + 4..pos + 8]), FromBe32(data[pos + 8..pos + 12]);
      var size := FromBe32(data[pos + 16..pos + 20]);
      pos, left := pos + HEADER, left - HEADER;
      if left < size { return None; }
      var p := Packet(command, seqId, 0, data[pos..pos + size]);
      AttachOn(chain, p, Chain(data[pos + size..], n - i - 1));
      chain := chain + [p];
      pos, left := pos + size, left - size;
    }
    assert chain + [] == chain;
    r := Some(chain);
  }

  /** `tdhs_decode`; `alloc` is whether there is memory for a packet that is complete. */
  method TdhsDecode(input: seq<Octet>, alloc: bool) returns (f: Frame)
    ensures f == if alloc || DecodeFrame(input).NeedMore? then DecodeFrame(input) else Reject
  {
    hide Word, Chain;
    if |input| < HEADER { return NeedMore(0); }
    if Word(input, 0) != MAGIC { return Reject; }
    var command, seqId, reserved, size := Word(input, 1), Word(input, 2), Word(input, 3), Word(input, 4);
    if size > MAX_DATA { return Reject; }
    if |input| - HEADER < size { return NeedMore(size - (|input| - HEADER)); }
    if !alloc { return Reject; }
    var p := Packet(command, seqId, reserved, input[HEADER..HEADER + size]);
    var chain := LinkChain(p.payload, if command == BATCH then reserved else 0);
    if chain.None? { return Reject; }
    f := Message(p, chain.value, input[HEADER + size..]);
  }

  // ---- one packet

  lemma EncodedWords(p: Packet, rest: seq<Octet>)
    requires PacketOk(p)
    ensures var s := EncodePacket(p) + rest;
            && Word(s, 0) == MAGIC && Word(s, 1) == p.command && Word(s, 2) == p.seqId && Word(s, 3) == p.reserved
            && Word(s, 4) == |p.payload| && s[HEADER..HEADER + |p.payload|] == p.payload &&
              s[HEADER + |p.payload|..] == rest
  {
    hide Be32, FromBe32;
    var s := EncodePacket(p) + rest;
    Be32RoundTrip(MAGIC);
    Be32RoundTrip(p.command);
    Be32RoundTrip(p.seqId);
    Be32RoundTrip(p.reserved);
    Be32RoundTrip(|p.payload|);
    assert s[0..4] == Be32(MAGIC) && s[4..8] == Be32(p.command) && s[8..12] == Be32(p.seqId);
    assert s[12..16] == Be32(p.reserved) && s[16..20] == Be32(|p.payload|);
  }

  lemma FrameBack(p: Packet, rest: seq<Octet>)
    requires PacketOk(p)
    ensures DecodeFrame(EncodePacket(p) + rest) ==
            match ChainOf(p) case None => Reject case Some(ps) => Message(p, ps, rest)
  {
    hide Word, ChainOf;
    EncodedWords(p, rest);
  }

  function EncodeChain(ps: seq<Packet>): seq<Octet>
    requires forall i | 0 <= i < |ps| :: PacketOk(ps[i])
  {
    if ps == [] then [] else EncodePacket(ps[0]) + EncodeChain(ps[1..])
  }

  /** The packets without their reserved words. */
  function Unreserved(ps: seq<Packet>): seq<Packet> {
    seq(|ps|, i requires 0 <= i < |ps| => ps[i].(reserved := 0))
  }

  lemma UnreservedCons(ps: seq<Packet>)
    ensures ps == [] ==> Unreserved(ps) == []
    ensures ps != [] ==> Unreserved(ps) == [ps[0].(reserved := 0)] + Unreserved(ps[1..])
  {
  }

  lemma ChainOne(p: Packet, n: nat, tail: seq<Octet>)
    requires PacketOk(p)
    ensures Chain(EncodePacket(p) + tail, n + 1) == Attach([p.(reserved := 0)], Chain(tail, n))
  {
    hide Word, EncodePacket, Attach;
    EncodedWords(p, tail);
  }

  /** The chain of a batch comes back, without the reserved words. */
  lemma {:induction false} ChainBack(ps: seq<Packet>, rest: seq<Octet>)
    requires forall i | 0 <= i < |ps| :: PacketOk(ps[i])
    ensures Chain(EncodeChain(ps) + rest, |ps|) == Some(Unreserved(ps))
  {
    UnreservedCons(ps);
    if ps != [] {
      var tail := EncodeChain(ps[1..]) + rest;
      assert EncodeChain(ps) + rest == EncodePacket(ps[0]) + tail;
      hide Chain, EncodeChain, EncodePacket, Unreserved;
      ChainOne(ps[0], |ps| - 1, tail);
      ChainBack(ps[1..], rest);
    }
  }

  /** A batch request as clients send it is taken apart into its requests. */
  lemma BatchBack(seqId: nat, ps: seq<Packet>, rest: seq<Octet>)
    requires seqId < U32 && |ps| < U32 && (forall i | 0 <= i < |ps| :: PacketOk(ps[i])) && |EncodeChain(ps)| <= MAX_DATA
    ensures var p := Packet(BATCH, seqId, |ps|, EncodeChain(ps));
            DecodeFrame(EncodePacket(p) + rest) == Message(p, Unreserved(ps), rest)
  {
    hide DecodeFrame, EncodePacket;
    var p := Packet(BATCH, seqId, |ps|, EncodeChain(ps));
    FrameBack(p, rest);
    ChainBack(ps, []);
    assert EncodeChain(ps) + [] == EncodeChain(ps);
  }

  // ---- nothing else is a packet

  lemma WordIs(s: seq<Octet>, i: nat)
    requires 4 * i + 4 <= |s|
    ensures Word(s, i) < U32 && Be32(Word(s, i)) == s[4 * i..4 * i + 4]
  {
    Be32Onto(s[4 * i..4 * i + 4]);
  }

  /** Twenty bytes are five words. */
  lemma HeaderIs(s: seq<Octet>)
    requires |s| >= HEADER
    ensures s == Be32(Word(s, 0)) +
                 (Be32(Word(s, 1)) + (Be32(Word(s, 2)) + (Be32(Word(s, 3)) + (Be32(Word(s, 4)) + s[HEADER..]))))
    ensures Word(s, 1) < U32 && Word(s, 2) < U32 && Word(s, 3) < U32
  {
    hide Word, Be32;
    WordIs(s, 0); WordIs(s, 1); WordIs(s, 2); WordIs(s, 3); WordIs(s, 4);
    assert s == s[0..4] + (s[4..8] + (s[8..12] + (s[12..16] + (s[16..20] + s[HEADER..]))));
  }

  /** The bytes that a packet is recognised in are its encoding, and the packet is then recognised. */
  lemma FrameExactly(s: seq<Octet>, p: Packet, ps: seq<Packet>, rest: seq<Octet>)
    ensures DecodeFrame(s) == Message(p, ps, rest) <==>
            PacketOk(p) && s == EncodePacket(p) + rest && ChainOf(p) == Some(ps)
  {
    hide Word, ChainOf, Be32;
    if PacketOk(p) && s == EncodePacket(p) + rest { FrameBack(p, rest); }
    if DecodeFrame(s) == Message(p, ps, rest) {
      HeaderIs(s);
      assert s[HEADER..] == p.payload + rest;
      PacketRest(p, rest);
    }
  }

  lemma PacketRest(p: Packet, rest: seq<Octet>)
    requires PacketOk(p)
    ensures EncodePacket(p) + rest ==
            Be32(MAGIC) + (Be32(p.command) + (Be32(p.seqId) + (Be32(p.reserved) + (Be32(|p.payload|) +
            (p.payload + rest)))))
  {
    hide Be32;
  }

  /** The connection is given up exactly over another magic code, a size beyond the limit, or a complete
      batch whose chain is broken. */
  lemma RejectExactly(s: seq<Octet>)
    ensures DecodeFrame(s) == Reject <==>
            && |s| >= HEADER
            && (s[..4] != Be32(MAGIC) || FromBe32(s[16..20]) > MAX_DATA ||
                exists p: Packet :: PacketOk(p) && EncodePacket(p) <= s && ChainOf(p) == None)
  {
    hide ChainOf, Be32, FromBe32, EncodePacket;
    if |s| >= HEADER {
      MagicIs(s);
      forall p: Packet | PacketOk(p) && EncodePacket(p) <= s && ChainOf(p) == None ensures DecodeFrame(s) == Reject {
        assert s == EncodePacket(p) + s[|EncodePacket(p)|..];
        FrameBack(p, s[|EncodePacket(p)|..]);
      }
      if Word(s, 0) == MAGIC && Word(s, 4) <= MAX_DATA && |s| - HEADER >= Word(s, 4) {
        var p := PacketIn(s);
        assert DecodeFrame(s) == Reject <==> ChainOf(p) == None;
      }
    }
  }

  lemma MagicIs(s: seq<Octet>)
    requires |s| >= HEADER
    ensures Word(s, 0) == MAGIC <==> s[..4] == Be32(MAGIC)
  {
    hide Be32, FromBe32;
    WordIs(s, 0);
    assert s[0..4] == s[..4];
    Be32RoundTrip(MAGIC);
  }

  lemma PacketIn(s: seq<Octet>) returns (p: Packet)
    requires |s| >= HEADER && Word(s, 0) == MAGIC && Word(s, 4) <= MAX_DATA && |s| - HEADER >= Word(s, 4)
    ensures p == Packet(Word(s, 1), Word(s, 2), Word(s, 3), s[HEADER..HEADER + Word(s, 4)])
    ensures PacketOk(p) && EncodePacket(p) <= s
  {
    hide Word, Be32;
    var size := Word(s, 4);
    p := Packet(Word(s, 1), Word(s, 2), Word(s, 3), s[HEADER..HEADER + size]);
    HeaderIs(s);
    PacketRest(p, s[HEADER + size..]);
    assert s[HEADER..] == p.payload + s[HEADER + size..];
  }

  /** A packet in a batch, with whatever stands in the place of its magic code and as large as it likes. */
  datatype Link = Link(magic: nat, packet: Packet)

  predicate LinkOk(k: Link) {
    && k.magic < U32 && k.packet.command < U32 && k.packet.seqId < U32 && k.packet.reserved < U32
    && |k.packet.payload| < U32
  }

  function EncodeLink(k: Link): seq<Octet>
    requires LinkOk(k)
  {
    var p := k.packet;
    Be32(k.magic) + (Be32(p.command) + (Be32(p.seqId) + (Be32(p.reserved) + (Be32(|p.payload|) + p.payload))))
  }

  function EncodeLinks(ks: seq<Link>): seq<Octet>
    requires forall i | 0 <= i < |ks| :: LinkOk(ks[i])
  {
    if ks == [] then [] else EncodeLink(ks[0]) + EncodeLinks(ks[1..])
  }

  function Packets(ks: seq<Link>): seq<Packet> {
    seq(|ks|, i requires 0 <= i < |ks| => ks[i].packet.(reserved := 0))
  }

  lemma LinkWords(k: Link, rest: seq<Octet>)
    requires LinkOk(k)
    ensures var s, p := EncodeLink(k) + rest, k.packet;
            && |s| >= HEADER + |p.payload| && Word(s, 1) == p.command && Word(s, 2) == p.seqId
            && Word(s, 4) == |p.payload| && s[HEADER..HEADER + |p.payload|] == p.payload
            && s[HEADER + |p.payload|..] == rest
  {
    hide Be32, FromBe32;
    var s, p := EncodeLink(k) + rest, k.packet;
    Be32RoundTrip(p.command);
    Be32RoundTrip(p.seqId);
    Be32RoundTrip(|p.payload|);
    assert s[4..8] == Be32(p.command) && s[8..12] == Be32(p.seqId) && s[16..20] == Be32(|p.payload|);
  }

  lemma {:induction false} LinksBack(ks: seq<Link>, rest: seq<Octet>)
    requires forall i | 0 <= i < |ks| :: LinkOk(ks[i])
    ensures Chain(EncodeLinks(ks) + rest, |ks|) == Some(Packets(ks))
  {
    hide Word, LinkOk;
    if ks == [] {
    } else {
      var tail := EncodeLinks(ks[1..]) + rest;
      assert EncodeLinks(ks) + rest == EncodeLink(ks[0]) + tail;
      hide EncodeLink, EncodeLinks;
      LinkWords(ks[0], tail);
      LinksBack(ks[1..], rest);
      assert Packets(ks) == [ks[0].packet.(reserved := 0)] + Packets(ks[1..]);
    }
  }

  lemma LinkIn(s: seq<Octet>) returns (k: Link)
    requires |s| >= HEADER && |s| - HEADER >= Word(s, 4)
    ensures LinkOk(k) && s == EncodeLink(k) + s[HEADER + Word(s, 4)..]
    ensures k.packet == Packet(Word(s, 1), Word(s, 2), Word(s, 3), s[HEADER..HEADER + Word(s, 4)])
  {
    hide Word, Be32;
    var size := Word(s, 4);
    k := Link(Word(s, 0), Packet(Word(s, 1), Word(s, 2), Word(s, 3), s[HEADER..HEADER + size]));
    HeaderIs(s);
    WordIs(s, 0);
    WordIs(s, 4);
    assert s[HEADER..] == k.packet.payload + s[HEADER + size..];
  }

  /** What a chain was read from. */
  lemma {:induction false} ChainIs(s: seq<Octet>, n: nat) returns (ks: seq<Link>, rest: seq<Octet>)
    requires Chain(s, n).Some?
    ensures |ks| == n && (forall i | 0 <= i < n :: LinkOk(ks[i])) && s == EncodeLinks(ks) + rest
    ensures Chain(s, n).value == Packets(ks)
    decreases n
  {
    hide Word, LinkOk;
    if n == 0 {
      ks, rest := [], s;
    } else {
      var k := LinkIn(s);
      var more, tail := ChainIs(s[HEADER + Word(s, 4)..], n - 1);
      ks, rest := [k] + more, tail;
      assert ks[1..] == more;
      assert Packets(ks) == [k.packet.(reserved := 0)] + Packets(more);
      hide Chain, EncodeLink;
      assert EncodeLinks(ks) + rest == EncodeLink(k) + (EncodeLinks(more) + rest);
    }
  }

  /** A batch is taken apart exactly if as many packets as it announces follow one another. */
  lemma ChainExactly(s: seq<Octet>, n: nat)
    ensures Chain(s, n).Some? <==>
            exists ks: seq<Link> :: |ks| == n && (forall i | 0 <= i < n :: LinkOk(ks[i])) && EncodeLinks(ks) <= s
  {
    hide Chain, EncodeLinks, LinkOk;
    if Chain(s, n).Some? {
      var ks, rest := ChainIs(s, n);
      assert EncodeLinks(ks) <= s;
    }
    forall ks: seq<Link> | |ks| == n && (forall i | 0 <= i < n :: LinkOk(ks[i])) && EncodeLinks(ks) <= s
      ensures Chain(s, n).Some?
    {
      assert s == EncodeLinks(ks) + s[|EncodeLinks(ks)|..];
      LinksBack(ks, s[|EncodeLinks(ks)|..]);
    }
  }

  // ---- a stream of packets

  /** More input changes no verdict but the one that there is too little; and that one, once the
      number of bytes to wait for is known, exactly when they have come. */
  lemma FrameMore(s: seq<Octet>, more: seq<Octet>)
    ensures match DecodeFrame(s)
            case Message(p, ps, rest) => DecodeFrame(s + more) == Message(p, ps, rest + more)
            case Reject => DecodeFrame(s + more) == Reject
            case NeedMore(n) => n > 0 ==> (DecodeFrame(s + more).NeedMore? <==> |more| < n)
  {
    hide FromBe32, ChainOf;
    if |s| >= HEADER {
      var t := s + more;
      assert forall i: nat | i < 5 :: t[4 * i..4 * i + 4] == s[4 * i..4 * i + 4];
      var size := Word(s, 4);
      assert Word(t, 0) == Word(s, 0) && Word(t, 1) == Word(s, 1) && Word(t, 2) == Word(s, 2) &&
             Word(t, 3) == Word(s, 3) && Word(t, 4) == size;
      if |s| - HEADER >= size {
        assert t[HEADER..HEADER + size] == s[HEADER..HEADER + size];
        assert t[HEADER + size..] == s[HEADER + size..] + more;
      }
    }
  }

  /** A packet that is still incomplete is never mistaken for anything else. */
  lemma PartialFrame(p: Packet, s: seq<Octet>)
    requires PacketOk(p) && ChainOf(p).Some? && s < EncodePacket(p)
    ensures DecodeFrame(s) == NeedMore(if |s| < HEADER then 0 else |EncodePacket(p)| - |s|)
  {
    hide DecodeFrame, ChainOf, EncodePacket;
    var e := EncodePacket(p);
    var more := e[|s|..];
    assert s + more == e == e + [];
    FrameMore(s, more);
    FrameBack(p, []);
    assert DecodeFrame(s).NeedMore?;
    AwaitedIs(p, s);
  }

  lemma AwaitedIs(p: Packet, s: seq<Octet>)
    requires PacketOk(p) && s < EncodePacket(p) && DecodeFrame(s).NeedMore?
    ensures DecodeFrame(s).awaited == if |s| < HEADER then 0 else |EncodePacket(p)| - |s|
  {
    hide EncodePacket, FromBe32;
    EncodedWords(p, []);
    var e := EncodePacket(p) + [];
    assert |s| >= HEADER ==> s[16..20] == e[16..20];
  }

  datatype Seen = Seen(messages: seq<(Packet, seq<Packet>)>, left: seq<Octet>, broken: bool)

  /** All packets of an input, and the bytes that wait for more. */
  function Frames(s: seq<Octet>): Seen
    decreases |s|
  {
    match DecodeFrame(s)
    case NeedMore(_) => Seen([], s, false)
    case Reject => Seen([], s, true)
    case Message(p, ps, rest) =>
      var r := Frames(rest);
      Seen([(p, ps)] + r.messages, r.left, r.broken)
  }

  lemma {:induction false} FramesAppend(a: seq<Octet>, b: seq<Octet>)
    ensures var x := Frames(a);
            if x.broken then Frames(a + b) == Seen(x.messages, x.left + b, true)
            else var y := Frames(x.left + b); Frames(a + b) == Seen(x.messages + y.messages, y.left, y.broken)
    decreases |a|
  {
    hide DecodeFrame;
    FrameMore(a, b);
    Shorter(a);
    match DecodeFrame(a) {
      case NeedMore(_) => assert [] + Frames(a + b).messages == Frames(a + b).messages;
      case Reject =>
      case Message(p, ps, rest) => FramesAppend(rest, b);
    }
  }

  lemma Shorter(s: seq<Octet>)
    ensures DecodeFrame(s).Message? ==> |DecodeFrame(s).rest| < |s|
  {
  }

  /** The read side of a connection: `easy_connection_on_readable` with `tdhs_decode` */
  class Connection {
    var input: seq<Octet>
    var messages: seq<(Packet, seq<Packet>)>
    var closed: bool

    constructor ()
      ensures input == [] && messages == [] && !closed
    {
      input, messages, closed := [], [], false;
    }

    /** A piece arrives: every packet that is now complete is handed on. */
    method Receive(piece: seq<Octet>)
      requires !closed
      modifies this
      ensures var r := Frames(old(input) + piece);
              messages == old(messages) + r.messages && closed == r.broken && input == r.left
    {
      hide DecodeFrame;
      input := input + piece;
      ghost var all := input;
      while true
        invariant !closed
        invariant var r := Frames(input);
                  messages + r.messages == old(messages) + Frames(all).messages && r.left == Frames(all).left &&
                    r.broken == Frames(all).broken
        decreases |input|
      {
        Shorter(input);
        var frame := TdhsDecode(input, true);
        match frame {
          case NeedMore(_) => break;
          case Reject =>
            closed := true;
            break;
          case Message(p, ps, rest) =>
            messages := messages + [(p, ps)];
            input := rest;
        }
      }
    }

    /** However a stream is cut, the same packets come out of it. */
    method ReceiveAll(pieces: seq<seq<Octet>>)
      requires !closed && input == []
      modifies this
      ensures var r := Frames(Concat(pieces));
              messages == old(messages) + r.messages && closed == r.broken && (!closed ==> input == r.left)
    {
      hide DecodeFrame, Frames;
      var k := 0;
      assert pieces[..0] == [];
      NoFrames();
      while k < |pieces| && !closed
        invariant k <= |pieces|
        invariant var r := Frames(Concat(pieces[..k]));
                  messages == old(messages) + r.messages && closed == r.broken && input == r.left
      {
        assert pieces[..k + 1][..k] == pieces[..k];
        FramesAppend(Concat(pieces[..k]), pieces[k]);
        Receive(pieces[k]);
        k := k + 1;
      }
      if closed { BrokenStays(pieces, k); }
      assert pieces[..|pieces|] == pieces;
    }
  }

  lemma NoFrames()
    ensures Frames([]) == Seen([], [], false)
  {
  }

  lemma {:induction false} BrokenStays(pieces: seq<seq<Octet>>, k: nat)
    requires k <= |pieces| && Frames(Concat(pieces[..k])).broken
    ensures var x, y := Frames(Concat(pieces[..k])), Frames(Concat(pieces)); y.broken && y.messages == x.messages
    decreases |pieces| - k
  {
    hide Frames;
    if k < |pieces| {
      assert pieces[..k + 1][..k] == pieces[..k];
      FramesAppend(Concat(pieces[..k]), pieces[k]);
      BrokenStays(pieces, k + 1);
    } else {
      assert pieces[..k] == pieces;
    }
  }
}
