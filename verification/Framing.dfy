/**
 Length-prefixed frames between the agent (agent/tcp_trace.c, output_event_pb) and the
 collector (collector/agent/reader.go, readProtobuf).
 */
module Framing {
  import opened Machine
  import opened Model
  import opened Wire

  // ---- The agent ---------------------------------------------------------------------------

  datatype Ip = Ip(a: Byte, b: Byte, c: Byte, d: Byte)

  /** struct event; `comm` is the text before the terminating byte. */
  datatype AgentEvent = AgentEvent(
    kind: Byte, pid: nat, comm: seq<Byte>, saddr: Ip, daddr: Ip, dport: nat, latency: nat, jitter: nat)

  predicate IsStruct(e: AgentEvent) {
    |e.comm| <= 16 && e.pid < TWO32 && e.dport < 65536 && e.latency < TWO64 && e.jitter < TWO64
  }

  const RETRANSMIT: Byte := 2
  const RTT: Byte := 3

  function Ascii(s: string): seq<Byte>
    requires forall i :: 0 <= i < |s| ==> s[i] as int < 128
  {
    seq(|s|, i requires 0 <= i < |s| => s[i] as int)
  }

  function KindText(kind: Byte): seq<Byte> {
    if kind == RETRANSMIT then Ascii("retransmit") else if kind == RTT then Ascii("rtt") else Ascii("connect")
  }

  function Digits(n: Byte): seq<Byte> {
    if n < 10 then [48 + n]
    else if n < 100 then [48 + n / 10, 48 + n % 10]
    else [48 + n / 100, 48 + n / 10 % 10, 48 + n % 10]
  }

  /** inet_ntoa. */
  function Dotted(ip: Ip): seq<Byte> {
    Digits(ip.a) + ([46] + (Digits(ip.b) + ([46] + (Digits(ip.c) + ([46] + Digits(ip.d))))))
  }

  function ToPb(e: AgentEvent): PbEvent {
    var timed := e.kind != RETRANSMIT;
    PbEvent(KindText(e.kind), e.pid, e.comm, Dotted(e.saddr), Dotted(e.daddr), e.dport,
            if timed then e.latency else 0, if timed then e.jitter else 0)
  }

  /** A 32-bit length, least significant byte first. */
  function LittleEndian(n: nat): seq<Byte> {
    [n % 256, n / 256 % 256, n / 65536 % 256, n / 16777216 % 256]
  }

  function FromLittleEndian(bs: seq<Byte>): nat
    requires |bs| == 4
  {
    bs[0] as nat + 256 * bs[1] as nat + 65536 * bs[2] as nat + 16777216 * bs[3] as nat
  }

  function Frame(body: seq<Byte>): seq<Byte> { LittleEndian(|body|) + body }

  lemma {:induction false} LengthRoundTrip(n: nat)
    requires n < TWO32
    ensures FromLittleEndian(LittleEndian(n)) == n
    ensures n < 256 ==> LittleEndian(n) == [n, 0, 0, 0]
  {
    assert n == n % 256 + 256 * (n / 256);
    assert n / 256 == n / 256 % 256 + 256 * (n / 65536);
    assert n / 65536 == n / 65536 % 256 + 256 * (n / 16777216);
  }

  lemma {:induction false} StructFits(e: AgentEvent)
    requires IsStruct(e)
    ensures Fits(ToPb(e))
  {}

  /** Reads a decimal number up to the next dot or the end of the text. */
  function ReadOctet(s: seq<Byte>, acc: nat): (nat, seq<Byte>)
    decreases |s|
  {
    if s == [] then (acc, [])
    else if s[0] == 46 then (acc, s[1..])
    else ReadOctet(s[1..], 10 * acc + if s[0] >= 48 then s[0] as nat - 48 else 0)
  }

  lemma {:induction false} DigitReads(d: Byte, t: seq<Byte>, acc: nat)
    requires 48 <= d < 58
    ensures ReadOctet([d] + t, acc) == ReadOctet(t, 10 * acc + (d - 48))
    ensures ReadOctet([46] + t, acc) == (acc, t)
  {}

  lemma {:induction false} TwoDigitsRead(d: Byte, e: Byte, t: seq<Byte>, acc: nat)
    requires 48 <= d < 58 && 48 <= e < 58
    ensures ReadOctet([d] + ([e] + t), acc) == ReadOctet(t, 100 * acc + 10 * (d - 48) as nat + (e - 48))
  {}

  lemma {:induction false} ThreeDigitsRead(d: Byte, e: Byte, f: Byte, t: seq<Byte>)
    requires 48 <= d < 58 && 48 <= e < 58 && 48 <= f < 58
    ensures ReadOctet([d] + ([e] + ([f] + t)), 0)
         == ReadOctet(t, 100 * (d - 48) as nat + 10 * (e - 48) as nat + (f - 48))
  {
    DigitReads(d, [e] + ([f] + t), 0);
    TwoDigitsRead(e, f, t, d - 48);
  }

  lemma {:induction false} LongOctetReads(n: Byte, t: seq<Byte>)
    requires n >= 100
    ensures ReadOctet(Digits(n) + t, 0) == ReadOctet(t, n)
  {
    var d, e, f := n / 100, n / 10 % 10, n % 10;
    assert 100 * d + 10 * e + f == n;
    assert Digits(n) + t == [48 + d] + ([48 + e] + ([48 + f] + t));
    ThreeDigitsRead(48 + d, 48 + e, 48 + f, t);
  }

  /** Reading the digits of an octet accumulates its value and leaves the rest. */
  lemma {:induction false} OctetReads(n: Byte, t: seq<Byte>)
    ensures ReadOctet(Digits(n) + t, 0) == ReadOctet(t, n)
  {
    if n < 10 {
      DigitReads(48 + n, t, 0);
    } else if n < 100 {
      TwoDigitsRead(48 + n / 10, 48 + n % 10, t, 0);
      assert Digits(n) + t == [48 + n / 10] + ([48 + n % 10] + t);
    } else {
      LongOctetReads(n, t);
    }
  }

  lemma {:induction false} DotReads(n: Byte, t: seq<Byte>)
    ensures ReadOctet(Digits(n) + ([46] + t), 0) == (n, t)
  {
    OctetReads(n, [46] + t);
    DigitReads(48, t, n);
  }

  lemma {:induction false} LastReads(n: Byte)
    ensures ReadOctet(Digits(n), 0) == (n, [])
  {
    OctetReads(n, []);
    assert Digits(n) + [] == Digits(n);
  }

  /** The four numbers of a dotted address. */
  function ParseDotted(s: seq<Byte>): (nat, nat, nat, nat) {
    var (a, r1) := ReadOctet(s, 0);
    var (b, r2) := ReadOctet(r1, 0);
    var (c, r3) := ReadOctet(r2, 0);
    (a, b, c, ReadOctet(r3, 0).0)
  }

  /** The text of an address determines the address. */
  lemma {:induction false} DottedRoundTrip(ip: Ip)
    ensures ParseDotted(Dotted(ip)) == (ip.a, ip.b, ip.c, ip.d)
  {
    var t3 := Digits(ip.c) + ([46] + Digits(ip.d));
    DotReads(ip.a, Digits(ip.b) + ([46] + t3));
    DotReads(ip.b, t3);
    DotReads(ip.c, Digits(ip.d));
    LastReads(ip.d);
  }

  /** pb_encode: fills the front of the buffer, or fails when the message does not fit. */
  method EncodeInto(buf: array<Byte>, body: seq<Byte>) returns (ok: bool)
    modifies buf
    ensures ok == (|body| <= buf.Length)
    ensures ok ==> buf[..|body|] == body
  {
    if |body| > buf.Length {
      return false;
    }
    for i := 0 to |body|
      invariant buf[..i] == body[..i]
    {
      buf[i] := body[i];
    }
    return true;
  }

  lemma {:induction false} FitsBuffer(e: AgentEvent)
    requires IsStruct(e)
    ensures |Encode(ToPb(e))| <= 98
  {
    StructFits(e);
    EncodedSize(ToPb(e));
  }

  /** Encodes into the fixed buffer and writes length and body; the failure path is dead. */
  method OutputEvent(e: AgentEvent, stdout: seq<Byte>) returns (out: seq<Byte>)
    requires IsStruct(e)
    ensures out == stdout + Frame(Encode(ToPb(e)))
  {
    FitsBuffer(e);
    var body := Encode(ToPb(e));
    var buf := new Byte[128];
    var ok := EncodeInto(buf, body);
    if !ok {
      return stdout;
    }
    out := stdout + LittleEndian(|body|);
    out := out + buf[..|body|];
  }

  // ---- The collector -------------------------------------------------------------------------

  datatype Collected = Collected(
    kind: seq<Byte>, pid: nat, comm: seq<Byte>, saddr: seq<Byte>, daddr: seq<Byte>,
    dport: nat, latency: nat, jitter: nat)

  /** The port is cut to 16 bits. */
  function Collect(e: PbEvent): (c: Collected)
    ensures c.dport < 65536 && exists n: nat :: e.dport == c.dport + 65536 * n
  {
    assert e.dport == e.dport % 65536 + 65536 * (e.dport / 65536);
    Collected(e.kind, e.pid, e.comm, e.saddr, e.daddr, e.dport % 65536, e.latency, e.jitter)
  }

  /** Parses one body; `None` when it is not a valid message. */
  function ParseBody(bs: seq<Byte>, utf8: seq<Byte> -> bool): Option<Collected> {
    var m := Decode(bs, utf8, ZERO);
    if m.Some? then Some(Collect(m.value)) else None
  }

  function Listed<E>(e: Option<E>): seq<E> { if e.Some? then [e.value] else [] }

  /** Whole frames are decoded or skipped; an incomplete one ends the stream. */
  function DecodeStream<E>(s: seq<Byte>, parse: seq<Byte> -> Option<E>): seq<E>
    decreases |s|
  {
    if |s| < 4 then []
    else
      var n, t := FromLittleEndian(s[..4]), s[4..];
      if |t| < n then [] else Listed(parse(t[..n])) + DecodeStream(t[n..], parse)
  }

  lemma {:induction false} Advance<E>(events: seq<E>, e: Option<E>, later: seq<E>)
    ensures events + (Listed(e) + later) == (if e.Some? then events + [e.value] else events) + later
  {}

  /** io.ReadFull into the front of the buffer. */
  method FillBuffer(buf: array<Byte>, bytes: seq<Byte>)
    requires |bytes| <= buf.Length
    modifies buf
    ensures buf[..|bytes|] == bytes
  {
    for i := 0 to |bytes|
      invariant buf[..i] == bytes[..i]
    {
      buf[i] := bytes[i];
    }
  }

  /** The decoder loop with its reused, regrown buffer; nothing of an earlier frame leaks. */
  method ReadProtobuf<E>(stream: seq<Byte>, parse: seq<Byte> -> Option<E>) returns (events: seq<E>)
    ensures events == DecodeStream(stream, parse)
  {
    var buf := new Byte[256];
    var rest := stream;
    events := [];
    while |rest| >= 4
      invariant fresh(buf)
      invariant events + DecodeStream(rest, parse) == DecodeStream(stream, parse)
      decreases |rest|
    {
      var n := FromLittleEndian(rest[..4]);
      var body := rest[4..];
      if |body| < n {
        return;
      }
      if buf.Length < n {
        buf := new Byte[n];
      }
      FillBuffer(buf, body[..n]);
      var m := parse(buf[..n]);
      Advance(events, parse(body[..n]), DecodeStream(body[n..], parse));
      if m.Some? {
        events := events + [m.value];
      }
      rest := body[n..];
    }
  }

  // ---- Round trip ------------------------------------------------------------------------------

  function Frames(bodies: seq<seq<Byte>>): seq<Byte> {
    if bodies == [] then [] else Frame(bodies[0]) + Frames(bodies[1..])
  }

  function Parsed<E>(bodies: seq<seq<Byte>>, parse: seq<Byte> -> Option<E>): seq<E> {
    if bodies == [] then [] else Listed(parse(bodies[0])) + Parsed(bodies[1..], parse)
  }

  lemma {:induction false} FrameDecodes<E>(body: seq<Byte>, rest: seq<Byte>, parse: seq<Byte> -> Option<E>)
    requires |body| < TWO32
    ensures DecodeStream(Frame(body) + rest, parse) == Listed(parse(body)) + DecodeStream(rest, parse)
  {
    var s := Frame(body) + rest;
    LengthRoundTrip(|body|);
    assert s[..4] == LittleEndian(|body|) && s[4..] == body + rest;
    assert (body + rest)[..|body|] == body && (body + rest)[|body|..] == rest;
  }

  /** Frame boundaries survive whatever the bodies hold, parseable or not. */
  lemma {:induction false} FramesStayAligned<E>(bodies: seq<seq<Byte>>, parse: seq<Byte> -> Option<E>)
    requires forall i :: 0 <= i < |bodies| ==> |bodies[i]| < TWO32
    ensures DecodeStream(Frames(bodies), parse) == Parsed(bodies, parse)
  {
    if bodies != [] {
      FramesStayAligned(bodies[1..], parse);
      FrameDecodes(bodies[0], Frames(bodies[1..]), parse);
    }
  }

  /** Cutting any stream off anywhere only cuts the list of events off. */
  lemma {:induction false} TruncationGivesPrefix<E>(s: seq<Byte>, k: nat, parse: seq<Byte> -> Option<E>)
    requires k <= |s|
    ensures DecodeStream(s[..k], parse) <= DecodeStream(s, parse)
    decreases |s|
  {
    if k >= 4 {
      var n, cut, t := FromLittleEndian(s[..4]), s[..k], s[4..];
      assert cut[..4] == s[..4] && cut[4..] == t[..k - 4];
      if k - 4 >= n {
        TruncationGivesPrefix(t[n..], k - 4 - n, parse);
        assert t[..k - 4][..n] == t[..n] && t[..k - 4][n..] == t[n..][..k - 4 - n];
      }
    }
  }

  // ---- The events of the agent -------------------------------------------------------------------

  ghost predicate IsAscii(s: seq<Byte>) { forall i :: 0 <= i < |s| ==> s[i] < 128 }

  /** UTF-8 accepts plain ASCII. */
  ghost predicate AcceptsAscii(utf8: seq<Byte> -> bool) { forall s: seq<Byte> :: IsAscii(s) ==> utf8(s) }

  function BodiesOf(events: seq<AgentEvent>): seq<seq<Byte>> {
    if events == [] then [] else [Encode(ToPb(events[0]))] + BodiesOf(events[1..])
  }

  /** The events the collector should see: all but those whose process name is not text. */
  function Seen(events: seq<AgentEvent>, utf8: seq<Byte> -> bool): seq<Collected> {
    if events == [] then []
    else
      var rest := Seen(events[1..], utf8);
      if events[0].comm == [] || utf8(events[0].comm) then [Collect(ToPb(events[0]))] + rest else rest
  }

  lemma {:induction false} DottedIsAscii(ip: Ip)
    ensures IsAscii(Dotted(ip))
  {
    assert IsAscii(Digits(ip.a)) && IsAscii(Digits(ip.b)) && IsAscii(Digits(ip.c)) && IsAscii(Digits(ip.d));
  }

  lemma {:induction false} TextFields(e: AgentEvent, utf8: seq<Byte> -> bool)
    requires AcceptsAscii(utf8)
    ensures AllText(ToPb(e), utf8) <==> e.comm == [] || utf8(e.comm)
  {
    TextOf(ToPb(e), utf8);
    DottedIsAscii(e.saddr);
    DottedIsAscii(e.daddr);
    assert IsAscii(KindText(e.kind));
  }

  lemma {:induction false} AgentBody(e: AgentEvent, utf8: seq<Byte> -> bool)
    requires IsStruct(e) && AcceptsAscii(utf8)
    ensures |Encode(ToPb(e))| <= 98
    ensures ParseBody(Encode(ToPb(e)), utf8) ==
      if e.comm == [] || utf8(e.comm) then Some(Collect(ToPb(e))) else None
  {
    StructFits(e);
    EncodedSize(ToPb(e));
    EventRoundTrip(ToPb(e), utf8);
    TextFields(e, utf8);
  }

  lemma {:induction false} AgentBodies(
    events: seq<AgentEvent>, utf8: seq<Byte> -> bool, parse: seq<Byte> -> Option<Collected>)
    requires AcceptsAscii(utf8) && forall i :: 0 <= i < |events| ==> IsStruct(events[i])
    requires forall bs :: parse(bs) == ParseBody(bs, utf8)
    ensures forall i :: 0 <= i < |BodiesOf(events)| ==> |BodiesOf(events)[i]| < TWO32
    ensures Parsed(BodiesOf(events), parse) == Seen(events, utf8)
  {
    if events != [] {
      AgentBodies(events[1..], utf8, parse);
      AgentBody(events[0], utf8);
      assert parse(Encode(ToPb(events[0]))) == ParseBody(Encode(ToPb(events[0])), utf8);
      assert BodiesOf(events)[1..] == BodiesOf(events[1..]);
    }
  }

  /** Every field of the kernel's event can be read off the collected one. */
  lemma {:induction false} FieldsArrive(e: AgentEvent)
    requires IsStruct(e)
    ensures var c := Collect(ToPb(e));
      && ParseDotted(c.saddr) == (e.saddr.a, e.saddr.b, e.saddr.c, e.saddr.d)
      && ParseDotted(c.daddr) == (e.daddr.a, e.daddr.b, e.daddr.c, e.daddr.d)
      && c.pid == e.pid && c.comm == e.comm && c.dport == e.dport
      && (e.kind == RETRANSMIT <==> c.kind == Ascii("retransmit"))
      && (e.kind == RTT <==> c.kind == Ascii("rtt"))
      && (e.kind != RETRANSMIT && e.kind != RTT <==> c.kind == Ascii("connect"))
      && (e.kind != RETRANSMIT ==> c.latency == e.latency && c.jitter == e.jitter)
      && (e.kind == RETRANSMIT ==> c.latency == 0 && c.jitter == 0)
  {
    DottedRoundTrip(e.saddr);
    DottedRoundTrip(e.daddr);
    assert |Ascii("retransmit")| == 10 && |Ascii("rtt")| == 3 && |Ascii("connect")| == 7;
  }

  /** Decoding what the agent sends for any list of events gives back that list. */
  lemma {:induction false} StreamRoundTrip(events: seq<AgentEvent>, utf8: seq<Byte> -> bool)
    requires AcceptsAscii(utf8) && forall i :: 0 <= i < |events| ==> IsStruct(events[i])
    ensures DecodeStream(Frames(BodiesOf(events)), bs => ParseBody(bs, utf8)) == Seen(events, utf8)
  {
    var parse := bs => ParseBody(bs, utf8);
    AgentBodies(events, utf8, parse);
    FramesStayAligned(BodiesOf(events), parse);
  }
}
