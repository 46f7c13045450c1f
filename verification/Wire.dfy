/**
 The protobuf body of an event as the agent encodes it (agent/tcp_trace.c with the field
 list of agent/event.pb.h) and as the collector decodes it. The rules are those of Protocol
 Buffers Encoding, sections "Base 128 Varints" and "Message Structure".
 */
module Wire {
  import opened Machine
  import opened Model

  type Byte = b: nat | b < 256

  // ---- Varints ---------------------------------------------------------------------------

  function Varint(n: nat): seq<Byte> {
    if n < 128 then [n] else [128 + n % 128] + Varint(n / 128)
  }

  datatype Read = Bad | Ok(value: nat, rest: seq<Byte>)

  /** At most `budget` bytes; the last one may only carry a single bit. */
  function ReadVarint(bs: seq<Byte>, budget: nat): (r: Read)
    ensures r.Ok? ==> |r.rest| < |bs|
  {
    if bs == [] || budget == 0 then Bad
    else if bs[0] < 128 then if budget == 1 && bs[0] > 1 then Bad else Ok(bs[0], bs[1..])
    else
      var r := ReadVarint(bs[1..], budget - 1);
      if r.Bad? then Bad else Ok(bs[0] - 128 + 128 * r.value, r.rest)
  }

  const VARINT_BYTES: nat := 10

  /** The values that fit in a varint of the given number of bytes. */
  function Limit(budget: nat): nat {
    if budget == 0 then 0 else if budget == 1 then 2 else 128 * Limit(budget - 1)
  }

  lemma {:induction false} VarintRoundTrip(n: nat, rest: seq<Byte>, budget: nat)
    requires n < Limit(budget)
    ensures ReadVarint(Varint(n) + rest, budget) == Ok(n, rest)
  {
    var bs := Varint(n) + rest;
    if n < 128 {
      assert bs[1..] == rest;
    } else {
      assert n / 128 < Limit(budget - 1);
      VarintRoundTrip(n / 128, rest, budget - 1);
      assert bs[1..] == Varint(n / 128) + rest;
    }
  }

  lemma {:induction false} TenBytesHold64Bits()
    ensures Limit(VARINT_BYTES) == TWO64
  {}

  function Power128(k: nat): nat { if k == 0 then 1 else 128 * Power128(k - 1) }

  lemma {:induction false} VarintSize(n: nat, size: nat)
    requires size > 0 && n < Power128(size)
    ensures 0 < |Varint(n)| <= size
  {
    if n >= 128 {
      VarintSize(n / 128, size - 1);
    }
  }

  // ---- The message -----------------------------------------------------------------------

  /** microtrace_Event. */
  datatype PbEvent = PbEvent(
    kind: seq<Byte>, pid: nat, comm: seq<Byte>, saddr: seq<Byte>, daddr: seq<Byte>,
    dport: nat, latency: nat, jitter: nat)

  const ZERO := PbEvent([], 0, [], [], [], 0, 0, 0)

  /** A field with its zero value is not encoded. */
  function StrField(num: nat, s: seq<Byte>): seq<Byte>
    requires num < 16
  {
    if s == [] then [] else [8 * num + 2] + Varint(|s|) + s
  }

  function NumField(num: nat, n: nat): seq<Byte>
    requires num < 16
  {
    if n == 0 then [] else [8 * num] + Varint(n)
  }

  function Encode(e: PbEvent): seq<Byte> {
    StrField(1, e.kind) + (NumField(2, e.pid) + (StrField(3, e.comm) + (StrField(4, e.saddr) +
    (StrField(5, e.daddr) + (NumField(6, e.dport) + (NumField(7, e.latency) + NumField(8, e.jitter)))))))
  }

  /** The bytes of an event with one character or digit in each of its eight fields. */
  lemma {:induction false} KnownBytes()
    ensures Varint(150) == [0x96, 0x01]
    ensures Encode(PbEvent([97], 1, [98], [99], [100], 2, 3, 4)) ==
      [0x0A, 1, 97, 0x10, 1, 0x1A, 1, 98, 0x22, 1, 99, 0x2A, 1, 100, 0x30, 2, 0x38, 3, 0x40, 4]
  {}

  function SetStr(e: PbEvent, num: nat, s: seq<Byte>): PbEvent {
    match num
    case 1 => e.(kind := s)
    case 3 => e.(comm := s)
    case 4 => e.(saddr := s)
    case 5 => e.(daddr := s)
    case _ => e
  }

  function SetNum(e: PbEvent, num: nat, n: nat): PbEvent {
    match num
    case 2 => e.(pid := Wrap32(n))
    case 6 => e.(dport := Wrap32(n))
    case 7 => e.(latency := n)
    case 8 => e.(jitter := n)
    case _ => e
  }

  predicate IsStr(num: nat) { num == 1 || num == 3 || num == 4 || num == 5 }

  /**
   proto.Unmarshal: fields in any order, the last one wins, unknown fields are skipped.
   Strings must be valid UTF-8.
   */
  function Decode(bs: seq<Byte>, utf8: seq<Byte> -> bool, e: PbEvent): Option<PbEvent>
    decreases |bs|
  {
    if bs == [] then Some(e)
    else
      var tag := ReadVarint(bs, VARINT_BYTES);
      if tag.Bad? || tag.value / 8 == 0 || tag.value / 8 >= 0x2000_0000 then None
      else
        var num, kind := tag.value / 8, tag.value % 8;
        if kind == 0 then
          var n := ReadVarint(tag.rest, VARINT_BYTES);
          if n.Bad? then None else Decode(n.rest, utf8, SetNum(e, num, n.value))
        else if kind == 2 then
          var n := ReadVarint(tag.rest, VARINT_BYTES);
          if n.Bad? || n.value > |n.rest| then None
          else
            var s := n.rest[..n.value];
            if IsStr(num) && !utf8(s) then None
            else Decode(n.rest[n.value..], utf8, SetStr(e, num, s))
        else if kind == 1 then if |tag.rest| < 8 then None else Decode(tag.rest[8..], utf8, e)
        else if kind == 5 then if |tag.rest| < 4 then None else Decode(tag.rest[4..], utf8, e)
        else None
  }

  lemma {:induction false} TagReads(t: nat, rest: seq<Byte>)
    requires t < 128
    ensures ReadVarint([t] + rest, VARINT_BYTES) == Ok(t, rest)
  {}

  lemma {:induction false} NumberReads(n: nat, rest: seq<Byte>)
    requires n < TWO64
    ensures ReadVarint(Varint(n) + rest, VARINT_BYTES) == Ok(n, rest)
  {
    TenBytesHold64Bits();
    VarintRoundTrip(n, rest, VARINT_BYTES);
  }

  /** One step of the decoder, given what the tag and the number after it read as. */
  lemma {:induction false} DecodeStep(
    bs: seq<Byte>, num: nat, kind: nat, tail: seq<Byte>, n: nat, rest: seq<Byte>, utf8: seq<Byte> -> bool, e: PbEvent)
    requires bs != [] && 0 < num < 16 && (kind == 0 || kind == 2)
    requires ReadVarint(bs, VARINT_BYTES) == Ok(8 * num + kind, tail)
    requires ReadVarint(tail, VARINT_BYTES) == Ok(n, rest)
    ensures kind == 0 ==> Decode(bs, utf8, e) == Decode(rest, utf8, SetNum(e, num, n))
    ensures kind == 2 && n <= |rest| && IsStr(num) ==>
      (Decode(bs, utf8, e) ==
         if utf8(rest[..n]) then Decode(rest[n..], utf8, SetStr(e, num, rest[..n])) else None)
  {}

  lemma {:induction false} StrFieldDecodes(num: nat, s: seq<Byte>, rest: seq<Byte>, utf8: seq<Byte> -> bool, e: PbEvent)
    requires 0 < num < 16 && IsStr(num) && 0 < |s| < TWO64
    ensures Decode(StrField(num, s) + rest, utf8, e) ==
      if utf8(s) then Decode(rest, utf8, SetStr(e, num, s)) else None
  {
    var bs := StrField(num, s) + rest;
    var tail := Varint(|s|) + (s + rest);
    assert bs == [8 * num + 2] + tail;
    TagReads(8 * num + 2, tail);
    NumberReads(|s|, s + rest);
    DecodeStep(bs, num, 2, tail, |s|, s + rest, utf8, e);
    assert (s + rest)[..|s|] == s && (s + rest)[|s|..] == rest;
  }

  lemma {:induction false} NumFieldDecodes(num: nat, n: nat, rest: seq<Byte>, utf8: seq<Byte> -> bool, e: PbEvent)
    requires 0 < num < 16 && 0 < n < TWO64
    ensures Decode(NumField(num, n) + rest, utf8, e) == Decode(rest, utf8, SetNum(e, num, n))
  {
    var bs := NumField(num, n) + rest;
    assert bs == [8 * num] + (Varint(n) + rest);
    TagReads(8 * num, Varint(n) + rest);
    NumberReads(n, rest);
    DecodeStep(bs, num, 0, Varint(n) + rest, n, rest, utf8, e);
  }

  /** What the C structure can hold: the declared sizes, less the terminating byte. */
  predicate Fits(e: PbEvent) {
    && |e.kind| <= 10 && |e.comm| <= 16 && |e.saddr| <= 15 && |e.daddr| <= 15
    && e.pid < TWO32 && e.dport < TWO32 && e.latency < TWO64 && e.jitter < TWO64
  }

  predicate AllText(e: PbEvent, utf8: seq<Byte> -> bool) {
    forall s :: s in [e.kind, e.comm, e.saddr, e.daddr] && s != [] ==> utf8(s)
  }

  lemma {:induction false} SkipStr(num: nat, s: seq<Byte>, rest: seq<Byte>, utf8: seq<Byte> -> bool, e: PbEvent)
    requires 0 < num < 16 && IsStr(num) && |s| < TWO64 && SetStr(e, num, []) == e
    ensures Decode(StrField(num, s) + rest, utf8, e) ==
      if s == [] || utf8(s) then Decode(rest, utf8, SetStr(e, num, s)) else None
  {
    if s == [] {
      assert StrField(num, s) + rest == rest;
    } else {
      StrFieldDecodes(num, s, rest, utf8, e);
    }
  }

  lemma {:induction false} SkipNum(num: nat, n: nat, rest: seq<Byte>, utf8: seq<Byte> -> bool, e: PbEvent)
    requires 0 < num < 16 && n < TWO64 && SetNum(e, num, 0) == e
    ensures Decode(NumField(num, n) + rest, utf8, e) == Decode(rest, utf8, SetNum(e, num, n))
  {
    if n == 0 {
      assert NumField(num, n) + rest == rest;
    } else {
      NumFieldDecodes(num, n, rest, utf8, e);
    }
  }

  lemma {:induction false} TextOf(e: PbEvent, utf8: seq<Byte> -> bool)
    ensures AllText(e, utf8) <==>
      && (e.kind == [] || utf8(e.kind)) && (e.comm == [] || utf8(e.comm))
      && (e.saddr == [] || utf8(e.saddr)) && (e.daddr == [] || utf8(e.daddr))
  {}

  /** Every event that fits is decoded as it was, unless one of its strings is not text. */
  lemma {:induction false} EventRoundTrip(e: PbEvent, utf8: seq<Byte> -> bool)
    requires Fits(e)
    ensures Decode(Encode(e), utf8, ZERO) == if AllText(e, utf8) then Some(e) else None
  {
    var r8 := NumField(8, e.jitter);
    var r7 := NumField(7, e.latency) + r8;
    var r6 := NumField(6, e.dport) + r7;
    var r5 := StrField(5, e.daddr) + r6;
    var r4 := StrField(4, e.saddr) + r5;
    var r3 := StrField(3, e.comm) + r4;
    var r2 := NumField(2, e.pid) + r3;
    var e1 := ZERO.(kind := e.kind);
    var e2 := e1.(pid := e.pid);
    var e3 := e2.(comm := e.comm);
    var e4 := e3.(saddr := e.saddr);
    var e5 := e4.(daddr := e.daddr);
    var e6 := e5.(dport := e.dport);
    var e7 := e6.(latency := e.latency);
    SkipStr(1, e.kind, r2, utf8, ZERO);
    SkipNum(2, e.pid, r3, utf8, e1);
    SkipStr(3, e.comm, r4, utf8, e2);
    SkipStr(4, e.saddr, r5, utf8, e3);
    SkipStr(5, e.daddr, r6, utf8, e4);
    SkipNum(6, e.dport, r7, utf8, e5);
    SkipNum(7, e.latency, r8, utf8, e6);
    SkipNum(8, e.jitter, [], utf8, e7);
    assert r8 + [] == r8;
    TextOf(e, utf8);
  }

  lemma {:induction false} Powers()
    ensures Power128(5) >= TWO32 && Power128(10) >= TWO64
  {}

  /** The generated bound: 98 bytes, so the agent's 128-byte buffer always suffices. */
  lemma {:induction false} EncodedSize(e: PbEvent)
    requires Fits(e)
    ensures |Encode(e)| <= 98
  {
    Powers();
    VarintSize(e.pid, 5);
    VarintSize(e.dport, 5);
    VarintSize(e.latency, 10);
    VarintSize(e.jitter, 10);
    assert |StrField(1, e.kind)| <= 12 && |StrField(3, e.comm)| <= 18;
    assert |StrField(4, e.saddr)| <= 17 && |StrField(5, e.daddr)| <= 17;
    assert |NumField(2, e.pid)| <= 6 && |NumField(6, e.dport)| <= 6;
    assert |NumField(7, e.latency)| <= 11 && |NumField(8, e.jitter)| <= 11;
  }
}
