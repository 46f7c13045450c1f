/** The values that travel between the engine, the hub, the store and the dashboard
 (collector/model/event.go). */
module Model {

  datatype Option<+T> = None | Some(value: T) {
    function Or(default: T): T { if Some? then value else default }
  }

  /** A tracked connection: source and destination service. */
  datatype ConnKey = ConnKey(src: string, dst: string)

  const ARROW: string := "→"

  /** The text key under which the dashboard files a connection. */
  function KeyText(k: ConnKey): string { k.src + ARROW + k.dst }

  predicate ArrowFree(s: string) { '→' !in s }

  /** Text keys are unambiguous as long as no source name contains the arrow. */
  lemma {:induction false} KeyTextInjective(a: ConnKey, b: ConnKey)
    requires ArrowFree(a.src) && ArrowFree(b.src) && KeyText(a) == KeyText(b)
    ensures a == b
  {
    var t := KeyText(a);
    assert t[|a.src|] == '→' && t[|b.src|] == '→';
    assert a.src == t[..|a.src|] && b.src == t[..|b.src|];
    assert forall i :: 0 <= i < |a.src| ==> t[i] != '→';
    assert forall i :: 0 <= i < |b.src| ==> t[i] != '→';
    assert a.dst == t[|a.src| + 1..];
    assert b.dst == t[|b.src| + 1..];
  }

  /** With an arrow in a source name two connections do share one text key. */
  lemma {:induction false} KeyTextCollides()
    ensures ConnKey("a→b", "c") != ConnKey("a", "b→c")
    ensures KeyText(ConnKey("a→b", "c")) == KeyText(ConnKey("a", "b→c"))
  {}

  datatype NodeType = Internal | External

  datatype Resource = Resource(
    cpu: real, throttle: real, memBytes: nat, memPressure: real, ioWait: real, oomKills: nat)

  /** The measurements of one publish. */
  datatype Vals = Vals(latest: nat, avg: nat, p50: nat, p95: nat, p99: nat, jitter: nat)

  datatype Point = Point(time: int, vals: Vals)

  function Values(h: seq<Point>): seq<Vals> { seq(|h|, i requires 0 <= i < |h| => h[i].vals) }

  datatype CauseKind = NoCause | ByExternal | ByMemory | ByCpu | ByNetwork

  datatype Signal = NoSignal | ExternalDst | OomKill | ThrottleHigh | ThrottleBurst | MemPressure | Nothing

  datatype Cause = Cause(kind: CauseKind, signal: Signal)

  /** StatSnapshot. */
  datatype Snap = Snap(
    key: ConnKey, srcType: NodeType, dstType: NodeType, vals: Vals, retransmit: nat, samples: nat,
    spike: bool, threshold: nat, cause: Cause, evidence: Option<Resource>)

  datatype ConnHistory = ConnHistory(key: string, points: seq<Point>)

  datatype EventKind = Connect | Rtt | Retransmit | OtherKind

  /** OutboundMsg. */
  datatype Msg =
    | RawEvent(kind: EventKind, src: string, dst: string, dport: nat, latency: nat, ns: nat)
    | Stats(snap: Snap)
    | ResourceMsg(service: string, resource: Resource)
    | Remove(key: string)
    | History(entries: seq<ConnHistory>)

  /** An event decoded from the agent. */
  datatype Event = Event(kind: EventKind, pid: nat, saddr: string, daddr: string, dport: nat, latency: nat)
}
