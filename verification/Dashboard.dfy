/**
 The dashboard's copy of the engine's state: the `onmessage` updaters of
 frontend/src/hooks/useWebSocket.ts as a fold over the messages it receives.
 */
module Dashboard {
  import opened Machine
  import opened Model

  const MAX_HISTORY: nat := 3600
  const MAX_EVENTS: nat := 100

  datatype SpikeEvent = SpikeEvent(
    time: int, key: string, src: string, dst: string, p99: nat, baseline: real, critical: bool,
    cause: CauseKind, evidence: Option<Resource>)

  datatype Client = Client(
    snapshots: map<string, Snap>, history: map<string, seq<Point>>, events: seq<SpikeEvent>)

  const BLANK := Client(map[], map[], [])

  /** A message and the browser's clock when it arrives. */
  datatype Arrival = Arrival(msg: Msg, at: int)

  function SpikeOf(snap: Snap, at: int): SpikeEvent {
    SpikeEvent(at, KeyText(snap.key), snap.key.src, snap.key.dst, snap.vals.p99,
               snap.threshold as real / 3.0, snap.vals.p99 > 80_000, snap.cause.kind, snap.evidence)
  }

  function OnStats(c: Client, snap: Snap, at: int): Client {
    var key := KeyText(snap.key);
    var rising := snap.spike && key in c.snapshots && !c.snapshots[key].spike;
    var existing := if key in c.history then c.history[key] else [];
    Client(
      c.snapshots[key := snap],
      c.history[key := Last(MAX_HISTORY, existing + [Point(at, snap.vals)])],
      if rising then First(MAX_EVENTS, [SpikeOf(snap, at)] + c.events) else c.events)
  }

  function HistoryMap(entries: seq<ConnHistory>): map<string, seq<Point>> {
    if entries == [] then map[]
    else
      var last := entries[|entries| - 1];
      HistoryMap(entries[..|entries| - 1])[last.key := last.points]
  }

  /** The loop of the history branch. */
  method BuildHistory(entries: seq<ConnHistory>) returns (next: map<string, seq<Point>>)
    ensures next == HistoryMap(entries)
  {
    next := map[];
    for i := 0 to |entries|
      invariant next == HistoryMap(entries[..i])
    {
      assert entries[..i + 1][..i] == entries[..i];
      next := next[entries[i].key := entries[i].points];
    }
    assert entries[..|entries|] == entries;
  }

  function OnMessage(c: Client, a: Arrival): Client {
    match a.msg
    case Stats(snap) => OnStats(c, snap, a.at)
    case History(entries) => c.(history := HistoryMap(entries))
    case Remove(key) => if key == "" then c else c.(snapshots := c.snapshots - {key}, history := c.history - {key})
    case _ => c
  }

  function View(c: Client, s: seq<Arrival>): Client {
    if s == [] then c else OnMessage(View(c, s[..|s| - 1]), s[|s| - 1])
  }

  /** A stats message replaces the snapshot of its key and adds one timed point, and touches no other key. */
  lemma {:induction false} StatsAppends(c: Client, snap: Snap, at: int)
    ensures var c', key := OnMessage(c, Arrival(Stats(snap), at)), snap.key.src + "→" + snap.key.dst;
      var before := if key in c.history then c.history[key] else [];
      && c'.snapshots == c.snapshots[key := snap]
      && c'.history == c.history[key := Last(3600, before + [Point(at, snap.vals)])]
  {}

  /** The position of the last entry of a key. */
  function LastEntry(entries: seq<ConnHistory>, key: string): (i: Option<nat>)
    ensures i.Some? ==> i.value < |entries| && entries[i.value].key == key
    ensures forall j :: (if i.Some? then i.value + 1 else 0) <= j < |entries| ==> entries[j].key != key
  {
    if entries == [] then None
    else if entries[|entries| - 1].key == key then Some(|entries| - 1)
    else LastEntry(entries[..|entries| - 1], key)
  }

  lemma {:induction false} LastEntryWins(entries: seq<ConnHistory>, key: string)
    ensures var m, i := HistoryMap(entries), LastEntry(entries, key);
      (key in m <==> i.Some?) && (i.Some? ==> m[key] == entries[i.value].points)
  {
    if entries != [] {
      LastEntryWins(entries[..|entries| - 1], key);
    }
  }

  /** A history message replaces all histories: a key has the points of its last entry, or none. */
  lemma {:induction false} HistoryReplaces(c: Client, entries: seq<ConnHistory>, at: int, key: string)
    ensures var c', i := OnMessage(c, Arrival(History(entries), at)), LastEntry(entries, key);
      && c'.snapshots == c.snapshots && c'.events == c.events
      && (key in c'.history <==> i.Some?) && (i.Some? ==> c'.history[key] == entries[i.value].points)
  {
    LastEntryWins(entries, key);
  }

  // ---- The spike log -----------------------------------------------------------------

  /** The last snapshot received under a key since any removal of it. */
  function LastSnap(s: seq<Arrival>, key: string): Option<Snap> {
    if s == [] then None
    else
      match s[|s| - 1].msg
      case Stats(snap) => if KeyText(snap.key) == key then Some(snap) else LastSnap(s[..|s| - 1], key)
      case Remove(k) => if k == key then None else LastSnap(s[..|s| - 1], key)
      case _ => LastSnap(s[..|s| - 1], key)
  }

  /** The dashboard keeps exactly that snapshot. */
  lemma {:induction false} KeepsLastSnap(s: seq<Arrival>, key: string)
    requires key != ""
    ensures LastSnap(s, key) ==
      var snaps := View(BLANK, s).snapshots;
      if key in snaps then Some(snaps[key]) else None
  {
    if s != [] {
      KeepsLastSnap(s[..|s| - 1], key);
    }
  }

  /** The last arrival turns its connection from calm to spiking. */
  predicate Rises(s: seq<Arrival>)
    requires s != []
  {
    var m := s[|s| - 1].msg;
    m.Stats? && m.snap.spike &&
    var before := LastSnap(s[..|s| - 1], KeyText(m.snap.key));
    before.Some? && !before.value.spike
  }

  /** The positions of all rises of a stream, newest first. */
  function AllRises(s: seq<Arrival>): (at: seq<nat>)
    ensures forall i :: 0 <= i < |at| ==> at[i] < |s| && s[at[i]].msg.Stats?
  {
    if s == [] then []
    else
      var before := AllRises(s[..|s| - 1]);
      if Rises(s) then [|s| - 1] + before else before
  }

  /** A log entry says when, between whom, how bad and why. */
  predicate Reports(ev: SpikeEvent, a: Arrival) {
    a.msg.Stats? &&
    var snap := a.msg.snap;
    && ev.time == a.at && ev.src == snap.key.src && ev.dst == snap.key.dst
    && ev.key == snap.key.src + "→" + snap.key.dst
    && ev.p99 == snap.vals.p99 && (ev.critical <==> snap.vals.p99 > 80_000)
    && ev.baseline * 3.0 == snap.threshold as real
    && ev.cause == snap.cause.kind && ev.evidence == snap.evidence
  }

  lemma {:induction false} SpikeReports(a: Arrival)
    requires a.msg.Stats?
    ensures Reports(SpikeOf(a.msg.snap, a.at), a)
  {}

  /** The log reports the arrivals at the given positions, at most 100 of them. */
  ghost predicate Logs(events: seq<SpikeEvent>, s: seq<Arrival>, at: seq<nat>) {
    && |events| == (if |at| < 100 then |at| else 100)
    && forall i :: 0 <= i < |events| ==> at[i] < |s| && Reports(events[i], s[at[i]])
  }

  lemma {:induction false} LogGrows(events: seq<SpikeEvent>, s: seq<Arrival>, at: seq<nat>, a: Arrival, ev: SpikeEvent)
    requires Logs(events, s, at) && Reports(ev, a)
    ensures Logs(events, s + [a], at)
    ensures Logs(First(100, [ev] + events), s + [a], [|s|] + at)
  {}

  /**
   For every stream of messages, the log reports the newest 100 rises, newest first. A
   connection's first snapshot, or its first after a removal, is never one of them.
   */
  lemma {:induction false} SpikeLogIsNewestRises(s: seq<Arrival>)
    ensures Logs(View(BLANK, s).events, s, AllRises(s))
  {
    if s != [] {
      var init, a := s[..|s| - 1], s[|s| - 1];
      SpikeLogIsNewestRises(init);
      assert s == init + [a];
      if a.msg.Stats? {
        KeepsLastSnap(init, KeyText(a.msg.snap.key));
        SpikeReports(a);
        LogGrows(View(BLANK, init).events, init, AllRises(init), a, SpikeOf(a.msg.snap, a.at));
      }
    }
  }

  // ---- The points of one connection ---------------------------------------------------

  /** The measurements published under a key since it was last removed. */
  function Points(ms: seq<Msg>, key: string): seq<Vals> {
    if ms == [] then []
    else
      var before := Points(ms[..|ms| - 1], key);
      match ms[|ms| - 1]
      case Stats(snap) => if KeyText(snap.key) == key then before + [snap.vals] else before
      case Remove(k) => if k == key then [] else before
      case _ => before
  }

  ghost predicate Removes(ms: seq<Msg>, key: string) { exists i :: 0 <= i < |ms| && ms[i] == Remove(key) }

  /** Stats and Remove messages are all that matters for the replica. */
  predicate Relevant(m: Msg) { m.Stats? || m.Remove? }

  predicate About(m: Msg, key: string) { (m.Stats? && KeyText(m.snap.key) == key) || m == Remove(key) }

  lemma {:induction false} RemovesConcat(a: seq<Msg>, b: seq<Msg>, key: string)
    ensures Removes(a + b, key) <==> Removes(a, key) || Removes(b, key)
  {
    if i :| 0 <= i < |a| && a[i] == Remove(key) {
      assert (a + b)[i] == Remove(key);
    }
    if i :| 0 <= i < |b| && b[i] == Remove(key) {
      assert (a + b)[|a| + i] == Remove(key);
    }
  }

  lemma {:induction false} OneMore(ms: seq<Msg>, m: Msg, key: string)
    ensures Removes(ms + [m], key) <==> Removes(ms, key) || m == Remove(key)
    ensures Points(ms + [m], key) ==
      if m == Remove(key) then []
      else if m.Stats? && KeyText(m.snap.key) == key then Points(ms, key) + [m.snap.vals]
      else Points(ms, key)
  {
    assert (ms + [m])[..|ms|] == ms;
    assert (ms + [m])[|ms|] == m;
    if Removes(ms, key) {
      var i :| 0 <= i < |ms| && ms[i] == Remove(key);
      assert (ms + [m])[i] == Remove(key);
    }
  }

  lemma {:induction false} ConcatOneMore(a: seq<Msg>, b: seq<Msg>, m: Msg, key: string)
    requires Points(a + b, key) == if Removes(b, key) then Points(b, key) else Points(a, key) + Points(b, key)
    ensures Points(a + b + [m], key) ==
      if Removes(b + [m], key) then Points(b + [m], key) else Points(a, key) + Points(b + [m], key)
  {
    OneMore(b, m, key);
    OneMore(a + b, m, key);
  }

  lemma {:induction false} PointsConcat(a: seq<Msg>, b: seq<Msg>, key: string)
    ensures Points(a + b, key) == if Removes(b, key) then Points(b, key) else Points(a, key) + Points(b, key)
  {
    if b == [] {
      assert a + b == a;
    } else {
      var init, m := b[..|b| - 1], b[|b| - 1];
      PointsConcat(a, init, key);
      ConcatOneMore(a, init, m, key);
      assert init + [m] == b;
      assert a + init + [m] == a + b;
    }
  }

  /** History messages are sent once, at the join, and never broadcast. */
  ghost predicate NoHistory(ms: seq<Msg>) { forall i :: 0 <= i < |ms| ==> !ms[i].History? }

  function Msgs(s: seq<Arrival>): seq<Msg> { seq(|s|, i requires 0 <= i < |s| => s[i].msg) }

  /** What the dashboard shows for a key, without the time stamps. */
  function Shown(c: Client, key: string): seq<Vals> {
    if key in c.history then Values(c.history[key]) else []
  }

  /** A key is listed exactly when it has at least one point, and never more than 3600. */
  ghost predicate Tidy(c: Client, key: string) {
    (key in c.history <==> Shown(c, key) != []) && |Shown(c, key)| <= MAX_HISTORY
  }

  /** The effect of one message on what is shown for a key. */
  function Shifted(shown: seq<Vals>, m: Msg, key: string): seq<Vals> {
    if m == Remove(key) then []
    else if m.Stats? && KeyText(m.snap.key) == key then Last(MAX_HISTORY, shown + [m.snap.vals])
    else shown
  }

  lemma {:induction false} ShownStep(c: Client, a: Arrival, key: string)
    requires Tidy(c, key) && key != "" && !a.msg.History?
    ensures Tidy(OnMessage(c, a), key)
    ensures Shown(OnMessage(c, a), key) == Shifted(Shown(c, key), a.msg, key)
  {}

  /** What should be on show after the messages ms, starting from `base`. */
  ghost function Expected(base: seq<Vals>, ms: seq<Msg>, key: string): seq<Vals> {
    Last(MAX_HISTORY, if Removes(ms, key) then Points(ms, key) else base + Points(ms, key))
  }

  lemma {:induction false} ExpectedStep(base: seq<Vals>, ms: seq<Msg>, m: Msg, key: string)
    ensures Expected(base, ms + [m], key) == Shifted(Expected(base, ms, key), m, key)
  {
    OneMore(ms, m, key);
    if m.Stats? && KeyText(m.snap.key) == key {
      var all := if Removes(ms, key) then Points(ms, key) else base + Points(ms, key);
      LastOfLast(MAX_HISTORY, all, [m.snap.vals]);
      assert base + Points(ms, key) + [m.snap.vals] == base + (Points(ms, key) + [m.snap.vals]);
    }
  }

  lemma {:induction false} ShownOneMore(c: Client, base: seq<Vals>, ms: seq<Msg>, a: Arrival, key: string)
    requires Tidy(c, key) && key != "" && !a.msg.History? && Shown(c, key) == Expected(base, ms, key)
    ensures Tidy(OnMessage(c, a), key) && Shown(OnMessage(c, a), key) == Expected(base, ms + [a.msg], key)
  {
    ShownStep(c, a, key);
    ExpectedStep(base, ms, a.msg, key);
  }

  lemma {:induction false} MsgsOfLast(s: seq<Arrival>)
    requires s != []
    ensures Msgs(s) == Msgs(s[..|s| - 1]) + [s[|s| - 1].msg]
    ensures NoHistory(Msgs(s)) ==> NoHistory(Msgs(s[..|s| - 1]))
  {
    assert Msgs(s[..|s| - 1]) == Msgs(s)[..|s| - 1];
  }

  /** What a stream of broadcasts, received in state c, leaves on show. */
  lemma {:induction false} ShownAfter(c: Client, s: seq<Arrival>, key: string)
    requires Tidy(c, key) && key != ""
    requires NoHistory(Msgs(s))
    ensures Tidy(View(c, s), key)
    ensures Shown(View(c, s), key) == Expected(Shown(c, key), Msgs(s), key)
  {
    if s == [] {
      assert Shown(c, key) + [] == Shown(c, key);
    } else {
      var init, a := s[..|s| - 1], s[|s| - 1];
      assert a.msg == Msgs(s)[|s| - 1];
      MsgsOfLast(s);
      ShownAfter(c, init, key);
      ShownOneMore(View(c, init), Shown(c, key), Msgs(init), a, key);
    }
  }

  /** Snapshots, too, are kept exactly for the keys with points in the stream. */
  lemma {:induction false} SnapshotKeys(s: seq<Arrival>, key: string)
    requires key != ""
    ensures key in View(BLANK, s).snapshots <==> Points(Msgs(s), key) != []
  {
    if s != [] {
      var init, a := s[..|s| - 1], s[|s| - 1];
      SnapshotKeys(init, key);
      assert Msgs(s) == Msgs(init) + [a.msg];
      OneMore(Msgs(init), a.msg, key);
    }
  }
}
