/** A concrete behaviour in which a late joiner shows a point twice. */
module Witness {
  import opened Model
  import opened Processor
  import opened Dashboard
  import opened Broadcast
  import opened Replica
  import Hub

  /** The engine after its first event, and after the first publish. */
  function Fed(r: Resolver, e: Event): State { HandleEvent(r, Processor.INIT, e, 1) }

  function Told(r: Resolver, e: Event): State { Publish(Fed(r, e), 2) }

  /** What the publish sends, and what a dashboard joining right after it loads. */
  function News(r: Resolver, e: Event): Snap { SnapFor(KeyOf(r, e), NextConn(r, Processor.INIT, e, 1), map[]) }

  function Load(r: Resolver, e: Event): Msg {
    History([ConnHistory(KeyText(KeyOf(r, e)), Told(r, e).conns[KeyOf(r, e)].history)])
  }

  lemma {:induction false} Publication(r: Resolver, e: Event)
    ensures var k := KeyOf(r, e);
      && Enumerates([k], Fed(r, e).conns.Keys) && Enumerates([k], WithHistory(Told(r, e)))
      && StatsMsgs(Snaps(Fed(r, e), [k])) == [Stats(News(r, e))]
      && HistoryEntries(Told(r, e), [k]) == Load(r, e).entries
      && |Told(r, e).conns[k].history| == 1
  {
    var k := KeyOf(r, e);
    assert Fed(r, e).conns.Keys == {k} && Told(r, e).conns.Keys == {k};
    assert NextConn(r, Processor.INIT, e, 1).history == [];
  }

  /** The hub while connection 0 joins, is sent m, and then receives the broadcast b. */
  function HubAt(step: nat, m: Msg, b: Msg): Hub.State {
    var joined := Hub.Peer(Hub.Registered, true, false, false, [], false, 0, []);
    var loaded := joined.(hist := [m], recv := [m]);
    var idle := Hub.State(None, Hub.Idle, map[0 := loaded.(pc := Hub.Serving)], [b], [b], [], [b], 0);
    var busy := idle.(queue := [], taken := 1);
    match step
    case 0 => Hub.INIT
    case 1 => Hub.INIT.(lock := Some(Hub.Server(0)), peers := map[0 := joined])
    case 2 => Hub.INIT.(lock := Some(Hub.Server(0)), peers := map[0 := joined.(pc := Hub.WritingHistory(m))])
    case 3 => Hub.INIT.(lock := Some(Hub.Server(0)), peers := map[0 := loaded.(pc := Hub.HistoryDone)])
    case 4 => Hub.INIT.(peers := map[0 := loaded.(pc := Hub.Serving)])
    case 5 => idle
    case 6 => busy.(run := Hub.Holding(b))
    case 7 => busy.(lock := Some(Hub.Runner), run := Hub.Writing(b, {0}, {}, None))
    case 8 => busy.(lock := Some(Hub.Runner), run := Hub.Writing(b, {0}, {}, Some(0)))
    case _ =>
      busy.(lock := Some(Hub.Runner), run := Hub.Writing(b, {}, {}, None),
            peers := map[0 := loaded.(pc := Hub.Serving, recv := [m, b])])
  }

  function HubActs(m: Msg, b: Msg): seq<Hub.Action> {
    [Hub.Join(0), Hub.BeginHistory(0, m), Hub.EndHistory(0, true), Hub.ServeUnlock(0), Hub.Offer(b),
     Hub.Dequeue, Hub.RunLock, Hub.BeginWrite(0), Hub.EndWrite(true)]
  }

  lemma {:induction false} HubPath(m: Msg, b: Msg, i: nat)
    requires i < 9
    ensures Hub.Enabled(HubAt(i, m, b), HubActs(m, b)[i])
    ensures Hub.Next(HubAt(i, m, b), HubActs(m, b)[i]) == HubAt(i + 1, m, b)
  {
    if i == 6 {
      assert Hub.Members(HubAt(6, m, b)) == {0};
    }
    var h, h' := Hub.Next(HubAt(i, m, b), HubActs(m, b)[i]), HubAt(i + 1, m, b);
    assert [] + [m] == [m] && [m] + [b] == [m, b];
    assert h.peers == h'.peers;
    assert h.queue == h'.queue && h.accepted == h'.accepted && h.offered == h'.offered;
    assert h.run == h'.run;
  }

  /** The whole system along the way: the first two steps are the engine's. */
  function SysAt(step: nat, st0: State, st: State, m: Msg, b: Msg): Sys {
    if step == 0 then START
    else if step == 1 then START.(server := st0)
    else
      Sys(st, if step < 7 then [b] else [], HubAt(step - 2, m, b), if step < 4 then map[] else map[0 := Cut([b], [b])])
  }

  function Script(e: Event, k: ConnKey): seq<Broadcast.Action> {
    [Handle(e, 1), Tick(2, [k]),
     HubStep(Hub.Join(0)), TakeHistory(0, [k]), HubStep(Hub.EndHistory(0, true)), HubStep(Hub.ServeUnlock(0)),
     Emit, HubStep(Hub.Dequeue), HubStep(Hub.RunLock), HubStep(Hub.BeginWrite(0)), HubStep(Hub.EndWrite(true))]
  }

  ghost predicate Follow(r: Resolver, s: Sys, a: Broadcast.Action, s': Sys) {
    Broadcast.Enabled(s, a) && Broadcast.Next(r, s, a) == s'
  }

  lemma {:induction false} EnginePath(r: Resolver, e: Event, i: nat)
    requires i < 2
    ensures var k, m, b := KeyOf(r, e), Load(r, e), Stats(News(r, e));
      Follow(r, SysAt(i, Fed(r, e), Told(r, e), m, b), Script(e, k)[i], SysAt(i + 1, Fed(r, e), Told(r, e), m, b))
  {
    Publication(r, e);
  }

  /** The steps of the hub alone. */
  lemma {:induction false} HubAlone(r: Resolver, e: Event, st0: State, st: State, k: ConnKey, m: Msg, b: Msg, i: nat)
    requires 2 <= i < 11 && i != 3 && i != 6
    ensures Follow(r, SysAt(i, st0, st, m, b), Script(e, k)[i], SysAt(i + 1, st0, st, m, b))
  {
    HubPath(m, b, i - 2);
    assert Script(e, k)[i] == HubStep(HubActs(m, b)[i - 2]);
  }

  lemma {:induction false} HistoryIsTaken(r: Resolver, e: Event, st0: State, st: State, k: ConnKey, m: Msg, b: Msg)
    requires Enumerates([k], WithHistory(st)) && m == History(HistoryEntries(st, [k])) && Relevant(b)
    ensures Follow(r, SysAt(3, st0, st, m, b), Script(e, k)[3], SysAt(4, st0, st, m, b))
  {
    HubPath(m, b, 1);
    assert [] + [b] == [b];
  }

  lemma {:induction false} NewsIsEmitted(r: Resolver, e: Event, st0: State, st: State, k: ConnKey, m: Msg, b: Msg)
    ensures Follow(r, SysAt(6, st0, st, m, b), Script(e, k)[6], SysAt(7, st0, st, m, b))
  {
    HubPath(m, b, 4);
    assert [b][1..] == [];
  }

  lemma {:induction false} EveryStep(r: Resolver, e: Event, i: nat)
    requires i < 11
    ensures var k, m, b := KeyOf(r, e), Load(r, e), Stats(News(r, e));
      Follow(r, SysAt(i, Fed(r, e), Told(r, e), m, b), Script(e, k)[i], SysAt(i + 1, Fed(r, e), Told(r, e), m, b))
  {
    var k, m, b := KeyOf(r, e), Load(r, e), Stats(News(r, e));
    Publication(r, e);
    if i < 2 {
      EnginePath(r, e, i);
    } else if i == 3 {
      HistoryIsTaken(r, e, Fed(r, e), Told(r, e), k, m, b);
    } else if i == 6 {
      NewsIsEmitted(r, e, Fed(r, e), Told(r, e), k, m, b);
    } else {
      HubAlone(r, e, Fed(r, e), Told(r, e), k, m, b, i);
    }
  }

  function Path(r: Resolver, e: Event): seq<Sys> {
    seq(12, i requires 0 <= i < 12 => SysAt(i, Fed(r, e), Told(r, e), Load(r, e), Stats(News(r, e))))
  }

  lemma {:induction false} FollowsThrough(r: Resolver, ss: seq<Sys>, acts: seq<Broadcast.Action>)
    requires |ss| == |acts| + 1 && ss[0] == START
    requires forall i :: 0 <= i < |acts| ==> Follow(r, ss[i], acts[i], ss[i + 1])
    ensures Behaviour(r, ss, acts)
  {
    forall i | 0 <= i < |acts|
      ensures Leads(r, ss, acts, i)
    {
      assert Follow(r, ss[i], acts[i], ss[i + 1]);
    }
  }

  lemma {:induction false} PathIsBehaviour(r: Resolver, e: Event)
    ensures Behaviour(r, Path(r, e), Script(e, KeyOf(r, e)))
  {
    var ss, acts := Path(r, e), Script(e, KeyOf(r, e));
    forall i | 0 <= i < |acts|
      ensures Follow(r, ss[i], acts[i], ss[i + 1])
    {
      EveryStep(r, e, i);
    }
    FollowsThrough(r, ss, acts);
  }

  /** At the end of the path one point is in flight, and it is the only one since the join. */
  lemma {:induction false} LateEnd(s: Sys, m: Msg, b: Msg, key: string)
    requires b.Stats? && KeyText(b.snap.key) == key && m.History?
    requires s.hub == HubAt(9, m, b) && s.pending == [] && s.taken == map[0 := Cut([b], [b])]
    ensures Lossless(s) && Drained(s, 0) && s.hub.peers[0].hist == [m] && s.hub.peers[0].recv == [m, b]
    ensures Before(s, 0) == [] && Since(s, 0) == [b] && InFlight(s, 0) == [b]
    ensures Points([b], key) == [b.snap.vals] && Points([], key) == [] && !Removes([b], key)
  {
    OneMore([], b, key);
    assert [] + [b] == [b];
  }

  /**
   For every resolver and every first event: the path is a behaviour that loses nothing, at
   its end connection 0 has been sent everything, and its dashboard shows the engine's one
   point twice.
   */
  lemma {:induction false} LateJoinerDisagrees(r: Resolver, e: Event, stream: seq<Arrival>)
    requires ArrowFreeNames(r) && Msgs(stream) == [Load(r, e), Stats(News(r, e))]
    ensures Behaviour(r, Path(r, e), Script(e, KeyOf(r, e)))
    ensures var s, k := Path(r, e)[11], KeyOf(r, e);
      && Lossless(s) && Drained(s, 0) && Follows(stream, s, 0)
      && k in s.server.conns && |Values(s.server.conns[k].history)| == 1
      && |Shown(View(BLANK, stream), KeyText(k))| == 2
  {
    var s, k, m, b := Path(r, e)[11], KeyOf(r, e), Load(r, e), Stats(News(r, e));
    PathIsBehaviour(r, e);
    Publication(r, e);
    assert s == SysAt(11, Fed(r, e), Told(r, e), m, b);
    assert s.hub == HubAt(9, m, b);
    LateEnd(s, m, b, KeyText(k));
    LosslessIsIntact(r, Path(r, e), Script(e, k), 11, KeyText(k));
    AgreesExactly(r, Path(r, e), Script(e, k), 11, 0, stream, k);
  }
}
