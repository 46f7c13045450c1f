/**
 Engine, hub and dashboards together. The engine's goroutine changes its tables under its
 own lock and sends the resulting messages afterwards, one by one; the hub may run between
 any two of these steps, and a new dashboard may take its history there.
 */
module Broadcast {
  import opened Machine
  import opened Model
  import opened Processor
  import opened Dashboard
  import Hub

  /** What had been emitted, and what of it a joiner was still to be sent, when its history was read. */
  datatype Cut = Cut(emitted: seq<Msg>, flight: seq<Msg>)

  /** `pending` are the messages the engine has still to send; `taken[id]` is the cut of connection id. */
  datatype Sys = Sys(server: State, pending: seq<Msg>, hub: Hub.State, taken: map<Hub.Id, Cut>)

  const START := Sys(Processor.INIT, [], Hub.INIT, map[])

  datatype Action =
    | Handle(e: Event, now: nat)
    | Tick(now: nat, order: seq<ConnKey>)
    | Expire(now: nat, order: seq<ConnKey>)
    | Forward(service: string, resource: Resource)
    | Emit
    | Announce(msg: Msg)
    | TakeHistory(id: Hub.Id, order: seq<ConnKey>)
    | HubStep(act: Hub.Action)

  ghost predicate Enabled(s: Sys, a: Action) {
    match a
    case Handle(_, _) => s.pending == []
    case Tick(_, order) => s.pending == [] && Enumerates(order, s.server.conns.Keys)
    case Expire(now, order) => s.pending == [] && Enumerates(order, Expired(s.server, now))
    case Forward(_, _) => true
    case Emit => s.pending != []
    case Announce(m) => m.RawEvent? || m.ResourceMsg?
    case TakeHistory(id, order) =>
      && Enumerates(order, WithHistory(s.server)) && Hub.ServePcIs(s.hub, id, Hub.Registered)
    case HubStep(act) => !act.Offer? && !act.BeginHistory? && !act.SkipHistory? && Hub.Enabled(s.hub, act)
  }

  /** Everything the engine has sent or is about to send, in order, dropped or not. */
  function Emitted(s: Sys): seq<Msg> { s.hub.offered + s.pending }

  /** What connection id is still to be sent of it, if nothing more is dropped. */
  function Ahead(s: Sys, id: Hub.Id): seq<Msg>
    requires id in s.hub.peers
  {
    Rest(s.hub.peers[id].from, s.hub.accepted) + s.pending
  }

  /** ServeWs sends the histories it read, unless there are none. */
  function HistoryAction(st: State, id: Hub.Id, order: seq<ConnKey>): Hub.Action
    requires forall i :: 0 <= i < |order| ==> order[i] in st.conns
  {
    if order == [] then Hub.SkipHistory(id) else Hub.BeginHistory(id, History(HistoryEntries(st, order)))
  }

  ghost function Next(r: Resolver, s: Sys, a: Action): Sys
    requires Enabled(s, a)
  {
    match a
    case Handle(e, now) => s.(server := HandleEvent(r, s.server, e, now))
    case Tick(now, order) => s.(server := Publish(s.server, now), pending := StatsMsgs(Snaps(s.server, order)))
    case Expire(now, order) => s.(server := Sweep(s.server, now), pending := RemoveMsgs(order))
    case Forward(service, u) => s.(server := s.server.(resources := s.server.resources[service := u]))
    case Emit => s.(pending := s.pending[1..], hub := Hub.Next(s.hub, Hub.Offer(s.pending[0])))
    case Announce(m) => s.(hub := Hub.Next(s.hub, Hub.Offer(m)))
    case TakeHistory(id, order) =>
      s.(hub := Hub.Next(s.hub, HistoryAction(s.server, id, order)),
         taken := s.taken[id := Cut(Emitted(s), Ahead(s, id))])
    case HubStep(act) => s.(hub := Hub.Next(s.hub, act))
  }

  // ---- The engine's histories are the points it has emitted ---------------------------

  ghost predicate ServerInv(st: State, ms: seq<Msg>) {
    && (forall k :: k in st.conns ==> ArrowFree(k.src))
    && (forall k :: k in st.conns ==>
          Values(st.conns[k].history) == Last(Dashboard.MAX_HISTORY, Points(ms, KeyText(k))))
    && (forall key: string :: Points(ms, key) != [] ==> exists k :: k in st.conns && KeyText(k) == key)
  }

  /** A batch of snapshots of distinct keys adds one point to each and touches no other key. */
  lemma {:induction false} StatsPoints(snaps: seq<Snap>, key: string)
    requires forall i, j :: 0 <= i < j < |snaps| ==> KeyText(snaps[i].key) != KeyText(snaps[j].key)
    ensures !Removes(StatsMsgs(snaps), key)
    ensures forall i :: 0 <= i < |snaps| && KeyText(snaps[i].key) == key ==>
      Points(StatsMsgs(snaps), key) == [snaps[i].vals]
    ensures (forall i :: 0 <= i < |snaps| ==> KeyText(snaps[i].key) != key) ==>
      Points(StatsMsgs(snaps), key) == []
  {
    if snaps != [] {
      var init := snaps[..|snaps| - 1];
      StatsPoints(init, key);
      assert StatsMsgs(snaps)[..|snaps| - 1] == StatsMsgs(init);
    }
  }

  /** A sweep ends the points of exactly the removed keys. */
  lemma {:induction false} RemovePoints(order: seq<ConnKey>, key: string)
    ensures Points(RemoveMsgs(order), key) == []
    ensures Removes(RemoveMsgs(order), key) <==> exists i :: 0 <= i < |order| && KeyText(order[i]) == key
  {
    if order != [] {
      RemovePoints(order[..|order| - 1], key);
      assert RemoveMsgs(order)[..|order| - 1] == RemoveMsgs(order[..|order| - 1]);
    }
    if Removes(RemoveMsgs(order), key) {
      var i :| 0 <= i < |order| && RemoveMsgs(order)[i] == Remove(key);
      assert KeyText(order[i]) == key;
    }
    if i :| 0 <= i < |order| && KeyText(order[i]) == key {
      assert RemoveMsgs(order)[i] == Remove(key);
    }
  }

  lemma {:induction false} HistoryGrows(h: seq<Point>, now: nat, vals: Vals, ps: seq<Vals>)
    requires Values(h) == Last(Dashboard.MAX_HISTORY, ps)
    ensures Values(Last(Processor.MAX_HISTORY, h + [Point(now / 1_000_000, vals)]))
         == Last(Dashboard.MAX_HISTORY, ps + [vals])
  {}

  lemma {:induction false} DistinctTexts(st: State, order: seq<ConnKey>)
    requires Enumerates(order, st.conns.Keys) && forall k :: k in st.conns ==> ArrowFree(k.src)
    ensures var snaps := Snaps(st, order);
      forall i, j :: 0 <= i < j < |snaps| ==> KeyText(snaps[i].key) != KeyText(snaps[j].key)
  {
    var snaps := Snaps(st, order);
    forall i, j | 0 <= i < j < |snaps|
      ensures KeyText(snaps[i].key) != KeyText(snaps[j].key)
    {
      assert snaps[i].key == order[i] && snaps[j].key == order[j];
      if KeyText(order[i]) == KeyText(order[j]) {
        KeyTextInjective(order[i], order[j]);
      }
    }
  }

  /** A publish extends the emitted points of each connection as it extends its history. */
  lemma {:induction false} PublishedPoints(st: State, ms: seq<Msg>, now: nat, order: seq<ConnKey>, i: nat)
    requires ServerInv(st, ms) && Enumerates(order, st.conns.Keys) && i < |order|
    ensures Values(Published(st.conns[order[i]], now).history)
         == Last(Dashboard.MAX_HISTORY, Points(ms + StatsMsgs(Snaps(st, order)), KeyText(order[i])))
  {
    var snaps, k := Snaps(st, order), order[i];
    DistinctTexts(st, order);
    StatsPoints(snaps, KeyText(k));
    assert snaps[i].key == k && snaps[i].vals == ValsOf(st.conns[k].stats);
    PointsConcat(ms, StatsMsgs(snaps), KeyText(k));
    HistoryGrows(st.conns[k].history, now, snaps[i].vals, Points(ms, KeyText(k)));
  }

  lemma {:induction false} PublishedKeys(st: State, ms: seq<Msg>, order: seq<ConnKey>, key: string)
    requires ServerInv(st, ms) && Enumerates(order, st.conns.Keys)
    requires Points(ms + StatsMsgs(Snaps(st, order)), key) != []
    ensures exists k :: k in st.conns && KeyText(k) == key
  {
    var snaps := Snaps(st, order);
    DistinctTexts(st, order);
    StatsPoints(snaps, key);
    PointsConcat(ms, StatsMsgs(snaps), key);
    if Points(ms, key) == [] {
      var i :| 0 <= i < |snaps| && KeyText(snaps[i].key) == key;
      assert snaps[i].key == order[i];
    }
  }

  lemma {:induction false} PublishKeepsServerInv(st: State, ms: seq<Msg>, now: nat, order: seq<ConnKey>)
    requires ServerInv(st, ms) && Enumerates(order, st.conns.Keys)
    ensures ServerInv(Publish(st, now), ms + StatsMsgs(Snaps(st, order)))
  {
    var ms', st' := ms + StatsMsgs(Snaps(st, order)), Publish(st, now);
    forall k | k in st'.conns
      ensures Values(st'.conns[k].history) == Last(Dashboard.MAX_HISTORY, Points(ms', KeyText(k)))
    {
      var i :| 0 <= i < |order| && order[i] == k;
      PublishedPoints(st, ms, now, order, i);
    }
    forall key: string | Points(ms', key) != []
      ensures exists k :: k in st'.conns && KeyText(k) == key
    {
      PublishedKeys(st, ms, order, key);
      var k :| k in st.conns && KeyText(k) == key;
      assert k in st'.conns;
    }
  }

  lemma {:induction false} SweepKeepsServerInv(st: State, ms: seq<Msg>, now: nat, order: seq<ConnKey>)
    requires ServerInv(st, ms) && Enumerates(order, Expired(st, now))
    ensures ServerInv(Sweep(st, now), ms + RemoveMsgs(order))
  {
    var st' := Sweep(st, now);
    forall k | k in st'.conns
      ensures Points(ms + RemoveMsgs(order), KeyText(k)) == Points(ms, KeyText(k))
    {
      RemovePoints(order, KeyText(k));
      PointsConcat(ms, RemoveMsgs(order), KeyText(k));
      if i :| 0 <= i < |order| && KeyText(order[i]) == KeyText(k) {
        KeyTextInjective(order[i], k);
        assert false;
      }
    }
    forall key: string | Points(ms + RemoveMsgs(order), key) != []
      ensures exists k :: k in st'.conns && KeyText(k) == key
    {
      RemovePoints(order, key);
      PointsConcat(ms, RemoveMsgs(order), key);
      var k :| k in st.conns && KeyText(k) == key;
      assert k in Expired(st, now) ==> k in order;
      assert k in st'.conns;
    }
  }

  lemma {:induction false} EventKeepsServerInv(r: Resolver, st: State, ms: seq<Msg>, e: Event, now: nat)
    requires ServerInv(st, ms) && ArrowFree(r.name(e.saddr))
    ensures ServerInv(HandleEvent(r, st, e, now), ms)
  {
    var k, st' := KeyOf(r, e), HandleEvent(r, st, e, now);
    assert NextConn(r, st, e, now).history == if k in st.conns then st.conns[k].history else [];
    if k !in st.conns && Points(ms, KeyText(k)) != [] {
      var k' :| k' in st.conns && KeyText(k') == KeyText(k);
      KeyTextInjective(k', k);
      assert false;
    }
    forall key: string | Points(ms, key) != []
      ensures exists k' :: k' in st'.conns && KeyText(k') == key
    {
      var k' :| k' in st.conns && KeyText(k') == key;
      assert k' in st'.conns;
    }
  }

  // ---- The history message of a new dashboard ------------------------------------------

  function Loaded(m: Msg): Client
    requires m.History?
  {
    Client(map[], HistoryMap(m.entries), [])
  }

  /** m loads, for every key, the points emitted in ms. */
  ghost predicate Faithful(m: Msg, ms: seq<Msg>) {
    m.History? &&
    forall key: string :: key != "" ==>
      && Tidy(Loaded(m), key)
      && Shown(Loaded(m), key) == Last(Dashboard.MAX_HISTORY, Points(ms, key))
  }

  lemma {:induction false} HistoryMapOf(st: State, order: seq<ConnKey>, key: string)
    requires forall i :: 0 <= i < |order| ==> order[i] in st.conns
    requires forall i, j :: 0 <= i < j < |order| ==> KeyText(order[i]) != KeyText(order[j])
    ensures var m := HistoryMap(HistoryEntries(st, order));
      && (key in m ==> exists i :: 0 <= i < |order| && KeyText(order[i]) == key)
      && (forall i :: 0 <= i < |order| && KeyText(order[i]) == key ==>
            key in m && m[key] == st.conns[order[i]].history)
  {
    if order != [] {
      var init := order[..|order| - 1];
      HistoryMapOf(st, init, key);
      assert HistoryEntries(st, order)[..|order| - 1] == HistoryEntries(st, init);
    }
  }

  lemma {:induction false} FaithfulAt(st: State, ms: seq<Msg>, order: seq<ConnKey>, key: string)
    requires ServerInv(st, ms) && Enumerates(order, WithHistory(st))
    requires forall i, j :: 0 <= i < j < |order| ==> KeyText(order[i]) != KeyText(order[j])
    ensures var c := Loaded(History(HistoryEntries(st, order)));
      Tidy(c, key) && Shown(c, key) == Last(Dashboard.MAX_HISTORY, Points(ms, key))
  {
    var c := Loaded(History(HistoryEntries(st, order)));
    HistoryMapOf(st, order, key);
    if key in c.history {
      var i :| 0 <= i < |order| && KeyText(order[i]) == key;
      assert order[i] in WithHistory(st);
    } else {
      assert forall k :: k in st.conns && KeyText(k) == key ==> (k in WithHistory(st) ==> k in order);
      assert forall k :: k in st.conns && KeyText(k) == key ==> Values(st.conns[k].history) == [];
    }
  }

  lemma {:induction false} HistoryIsFaithful(st: State, ms: seq<Msg>, order: seq<ConnKey>)
    requires ServerInv(st, ms) && Enumerates(order, WithHistory(st))
    ensures Faithful(History(HistoryEntries(st, order)), ms)
  {
    var c := Loaded(History(HistoryEntries(st, order)));
    forall i, j | 0 <= i < j < |order|
      ensures KeyText(order[i]) != KeyText(order[j])
    {
      if KeyText(order[i]) == KeyText(order[j]) {
        KeyTextInjective(order[i], order[j]);
        assert false;
      }
    }
    forall key: string | key != ""
      ensures Tidy(c, key) && Shown(c, key) == Last(Dashboard.MAX_HISTORY, Points(ms, key))
    {
      FaithfulAt(st, ms, order, key);
    }
  }

  // ---- The invariant of the whole system -----------------------------------------------

  /** No history was sent because there was none. */
  predicate FoundNothing(p: Hub.Peer) { (p.pc.HistoryDone? || p.pc.Serving?) && p.hist == [] && !p.missed }

  /** Whatever a connection was sent as its history is what had been emitted when it was read. */
  ghost predicate PeerInv(s: Sys, id: Hub.Id)
    requires id in s.hub.peers
  {
    var p := s.hub.peers[id];
    && p.from <= |s.hub.accepted|
    && (p.pc.WritingHistory? ==> id in s.taken && Faithful(p.pc.msg, s.taken[id].emitted))
    && (p.hist != [] ==> |p.hist| == 1 && id in s.taken && Faithful(p.hist[0], s.taken[id].emitted))
    && (FoundNothing(p) ==> id in s.taken && Faithful(History([]), s.taken[id].emitted))
  }

  ghost predicate AllRelevant(ms: seq<Msg>) { forall i :: 0 <= i < |ms| ==> Relevant(ms[i]) }

  ghost predicate SysInv(s: Sys) {
    && Hub.Inv(s.hub)
    && AllRelevant(s.pending) && NoHistory(s.hub.accepted)
    && ServerInv(s.server, Emitted(s))
    && (forall id :: id in s.taken ==> id in s.hub.peers)
    && (forall id :: id in s.hub.peers ==> PeerInv(s, id))
  }

  ghost predicate ArrowFreeNames(r: Resolver) { forall ip: string :: ArrowFree(r.name(ip)) }

  /** A message that is not about a key can come and go anywhere. */
  lemma {:induction false} Unaffected(a: seq<Msg>, m: Msg, b: seq<Msg>, key: string)
    requires !About(m, key)
    ensures Points(a + [m] + b, key) == Points(a + b, key)
    ensures Removes(a + [m] + b, key) <==> Removes(a + b, key)
  {
    OneMore(a, m, key);
    PointsConcat(a + [m], b, key);
    PointsConcat(a, b, key);
    RemovesConcat(a + [m], b, key);
    RemovesConcat(a, b, key);
  }

  /** The engine's invariant depends on the points alone. */
  lemma {:induction false} SamePoints(st: State, ms: seq<Msg>, ms': seq<Msg>)
    requires ServerInv(st, ms) && forall key: string :: Points(ms', key) == Points(ms, key)
    ensures ServerInv(st, ms')
  {}

  lemma {:induction false} AnnounceKeepsServerInv(s: Sys, m: Msg)
    requires ServerInv(s.server, Emitted(s)) && !Relevant(m)
    ensures ServerInv(s.server, s.hub.offered + [m] + s.pending)
  {
    forall key: string
      ensures Points(s.hub.offered + [m] + s.pending, key) == Points(Emitted(s), key)
    {
      Unaffected(s.hub.offered, m, s.pending, key);
    }
    SamePoints(s.server, Emitted(s), s.hub.offered + [m] + s.pending);
  }

  /** The hub action, if any, that a step of the system performs. */
  ghost function HubAction(s: Sys, a: Action): Option<Hub.Action>
    requires Enabled(s, a)
  {
    match a
    case Emit => Some(Hub.Offer(s.pending[0]))
    case Announce(m) => Some(Hub.Offer(m))
    case TakeHistory(id, order) => Some(HistoryAction(s.server, id, order))
    case HubStep(act) => Some(act)
    case _ => None
  }

  /** What one hub step can change about a connection's history message and start. */
  lemma {:induction false} PeerFrame(h: Hub.State, act: Hub.Action, id: Hub.Id)
    requires Hub.Enabled(h, act) && id in Hub.Next(h, act).peers
    ensures var p' := Hub.Next(h, act).peers[id];
      if id in h.peers then
        var p := h.peers[id];
        && p'.from == p.from
        && (p'.hist != p.hist ==> p.pc.WritingHistory? && p'.hist in [[], [p.pc.msg]])
        && (p'.pc.WritingHistory? ==> p'.pc == p.pc || act == Hub.BeginHistory(id, p'.pc.msg))
        && (FoundNothing(p') ==> FoundNothing(p) || act == Hub.SkipHistory(id))
      else
        p'.hist == [] && !p'.pc.WritingHistory? && !FoundNothing(p') && p'.from == Hub.NextIndex(h)
  {}

  lemma {:induction false} HubKeepsMessages(h: Hub.State, act: Hub.Action)
    requires Hub.Enabled(h, act)
    ensures var h' := Hub.Next(h, act);
      && h.peers.Keys <= h'.peers.Keys && h.accepted <= h'.accepted
      && (!act.Offer? ==> h'.accepted == h.accepted && h'.offered == h.offered && h'.dropped == h.dropped)
  {}

  /** Steps that neither emit nor queue anything. */
  predicate IsSilent(a: Action) { a.Handle? || a.Forward? || a.TakeHistory? || a.HubStep? }

  lemma {:induction false} SilentFrame(r: Resolver, s: Sys, a: Action)
    requires Enabled(s, a) && IsSilent(a)
    ensures var s' := Next(r, s, a);
      && s'.pending == s.pending && s'.hub.accepted == s.hub.accepted
      && s'.hub.offered == s.hub.offered && s'.hub.dropped == s.hub.dropped
      && s.hub.peers.Keys <= s'.hub.peers.Keys
      && forall id :: id in s.hub.peers ==> s'.hub.peers[id].from == s.hub.peers[id].from
  {
    var act := HubAction(s, a);
    if act.Some? {
      HubKeepsMessages(s.hub, act.value);
      forall id | id in s.hub.peers
        ensures Hub.Next(s.hub, act.value).peers[id].from == s.hub.peers[id].from
      {
        PeerFrame(s.hub, act.value, id);
      }
    }
  }

  lemma {:induction false} EmitKeepsEmitted(r: Resolver, s: Sys)
    requires s.pending != []
    ensures Emitted(Next(r, s, Emit)) == Emitted(s)
  {
    assert s.pending == [s.pending[0]] + s.pending[1..];
  }

  lemma {:induction false} ServerStep(r: Resolver, s: Sys, a: Action)
    requires ArrowFreeNames(r) && ServerInv(s.server, Emitted(s)) && Enabled(s, a)
    ensures ServerInv(Next(r, s, a).server, Emitted(Next(r, s, a)))
  {
    if IsSilent(a) {
      SilentFrame(r, s, a);
      if a.Handle? {
        EventKeepsServerInv(r, s.server, Emitted(s), a.e, a.now);
      }
    } else if a.Emit? {
      EmitKeepsEmitted(r, s);
    } else if a.Announce? {
      AnnounceKeepsServerInv(s, a.msg);
    } else {
      assert Emitted(s) == s.hub.offered;
      if a.Tick? {
        PublishKeepsServerInv(s.server, Emitted(s), a.now, a.order);
      } else {
        SweepKeepsServerInv(s.server, Emitted(s), a.now, a.order);
      }
    }
  }

  /** ServeWs either writes the history it read or, if there is none, goes on without. */
  lemma {:induction false} HistoryFrame(st: State, h: Hub.State, id: Hub.Id, order: seq<ConnKey>)
    requires forall i :: 0 <= i < |order| ==> order[i] in st.conns
    requires Hub.ServePcIs(h, id, Hub.Registered)
    ensures Hub.Enabled(h, HistoryAction(st, id, order))
    ensures var h' := Hub.Next(h, HistoryAction(st, id, order));
      && h'.accepted == h.accepted && id in h'.peers
      && h'.peers[id] == h.peers[id].(pc :=
           if order == [] then Hub.HistoryDone else Hub.WritingHistory(History(HistoryEntries(st, order))))
  {}

  lemma {:induction false} HistoryTaken(r: Resolver, s: Sys, id: Hub.Id, order: seq<ConnKey>)
    requires ServerInv(s.server, Emitted(s)) && Enabled(s, TakeHistory(id, order))
    requires s.hub.peers[id].from <= |s.hub.accepted| && s.hub.peers[id].hist == []
    ensures PeerInv(Next(r, s, TakeHistory(id, order)), id)
  {
    var s' := Next(r, s, TakeHistory(id, order));
    HistoryFrame(s.server, s.hub, id, order);
    HistoryIsFaithful(s.server, Emitted(s), order);
    assert s'.taken[id].emitted == Emitted(s);
    assert order == [] ==> HistoryEntries(s.server, order) == [];
  }

  lemma {:induction false} PeerCarries(s: Sys, s': Sys, id: Hub.Id)
    requires id in s.hub.peers && id in s'.hub.peers && PeerInv(s, id)
    requires |s.hub.accepted| <= |s'.hub.accepted|
    requires id in s.taken ==> id in s'.taken && s'.taken[id] == s.taken[id]
    requires var p, p' := s.hub.peers[id], s'.hub.peers[id];
      && p'.from == p.from
      && (p'.hist != p.hist ==> p.pc.WritingHistory? && p'.hist in [[], [p.pc.msg]])
      && (p'.pc.WritingHistory? ==> p'.pc == p.pc)
      && (FoundNothing(p') ==> FoundNothing(p))
    ensures PeerInv(s', id)
  {}

  lemma {:induction false} TakenFrame(r: Resolver, s: Sys, a: Action, id: Hub.Id)
    requires Enabled(s, a) && !(a.TakeHistory? && a.id == id)
    ensures id in s.taken ==> id in Next(r, s, a).taken && Next(r, s, a).taken[id] == s.taken[id]
    ensures Next(r, s, a).hub == if HubAction(s, a).Some? then Hub.Next(s.hub, HubAction(s, a).value) else s.hub
  {}

  lemma {:induction false} PeerStep(r: Resolver, s: Sys, a: Action, id: Hub.Id)
    requires Enabled(s, a) && id in Next(r, s, a).hub.peers
    requires ServerInv(s.server, Emitted(s)) && s.hub.taken <= |s.hub.accepted|
    requires id in s.hub.peers ==> PeerInv(s, id) && (s.hub.peers[id].pc.Registered? ==> s.hub.peers[id].hist == [])
    ensures PeerInv(Next(r, s, a), id)
  {
    if a.TakeHistory? && a.id == id {
      HistoryTaken(r, s, id, a.order);
    } else {
      TakenFrame(r, s, a, id);
      var act := HubAction(s, a);
      if act.Some? {
        PeerFrame(s.hub, act.value, id);
        HubKeepsMessages(s.hub, act.value);
      }
      if id in s.hub.peers {
        PeerCarries(s, Next(r, s, a), id);
      }
    }
  }

  lemma {:induction false} MessagesStep(r: Resolver, s: Sys, a: Action)
    requires AllRelevant(s.pending) && NoHistory(s.hub.accepted) && Enabled(s, a)
    ensures AllRelevant(Next(r, s, a).pending) && NoHistory(Next(r, s, a).hub.accepted)
  {}

  lemma {:induction false} SysStep(r: Resolver, s: Sys, a: Action)
    requires ArrowFreeNames(r) && SysInv(s) && Enabled(s, a)
    ensures SysInv(Next(r, s, a))
  {
    var s' := Next(r, s, a);
    MessagesStep(r, s, a);
    ServerStep(r, s, a);
    var act := HubAction(s, a);
    if act.Some? {
      Hub.StepInv(s.hub, act.value);
      HubKeepsMessages(s.hub, act.value);
    }
    forall id | id in s'.hub.peers
      ensures PeerInv(s', id)
    {
      assert id in s.hub.peers ==> Hub.StatusInv(s.hub, id);
      PeerStep(r, s, a, id);
    }
  }

  /** Action i leads from state i to the next. */
  ghost predicate Leads(r: Resolver, ss: seq<Sys>, acts: seq<Action>, i: nat)
    requires |ss| == |acts| + 1 && i < |acts|
  {
    Enabled(ss[i], acts[i]) && ss[i + 1] == Next(r, ss[i], acts[i])
  }

  ghost predicate Behaviour(r: Resolver, ss: seq<Sys>, acts: seq<Action>) {
    && |ss| == |acts| + 1 && ss[0] == START
    && forall i :: 0 <= i < |acts| ==> Leads(r, ss, acts, i)
  }

  lemma {:induction false} AlwaysInv(r: Resolver, ss: seq<Sys>, acts: seq<Action>, i: nat)
    requires ArrowFreeNames(r) && Behaviour(r, ss, acts) && i < |ss|
    ensures SysInv(ss[i])
  {
    if i > 0 {
      AlwaysInv(r, ss, acts, i - 1);
      assert Leads(r, ss, acts, i - 1);
      SysStep(r, ss[i - 1], acts[i - 1]);
    }
  }

  // ---- Messages lost to the full queue ---------------------------------------------------

  /** A step drops a message about the key. */
  ghost predicate Loses(s: Sys, s': Sys, key: string) {
    |s.hub.dropped| < |s'.hub.dropped| && About(s'.hub.dropped[|s'.hub.dropped| - 1], key)
  }

  /** A step gets a removal of the key into the queue. */
  ghost predicate Clears(s: Sys, s': Sys, key: string) {
    |s.hub.accepted| < |s'.hub.accepted| && s'.hub.accepted[|s'.hub.accepted| - 1] == Remove(key)
  }

  /** From state j to state i no message about the key is dropped. */
  ghost predicate KeepsAll(ss: seq<Sys>, j: nat, i: nat, key: string)
    requires j <= i < |ss|
  {
    forall n :: j <= n < i ==> !Loses(ss[n], ss[n + 1], key)
  }

  /** State j is the first of all, or the one right after a removal of the key was queued. */
  ghost predicate Restarts(ss: seq<Sys>, j: nat, key: string)
    requires j < |ss|
  {
    j == 0 || Clears(ss[j - 1], ss[j], key)
  }

  /** No message about the key was dropped since its last accepted removal, or ever. */
  ghost predicate Intact(ss: seq<Sys>, i: nat, key: string)
    requires i < |ss|
  {
    exists j: nat :: j <= i && Restarts(ss, j, key) && KeepsAll(ss, j, i, key)
  }

  /** No stats or remove message has been dropped. */
  ghost predicate Lossless(s: Sys) {
    forall i :: 0 <= i < |s.hub.dropped| ==> !Relevant(s.hub.dropped[i])
  }

  /**
   What joiner id was given about the key splits into what was broadcast before it could
   listen and what was in flight then; the latter reaches it a second time.
   */
  ghost predicate FlightInv(s: Sys, id: Hub.Id, key: string)
    requires id in s.taken && id in s.hub.peers
  {
    var before, cut := First(s.hub.peers[id].from, s.hub.accepted), s.taken[id];
    !Removes(Ahead(s, id), key) ==>
      && !Removes(cut.flight, key)
      && Points(cut.flight, key) <= Points(Ahead(s, id), key)
      && Points(cut.emitted, key) == Points(before, key) + Points(cut.flight, key)
  }

  /** Queue and engine tell the same story about the key. */
  ghost predicate InSync(s: Sys, key: string) {
    && Points(s.hub.accepted, key) == Points(s.hub.offered, key)
    && forall id :: id in s.taken && id in s.hub.peers ==> FlightInv(s, id, key)
  }

  /** b tells at least what a tells about the key. */
  ghost predicate Extends(a: seq<Msg>, b: seq<Msg>, key: string) {
    && (Removes(a, key) ==> Removes(b, key))
    && (!Removes(b, key) ==> Points(a, key) <= Points(b, key))
  }

  lemma {:induction false} ConcatExtends(a: seq<Msg>, b: seq<Msg>, key: string)
    ensures Extends(a, a + b, key)
  {
    RemovesConcat(a, b, key);
    PointsConcat(a, b, key);
  }

  /** An offer is accepted or dropped. */
  lemma {:induction false} OfferTells(h: Hub.State, m: Msg)
    ensures var h' := Hub.Next(h, Hub.Offer(m));
      && h'.offered == h.offered + [m]
      && ((h'.accepted == h.accepted + [m] && h'.dropped == h.dropped)
          || (h'.accepted == h.accepted && h'.dropped == h.dropped + [m]))
  {}

  lemma {:induction false} EmitExtends(s: Sys, id: Hub.Id, key: string)
    requires s.pending != [] && id in s.hub.peers && s.hub.peers[id].from <= |s.hub.accepted|
    requires var h' := Hub.Next(s.hub, Hub.Offer(s.pending[0]));
      h'.dropped == s.hub.dropped || !About(s.pending[0], key)
    ensures var h' := Hub.Next(s.hub, Hub.Offer(s.pending[0]));
      && s.hub.accepted <= h'.accepted
      && Extends(Ahead(s, id), Rest(s.hub.peers[id].from, h'.accepted) + s.pending[1..], key)
  {
    var m, rest, from := s.pending[0], s.pending[1..], s.hub.peers[id].from;
    var h' := Hub.Next(s.hub, Hub.Offer(m));
    var heard := Rest(from, s.hub.accepted);
    OfferTells(s.hub, m);
    assert Ahead(s, id) == heard + [m] + rest;
    if h'.accepted == s.hub.accepted {
      Unaffected(heard, m, rest, key);
    } else {
      assert Rest(from, h'.accepted) + rest == heard + [m] + rest;
    }
  }

  lemma {:induction false} AnnounceExtends(s: Sys, m: Msg, id: Hub.Id, key: string)
    requires id in s.hub.peers && s.hub.peers[id].from <= |s.hub.accepted| && !Relevant(m)
    ensures var h' := Hub.Next(s.hub, Hub.Offer(m));
      Extends(Ahead(s, id), Rest(s.hub.peers[id].from, h'.accepted) + s.pending, key)
  {
    var heard := Rest(s.hub.peers[id].from, s.hub.accepted);
    OfferTells(s.hub, m);
    Unaffected(heard, m, s.pending, key);
    assert Rest(s.hub.peers[id].from, s.hub.accepted + [m]) == heard + [m];
  }

  /** What a connection is still to be sent is only ever added to. */
  lemma {:induction false} AheadGrows(r: Resolver, s: Sys, a: Action, id: Hub.Id, key: string)
    requires Enabled(s, a) && id in s.hub.peers && s.hub.peers[id].from <= |s.hub.accepted|
    requires !Loses(s, Next(r, s, a), key)
    ensures var s' := Next(r, s, a);
      && id in s'.hub.peers && s'.hub.peers[id].from == s.hub.peers[id].from
      && s.hub.accepted <= s'.hub.accepted
      && Extends(Ahead(s, id), Ahead(s', id), key)
  {
    if IsSilent(a) {
      SilentFrame(r, s, a);
    } else if a.Emit? {
      OfferTells(s.hub, s.pending[0]);
      EmitExtends(s, id, key);
    } else if a.Announce? {
      OfferTells(s.hub, a.msg);
      AnnounceExtends(s, a.msg, id, key);
    } else {
      assert Ahead(s, id) == Rest(s.hub.peers[id].from, s.hub.accepted);
      ConcatExtends(Ahead(s, id), Next(r, s, a).pending, key);
    }
  }

  lemma {:induction false} FlightCarries(s: Sys, s': Sys, id: Hub.Id, key: string)
    requires id in s.taken && id in s.hub.peers && FlightInv(s, id, key)
    requires id in s'.taken && id in s'.hub.peers && s'.taken[id] == s.taken[id]
    requires s'.hub.peers[id].from == s.hub.peers[id].from <= |s.hub.accepted|
    requires s.hub.accepted <= s'.hub.accepted && Extends(Ahead(s, id), Ahead(s', id), key)
    ensures FlightInv(s', id, key)
  {
    var from := s.hub.peers[id].from;
    assert First(from, s'.hub.accepted) == First(from, s.hub.accepted);
  }

  lemma {:induction false} FlightStep(r: Resolver, s: Sys, a: Action, id: Hub.Id, key: string)
    requires Enabled(s, a) && !Loses(s, Next(r, s, a), key)
    requires id in s.taken && id in s.hub.peers && FlightInv(s, id, key)
    requires s.hub.peers[id].from <= |s.hub.accepted| && !(a.TakeHistory? && a.id == id)
    ensures id in Next(r, s, a).hub.peers && id in Next(r, s, a).taken
    ensures FlightInv(Next(r, s, a), id, key)
  {
    AheadGrows(r, s, a, id, key);
    FlightCarries(s, Next(r, s, a), id, key);
  }

  lemma {:induction false} PointsAcross(
    before: seq<Msg>, heard: seq<Msg>, offered: seq<Msg>, pending: seq<Msg>, key: string)
    requires Points(before + heard, key) == Points(offered, key) && !Removes(heard + pending, key)
    ensures Points(offered + pending, key) == Points(before, key) + Points(heard + pending, key)
  {
    RemovesConcat(heard, pending, key);
    PointsConcat(before, heard, key);
    PointsConcat(heard, pending, key);
    PointsConcat(offered, pending, key);
  }

  lemma {:induction false} CutSplits(s: Sys, id: Hub.Id, key: string)
    requires Points(s.hub.accepted, key) == Points(s.hub.offered, key)
    requires id in s.hub.peers && !Removes(Ahead(s, id), key)
    ensures Points(Emitted(s), key)
         == Points(First(s.hub.peers[id].from, s.hub.accepted), key) + Points(Ahead(s, id), key)
  {
    var from := s.hub.peers[id].from;
    var before, heard := First(from, s.hub.accepted), Rest(from, s.hub.accepted);
    assert s.hub.accepted == before + heard;
    PointsAcross(before, heard, s.hub.offered, s.pending, key);
  }

  lemma {:induction false} OfferKeepsPoints(h: Hub.State, m: Msg, key: string)
    requires Points(h.accepted, key) == Points(h.offered, key)
    requires Hub.Next(h, Hub.Offer(m)).dropped == h.dropped || !About(m, key)
    ensures Points(Hub.Next(h, Hub.Offer(m)).accepted, key) == Points(Hub.Next(h, Hub.Offer(m)).offered, key)
  {
    OfferTells(h, m);
    OneMore(h.accepted, m, key);
    OneMore(h.offered, m, key);
  }

  lemma {:induction false} PointsStep(r: Resolver, s: Sys, a: Action, key: string)
    requires Enabled(s, a) && Points(s.hub.accepted, key) == Points(s.hub.offered, key)
    requires !Loses(s, Next(r, s, a), key)
    ensures Points(Next(r, s, a).hub.accepted, key) == Points(Next(r, s, a).hub.offered, key)
  {
    if IsSilent(a) {
      SilentFrame(r, s, a);
    } else if a.Emit? {
      OfferTells(s.hub, s.pending[0]);
      OfferKeepsPoints(s.hub, s.pending[0], key);
    } else if a.Announce? {
      OfferTells(s.hub, a.msg);
      OfferKeepsPoints(s.hub, a.msg, key);
    }
  }

  /** Only the loss of a message about the key can put it out of step. */
  lemma {:induction false} SyncStep(r: Resolver, s: Sys, a: Action, key: string)
    requires SysInv(s) && Enabled(s, a) && InSync(s, key) && !Loses(s, Next(r, s, a), key)
    ensures InSync(Next(r, s, a), key)
  {
    var s' := Next(r, s, a);
    PointsStep(r, s, a, key);
    forall id | id in s'.taken && id in s'.hub.peers
      ensures FlightInv(s', id, key)
    {
      if a.TakeHistory? && a.id == id {
        SilentFrame(r, s, a);
        if !Removes(Ahead(s', id), key) {
          CutSplits(s, id, key);
        }
      } else {
        assert id in s.taken && PeerInv(s, id);
        FlightStep(r, s, a, id, key);
      }
    }
  }

  /** An accepted removal puts it back in step, whatever was lost before. */
  lemma {:induction false} ClearStep(r: Resolver, s: Sys, a: Action, key: string)
    requires SysInv(s) && Enabled(s, a) && Clears(s, Next(r, s, a), key)
    ensures InSync(Next(r, s, a), key)
  {
    var s' := Next(r, s, a);
    if IsSilent(a) {
      SilentFrame(r, s, a);
    }
    var m := Remove(key);
    OfferTells(s.hub, s.pending[0]);
    OneMore(s.hub.accepted, m, key);
    OneMore(s.hub.offered, m, key);
    forall id | id in s'.taken && id in s'.hub.peers
      ensures Removes(Ahead(s', id), key)
    {
      assert PeerInv(s, id);
      var n := |s.hub.accepted| - s'.hub.peers[id].from;
      assert Ahead(s', id)[n] == Remove(key);
    }
  }

  lemma {:induction false} StartsInSync(key: string)
    ensures InSync(START, key)
  {}

  lemma {:induction false} SyncAt(r: Resolver, ss: seq<Sys>, acts: seq<Action>, i: nat, key: string)
    requires ArrowFreeNames(r) && Behaviour(r, ss, acts) && 0 < i < |ss|
    requires InSync(ss[i - 1], key) && !Loses(ss[i - 1], ss[i], key)
    ensures InSync(ss[i], key)
  {
    AlwaysInv(r, ss, acts, i - 1);
    assert Leads(r, ss, acts, i - 1);
    SyncStep(r, ss[i - 1], acts[i - 1], key);
  }

  lemma {:induction false} ClearAt(r: Resolver, ss: seq<Sys>, acts: seq<Action>, i: nat, key: string)
    requires ArrowFreeNames(r) && Behaviour(r, ss, acts) && 0 < i < |ss| && Clears(ss[i - 1], ss[i], key)
    ensures InSync(ss[i], key)
  {
    AlwaysInv(r, ss, acts, i - 1);
    assert Leads(r, ss, acts, i - 1);
    ClearStep(r, ss[i - 1], acts[i - 1], key);
  }

  lemma {:induction false} KeptThrough(ss: seq<Sys>, j: nat, i: nat, key: string)
    requires j < i < |ss| && KeepsAll(ss, j, i, key)
    ensures KeepsAll(ss, j, i - 1, key) && !Loses(ss[i - 1], ss[i], key)
  {
    assert ss[i] == ss[i - 1 + 1];
  }

  lemma {:induction false} StaysInSync(r: Resolver, ss: seq<Sys>, acts: seq<Action>, j: nat, i: nat, key: string)
    requires ArrowFreeNames(r) && Behaviour(r, ss, acts) && j <= i < |ss|
    requires InSync(ss[j], key) && KeepsAll(ss, j, i, key)
    ensures InSync(ss[i], key)
  {
    if j < i {
      KeptThrough(ss, j, i, key);
      StaysInSync(r, ss, acts, j, i - 1, key);
      SyncAt(r, ss, acts, i, key);
    }
  }

  /** In every behaviour, an intact key is in step. */
  lemma {:induction false} IntactIsInSync(r: Resolver, ss: seq<Sys>, acts: seq<Action>, i: nat, key: string)
    requires ArrowFreeNames(r) && Behaviour(r, ss, acts) && i < |ss| && Intact(ss, i, key)
    ensures InSync(ss[i], key)
  {
    var j: nat :| j <= i && Restarts(ss, j, key) && KeepsAll(ss, j, i, key);
    if j == 0 {
      StartsInSync(key);
    } else {
      ClearAt(r, ss, acts, j, key);
    }
    StaysInSync(r, ss, acts, j, i, key);
  }

  lemma {:induction false} LosslessStep(r: Resolver, s: Sys, a: Action, key: string)
    requires Enabled(s, a) && Lossless(Next(r, s, a))
    ensures Lossless(s) && !Loses(s, Next(r, s, a), key)
  {
    var act := HubAction(s, a);
    if act.Some? {
      HubKeepsMessages(s.hub, act.value);
      if act.value.Offer? {
        OfferTells(s.hub, act.value.msg);
      }
    }
    assert forall n :: 0 <= n < |s.hub.dropped| ==> Next(r, s, a).hub.dropped[n] == s.hub.dropped[n];
  }

  lemma {:induction false} NothingLost(r: Resolver, ss: seq<Sys>, acts: seq<Action>, i: nat, key: string)
    requires Behaviour(r, ss, acts) && i < |ss| && Lossless(ss[i])
    ensures KeepsAll(ss, 0, i, key)
  {
    if i > 0 {
      assert Leads(r, ss, acts, i - 1);
      LosslessStep(r, ss[i - 1], acts[i - 1], key);
      NothingLost(r, ss, acts, i - 1, key);
    }
  }

  /** A step drops exactly the message it offers to a queue of 512. */
  lemma {:induction false} StepDrops(r: Resolver, s: Sys, a: Action)
    requires Enabled(s, a) && |s.hub.queue| <= 512
    ensures var offer := HubAction(s, a);
      Next(r, s, a).hub.dropped == s.hub.dropped +
        if offer.Some? && offer.value.Offer? && |s.hub.queue| == 512 then [offer.value.msg] else []
  {
    if IsSilent(a) {
      SilentFrame(r, s, a);
      assert s.hub.dropped + [] == s.hub.dropped;
    }
  }

  /** As long as the queue never fills up, nothing is lost at all. */
  lemma {:induction false} NeverFullIsLossless(r: Resolver, ss: seq<Sys>, acts: seq<Action>, i: nat)
    requires Behaviour(r, ss, acts) && i < |ss| && forall j :: 0 <= j < i ==> |ss[j].hub.queue| < 512
    ensures ss[i].hub.dropped == [] && Lossless(ss[i])
  {
    if i > 0 {
      NeverFullIsLossless(r, ss, acts, i - 1);
      assert Leads(r, ss, acts, i - 1);
      StepDrops(r, ss[i - 1], acts[i - 1]);
    }
  }

  /** While nothing relevant has been dropped at all, every key is intact. */
  lemma {:induction false} LosslessIsIntact(r: Resolver, ss: seq<Sys>, acts: seq<Action>, i: nat, key: string)
    requires Behaviour(r, ss, acts) && i < |ss| && Lossless(ss[i])
    ensures Intact(ss, i, key)
  {
    NothingLost(r, ss, acts, i, key);
    assert Restarts(ss, 0, key);
  }
}
