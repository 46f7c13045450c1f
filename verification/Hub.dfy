/**
 The WebSocket hub (collector/hub/hub.go) as a step system: the Run goroutine, one ServeWs
 call and one reader goroutine per connection, and any number of broadcasters interleave
 at every point where the source releases or waits for `h.mu` or the channel. A write takes
 time: it begins and ends in two steps.
 */
module Hub {
  import opened Model

  const QUEUE_CAPACITY: nat := 512

  type Id = nat

  datatype Thread = Runner | Server(id: Id)

  /** Where the Run loop stands. */
  datatype RunPc =
    | Idle
    | Holding(msg: Msg)
    | Writing(msg: Msg, todo: set<Id>, failed: set<Id>, current: Option<Id>)
    | Closing(failed: set<Id>)

  /** Where the ServeWs call of a connection stands; it holds the lock until `Serving`. */
  datatype ServePc = Registered | WritingHistory(msg: Msg) | HistoryDone | Serving

  /**
   A connection. `member` says whether it is in the client map, `left` whether its reader
   has unregistered it, `closed` whether the hub has closed it; `hist` is the history
   message it was sent, `missed` whether writing that failed, `from` the first broadcast it
   can see, `recv` all it received.
   */
  datatype Peer = Peer(
    pc: ServePc, member: bool, left: bool, closed: bool,
    hist: seq<Msg>, missed: bool, from: nat, recv: seq<Msg>)

  datatype State = State(
    lock: Option<Thread>, run: RunPc, peers: map<Id, Peer>,
    offered: seq<Msg>, accepted: seq<Msg>, dropped: seq<Msg>, queue: seq<Msg>, taken: nat)

  const INIT := State(None, Idle, map[], [], [], [], [], 0)

  datatype Action =
    | Offer(msg: Msg)
    | Dequeue
    | RunLock
    | BeginWrite(id: Id)
    | EndWrite(ok: bool)
    | RunUnlock
    | CloseFailed(id: Id)
    | RunDone
    | Join(id: Id)
    | BeginHistory(id: Id, msg: Msg)
    | EndHistory(id: Id, ok: bool)
    | SkipHistory(id: Id)
    | ServeUnlock(id: Id)
    | Unregister(id: Id)
    | CloseLeft(id: Id)

  function Members(h: State): set<Id> { set id | id in h.peers && h.peers[id].member }

  predicate ServePcIs(h: State, id: Id, pc: ServePc) { id in h.peers && h.peers[id].pc == pc }

  predicate Enabled(h: State, a: Action) {
    match a
    case Offer(_) => true
    case Dequeue => h.run.Idle? && h.queue != []
    case RunLock => h.run.Holding? && h.lock.None?
    case BeginWrite(id) => h.run.Writing? && h.run.current.None? && id in h.run.todo
    case EndWrite(_) => h.run.Writing? && h.run.current.Some? && h.run.current.value in h.peers
    case RunUnlock => h.run.Writing? && h.run.current.None? && h.run.todo == {}
    case CloseFailed(id) => h.run.Closing? && id in h.run.failed && id in h.peers
    case RunDone => h.run.Closing? && h.run.failed == {}
    case Join(id) => h.lock.None? && id !in h.peers
    case BeginHistory(id, _) => ServePcIs(h, id, Registered)
    case EndHistory(id, _) => id in h.peers && h.peers[id].pc.WritingHistory?
    case SkipHistory(id) => ServePcIs(h, id, Registered)
    case ServeUnlock(id) => ServePcIs(h, id, HistoryDone)
    case Unregister(id) => h.lock.None? && ServePcIs(h, id, Serving) && !h.peers[id].left
    case CloseLeft(id) => id in h.peers && h.peers[id].left
  }

  /** The index of the next broadcast a connection joining now will be sent. */
  function NextIndex(h: State): nat {
    if h.run.Holding? && h.taken > 0 then h.taken - 1 else h.taken
  }

  function Next(h: State, a: Action): State
    requires Enabled(h, a)
  {
    match a
    case Offer(m) =>
      if |h.queue| < QUEUE_CAPACITY then
        h.(offered := h.offered + [m], accepted := h.accepted + [m], queue := h.queue + [m])
      else
        h.(offered := h.offered + [m], dropped := h.dropped + [m])
    case Dequeue => h.(run := Holding(h.queue[0]), queue := h.queue[1..], taken := h.taken + 1)
    case RunLock => h.(lock := Some(Runner), run := Writing(h.run.msg, Members(h), {}, None))
    case BeginWrite(id) => h.(run := h.run.(current := Some(id)))
    case EndWrite(ok) =>
      var id := h.run.current.value;
      var run := h.run.(todo := h.run.todo - {id}, current := None);
      if ok then
        h.(run := run, peers := h.peers[id := h.peers[id].(recv := h.peers[id].recv + [h.run.msg])])
      else
        h.(run := run.(failed := run.failed + {id}))
    case RunUnlock =>
      h.(lock := None, run := Closing(h.run.failed),
         peers := map id | id in h.peers ::
           h.peers[id].(member := h.peers[id].member && id !in h.run.failed))
    case CloseFailed(id) =>
      h.(run := Closing(h.run.failed - {id}), peers := h.peers[id := h.peers[id].(closed := true)])
    case RunDone => h.(run := Idle)
    case Join(id) =>
      h.(lock := Some(Server(id)),
         peers := h.peers[id := Peer(Registered, true, false, false, [], false, NextIndex(h), [])])
    case BeginHistory(id, m) => h.(peers := h.peers[id := h.peers[id].(pc := WritingHistory(m))])
    case EndHistory(id, ok) =>
      var p := h.peers[id];
      var sent := if ok then [p.pc.msg] else [];
      h.(peers := h.peers[id := p.(pc := HistoryDone, hist := sent, missed := !ok, recv := p.recv + sent)])
    case SkipHistory(id) => h.(peers := h.peers[id := h.peers[id].(pc := HistoryDone)])
    case ServeUnlock(id) => h.(lock := None, peers := h.peers[id := h.peers[id].(pc := Serving)])
    case Unregister(id) => h.(peers := h.peers[id := h.peers[id].(member := false, left := true)])
    case CloseLeft(id) => h.(peers := h.peers[id := h.peers[id].(closed := true)])
  }

  // ---- The invariant -----------------------------------------------------------------

  ghost predicate QueueInv(h: State) {
    && |h.queue| <= QUEUE_CAPACITY
    && h.taken <= |h.accepted| && h.accepted[h.taken..] == h.queue
    && (h.run.Holding? || h.run.Writing? ==> h.taken > 0 && h.run.msg == h.accepted[h.taken - 1])
  }

  /** Every message offered was either accepted or dropped. */
  ghost predicate Balanced(h: State) {
    multiset(h.offered) == multiset(h.accepted) + multiset(h.dropped)
  }

  ghost predicate LockInv(h: State) {
    && (h.run.Writing? <==> h.lock == Some(Runner))
    && (forall id :: id in h.peers && !h.peers[id].pc.Serving? ==> h.lock == Some(Server(id)))
  }

  ghost predicate RunInv(h: State) {
    && (h.run.Writing? ==>
          && h.run.todo <= Members(h) && h.run.failed <= Members(h) && h.run.todo !! h.run.failed
          && (h.run.current.Some? ==> h.run.current.value in h.run.todo))
    && (h.run.Closing? ==> h.run.failed <= h.peers.Keys && h.run.failed !! Members(h))
  }

  /** How many broadcasts a connection has been sent. */
  function Seen(p: Peer): int { |p.recv| - |p.hist| }

  /** Up to which broadcast a member must have been sent everything. */
  function Due(h: State, id: Id): int {
    match h.run
    case Idle => h.taken
    case Closing(_) => h.taken
    case Holding(_) => h.taken - 1
    case Writing(_, todo, failed, _) => if id in todo + failed then h.taken - 1 else h.taken
  }

  /** One contiguous slice of the accepted broadcasts, after the optional history message. */
  ghost predicate Received(p: Peer, accepted: seq<Msg>) {
    && 0 <= Seen(p) && p.from + Seen(p) <= |accepted|
    && p.recv == p.hist + accepted[p.from..p.from + Seen(p)]
  }

  lemma {:induction false} ReceivedLater(p: Peer, accepted: seq<Msg>, m: Msg)
    requires Received(p, accepted)
    ensures Received(p, accepted + [m])
  {
    assert (accepted + [m])[p.from..p.from + Seen(p)] == accepted[p.from..p.from + Seen(p)];
  }

  lemma {:induction false} ReceivedNext(p: Peer, accepted: seq<Msg>)
    requires Received(p, accepted) && p.from + Seen(p) < |accepted|
    ensures Received(p.(recv := p.recv + [accepted[p.from + Seen(p)]]), accepted)
  {
    var next := p.from + Seen(p);
    assert accepted[p.from..next + 1] == accepted[p.from..next] + [accepted[next]];
  }

  /** A member is up to date and open; during its ServeWs call it is a member. */
  ghost predicate StatusInv(h: State, id: Id)
    requires id in h.peers
  {
    var p := h.peers[id];
    && (p.member ==> p.from + Seen(p) == Due(h, id) && !p.closed && !p.left)
    && (!p.pc.Serving? ==> p.member)
    && (!p.member ==> p.closed || p.left || (h.run.Closing? && id in h.run.failed))
    && (p.pc.Registered? || p.pc.WritingHistory? ==> p.recv == [] && p.hist == [])
  }

  ghost predicate Inv(h: State) {
    && QueueInv(h) && Balanced(h) && LockInv(h) && RunInv(h)
    && (forall id :: id in h.peers ==> Received(h.peers[id], h.accepted))
    && (forall id :: id in h.peers ==> StatusInv(h, id))
  }

  lemma {:induction false} InitInv()
    ensures Inv(INIT)
  {}

  lemma {:induction false} OfferKeepsQueue(h: State, m: Msg)
    requires QueueInv(h) && Balanced(h)
    ensures QueueInv(Next(h, Offer(m))) && Balanced(Next(h, Offer(m)))
  {}

  lemma {:induction false} QueueStep(h: State, a: Action)
    requires QueueInv(h) && Balanced(h) && Enabled(h, a)
    ensures QueueInv(Next(h, a)) && Balanced(Next(h, a))
  {
    if a.Offer? {
      OfferKeepsQueue(h, a.msg);
    }
  }

  /** Actions of the Run loop that touch what some connection has received. */
  predicate IsTransfer(a: Action) { a.Offer? || a.EndWrite? || a.EndHistory? || a.Join? }

  lemma {:induction false} LockStep(h: State, a: Action)
    requires Inv(h) && Enabled(h, a)
    ensures LockInv(Next(h, a))
  {
    assert forall id :: id in h.peers ==> StatusInv(h, id);
  }

  lemma {:induction false} RunStep(h: State, a: Action)
    requires Inv(h) && Enabled(h, a)
    ensures RunInv(Next(h, a))
  {
    assert forall id :: id in h.peers ==> StatusInv(h, id);
  }

  lemma {:induction false} TransferReceived(h: State, a: Action, id: Id)
    requires QueueInv(h) && RunInv(h) && Enabled(h, a) && id in Next(h, a).peers && IsTransfer(a)
    requires id in h.peers ==> Received(h.peers[id], h.accepted) && StatusInv(h, id)
    ensures Received(Next(h, a).peers[id], Next(h, a).accepted)
  {
    if id in h.peers {
      var p := h.peers[id];
      match a
      case Offer(m) => ReceivedLater(p, h.accepted, m);
      case EndWrite(_) =>
        if id == h.run.current.value {
          ReceivedNext(p, h.accepted);
        }
      case _ =>
    }
  }

  lemma {:induction false} ReceivedStep(h: State, a: Action, id: Id)
    requires QueueInv(h) && RunInv(h) && Enabled(h, a) && id in Next(h, a).peers
    requires id in h.peers ==> Received(h.peers[id], h.accepted) && StatusInv(h, id)
    ensures Received(Next(h, a).peers[id], Next(h, a).accepted)
  {
    if IsTransfer(a) {
      TransferReceived(h, a, id);
    } else {
      var p, p' := h.peers[id], Next(h, a).peers[id];
      assert p'.recv == p.recv && p'.hist == p.hist && p'.from == p.from;
    }
  }

  /** Actions of the Run loop, as opposed to those of ServeWs and the readers. */
  predicate IsRunAction(a: Action) {
    a.Dequeue? || a.RunLock? || a.BeginWrite? || a.EndWrite? || a.RunUnlock? || a.CloseFailed? || a.RunDone?
  }

  lemma {:induction false} RunStatus(h: State, a: Action, id: Id)
    requires QueueInv(h) && LockInv(h) && RunInv(h) && Enabled(h, a) && IsRunAction(a)
    requires id in h.peers && StatusInv(h, id)
    ensures StatusInv(Next(h, a), id)
  {}

  lemma {:induction false} OtherStatus(h: State, a: Action, id: Id)
    requires QueueInv(h) && LockInv(h) && RunInv(h) && Enabled(h, a) && !IsRunAction(a)
    requires id in Next(h, a).peers && (id in h.peers ==> StatusInv(h, id))
    ensures StatusInv(Next(h, a), id)
  {}

  lemma {:induction false} StepInv(h: State, a: Action)
    requires Inv(h) && Enabled(h, a)
    ensures Inv(Next(h, a))
  {
    QueueStep(h, a);
    LockStep(h, a);
    RunStep(h, a);
    forall id | id in Next(h, a).peers
      ensures Received(Next(h, a).peers[id], Next(h, a).accepted) && StatusInv(Next(h, a), id)
    {
      ReceivedStep(h, a, id);
      if IsRunAction(a) {
        RunStatus(h, a, id);
      } else {
        OtherStatus(h, a, id);
      }
    }
  }

  // ---- Whole behaviours --------------------------------------------------------------

  ghost predicate Behaviour(hs: seq<State>, acts: seq<Action>) {
    && |hs| == |acts| + 1 && hs[0] == INIT
    && forall i :: 0 <= i < |acts| ==> Enabled(hs[i], acts[i]) && hs[i + 1] == Next(hs[i], acts[i])
  }

  lemma {:induction false} AlwaysInv(hs: seq<State>, acts: seq<Action>, i: nat)
    requires Behaviour(hs, acts) && i < |hs|
    ensures Inv(hs[i])
  {
    if i == 0 {
      InitInv();
    } else {
      AlwaysInv(hs, acts, i - 1);
      StepInv(hs[i - 1], acts[i - 1]);
    }
  }

  /** Thread t is in the middle of a write to connection id. */
  predicate Writes(h: State, t: Thread, id: Id) {
    match t
    case Runner => h.run.Writing? && h.run.current == Some(id)
    case Server(j) => j == id && id in h.peers && h.peers[id].pc.WritingHistory?
  }

  /**
   In every interleaving: whoever writes holds the lock, so no two writes overlap; the
   connection written to is in the client map and open; one that has left the map is closed,
   or the Run loop or its reader is about to close it; the queue stays within its capacity;
   and the messages offered are the ones taken, queued and dropped.
   */
  lemma {:induction false} HubIsSafe(hs: seq<State>, acts: seq<Action>, i: nat)
    requires Behaviour(hs, acts) && i < |hs|
    ensures forall t, id :: Writes(hs[i], t, id) ==>
      hs[i].lock == Some(t) && id in Members(hs[i]) && !hs[i].peers[id].closed
    ensures forall t, id, t', id' :: Writes(hs[i], t, id) && Writes(hs[i], t', id') ==> t == t' && id == id'
    ensures forall id :: id in Members(hs[i]) ==> !hs[i].peers[id].closed
    ensures forall id :: id in hs[i].peers && id !in Members(hs[i]) ==>
      hs[i].peers[id].closed || hs[i].peers[id].left || (hs[i].run.Closing? && id in hs[i].run.failed)
    ensures |hs[i].queue| <= 512 && hs[i].taken <= |hs[i].accepted|
    ensures multiset(hs[i].offered)
         == multiset(hs[i].accepted[..hs[i].taken]) + multiset(hs[i].queue) + multiset(hs[i].dropped)
  {
    var h := hs[i];
    AlwaysInv(hs, acts, i);
    assert forall id :: id in h.peers ==> StatusInv(h, id);
    assert h.accepted == h.accepted[..h.taken] + h.queue;
  }

  lemma {:induction false} HistoryIsOne(hs: seq<State>, acts: seq<Action>, i: nat, id: Id)
    requires Behaviour(hs, acts) && i < |hs| && id in hs[i].peers
    ensures |hs[i].peers[id].hist| <= 1
  {
    if i > 0 && id in hs[i - 1].peers {
      HistoryIsOne(hs, acts, i - 1, id);
    }
  }

  /**
   Broadcast never blocks, and drops only what does not fit: an offered message is queued while
   the queue holds fewer than 512, and dropped exactly when it holds 512. No other step touches
   what was accepted or dropped.
   */
  ghost predicate DropsWhenFull(h: State, a: Action, h': State) {
    if !a.Offer? then h'.accepted == h.accepted && h'.dropped == h.dropped
    else if |h.queue| == 512 then
      h'.dropped == h.dropped + [a.msg] && h'.accepted == h.accepted && h'.queue == h.queue
    else
      && |h.queue| < 512 && h'.dropped == h.dropped
      && h'.accepted == h.accepted + [a.msg] && h'.queue == h.queue + [a.msg]
  }

  lemma {:induction false} StepDropsWhenFull(h: State, a: Action)
    requires |h.queue| <= QUEUE_CAPACITY && Enabled(h, a)
    ensures DropsWhenFull(h, a, Next(h, a))
  {}

  lemma {:induction false} DropsExactlyWhenFull(hs: seq<State>, acts: seq<Action>, i: nat)
    requires Behaviour(hs, acts) && i < |acts|
    ensures DropsWhenFull(hs[i], acts[i], hs[i + 1])
  {
    AlwaysInv(hs, acts, i);
    StepDropsWhenFull(hs[i], acts[i]);
  }

  /** A queue that never fills up loses nothing. */
  lemma {:induction false} NeverFullDropsNothing(hs: seq<State>, acts: seq<Action>, i: nat)
    requires Behaviour(hs, acts) && i < |hs| && forall j :: 0 <= j < i ==> |hs[j].queue| < 512
    ensures hs[i].dropped == []
  {
    if i > 0 {
      NeverFullDropsNothing(hs, acts, i - 1);
      DropsExactlyWhenFull(hs, acts, i - 1);
    }
  }

  /** Every connection has received one contiguous slice of the accepted broadcasts, in order. */
  lemma {:induction false} ReceivesOneSlice(hs: seq<State>, acts: seq<Action>, i: nat, id: Id)
    requires Behaviour(hs, acts) && i < |hs| && id in hs[i].peers
    ensures var p := hs[i].peers[id];
      && |p.hist| <= 1 && p.from <= p.from + Seen(p) <= |hs[i].accepted|
      && p.recv == p.hist + hs[i].accepted[p.from..p.from + Seen(p)]
  {
    AlwaysInv(hs, acts, i);
    HistoryIsOne(hs, acts, i, id);
  }

  lemma {:induction false} OutsiderIsNotWritten(h: State, id: Id)
    requires Inv(h) && id in h.peers && !h.peers[id].member
    ensures forall t :: !Writes(h, t, id)
  {
    assert StatusInv(h, id);
  }

  lemma {:induction false} SilentStep(h: State, a: Action, id: Id)
    requires Inv(h) && Enabled(h, a) && id in h.peers && !h.peers[id].member
    ensures var h' := Next(h, a);
      id in h'.peers && !h'.peers[id].member && h'.peers[id].recv == h.peers[id].recv
  {
    assert StatusInv(h, id);
  }

  /** A connection that has left the client map never comes back and is never written again. */
  lemma {:induction false} RemovedStaysSilent(hs: seq<State>, acts: seq<Action>, i: nat, j: nat, id: Id)
    requires Behaviour(hs, acts) && i <= j < |hs|
    requires id in hs[i].peers && !hs[i].peers[id].member
    ensures id in hs[j].peers && !hs[j].peers[id].member && hs[j].peers[id].recv == hs[i].peers[id].recv
    ensures forall t :: !Writes(hs[j], t, id)
  {
    if i < j {
      RemovedStaysSilent(hs, acts, i, j - 1, id);
      AlwaysInv(hs, acts, j - 1);
      SilentStep(hs[j - 1], acts[j - 1], id);
    }
    AlwaysInv(hs, acts, j);
    OutsiderIsNotWritten(hs[j], id);
  }
}
