/**
 The mutexes of the collector and the goroutines that take them. `h.mu` is taken before
 `p.mu` (ServeWs reads the history while it holds the client map) and `p.mu` before the
 resolver's lock; broadcasting and storing happen after `p.mu` is released. Read locks of
 the resolver are taken as exclusive ones, so that the model waits more often than Go does.
 */
module Locks {

  datatype Mutex = HubMu | EngineMu | ResolverMu | CacheMu | StoreMu

  const TOP_RANK: nat := 3

  /** The order in which locks are nested. */
  function Rank(m: Mutex): (rank: nat)
    ensures rank <= TOP_RANK
  {
    match m
    case HubMu => 0
    case EngineMu => 1
    case ResolverMu => 2
    case CacheMu => 2
    case StoreMu => TOP_RANK
  }

  /** A step of a goroutine: anything that is not a lock operation always gets done. */
  datatype Op = Lock(m: Mutex) | Unlock(m: Mutex) | Work

  /** The rest of a goroutine's turn. */
  datatype Program = Done | Do(op: Op, rest: Program)

  // ---- What the goroutines do --------------------------------------------------------

  function Works(n: nat, rest: Program): Program { if n == 0 then rest else Do(Work, Works(n - 1, rest)) }

  /** A section that holds m for n steps. */
  function Section(m: Mutex, n: nat, rest: Program): Program { Do(Lock(m), Works(n, Do(Unlock(m), rest))) }

  /** How a name is found: in the container table, in the cache, or by a lookup that is then cached. */
  datatype Lookup = Container | Cached | LookedUp(n: nat)

  function Resolve(how: Lookup, rest: Program): Program {
    match how
    case Container => Section(ResolverMu, 1, rest)
    case Cached => Section(ResolverMu, 1, Section(CacheMu, 1, rest))
    case LookedUp(n) => Section(ResolverMu, 1, Section(CacheMu, 1, Works(n, Section(CacheMu, 1, rest))))
  }

  /** Every snapshot is broadcast without blocking and handed to the store. */
  function SendAll(n: nat): Program {
    if n == 0 then Done else Do(Work, Section(StoreMu, 1, SendAll(n - 1)))
  }

  /** One turn of each goroutine; n and w are how often its inner loops go round. */
  datatype Task =
    | HubTurn(n: nat, w: nat)
    | ServeWs(n: nat, w: nat)
    | CloseClient
    | ClientCount
    | HandleEvent(dst: Lookup, src: Lookup, n: nat)
    | PublishSnapshots(n: nat)
    | SweepExpired(n: nat, w: nat)
    | ForwardResource
    | FlushStore(n: nat)
    | WatchContainers(n: nat, w: nat)

  /** The locked part of handleEvent asks the resolver twice for the type of a node. */
  function Locked(n: nat): Program {
    Do(Lock(EngineMu), Section(ResolverMu, 1, Section(ResolverMu, 1, Works(n, Do(Unlock(EngineMu), Done)))))
  }

  function Turn(t: Task): Program {
    match t
    case HubTurn(n, w) => Section(HubMu, n, Works(w, Done))
    case ServeWs(n, w) => Do(Lock(HubMu), Section(EngineMu, n, Works(w, Do(Unlock(HubMu), Done))))
    case CloseClient => Section(HubMu, 1, Works(1, Done))
    case ClientCount => Section(HubMu, 1, Done)
    case HandleEvent(dst, src, n) => Resolve(dst, Resolve(src, Do(Work, Locked(n))))
    case PublishSnapshots(n) => Section(EngineMu, n, SendAll(n))
    case SweepExpired(n, w) => Section(EngineMu, n, Works(w, Done))
    case ForwardResource => Section(EngineMu, 1, SendAll(1))
    case FlushStore(n) => Section(StoreMu, 1, Works(n, Done))
    case WatchContainers(n, w) => Works(w, Section(ResolverMu, n, Done))
  }

  // ---- The discipline ----------------------------------------------------------------

  predicate Above(m: Mutex, held: set<Mutex>) { forall h :: h in held ==> Rank(h) < Rank(m) }

  /** Locks are taken in order of rank, released by whoever holds them, and none is kept. */
  predicate Disciplined(p: Program, held: set<Mutex>) {
    match p
    case Done => held == {}
    case Do(Lock(m), rest) => Above(m, held) && Disciplined(rest, held + {m})
    case Do(Unlock(m), rest) => m in held && Disciplined(rest, held - {m})
    case Do(Work, rest) => Disciplined(rest, held)
  }

  /** Work changes nothing. */
  lemma {:induction false} WorkIsFree(n: nat, rest: Program, held: set<Mutex>)
    ensures Disciplined(Works(n, rest), held) <==> Disciplined(rest, held)
  {
    if n > 0 {
      WorkIsFree(n - 1, rest, held);
    }
  }

  /** A section may stand wherever its lock is above those held. */
  lemma {:induction false} SectionIsFine(m: Mutex, n: nat, rest: Program, held: set<Mutex>)
    requires Above(m, held) && Disciplined(rest, held)
    ensures Disciplined(Section(m, n, rest), held)
  {
    assert held + {m} - {m} == held;
    WorkIsFree(n, Do(Unlock(m), rest), held + {m});
  }

  lemma {:induction false} ResolveIsFine(how: Lookup, rest: Program)
    requires Disciplined(rest, {})
    ensures Disciplined(Resolve(how, rest), {})
  {
    match how
    case Container => SectionIsFine(ResolverMu, 1, rest, {});
    case Cached =>
      SectionIsFine(CacheMu, 1, rest, {});
      SectionIsFine(ResolverMu, 1, Section(CacheMu, 1, rest), {});
    case LookedUp(n) =>
      var stored := Section(CacheMu, 1, rest);
      SectionIsFine(CacheMu, 1, rest, {});
      WorkIsFree(n, stored, {});
      SectionIsFine(CacheMu, 1, Works(n, stored), {});
      SectionIsFine(ResolverMu, 1, Section(CacheMu, 1, Works(n, stored)), {});
  }

  lemma {:induction false} SendAllIsFine(n: nat)
    ensures Disciplined(SendAll(n), {})
  {
    if n > 0 {
      SendAllIsFine(n - 1);
      SectionIsFine(StoreMu, 1, SendAll(n - 1), {});
    }
  }

  lemma {:induction false} LockedIsFine(n: nat)
    ensures Disciplined(Locked(n), {})
  {
    var end := Works(n, Do(Unlock(EngineMu), Done));
    assert {} + {EngineMu} == {EngineMu} && {EngineMu} - {EngineMu} == {};
    WorkIsFree(n, Do(Unlock(EngineMu), Done), {EngineMu});
    SectionIsFine(ResolverMu, 1, end, {EngineMu});
    SectionIsFine(ResolverMu, 1, Section(ResolverMu, 1, end), {EngineMu});
  }

  lemma {:induction false} ServeIsFine(n: nat, w: nat)
    ensures Disciplined(Turn(ServeWs(n, w)), {})
  {
    assert {} + {HubMu} == {HubMu} && {HubMu} - {HubMu} == {};
    WorkIsFree(w, Do(Unlock(HubMu), Done), {HubMu});
    SectionIsFine(EngineMu, n, Works(w, Do(Unlock(HubMu), Done)), {HubMu});
  }

  lemma {:induction false} SectionThenWork(m: Mutex, n: nat, w: nat)
    ensures Disciplined(Section(m, n, Works(w, Done)), {})
  {
    WorkIsFree(w, Done, {});
    SectionIsFine(m, n, Works(w, Done), {});
  }

  /** Every turn of every goroutine keeps to the discipline. */
  lemma {:induction false} TurnsAreDisciplined(t: Task)
    ensures Disciplined(Turn(t), {})
  {
    match t
    case HubTurn(n, w) => SectionThenWork(HubMu, n, w);
    case ServeWs(n, w) => ServeIsFine(n, w);
    case CloseClient => SectionThenWork(HubMu, 1, 1);
    case ClientCount => SectionThenWork(HubMu, 1, 0);
    case HandleEvent(dst, src, n) =>
      LockedIsFine(n);
      ResolveIsFine(src, Do(Work, Locked(n)));
      ResolveIsFine(dst, Resolve(src, Do(Work, Locked(n))));
    case PublishSnapshots(n) =>
      SendAllIsFine(n);
      SectionIsFine(EngineMu, n, SendAll(n), {});
    case SweepExpired(n, w) => SectionThenWork(EngineMu, n, w);
    case ForwardResource =>
      SendAllIsFine(1);
      SectionIsFine(EngineMu, 1, SendAll(1), {});
    case FlushStore(n) => SectionThenWork(StoreMu, 1, n);
    case WatchContainers(n, w) =>
      SectionThenWork(ResolverMu, n, 0);
      WorkIsFree(w, Section(ResolverMu, n, Done), {});
  }

  // ---- All goroutines together -------------------------------------------------------

  type Tid = nat

  /** What a goroutine has still to do, and the locks it holds. */
  datatype Thread = Thread(todo: Program, held: set<Mutex>)

  datatype State = State(threads: map<Tid, Thread>, owner: map<Mutex, Tid>)

  const INIT := State(map[], map[])

  /** A goroutine begins its next turn, or a new one its first; or it takes a step. */
  datatype Action = Begin(id: Tid, task: Task) | Step(id: Tid)

  predicate Busy(s: State, id: Tid) { id in s.threads && s.threads[id].todo.Do? }

  /** The lock the goroutine is about to take. */
  predicate Wants(s: State, id: Tid, m: Mutex) { Busy(s, id) && s.threads[id].todo.op == Lock(m) }

  /** It can take its next step: no one holds the lock it wants. */
  predicate CanStep(s: State, id: Tid) {
    Busy(s, id) && (s.threads[id].todo.op.Lock? ==> s.threads[id].todo.op.m !in s.owner)
  }

  predicate Enabled(s: State, a: Action) {
    match a
    case Begin(id, _) => !Busy(s, id)
    case Step(id) => CanStep(s, id)
  }

  function Next(s: State, a: Action): State
    requires Enabled(s, a)
  {
    match a
    case Begin(id, task) => s.(threads := s.threads[id := Thread(Turn(task), {})])
    case Step(id) =>
      var t := s.threads[id];
      match t.todo.op
      case Lock(m) => State(s.threads[id := Thread(t.todo.rest, t.held + {m})], s.owner[m := id])
      case Unlock(m) => State(s.threads[id := Thread(t.todo.rest, t.held - {m})], s.owner - {m})
      case Work => s.(threads := s.threads[id := Thread(t.todo.rest, t.held)])
  }

  ghost predicate Behaviour(ss: seq<State>, acts: seq<Action>) {
    && |ss| == |acts| + 1 && ss[0] == INIT
    && forall i :: 0 <= i < |acts| ==> Enabled(ss[i], acts[i]) && ss[i + 1] == Next(ss[i], acts[i])
  }

  ghost predicate Inv(s: State) {
    && (forall id :: id in s.threads ==> Disciplined(s.threads[id].todo, s.threads[id].held))
    && (forall id, m :: id in s.threads && m in s.threads[id].held ==> m in s.owner && s.owner[m] == id)
    && (forall m :: m in s.owner ==> s.owner[m] in s.threads && m in s.threads[s.owner[m]].held)
  }

  lemma {:induction false} BeginInv(s: State, id: Tid, task: Task)
    requires Inv(s) && !Busy(s, id)
    ensures Inv(Next(s, Begin(id, task)))
  {
    TurnsAreDisciplined(task);
    if id in s.threads {
      assert Disciplined(s.threads[id].todo, s.threads[id].held);
    }
  }

  lemma {:induction false} TakeInv(s: State, id: Tid, m: Mutex)
    requires Inv(s) && CanStep(s, id) && s.threads[id].todo.op == Lock(m)
    ensures Inv(Next(s, Step(id)))
  {
    assert Disciplined(s.threads[id].todo, s.threads[id].held);
    assert forall u :: u in s.threads ==> m !in s.threads[u].held;
  }

  lemma {:induction false} ReleaseInv(s: State, id: Tid, m: Mutex)
    requires Inv(s) && CanStep(s, id) && s.threads[id].todo.op == Unlock(m)
    ensures Inv(Next(s, Step(id)))
  {
    assert Disciplined(s.threads[id].todo, s.threads[id].held);
    assert m in s.threads[id].held && s.owner[m] == id;
    assert forall u :: u in s.threads && m in s.threads[u].held ==> u == id;
  }

  lemma {:induction false} StepInv(s: State, a: Action)
    requires Inv(s) && Enabled(s, a)
    ensures Inv(Next(s, a))
  {
    match a
    case Begin(id, task) => BeginInv(s, id, task);
    case Step(id) =>
      match s.threads[id].todo.op
      case Lock(m) => TakeInv(s, id, m);
      case Unlock(m) => ReleaseInv(s, id, m);
      case Work =>
        assert Disciplined(s.threads[id].todo, s.threads[id].held);
  }

  lemma {:induction false} AlwaysInv(ss: seq<State>, acts: seq<Action>, i: nat)
    requires Behaviour(ss, acts) && i < |ss|
    ensures Inv(ss[i])
  {
    if i > 0 {
      AlwaysInv(ss, acts, i - 1);
      StepInv(ss[i - 1], acts[i - 1]);
    }
  }

  /** id waits for a lock that u holds. */
  predicate WaitsFor(s: State, id: Tid, u: Tid) {
    Busy(s, id) && s.threads[id].todo.op.Lock? && var m := s.threads[id].todo.op.m; m in s.owner && s.owner[m] == u
  }

  /** A chain of goroutines, each waiting for the next. */
  ghost predicate Chain(s: State, path: seq<Tid>) {
    path != [] && forall i :: 0 <= i < |path| - 1 ==> WaitsFor(s, path[i], path[i + 1])
  }

  /** Whoever holds a lock and waits for another holds one of lower rank. */
  lemma {:induction false} WaitsUpwards(s: State, id: Tid, m: Mutex)
    requires Inv(s) && Wants(s, id, m)
    ensures Above(m, s.threads[id].held)
  {
    assert Disciplined(s.threads[id].todo, s.threads[id].held);
  }

  /** Following the holders leads to one that can move, at the latest at the highest rank. */
  lemma {:induction false} FollowHolders(s: State, id: Tid, low: nat) returns (path: seq<Tid>)
    requires Inv(s) && Busy(s, id) && low <= TOP_RANK + 1
    requires s.threads[id].todo.op.Lock? ==> low <= Rank(s.threads[id].todo.op.m)
    ensures Chain(s, path) && path[0] == id && CanStep(s, path[|path| - 1])
    decreases TOP_RANK + 1 - low
  {
    if CanStep(s, id) {
      return [id];
    }
    var m := s.threads[id].todo.op.m;
    var u := s.owner[m];
    assert m in s.threads[u].held && Disciplined(s.threads[u].todo, s.threads[u].held);
    assert Busy(s, u);
    if s.threads[u].todo.op.Lock? {
      WaitsUpwards(s, u, s.threads[u].todo.op.m);
    }
    var rest := FollowHolders(s, u, Rank(m) + 1);
    path := [id] + rest;
  }

  /**
   Deadlock freedom, for any number of goroutines and in every interleaving: a goroutine that
   is not idle can take its next step, or waits, over a chain of lock holders, for one that can;
   and no goroutine that holds `p.mu` ever waits for `h.mu`.
   */
  lemma {:induction false} NoDeadlock(ss: seq<State>, acts: seq<Action>, i: nat, id: Tid)
    requires Behaviour(ss, acts) && i < |ss| && Busy(ss[i], id)
    ensures exists path :: Chain(ss[i], path) && path[0] == id && CanStep(ss[i], path[|path| - 1])
    ensures Wants(ss[i], id, HubMu) ==> ss[i].threads[id].held == {}
    ensures Wants(ss[i], id, EngineMu) ==> ss[i].threads[id].held <= {HubMu}
  {
    AlwaysInv(ss, acts, i);
    var path := FollowHolders(ss[i], id, 0);
    if Wants(ss[i], id, HubMu) {
      WaitsUpwards(ss[i], id, HubMu);
      assert forall m :: m in ss[i].threads[id].held ==> Rank(m) < 0;
    }
    if Wants(ss[i], id, EngineMu) {
      WaitsUpwards(ss[i], id, EngineMu);
      assert forall m :: m in ss[i].threads[id].held ==> Rank(m) < 1;
    }
  }
}
