/**
 What a dashboard shows compared with what the engine holds, in every behaviour of the
 whole system whose names contain no arrow, about every key of which no message was lost
 to the full queue since its last removal.
 */
module Replica {
  import opened Machine
  import opened Model
  import opened Processor
  import opened Dashboard
  import opened Broadcast
  import Hub

  /** The engine has nothing left to send and connection id has been sent everything. */
  ghost predicate Drained(s: Sys, id: Hub.Id) {
    && s.pending == [] && id in s.hub.peers
    && s.hub.peers[id].from + Hub.Seen(s.hub.peers[id]) == |s.hub.accepted|
  }

  /** A dashboard that has received on connection id, from an empty state, all it was sent. */
  ghost predicate Follows(stream: seq<Arrival>, s: Sys, id: Hub.Id)
    requires id in s.hub.peers
  {
    Msgs(stream) == s.hub.peers[id].recv
  }

  function Before(s: Sys, id: Hub.Id): seq<Msg>
    requires id in s.hub.peers
  {
    First(s.hub.peers[id].from, s.hub.accepted)
  }

  function Since(s: Sys, id: Hub.Id): seq<Msg>
    requires id in s.hub.peers
  {
    Rest(s.hub.peers[id].from, s.hub.accepted)
  }

  /** What was in flight when the history of connection id was read. */
  function InFlight(s: Sys, id: Hub.Id): seq<Msg> { if id in s.taken then s.taken[id].flight else [] }

  /** Connection `key` is in the engine's table and has been published. */
  ghost predicate Live(st: State, key: string) {
    exists k :: k in st.conns && KeyText(k) == key && st.conns[k].history != []
  }

  lemma {:induction false} ViewConcat(c: Client, a: seq<Arrival>, b: seq<Arrival>)
    ensures View(c, a + b) == View(View(c, a), b)
  {
    if b == [] {
      assert a + b == a;
    } else {
      ViewConcat(c, a, b[..|b| - 1]);
      assert (a + b)[..|a + b| - 1] == a + b[..|b| - 1];
    }
  }

  /** A dashboard that first loads the history message m and then follows the broadcasts. */
  lemma {:induction false} LoadThenFollow(stream: seq<Arrival>, m: Msg, since: seq<Msg>, key: string)
    requires Msgs(stream) == [m] + since && m.History? && NoHistory(since)
    requires key != "" && Tidy(Loaded(m), key)
    ensures var c := View(BLANK, stream);
      Tidy(c, key) && Shown(c, key) == Expected(Shown(Loaded(m), key), since, key)
  {
    var first, rest := stream[..1], stream[1..];
    assert View(BLANK, stream) == View(View(BLANK, first), rest) by {
      assert stream == first + rest;
      ViewConcat(BLANK, first, rest);
    }
    assert View(BLANK, first) == Loaded(m) by {
      assert first[..0] == [] && first[0].msg == Msgs(stream)[0] == m;
    }
    assert Msgs(rest) == Msgs(stream)[1..] == since;
    ShownAfter(Loaded(m), rest, key);
  }

  /** The points a dashboard starts from: those of its history message. */
  ghost function Base(s: Sys, id: Hub.Id, key: string): seq<Vals>
    requires id in s.hub.peers
  {
    if s.hub.peers[id].hist != [] && id in s.taken
    then Last(Dashboard.MAX_HISTORY, Points(s.taken[id].emitted, key)) else []
  }

  lemma {:induction false} ReceivedAll(s: Sys, id: Hub.Id)
    requires SysInv(s) && Drained(s, id)
    ensures PeerInv(s, id) && NoHistory(Since(s, id))
    ensures s.hub.peers[id].recv == s.hub.peers[id].hist + Since(s, id)
    ensures forall i :: 0 <= i < |s.hub.peers[id].hist| ==> !s.hub.peers[id].hist[i].Stats?
  {
    assert Hub.Received(s.hub.peers[id], s.hub.accepted);
  }

  /** The exact content of a drained dashboard, whatever was dropped. */
  lemma {:induction false} ShownWhenDrained(s: Sys, id: Hub.Id, stream: seq<Arrival>, key: string)
    requires SysInv(s) && Drained(s, id) && Follows(stream, s, id) && key != ""
    ensures var c := View(BLANK, stream);
      Tidy(c, key) && Shown(c, key) == Expected(Base(s, id, key), Since(s, id), key)
  {
    var p := s.hub.peers[id];
    ReceivedAll(s, id);
    if p.hist == [] {
      assert Msgs(stream) == Since(s, id);
      assert Shown(BLANK, key) == [];
      ShownAfter(BLANK, stream, key);
    } else {
      assert p.hist == [p.hist[0]];
      LoadThenFollow(stream, p.hist[0], Since(s, id), key);
    }
  }

  /** The engine's side of the comparison, whatever was dropped. */
  lemma {:induction false} HeldWhenDrained(s: Sys, key: string)
    requires SysInv(s) && s.pending == []
    ensures forall k :: k in s.server.conns ==>
      Values(s.server.conns[k].history) == Last(Dashboard.MAX_HISTORY, Points(s.hub.offered, KeyText(k)))
    ensures Live(s.server, key) <==> Points(s.hub.offered, key) != []
  {
    assert Emitted(s) == s.hub.offered;
    if Points(s.hub.offered, key) != [] {
      var k :| k in s.server.conns && KeyText(k) == key;
      assert Values(s.server.conns[k].history) != [];
    }
  }

  ghost predicate Good(s: Sys, id: Hub.Id, key: string) { SysInv(s) && Drained(s, id) && InSync(s, key) }

  lemma {:induction false} SplitPoints(s: Sys, id: Hub.Id, key: string)
    requires id in s.hub.peers && InSync(s, key)
    ensures Points(s.hub.offered, key) ==
      if Removes(Since(s, id), key) then Points(Since(s, id), key)
      else Points(Before(s, id), key) + Points(Since(s, id), key)
  {
    assert s.hub.accepted == Before(s, id) + Since(s, id);
    PointsConcat(Before(s, id), Since(s, id), key);
  }

  /** The history message holds the points before the join and those in flight then. */
  lemma {:induction false} TakenSplits(s: Sys, id: Hub.Id, key: string)
    requires id in s.taken && id in s.hub.peers && s.pending == []
    requires FlightInv(s, id, key) && !Removes(Since(s, id), key)
    ensures Points(s.taken[id].emitted, key) == Points(Before(s, id), key) + Points(InFlight(s, id), key)
    ensures Points(InFlight(s, id), key) <= Points(Since(s, id), key)
  {
    assert Ahead(s, id) == Since(s, id);
  }

  // ---- When a dashboard is in step ---------------------------------------------------

  /** The last n of s come round every d places. */
  ghost predicate Repeats<T>(s: seq<T>, d: nat, n: nat)
    requires d + n <= |s|
  {
    forall i :: |s| - d - n <= i < |s| - d ==> s[i] == s[i + d]
  }

  lemma {:induction false} DoublingShifts<T>(n: nat, before: seq<T>, doubled: seq<T>, since: seq<T>)
    requires |since| < n <= |before| + |since|
    ensures Last(n, before + doubled + since) == Last(n, before + since) <==>
      Repeats(before + doubled, |doubled|, n - |since|)
  {
    var x, y := Last(n, before + doubled + since), Last(n, before + since);
    var s, m, from := before + doubled, n - |since|, |before| + |since| - n;
    assert |x| == |y| == n;
    assert forall i :: m <= i < n ==> x[i] == y[i] == since[i - m];
    assert forall i :: 0 <= i < m ==> y[i] == s[from + i] && x[i] == s[from + i + |doubled|];
    if x == y {
      forall i | from <= i < |before|
        ensures s[i] == s[i + |doubled|]
      {
        assert x[i - from] == y[i - from];
      }
    }
  }

  /** When doubling a stretch leaves what a trim keeps unchanged. */
  lemma {:induction false} DoublingHides<T>(n: nat, before: seq<T>, doubled: seq<T>, since: seq<T>)
    ensures Last(n, before + doubled + since) == Last(n, before + since) <==>
      || doubled == [] || |since| >= n
      || (|before| + |since| >= n && Repeats(before + doubled, |doubled|, n - |since|))
  {
    var x, y := Last(n, before + doubled + since), Last(n, before + since);
    if doubled == [] {
      assert before + doubled == before;
    } else if |since| >= n {
      assert x == Last(n, since) == y;
    } else if |before| + |since| < n {
      assert |x| != |y|;
    } else {
      DoublingShifts(n, before, doubled, since);
    }
  }

  /**
   What decides whether a drained dashboard is right about a key. It is if the key was
   removed since, if 3600 points have come since, if it was sent no history and missed
   nothing, or if no point was in flight when its history was read; or else if the points
   that fill up the 3600 repeat with the period of those in flight.
   */
  ghost predicate InStep(s: Sys, id: Hub.Id, key: string)
    requires id in s.hub.peers
  {
    var before, doubled, since :=
      Points(Before(s, id), key), Points(InFlight(s, id), key), Points(Since(s, id), key);
    || Removes(Since(s, id), key) || |since| >= Dashboard.MAX_HISTORY
    || (if s.hub.peers[id].hist == [] then before == []
        else
          || doubled == []
          || (|before| + |since| >= Dashboard.MAX_HISTORY
              && Repeats(before + doubled, |doubled|, Dashboard.MAX_HISTORY - |since|)))
  }

  /** What a loaded history and the broadcasts after it come to. */
  lemma {:induction false} LoadedContents(s: Sys, id: Hub.Id, key: string)
    requires Good(s, id, key) && s.hub.peers[id].hist != [] && !Removes(Since(s, id), key)
    ensures Expected(Base(s, id, key), Since(s, id), key) == Last(Dashboard.MAX_HISTORY,
      Points(Before(s, id), key) + Points(InFlight(s, id), key) + Points(Since(s, id), key))
  {
    assert PeerInv(s, id);
    TakenSplits(s, id, key);
    LastOfLast(Dashboard.MAX_HISTORY, Points(s.taken[id].emitted, key), Points(Since(s, id), key));
  }

  lemma {:induction false} BareContents(s: Sys, id: Hub.Id, key: string)
    requires id in s.hub.peers && (s.hub.peers[id].hist == [] || Removes(Since(s, id), key))
    ensures Expected(Base(s, id, key), Since(s, id), key)
         == Last(Dashboard.MAX_HISTORY, Points(Since(s, id), key))
  {
    assert [] + Points(Since(s, id), key) == Points(Since(s, id), key);
  }

  /** Content of a drained dashboard about a key in sync, and of the engine. */
  lemma {:induction false} Contents(s: Sys, id: Hub.Id, stream: seq<Arrival>, key: string)
    requires Good(s, id, key) && Follows(stream, s, id) && key != ""
    ensures var before, doubled, since :=
      Points(Before(s, id), key), Points(InFlight(s, id), key), Points(Since(s, id), key);
      && Tidy(View(BLANK, stream), key)
      && Shown(View(BLANK, stream), key) == Last(Dashboard.MAX_HISTORY,
           if Removes(Since(s, id), key) || s.hub.peers[id].hist == [] then since
           else before + doubled + since)
      && Points(s.hub.offered, key) == (if Removes(Since(s, id), key) then since else before + since)
      && (!Removes(Since(s, id), key) ==> doubled <= since)
  {
    ShownWhenDrained(s, id, stream, key);
    SplitPoints(s, id, key);
    if !Removes(Since(s, id), key) && id in s.taken {
      TakenSplits(s, id, key);
    }
    if Removes(Since(s, id), key) || s.hub.peers[id].hist == [] {
      BareContents(s, id, key);
    } else {
      LoadedContents(s, id, key);
    }
  }

  lemma {:induction false} MissingShows<T>(n: nat, before: seq<T>, since: seq<T>)
    ensures Last(n, since) == Last(n, before + since) <==> before == [] || |since| >= n
  {
    if before == [] {
      assert before + since == since;
    } else if |since| < n {
      assert |Last(n, since)| < |Last(n, before + since)|;
    }
  }

  lemma {:induction false} InStepExactly(s: Sys, id: Hub.Id, stream: seq<Arrival>, key: string)
    requires Good(s, id, key) && Follows(stream, s, id) && key != ""
    ensures Tidy(View(BLANK, stream), key)
    ensures Shown(View(BLANK, stream), key) == Last(Dashboard.MAX_HISTORY, Points(s.hub.offered, key))
      <==> InStep(s, id, key)
  {
    var before, doubled, since :=
      Points(Before(s, id), key), Points(InFlight(s, id), key), Points(Since(s, id), key);
    Contents(s, id, stream, key);
    if !Removes(Since(s, id), key) {
      if s.hub.peers[id].hist == [] {
        MissingShows(Dashboard.MAX_HISTORY, before, since);
      } else {
        DoublingHides(Dashboard.MAX_HISTORY, before, doubled, since);
      }
    }
  }

  /**
   Agreement, exactly. In every behaviour, at every moment when a dashboard has been sent
   everything, whenever it joined: about an intact key it shows the engine's history, minus
   what it missed or plus a second copy of what was in flight at its join, and it agrees with
   the engine if and only if it is in step.
   */
  lemma {:induction false} AgreesExactly(
    r: Resolver, ss: seq<Sys>, acts: seq<Action>, i: nat, id: Hub.Id, stream: seq<Arrival>, k: ConnKey)
    requires ArrowFreeNames(r) && Behaviour(r, ss, acts) && i < |ss| && Intact(ss, i, KeyText(k))
    requires Drained(ss[i], id) && Follows(stream, ss[i], id) && k in ss[i].server.conns
    ensures var s, key := ss[i], KeyText(k);
      var before, doubled, since :=
        Points(Before(s, id), key), Points(InFlight(s, id), key), Points(Since(s, id), key);
      var gone, joined := Removes(Since(s, id), key), s.hub.peers[id].hist != [];
      var shown, held := Shown(View(BLANK, stream), key), Values(s.server.conns[k].history);
      && shown == Last(Dashboard.MAX_HISTORY, if joined && !gone then before + doubled + since else since)
      && held == Last(Dashboard.MAX_HISTORY, if gone then since else before + since)
      && (!gone ==> doubled <= since)
      && (shown == held <==> InStep(s, id, key))
  {
    AlwaysInv(r, ss, acts, i);
    IntactIsInSync(r, ss, acts, i, KeyText(k));
    Contents(ss[i], id, stream, KeyText(k));
    InStepExactly(ss[i], id, stream, KeyText(k));
    HeldWhenDrained(ss[i], KeyText(k));
  }

  // ---- Agreement about everything ----------------------------------------------------

  /** Same keys, same values: everything but the time stamps. */
  ghost predicate Agrees(c: Client, st: State) {
    && (forall k :: k in st.conns ==> Shown(c, KeyText(k)) == Values(st.conns[k].history))
    && (forall key: string :: key != "" ==> (key in c.history <==> Live(st, key)))
  }

  /** No stats message was accepted before the connection's first broadcast. */
  ghost predicate JoinedEarly(s: Sys, id: Hub.Id)
    requires id in s.hub.peers
  {
    s.hub.peers[id].hist == [] && forall i :: 0 <= i < |Before(s, id)| ==> !Before(s, id)[i].Stats?
  }

  /** Nothing relevant was in flight when the history message was composed. */
  ghost predicate JoinedQuietly(s: Sys, id: Hub.Id)
    requires id in s.hub.peers
  {
    s.hub.peers[id].hist != [] && forall i :: 0 <= i < |InFlight(s, id)| ==> !Relevant(InFlight(s, id)[i])
  }

  lemma {:induction false} NoStatsNoPoints(ms: seq<Msg>, key: string)
    requires forall i :: 0 <= i < |ms| ==> !ms[i].Stats?
    ensures Points(ms, key) == []
  {
    if ms != [] {
      NoStatsNoPoints(ms[..|ms| - 1], key);
    }
  }

  lemma {:induction false} PointlessPrefix(a: seq<Msg>, b: seq<Msg>, key: string)
    requires forall i :: 0 <= i < |a| ==> !a[i].Stats?
    ensures Points(a + b, key) == Points(b, key)
  {
    NoStatsNoPoints(a, key);
    PointsConcat(a, b, key);
    assert [] + Points(b, key) == Points(b, key);
  }

  /** A dashboard that came first, found nothing to load or came at a quiet time is in step. */
  lemma {:induction false} GoodTiming(s: Sys, id: Hub.Id, key: string)
    requires Good(s, id, key) && key != ""
    requires JoinedEarly(s, id) || JoinedQuietly(s, id) || FoundNothing(s.hub.peers[id])
    ensures InStep(s, id, key)
  {
    if JoinedEarly(s, id) {
      NoStatsNoPoints(Before(s, id), key);
    } else if JoinedQuietly(s, id) {
      NoStatsNoPoints(InFlight(s, id), key);
    } else if !Removes(Since(s, id), key) {
      assert PeerInv(s, id);
      TakenSplits(s, id, key);
      assert Shown(Loaded(History([])), key) == [];
    }
  }

  lemma {:induction false} RightAboutKey(s: Sys, id: Hub.Id, stream: seq<Arrival>, key: string)
    requires Good(s, id, key) && Follows(stream, s, id) && key != ""
    ensures key in View(BLANK, stream).history ==> Live(s.server, key)
    ensures InStep(s, id, key) || s.hub.peers[id].hist != [] ==>
      (key in View(BLANK, stream).history <==> Live(s.server, key))
  {
    Contents(s, id, stream, key);
    InStepExactly(s, id, stream, key);
    HeldWhenDrained(s, key);
  }

  lemma {:induction false} AgreesWhenInStep(s: Sys, id: Hub.Id, stream: seq<Arrival>)
    requires Drained(s, id) && Follows(stream, s, id) && forall key: string :: Good(s, id, key)
    ensures Agrees(View(BLANK, stream), s.server)
      <==> forall k :: k in s.server.conns ==> InStep(s, id, KeyText(k))
  {
    var c := View(BLANK, stream);
    forall k | k in s.server.conns
      ensures Shown(c, KeyText(k)) == Values(s.server.conns[k].history) <==> InStep(s, id, KeyText(k))
    {
      InStepExactly(s, id, stream, KeyText(k));
      HeldWhenDrained(s, KeyText(k));
    }
    if forall k :: k in s.server.conns ==> InStep(s, id, KeyText(k)) {
      forall key: string | key != ""
        ensures key in c.history <==> Live(s.server, key)
      {
        RightAboutKey(s, id, stream, key);
        if Live(s.server, key) {
          var k :| k in s.server.conns && KeyText(k) == key && s.server.conns[k].history != [];
          assert InStep(s, id, KeyText(k));
        }
      }
    }
  }

  /**
   Replica agreement. In every behaviour without loss, at every moment when a dashboard has
   been sent everything, it shows exactly the engine's histories, through trimming, removal
   and re-creation, if and only if it is in step about each of them; a dashboard that joined
   before the first publish, found no history or joined while nothing was in flight always is.
   */
  lemma {:induction false} ReplicaAgrees(
    r: Resolver, ss: seq<Sys>, acts: seq<Action>, i: nat, id: Hub.Id, stream: seq<Arrival>)
    requires ArrowFreeNames(r) && Behaviour(r, ss, acts) && i < |ss|
    requires Lossless(ss[i]) && Drained(ss[i], id) && Follows(stream, ss[i], id)
    ensures Agrees(View(BLANK, stream), ss[i].server)
      <==> forall k :: k in ss[i].server.conns ==> InStep(ss[i], id, KeyText(k))
    ensures JoinedEarly(ss[i], id) || JoinedQuietly(ss[i], id) || FoundNothing(ss[i].hub.peers[id]) ==>
      Agrees(View(BLANK, stream), ss[i].server)
  {
    var s := ss[i];
    AlwaysInv(r, ss, acts, i);
    forall key: string
      ensures Good(s, id, key)
    {
      LosslessIsIntact(r, ss, acts, i, key);
      IntactIsInSync(r, ss, acts, i, key);
    }
    AgreesWhenInStep(s, id, stream);
    if JoinedEarly(s, id) || JoinedQuietly(s, id) || FoundNothing(s.hub.peers[id]) {
      forall k | k in s.server.conns
        ensures InStep(s, id, KeyText(k))
      {
        GoodTiming(s, id, KeyText(k));
      }
    }
  }

  // ---- Late joiners ------------------------------------------------------------------

  lemma {:induction false} StreamPoints(s: Sys, id: Hub.Id, stream: seq<Arrival>, key: string)
    requires SysInv(s) && Drained(s, id) && Follows(stream, s, id)
    ensures Points(Msgs(stream), key) == Points(Since(s, id), key)
  {
    var p := s.hub.peers[id];
    ReceivedAll(s, id);
    PointlessPrefix(p.hist, Since(s, id), key);
  }

  /**
   Join safety. Whenever it joined, a drained dashboard keeps snapshots and histories of an
   intact key only if the engine still tracks it; with its history message, exactly then.
   */
  lemma {:induction false} JoinIsSafe(
    r: Resolver, ss: seq<Sys>, acts: seq<Action>, i: nat, id: Hub.Id, stream: seq<Arrival>, key: string)
    requires ArrowFreeNames(r) && Behaviour(r, ss, acts) && i < |ss| && key != "" && Intact(ss, i, key)
    requires Drained(ss[i], id) && Follows(stream, ss[i], id)
    ensures var c, st, p := View(BLANK, stream), ss[i].server, ss[i].hub.peers[id];
      && (key in c.snapshots ==> Live(st, key))
      && (key in c.history ==> Live(st, key))
      && (p.hist != [] || FoundNothing(p) ==> (key in c.history <==> Live(st, key)))
  {
    var s := ss[i];
    AlwaysInv(r, ss, acts, i);
    IntactIsInSync(r, ss, acts, i, key);
    RightAboutKey(s, id, stream, key);
    HeldWhenDrained(s, key);
    SplitPoints(s, id, key);
    SnapshotKeys(stream, key);
    StreamPoints(s, id, stream, key);
    if FoundNothing(s.hub.peers[id]) {
      GoodTiming(s, id, key);
    }
  }

  // ---- Healing -----------------------------------------------------------------------

  /** From s to s' the queue has been given all the engine said about the key. */
  ghost predicate NothingMissing(s: Sys, s': Sys, key: string) {
    && s.hub.accepted <= s'.hub.accepted && s.hub.offered <= s'.hub.offered
    && (var heard, said := s'.hub.accepted[|s.hub.accepted|..], s'.hub.offered[|s.hub.offered|..];
        Points(heard, key) == Points(said, key) && (Removes(heard, key) <==> Removes(said, key)))
  }

  lemma {:induction false} OfferMissesNothing(s: Sys, s': Sys, m: Msg, key: string)
    requires s'.hub == Hub.Next(s.hub, Hub.Offer(m)) && !Loses(s, s', key)
    ensures NothingMissing(s, s', key)
  {
    OfferTells(s.hub, m);
    OneMore([], m, key);
    assert [] + [m] == [m];
    assert s'.hub.offered[|s.hub.offered|..] == [m];
    assert s'.hub.accepted[|s.hub.accepted|..] == if s'.hub.accepted == s.hub.accepted then [] else [m];
  }

  lemma {:induction false} StepMissesNothing(r: Resolver, s: Sys, a: Action, key: string)
    requires Broadcast.Enabled(s, a) && !Loses(s, Broadcast.Next(r, s, a), key)
    ensures NothingMissing(s, Broadcast.Next(r, s, a), key)
  {
    if IsSilent(a) {
      SilentFrame(r, s, a);
    } else if a.Emit? {
      OfferMissesNothing(s, Broadcast.Next(r, s, a), s.pending[0], key);
    } else if a.Announce? {
      OfferMissesNothing(s, Broadcast.Next(r, s, a), a.msg, key);
    }
  }

  lemma {:induction false} ConcatSame(a: seq<Msg>, b: seq<Msg>, c: seq<Msg>, key: string)
    requires a <= b <= c
    ensures var x, y := b[|a|..], c[|b|..];
      && Removes(c[|a|..], key) == (Removes(x, key) || Removes(y, key))
      && Points(c[|a|..], key) == if Removes(y, key) then Points(y, key) else Points(x, key) + Points(y, key)
  {
    assert c[|a|..] == b[|a|..] + c[|b|..];
    PointsConcat(b[|a|..], c[|b|..], key);
    RemovesConcat(b[|a|..], c[|b|..], key);
  }

  lemma {:induction false} MissingIsTransitive(a: Sys, b: Sys, c: Sys, key: string)
    requires NothingMissing(a, b, key) && NothingMissing(b, c, key)
    ensures NothingMissing(a, c, key)
  {
    ConcatSame(a.hub.accepted, b.hub.accepted, c.hub.accepted, key);
    ConcatSame(a.hub.offered, b.hub.offered, c.hub.offered, key);
  }

  lemma {:induction false} MissesNothing(r: Resolver, ss: seq<Sys>, acts: seq<Action>, j: nat, i: nat, key: string)
    requires Behaviour(r, ss, acts) && j <= i < |ss| && KeepsAll(ss, j, i, key)
    ensures NothingMissing(ss[j], ss[i], key)
  {
    if j < i {
      KeptThrough(ss, j, i, key);
      MissesNothing(r, ss, acts, j, i - 1, key);
      assert Leads(r, ss, acts, i - 1);
      StepMissesNothing(r, ss[i - 1], acts[i - 1], key);
      MissingIsTransitive(ss[j], ss[i - 1], ss[i], key);
    }
  }

  /** A removal, or 3600 points, later than a loss make it invisible. */
  lemma {:induction false} LossIsForgotten(lost: seq<Msg>, later: seq<Msg>, base: seq<Vals>, key: string)
    requires Removes(later, key) || |Points(later, key)| >= Dashboard.MAX_HISTORY
    ensures Expected(base, later, key) == Last(Dashboard.MAX_HISTORY, Points(later, key))
    ensures Last(Dashboard.MAX_HISTORY, Points(lost + later, key)) == Last(Dashboard.MAX_HISTORY, Points(later, key))
  {
    PointsConcat(lost, later, key);
  }

  lemma {:induction false} LaterCounts(a: seq<Msg>, b: seq<Msg>, key: string)
    requires Removes(b, key) || |Points(b, key)| >= Dashboard.MAX_HISTORY
    ensures Removes(a + b, key) || |Points(a + b, key)| >= Dashboard.MAX_HISTORY
  {
    RemovesConcat(a, b, key);
    PointsConcat(a, b, key);
  }

  lemma {:induction false} Healed(s0: Sys, s: Sys, id: Hub.Id, key: string)
    requires NothingMissing(s0, s, key) && id in s.hub.peers && s.hub.peers[id].from <= |s0.hub.accepted|
    requires var heard := s.hub.accepted[|s0.hub.accepted|..];
      Removes(heard, key) || |Points(heard, key)| >= Dashboard.MAX_HISTORY
    ensures Expected(Base(s, id, key), Since(s, id), key) == Last(Dashboard.MAX_HISTORY, Points(s.hub.offered, key))
  {
    var heard, said := s.hub.accepted[|s0.hub.accepted|..], s.hub.offered[|s0.hub.offered|..];
    var first := Rest(s.hub.peers[id].from, s0.hub.accepted);
    assert Since(s, id) == first + heard && s.hub.offered == s0.hub.offered + said;
    LaterCounts(first, heard, key);
    LossIsForgotten(s0.hub.offered, said, [], key);
    LossIsForgotten(first, heard, [], key);
    LossIsForgotten([], Since(s, id), Base(s, id, key), key);
  }

  /**
   Losses heal. Whatever was dropped before state j, a dashboard that was listening then is
   right about a connection as soon as a removal of it, or 3600 points, have been queued and
   nothing of it has been dropped since.
   */
  lemma {:induction false} LossesHeal(
    r: Resolver, ss: seq<Sys>, acts: seq<Action>, j: nat, i: nat, id: Hub.Id, stream: seq<Arrival>, k: ConnKey)
    requires ArrowFreeNames(r) && Behaviour(r, ss, acts) && j <= i < |ss| && KeepsAll(ss, j, i, KeyText(k))
    requires Drained(ss[i], id) && Follows(stream, ss[i], id) && k in ss[i].server.conns
    requires ss[i].hub.peers[id].from <= |ss[j].hub.accepted|
    requires var later := Rest(|ss[j].hub.accepted|, ss[i].hub.accepted);
      Removes(later, KeyText(k)) || |Points(later, KeyText(k))| >= Dashboard.MAX_HISTORY
    ensures Shown(View(BLANK, stream), KeyText(k)) == Values(ss[i].server.conns[k].history)
  {
    var s, key := ss[i], KeyText(k);
    AlwaysInv(r, ss, acts, i);
    MissesNothing(r, ss, acts, j, i, key);
    assert Rest(|ss[j].hub.accepted|, s.hub.accepted) == s.hub.accepted[|ss[j].hub.accepted|..];
    Healed(ss[j], s, id, key);
    ShownWhenDrained(s, id, stream, key);
    HeldWhenDrained(s, key);
  }
}
