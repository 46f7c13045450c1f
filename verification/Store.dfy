/**
 The batched store (collector/store/store.go): what becomes of every snapshot written, and
 what a history query (collector/main.go) returns. The database table is a sequence of rows.
 */
module Store {
  import opened Model
  import opened Overlap

  const HOUR: nat := 3_600_000
  const RETENTION: nat := 7 * 24 * HOUR

  // ---- Filtering and ordering rows -----------------------------------------------------

  /** DELETE WHERE ts < from, or SELECT WHERE ts >= from. */
  function From(t: seq<Row>, from: int): seq<Row> {
    if t == [] then []
    else
      var before := From(t[..|t| - 1], from);
      if t[|t| - 1].ts >= from then before + [t[|t| - 1]] else before
  }

  function Dropped(t: seq<Row>, from: int): seq<Row> {
    if t == [] then []
    else
      var before := Dropped(t[..|t| - 1], from);
      if t[|t| - 1].ts >= from then before else before + [t[|t| - 1]]
  }

  predicate IsFor(row: Row, k: ConnKey) { row.ConnRow? && row.snap.key == k }

  function ForConn(t: seq<Row>, k: ConnKey): seq<Row> {
    if t == [] then []
    else
      var before := ForConn(t[..|t| - 1], k);
      if IsFor(t[|t| - 1], k) then before + [t[|t| - 1]] else before
  }

  predicate InOrder(t: seq<Row>) { forall i, j :: 0 <= i <= j < |t| ==> t[i].ts <= t[j].ts }

  /** Puts a row after all rows that are not later. */
  function Place(t: seq<Row>, row: Row): seq<Row> {
    if t == [] || t[|t| - 1].ts <= row.ts then t + [row] else Place(t[..|t| - 1], row) + [t[|t| - 1]]
  }

  /** ORDER BY ts ASC. */
  function ByTime(t: seq<Row>): seq<Row> {
    if t == [] then [] else Place(ByTime(t[..|t| - 1]), t[|t| - 1])
  }

  function Query(t: seq<Row>, k: ConnKey, from: int): seq<Row> { ByTime(ForConn(From(t, from), k)) }

  lemma {:induction false} FromConcat(a: seq<Row>, b: seq<Row>, from: int)
    ensures From(a + b, from) == From(a, from) + From(b, from)
  {
    if b == [] {
      assert a + b == a;
    } else {
      FromConcat(a, b[..|b| - 1], from);
      assert (a + b)[..|a + b| - 1] == a + b[..|b| - 1];
    }
  }

  /** Dropping rows older than c is invisible to anything that only looks from c on. */
  lemma {:induction false} FromFrom(t: seq<Row>, c: int, from: int)
    requires c <= from
    ensures From(From(t, c), from) == From(t, from)
  {
    if t != [] {
      FromFrom(t[..|t| - 1], c, from);
      var kept := From(t[..|t| - 1], c);
      assert (kept + [t[|t| - 1]])[..|kept|] == kept;
    }
  }

  lemma {:induction false} AddOne<T>(a: seq<T>, b: seq<T>, c: seq<T>, x: T)
    requires multiset(a) + multiset(b) == multiset(c)
    ensures multiset(a + [x]) + multiset(b) == multiset(c + [x])
    ensures multiset(a) + multiset(b + [x]) == multiset(c + [x])
  {}

  lemma {:induction false} FromSplits(t: seq<Row>, from: int)
    ensures multiset(From(t, from)) + multiset(Dropped(t, from)) == multiset(t)
  {
    if t != [] {
      var init, row := t[..|t| - 1], t[|t| - 1];
      FromSplits(init, from);
      AddOne(From(init, from), Dropped(init, from), init, row);
      assert t == init + [row];
    }
  }

  lemma {:induction false} PlaceAdds(t: seq<Row>, row: Row)
    ensures multiset(Place(t, row)) == multiset(t) + multiset{row}
  {
    if t != [] && t[|t| - 1].ts > row.ts {
      PlaceAdds(t[..|t| - 1], row);
      assert t == t[..|t| - 1] + [t[|t| - 1]];
    }
  }

  lemma {:induction false} PlaceOrders(t: seq<Row>, row: Row)
    requires InOrder(t)
    ensures InOrder(Place(t, row))
    ensures forall x :: x in Place(t, row) ==> x in t || x == row
  {
    if t != [] && t[|t| - 1].ts > row.ts {
      PlaceOrders(t[..|t| - 1], row);
      var rest := Place(t[..|t| - 1], row);
      forall i | 0 <= i < |rest|
        ensures rest[i].ts <= t[|t| - 1].ts
      {
        assert rest[i] in rest;
      }
    }
  }

  lemma {:induction false} ByTimeSorts(t: seq<Row>)
    ensures InOrder(ByTime(t)) && multiset(ByTime(t)) == multiset(t)
  {
    if t != [] {
      var init, row := t[..|t| - 1], t[|t| - 1];
      ByTimeSorts(init);
      PlaceOrders(ByTime(init), row);
      PlaceAdds(ByTime(init), row);
      assert multiset(init + [row]) == multiset(init) + multiset{row};
      assert t == init + [row];
    }
  }

  // ---- The life of a row ---------------------------------------------------------------

  /** How a transaction ends: not at all, or with the inserts in `bad` refused. */
  datatype Outcome = Aborted | Committed(bad: set<nat>)

  datatype Op =
    | Write(row: Row)
    | Flush(overlap: Schedule, outcome: Outcome, at: nat)
    | Expire(at: nat)

  /** Besides buffer and table, where every row ever written has gone. */
  datatype Ledger = Ledger(
    buffer: seq<Row>, table: seq<Row>,
    written: multiset<Row>, expired: multiset<Row>, lost: multiset<Row>, doubled: multiset<Row>)

  const INIT := Ledger([], [], multiset{}, multiset{}, multiset{}, multiset{})

  /** A row without a time gets the time of the flush. */
  function Stamp(row: Row, fallback: nat): Row { if row.ts == 0 then row.(ts := fallback) else row }

  /** The rows of a batch that a transaction inserts, and those it refuses. */
  function Inserted(batch: seq<Row>, outcome: Outcome, fallback: nat): seq<Row> {
    if batch == [] || outcome.Aborted? then []
    else
      var n := |batch| - 1;
      var before := Inserted(batch[..n], outcome, fallback);
      if n in outcome.bad then before else before + [Stamp(batch[n], fallback)]
  }

  /** How many of the first i rows are not refused. */
  function Accepted(bad: set<nat>, i: nat): nat {
    if i == 0 then 0 else Accepted(bad, i - 1) + if i - 1 in bad then 0 else 1
  }

  function Refused(batch: seq<Row>, outcome: Outcome): seq<Row> {
    if batch == [] then []
    else if outcome.Aborted? then batch
    else
      var n := |batch| - 1;
      var before := Refused(batch[..n], outcome);
      if n in outcome.bad then before + [batch[n]] else before
  }

  /** A row is stored as it was buffered, but for a missing time. */
  lemma {:induction false} StampExactly(row: Row, fallback: nat)
    ensures var stored := Stamp(row, fallback);
      && stored.ts == (if row.ts == 0 then fallback else row.ts)
      && (row.ConnRow? ==> stored.ConnRow? && stored.snap == row.snap)
      && (row.ResourceRow? ==> stored.ResourceRow? && stored.service == row.service && stored.resource == row.resource)
  {}

  lemma {:induction false} InsertedCount(batch: seq<Row>, bad: set<nat>, fallback: nat)
    ensures |Inserted(batch, Committed(bad), fallback)| == Accepted(bad, |batch|)
  {
    if batch != [] {
      InsertedCount(batch[..|batch| - 1], bad, fallback);
    }
  }

  /**
   A committed transaction keeps exactly the rows that are not refused, row i behind those
   before it that were not; an aborted one keeps nothing.
   */
  lemma {:induction false} InsertedExactly(batch: seq<Row>, bad: set<nat>, fallback: nat, i: nat)
    requires i < |batch| && i !in bad
    ensures Inserted(batch, Aborted, fallback) == []
    ensures var rows := Inserted(batch, Committed(bad), fallback);
      && |rows| == Accepted(bad, |batch|) && Accepted(bad, i) < |rows|
      && rows[Accepted(bad, i)] == Stamp(batch[i], fallback)
  {
    var n := |batch| - 1;
    InsertedCount(batch, bad, fallback);
    InsertedCount(batch[..n], bad, fallback);
    if i < n {
      InsertedExactly(batch[..n], bad, fallback, i);
    }
  }

  function Cutoff(now: nat): int { now - RETENTION }

  function Apply(l: Ledger, op: Op): Ledger {
    match op
    case Write(row) => l.(buffer := l.buffer + [row], written := l.written + multiset{row})
    case Flush(overlap, outcome, now) =>
      var batch, arrived := Batch(l.buffer, overlap), Arrived(overlap, |l.buffer|);
      l.(buffer := arrived,
         table := l.table + Inserted(batch, outcome, now),
         written := l.written + multiset(arrived),
         lost := l.lost + multiset(Lost(l.buffer, overlap)) + multiset(Refused(batch, outcome)),
         doubled := l.doubled + multiset(Doubled(l.buffer, overlap)))
    case Expire(now) =>
      l.(table := From(l.table, Cutoff(now)), expired := l.expired + multiset(Dropped(l.table, Cutoff(now))))
  }

  function Run(ops: seq<Op>): Ledger {
    if ops == [] then INIT else Apply(Run(ops[..|ops| - 1]), ops[|ops| - 1])
  }

  /** Every row carries a write time. */
  ghost predicate Timed(rows: seq<Row>) { forall i :: 0 <= i < |rows| ==> rows[i].ts > 0 }

  ghost predicate AllTimed(ops: seq<Op>) {
    forall i :: 0 <= i < |ops| ==>
      match ops[i]
      case Write(row) => row.ts > 0
      case Flush(overlap, _, _) => forall j :: 0 <= j < |overlap| ==> Timed(overlap[j])
      case Expire(_) => true
  }

  lemma {:induction false} ArrivedTimed(overlap: Schedule, n: nat)
    requires forall j :: 0 <= j < |overlap| ==> Timed(overlap[j])
    ensures Timed(Arrived(overlap, n))
  {
    if n > 0 {
      ArrivedTimed(overlap, n - 1);
    }
  }

  lemma {:induction false} BatchTimed(rows: seq<Row>, overlap: Schedule)
    requires Timed(rows) && forall j :: 0 <= j < |overlap| ==> Timed(overlap[j])
    ensures Timed(Batch(rows, overlap))
  {
    forall i | 0 <= i < |rows|
      ensures Batch(rows, overlap)[i].ts > 0
    {
      ArrivedTimed(overlap, i);
    }
  }

  lemma {:induction false} TransactionSplits(batch: seq<Row>, outcome: Outcome, now: nat)
    requires Timed(batch)
    ensures multiset(Inserted(batch, outcome, now)) + multiset(Refused(batch, outcome)) == multiset(batch)
  {
    if batch != [] && outcome.Committed? {
      var n := |batch| - 1;
      TransactionSplits(batch[..n], outcome, now);
      assert batch == batch[..n] + [batch[n]];
      AddOne(Inserted(batch[..n], outcome, now), Refused(batch[..n], outcome), batch[..n], batch[n]);
    }
  }

  lemma {:induction false} BufferTimed(ops: seq<Op>)
    requires AllTimed(ops)
    ensures Timed(Run(ops).buffer)
  {
    if ops != [] {
      BufferTimed(ops[..|ops| - 1]);
      var op := ops[|ops| - 1];
      if op.Flush? {
        ArrivedTimed(op.overlap, |Run(ops[..|ops| - 1]).buffer|);
      }
    }
  }

  ghost predicate Balanced(l: Ledger) {
    l.written + l.doubled == multiset(l.buffer) + multiset(l.table) + l.expired + l.lost
  }

  /** The bookkeeping of a flush, stripped of where its figures come from. */
  lemma {:induction false} BooksBalance<T>(
    written: multiset<T>, doubled: multiset<T>, buffer: multiset<T>, table: multiset<T>,
    expired: multiset<T>, lost: multiset<T>, batch: multiset<T>, overwritten: multiset<T>,
    twice: multiset<T>, inserted: multiset<T>, refused: multiset<T>, arrived: multiset<T>)
    requires written + doubled == buffer + table + expired + lost
    requires batch + overwritten == buffer + twice && inserted + refused == batch
    ensures (written + arrived) + (doubled + twice)
         == arrived + (table + inserted) + expired + (lost + overwritten + refused)
  {
    assert (written + arrived) + (doubled + twice) == (written + doubled) + (arrived + twice);
    assert (buffer + table + expired + lost) + (arrived + twice)
        == arrived + (table + expired + lost) + (buffer + twice);
    assert arrived + (table + inserted) + expired + (lost + overwritten + refused)
        == arrived + (table + expired + lost) + (batch + overwritten);
  }

  lemma {:induction false} FlushBalances(l: Ledger, overlap: Schedule, outcome: Outcome, now: nat)
    requires Balanced(l) && Timed(l.buffer)
    requires forall j :: 0 <= j < |overlap| ==> Timed(overlap[j])
    ensures Balanced(Apply(l, Flush(overlap, outcome, now)))
  {
    var batch := Batch(l.buffer, overlap);
    var inserted := Inserted(batch, outcome, now);
    BatchTimed(l.buffer, overlap);
    BatchBalance(l.buffer, overlap);
    TransactionSplits(batch, outcome, now);
    assert multiset(l.table + inserted) == multiset(l.table) + multiset(inserted);
    BooksBalance(
      l.written, l.doubled, multiset(l.buffer), multiset(l.table), l.expired, l.lost,
      multiset(batch), multiset(Lost(l.buffer, overlap)), multiset(Doubled(l.buffer, overlap)),
      multiset(inserted), multiset(Refused(batch, outcome)), multiset(Arrived(overlap, |l.buffer|)));
  }

  lemma {:induction false} Regroup<T>(
    all: multiset<T>, buffer: multiset<T>, table: multiset<T>, expired: multiset<T>, lost: multiset<T>,
    kept: multiset<T>, dropped: multiset<T>)
    requires all == buffer + table + expired + lost && kept + dropped == table
    ensures all == buffer + kept + (expired + dropped) + lost
  {}

  lemma {:induction false} ExpireBalances(l: Ledger, now: nat)
    requires Balanced(l)
    ensures Balanced(Apply(l, Expire(now)))
  {
    FromSplits(l.table, Cutoff(now));
    Regroup(l.written + l.doubled, multiset(l.buffer), multiset(l.table), l.expired, l.lost,
            multiset(From(l.table, Cutoff(now))), multiset(Dropped(l.table, Cutoff(now))));
  }

  lemma {:induction false} WriteBalances(l: Ledger, row: Row)
    requires Balanced(l)
    ensures Balanced(Apply(l, Write(row)))
  {
    assert multiset(l.buffer + [row]) == multiset(l.buffer) + multiset{row};
    assert l.written + multiset{row} + l.doubled == l.written + l.doubled + multiset{row};
  }

  /**
   Conservation over every run, failed flushes and overlapping writes included: what was
   written, plus the second copies made by overlaps, is in the buffer, the table, expired
   or lost.
   */
  lemma {:induction false} NothingVanishes(ops: seq<Op>)
    requires AllTimed(ops)
    ensures Balanced(Run(ops))
  {
    if ops != [] {
      var init, op := ops[..|ops| - 1], ops[|ops| - 1];
      NothingVanishes(init);
      BufferTimed(init);
      match op
      case Flush(overlap, outcome, now) => FlushBalances(Run(init), overlap, outcome, now);
      case Expire(now) => ExpireBalances(Run(init), now);
      case Write(row) => WriteBalances(Run(init), row);
    }
  }

  lemma {:induction false} AllInserted(batch: seq<Row>, now: nat)
    requires Timed(batch)
    ensures Inserted(batch, Committed({}), now) == batch && Refused(batch, Committed({})) == []
  {
    if batch != [] {
      AllInserted(batch[..|batch| - 1], now);
    }
  }

  /** Without overlapping writes nothing is stored twice and only failed flushes lose rows. */
  lemma {:induction false} CleanFlush(l: Ledger, overlap: Schedule, now: nat)
    requires Timed(l.buffer) && forall i :: 0 <= i <= |l.buffer| ==> Arrived(overlap, i) == []
    ensures var l' := Apply(l, Flush(overlap, Committed({}), now));
      && l'.buffer == [] && l'.table == l.table + l.buffer
      && l'.lost == l.lost && l'.doubled == l.doubled
  {
    forall i | 0 <= i < |l.buffer|
      ensures !Displaced(overlap, i)
    {
      assert Arrived(overlap, i) == [];
    }
    NoOverlapNoLoss(l.buffer, overlap);
    AllInserted(l.buffer, now);
  }

  // ---- Queries -------------------------------------------------------------------------

  predicate Matches(row: Row, k: ConnKey, from: int) { IsFor(row, k) && row.ts >= from }

  lemma {:induction false} FromCounts(t: seq<Row>, from: int, row: Row)
    ensures multiset(From(t, from))[row] == if row.ts >= from then multiset(t)[row] else 0
  {
    if t != [] {
      FromCounts(t[..|t| - 1], from, row);
      assert t == t[..|t| - 1] + [t[|t| - 1]];
    }
  }

  lemma {:induction false} ForConnCounts(t: seq<Row>, k: ConnKey, row: Row)
    ensures multiset(ForConn(t, k))[row] == if IsFor(row, k) then multiset(t)[row] else 0
  {
    if t != [] {
      ForConnCounts(t[..|t| - 1], k, row);
      assert t == t[..|t| - 1] + [t[|t| - 1]];
    }
  }

  /** Exactly the matching rows, each as often as it is stored, in order of time. */
  lemma {:induction false} QueryIsExact(t: seq<Row>, k: ConnKey, from: int)
    ensures InOrder(Query(t, k, from))
    ensures forall row :: multiset(Query(t, k, from))[row] == if Matches(row, k, from) then multiset(t)[row] else 0
  {
    ByTimeSorts(ForConn(From(t, from), k));
    forall row
      ensures multiset(Query(t, k, from))[row] == if Matches(row, k, from) then multiset(t)[row] else 0
    {
      FromCounts(t, from, row);
      ForConnCounts(From(t, from), k, row);
    }
  }

  /**
   Round trip. After a flush that nothing overlaps and that commits, a query returns every
   snapshot that was in the table or still in the buffer, with its own write time.
   */
  lemma {:induction false} FlushThenQuery(l: Ledger, overlap: Schedule, now: nat, k: ConnKey, from: int)
    requires Timed(l.buffer) && forall i :: 0 <= i <= |l.buffer| ==> Arrived(overlap, i) == []
    ensures var rows := Query(Apply(l, Flush(overlap, Committed({}), now)).table, k, from);
      && InOrder(rows)
      && forall row :: multiset(rows)[row] ==
           if Matches(row, k, from) then multiset(l.table)[row] + multiset(l.buffer)[row] else 0
  {
    CleanFlush(l, overlap, now);
    QueryIsExact(l.table + l.buffer, k, from);
    assert multiset(l.table + l.buffer) == multiset(l.table) + multiset(l.buffer);
  }

  // ---- Retention -----------------------------------------------------------------------

  /** The range parameter of GET /api/history; unknown ranges mean one hour. */
  function RangeStart(range: string, now: nat): int {
    if range == "all" then -62_135_596_800_000
    else if range == "6h" then now - 6 * HOUR
    else if range == "24h" then now - 24 * HOUR
    else if range == "7d" then now - 7 * 24 * HOUR
    else now - HOUR
  }

  /** A row of the connection, not older than the range asked for. */
  predicate IsAsked(row: Row, src: string, dst: string, range: string, now: nat) {
    && row.ConnRow? && row.snap.key.src == src && row.snap.key.dst == dst
    && (range == "all" || now - row.ts <=
          if range == "6h" then 21_600_000
          else if range == "24h" then 86_400_000
          else if range == "7d" then 604_800_000
          else 3_600_000)
  }

  datatype Answer = BadRequest | Found(rows: seq<Row>)

  function HistoryAnswer(t: seq<Row>, k: ConnKey, range: string, now: nat): Answer {
    if k.src == "" || k.dst == "" then BadRequest else Found(Query(t, k, RangeStart(range, now)))
  }

  /** The history endpoint returns exactly the rows asked for, each as often as stored, by time. */
  lemma {:induction false} AnswerExactly(t: seq<Row>, src: string, dst: string, range: string, now: nat)
    ensures var a := HistoryAnswer(t, ConnKey(src, dst), range, now);
      && (a == BadRequest <==> src == "" || dst == "")
      && (a.Found? ==> InOrder(a.rows))
      && (a.Found? ==> forall row ::
            multiset(a.rows)[row] == if IsAsked(row, src, dst, range, now) then multiset(t)[row] else 0)
  {
    QueryIsExact(t, ConnKey(src, dst), RangeStart(range, now));
  }

  /** An expiry run keeps exactly the rows of the last seven days. */
  lemma {:induction false} ExpiryExactly(t: seq<Row>, now: nat, row: Row)
    ensures multiset(From(t, Cutoff(now)))[row] == if now - row.ts <= 604_800_000 then multiset(t)[row] else 0
  {
    FromCounts(t, Cutoff(now), row);
  }

  /** The same run with nothing ever deleted. */
  function KeepAll(ops: seq<Op>): seq<Op> {
    if ops == [] then []
    else
      var before := KeepAll(ops[..|ops| - 1]);
      if ops[|ops| - 1].Expire? then before else before + [ops[|ops| - 1]]
  }

  /** No expiry ran later than `now`: the clock does not go back. */
  ghost predicate ExpiredBy(ops: seq<Op>, now: nat) {
    forall i :: 0 <= i < |ops| && ops[i].Expire? ==> ops[i].at <= now
  }

  lemma {:induction false} ExpiryOnlyCuts(ops: seq<Op>, now: nat, from: int)
    requires ExpiredBy(ops, now) && Cutoff(now) <= from
    ensures Run(KeepAll(ops)).buffer == Run(ops).buffer
    ensures From(Run(KeepAll(ops)).table, from) == From(Run(ops).table, from)
  {
    if ops != [] {
      var init, op := ops[..|ops| - 1], ops[|ops| - 1];
      ExpiryOnlyCuts(init, now, from);
      var l, kept := Run(init), Run(KeepAll(init));
      assert !op.Expire? ==> (KeepAll(init) + [op])[..|KeepAll(init)|] == KeepAll(init);
      match op
      case Write(_) =>
      case Flush(overlap, outcome, at) =>
        var inserted := Inserted(Batch(l.buffer, overlap), outcome, at);
        FromConcat(l.table, inserted, from);
        FromConcat(kept.table, inserted, from);
      case Expire(at) => FromFrom(l.table, Cutoff(at), from);
    }
  }

  /**
   Retention is invisible: every range except "all" is answered as if no row had ever been
   deleted, for every interleaving of writes, flushes and expiry runs.
   */
  lemma {:induction false} RetentionIsInvisible(ops: seq<Op>, k: ConnKey, range: string, now: nat)
    requires ExpiredBy(ops, now) && range != "all"
    ensures HistoryAnswer(Run(ops).table, k, range, now) == HistoryAnswer(Run(KeepAll(ops)).table, k, range, now)
  {
    ExpiryOnlyCuts(ops, now, RangeStart(range, now));
  }

  lemma {:induction false} FromEarlier(t: seq<Row>, from: int, c: int)
    requires from <= c
    ensures From(From(t, c), from) == From(t, c)
  {
    if t != [] {
      FromEarlier(t[..|t| - 1], from, c);
      var kept := From(t[..|t| - 1], c);
      assert (kept + [t[|t| - 1]])[..|kept|] == kept;
    }
  }

  /** "all", by contrast, means the retained rows: right after an expiry run it equals "7d". */
  lemma {:induction false} AllMeansRetained(ops: seq<Op>, k: ConnKey, now: nat)
    ensures HistoryAnswer(Run(ops + [Expire(now)]).table, k, "all", now)
         == HistoryAnswer(Run(ops).table, k, "7d", now)
  {
    assert (ops + [Expire(now)])[..|ops|] == ops;
    FromEarlier(Run(ops).table, RangeStart("all", now), Cutoff(now));
  }

  // ---- The store as it is written --------------------------------------------------------

  /** The insert loop inside a transaction: the rows it adds to a table, unless it is rolled back. */
  method Insert(batch: seq<Row>, outcome: Outcome, fallback: nat) returns (rows: seq<Row>)
    ensures rows == Inserted(batch, outcome, fallback)
  {
    rows := [];
    if outcome.Committed? {
      for i := 0 to |batch|
        invariant rows == Inserted(batch[..i], outcome, fallback)
      {
        assert batch[..i + 1][..i] == batch[..i];
        if i !in outcome.bad {
          var ts := batch[i].ts;
          if ts == 0 {
            ts := fallback;
          }
          rows := rows + [batch[i].(ts := ts)];
        }
      }
      assert batch[..|batch|] == batch;
    }
  }

  /** DELETE FROM a table WHERE ts < cutoff; a statement that fails deletes nothing. */
  method DeleteOlder(table: seq<Row>, cutoff: int, ok: bool) returns (kept: seq<Row>)
    ensures kept == if ok then From(table, cutoff) else table
  {
    if !ok {
      return table;
    }
    kept := [];
    for i := 0 to |table|
      invariant kept == From(table[..i], cutoff)
    {
      assert table[..i + 1][..i] == table[..i];
      if table[i].ts >= cutoff {
        kept := kept + [table[i]];
      }
    }
    assert table[..|table|] == table;
  }

  /** Two buffers, each over its own backing array, and two tables. */
  class Store {
    const connBuf: Buffer
    const resBuf: Buffer
    var connTable: seq<Row>
    var resTable: seq<Row>

    ghost predicate Valid()
      reads this, connBuf, resBuf
    {
      connBuf != resBuf && connBuf.data != resBuf.data && connBuf.Valid() && resBuf.Valid()
    }

    constructor ()
      ensures Valid() && fresh(connBuf) && fresh(connBuf.data) && fresh(resBuf) && fresh(resBuf.data)
      ensures connBuf.Contents() == [] && resBuf.Contents() == [] && connTable == [] && resTable == []
    {
      connBuf := new Buffer(120);
      resBuf := new Buffer(120);
      connTable, resTable := [], [];
    }

    method WriteConn(snap: Snap, now: nat)
      requires Valid()
      modifies connBuf, connBuf.data
      ensures Valid() && (connBuf.data == old(connBuf.data) || fresh(connBuf.data))
      ensures connBuf.Contents() == old(connBuf.Contents()) + [ConnRow(now, snap)]
      ensures resBuf.Contents() == old(resBuf.Contents())
    {
      connBuf.Append(ConnRow(now, snap));
    }

    method WriteResource(service: string, u: Resource, ts: nat)
      requires Valid()
      modifies resBuf, resBuf.data
      ensures Valid() && (resBuf.data == old(resBuf.data) || fresh(resBuf.data))
      ensures resBuf.Contents() == old(resBuf.Contents()) + [ResourceRow(ts, service, u)]
      ensures connBuf.Contents() == old(connBuf.Contents())
    {
      resBuf.Append(ResourceRow(ts, service, u));
    }

    /**
     One transaction for both buffers: it commits or fails as a whole, while single inserts
     may be refused. Each buffer has its own overlapping writes.
     */
    method Flush(conns: Schedule, ress: Schedule, outcome: Outcome, resOutcome: Outcome, now: nat)
      requires Valid() && outcome.Aborted? == resOutcome.Aborted?
      modifies this`connTable, this`resTable, connBuf, connBuf.data, resBuf, resBuf.data
      ensures Valid()
      ensures (connBuf.data == old(connBuf.data) || fresh(connBuf.data))
        && (resBuf.data == old(resBuf.data) || fresh(resBuf.data))
      ensures var rows := old(connBuf.Contents());
        && connBuf.Contents() == Arrived(conns, |rows|)
        && connTable == old(connTable) + Inserted(Batch(rows, conns), outcome, now)
      ensures var rows := old(resBuf.Contents());
        && resBuf.Contents() == Arrived(ress, |rows|)
        && resTable == old(resTable) + Inserted(Batch(rows, ress), resOutcome, now)
    {
      var connBatch := connBuf.Drain(conns);
      var resBatch := resBuf.Drain(ress);
      var connRows := Insert(connBatch, outcome, now);
      var resRows := Insert(resBatch, resOutcome, now);
      connTable, resTable := connTable + connRows, resTable + resRows;
    }

    method DeleteExpired(now: nat, connOk: bool, resOk: bool)
      modifies this`connTable, this`resTable
      ensures connTable == if connOk then From(old(connTable), Cutoff(now)) else old(connTable)
      ensures resTable == if resOk then From(old(resTable), Cutoff(now)) else old(resTable)
    {
      var cutoff := now - RETENTION;
      connTable := DeleteOlder(connTable, cutoff, connOk);
      resTable := DeleteOlder(resTable, cutoff, resOk);
    }
  }
}
