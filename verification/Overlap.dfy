/**
 Writes that land while a batch is being inserted. The flush of collector/store/store.go
 keeps the slice it swaps out and lets the buffer start again at index 0 of the same
 backing array, so writes that land between the reads of two rows can replace rows that
 have not been read yet.
 */
module Overlap {
  import opened Model

  /** A buffered snapshot of a connection or of a service, with its time in milliseconds. */
  datatype Row =
    | ConnRow(ts: nat, snap: Snap)
    | ResourceRow(ts: nat, service: string, resource: Resource)

  type Schedule = seq<seq<Row>>

  /** The writes between the reads of rows i - 1 and i; none if the schedule is shorter. */
  function Landing(overlap: Schedule, i: nat): seq<Row> { if i < |overlap| then overlap[i] else [] }

  /** The overlapping writes that precede the read of row n. */
  function Arrived(overlap: Schedule, n: nat): seq<Row> {
    if n == 0 then Landing(overlap, 0) else Arrived(overlap, n - 1) + Landing(overlap, n)
  }

  /** The value the insert loop reads for row i. */
  function ReadRow(rows: seq<Row>, overlap: Schedule, i: nat): Row
    requires i < |rows|
  {
    if |Arrived(overlap, i)| <= i then rows[i] else Arrived(overlap, i)[i]
  }

  function Batch(rows: seq<Row>, overlap: Schedule): seq<Row> {
    seq(|rows|, i requires 0 <= i < |rows| => ReadRow(rows, overlap, i))
  }

  lemma {:induction false} ArrivedGrows(overlap: Schedule, m: nat, n: nat)
    requires m <= n
    ensures Arrived(overlap, m) <= Arrived(overlap, n)
  {
    if m < n {
      ArrivedGrows(overlap, m, n - 1);
    }
  }

  /** Row i is overwritten before it is read when more than i writes have arrived. */
  predicate Displaced(overlap: Schedule, i: nat) { |Arrived(overlap, i)| > i }

  /** No overlapping write repeats a row of the batch. */
  ghost predicate Distinct(rows: seq<Row>, overlap: Schedule) {
    forall i, j :: 0 <= i < |rows| && 0 <= j < |Arrived(overlap, |rows|)| ==>
      rows[i] != Arrived(overlap, |rows|)[j]
  }

  /**
   Row i is inserted as written, or else as the i-th of all the overlapping writes, which
   stays in the buffer as well. The batch is intact exactly when no row is displaced.
   */
  lemma {:induction false} IntactExactly(rows: seq<Row>, overlap: Schedule)
    ensures forall i :: 0 <= i < |rows| && Displaced(overlap, i) ==>
      i < |Arrived(overlap, |rows|)| && Batch(rows, overlap)[i] == Arrived(overlap, |rows|)[i]
    ensures forall i :: 0 <= i < |rows| && !Displaced(overlap, i) ==> Batch(rows, overlap)[i] == rows[i]
    ensures (forall i :: 0 <= i < |rows| ==> !Displaced(overlap, i)) ==> Batch(rows, overlap) == rows
    ensures Distinct(rows, overlap) ==>
      (Batch(rows, overlap) == rows <==> forall i :: 0 <= i < |rows| ==> !Displaced(overlap, i))
  {
    forall i | 0 <= i < |rows| && Displaced(overlap, i)
      ensures i < |Arrived(overlap, |rows|)| && Batch(rows, overlap)[i] == Arrived(overlap, |rows|)[i]
    {
      ArrivedGrows(overlap, i, |rows|);
    }
  }

  // ---- Conservation ------------------------------------------------------------------

  /** The elements of s whose flag is set, in order. */
  function Pick<T>(s: seq<T>, flags: seq<bool>): seq<T>
    requires |s| == |flags|
  {
    if s == [] then []
    else
      var n := |s| - 1;
      var before := Pick(s[..n], flags[..n]);
      if flags[n] then before + [s[n]] else before
  }

  function DisplacedFlags(overlap: Schedule, n: nat): seq<bool> {
    seq(n, i requires 0 <= i < n => Displaced(overlap, i))
  }

  /** The rows a flush overwrites, and the overlapping writes it inserts in their place. */
  function Lost(rows: seq<Row>, overlap: Schedule): seq<Row> {
    Pick(rows, DisplacedFlags(overlap, |rows|))
  }

  function Doubled(rows: seq<Row>, overlap: Schedule): seq<Row> {
    Pick(Batch(rows, overlap), DisplacedFlags(overlap, |rows|))
  }

  lemma {:induction false} Trade<T>(batch: seq<T>, lost: seq<T>, rows: seq<T>, doubled: seq<T>, x: T, y: T)
    requires multiset(batch) + multiset(lost) == multiset(rows) + multiset(doubled)
    ensures multiset(batch + [x]) + multiset(lost + [y]) == multiset(rows + [y]) + multiset(doubled + [x])
    ensures multiset(batch + [y]) + multiset(lost) == multiset(rows + [y]) + multiset(doubled)
  {
    var both := multiset(batch) + multiset(lost);
    assert multiset(batch + [x]) + multiset(lost + [y]) == both + multiset{x, y};
    assert multiset(rows + [y]) + multiset(doubled + [x]) == both + multiset{x, y};
    assert multiset(batch + [y]) + multiset(lost) == both + multiset{y};
    assert multiset(rows + [y]) + multiset(doubled) == both + multiset{y};
  }

  lemma {:induction false} PickBalance<T>(batch: seq<T>, rows: seq<T>, flags: seq<bool>)
    requires |batch| == |rows| == |flags|
    requires forall i :: 0 <= i < |rows| && !flags[i] ==> batch[i] == rows[i]
    ensures multiset(batch) + multiset(Pick(rows, flags)) == multiset(rows) + multiset(Pick(batch, flags))
  {
    if rows != [] {
      var n := |rows| - 1;
      var lost, doubled := Pick(rows[..n], flags[..n]), Pick(batch[..n], flags[..n]);
      PickBalance(batch[..n], rows[..n], flags[..n]);
      Trade(batch[..n], lost, rows[..n], doubled, batch[n], rows[n]);
      assert batch == batch[..n] + [batch[n]] && rows == rows[..n] + [rows[n]];
      if flags[n] {
        assert Pick(rows, flags) == lost + [rows[n]] && Pick(batch, flags) == doubled + [batch[n]];
      } else {
        assert Pick(rows, flags) == lost && Pick(batch, flags) == doubled;
      }
    }
  }

  /** Each displaced row is traded for a second copy of an overlapping write. */
  lemma {:induction false} BatchBalance(rows: seq<Row>, overlap: Schedule)
    ensures multiset(Batch(rows, overlap)) + multiset(Lost(rows, overlap))
         == multiset(rows) + multiset(Doubled(rows, overlap))
  {
    PickBalance(Batch(rows, overlap), rows, DisplacedFlags(overlap, |rows|));
  }

  lemma {:induction false} PickNone<T>(s: seq<T>, flags: seq<bool>)
    requires |s| == |flags| && forall i :: 0 <= i < |flags| ==> !flags[i]
    ensures Pick(s, flags) == []
  {
    if s != [] {
      PickNone(s[..|s| - 1], flags[..|s| - 1]);
    }
  }

  lemma {:induction false} NoOverlapNoLoss(rows: seq<Row>, overlap: Schedule)
    requires forall i :: 0 <= i < |rows| ==> !Displaced(overlap, i)
    ensures Batch(rows, overlap) == rows && Lost(rows, overlap) == [] && Doubled(rows, overlap) == []
  {
    forall i | 0 <= i < |rows|
      ensures Batch(rows, overlap)[i] == rows[i]
    {
      assert !Displaced(overlap, i);
    }
    PickNone(rows, DisplacedFlags(overlap, |rows|));
  }

  /** The first i rows of the batch. */
  ghost predicate IsBatch(rows: seq<Row>, overlap: Schedule, inserted: seq<Row>, i: nat) {
    |inserted| == i <= |rows| && forall j :: 0 <= j < i ==> inserted[j] == ReadRow(rows, overlap, j)
  }

  lemma {:induction false} NextRow(rows: seq<Row>, overlap: Schedule, inserted: seq<Row>, i: nat, row: Row)
    requires IsBatch(rows, overlap, inserted, i) && i < |rows| && row == ReadRow(rows, overlap, i)
    ensures IsBatch(rows, overlap, inserted + [row], i + 1)
  {}

  lemma {:induction false} WholeBatch(rows: seq<Row>, overlap: Schedule, inserted: seq<Row>)
    requires IsBatch(rows, overlap, inserted, |rows|)
    ensures inserted == Batch(rows, overlap)
  {}

  // ---- The buffer as it is written -----------------------------------------------------

  /** A Go slice used as an append buffer: a backing array and a length. */
  class Buffer {
    var data: array<Row>
    var len: nat

    ghost predicate Valid()
      reads this
    {
      len <= data.Length
    }

    ghost function Contents(): seq<Row>
      reads this, data
      requires Valid()
    {
      data[..len]
    }

    constructor (capacity: nat)
      ensures Valid() && fresh(data) && Contents() == []
    {
      data := new Row[capacity];
      len := 0;
    }

    /** append: in place while capacity lasts, otherwise into a new array. */
    method Append(row: Row)
      requires Valid()
      modifies this, data
      ensures Valid() && Contents() == old(Contents()) + [row]
      ensures old(len) < old(data).Length ==> data == old(data) && data[..] == old(data[..])[old(len) := row]
      ensures old(len) == old(data).Length ==> fresh(data) && old(data)[..] == old(data[..])
    {
      if len == data.Length {
        var bigger := new Row[2 * len + 1];
        forall i | 0 <= i < len {
          bigger[i] := data[i];
        }
        assert bigger[..len] == data[..len];
        data := bigger;
      }
      data[len] := row;
      len := len + 1;
    }

    /** The swap and the insert loop of flush, with the given writes landing in between. */
    method Drain(overlap: Schedule) returns (inserted: seq<Row>)
      requires Valid()
      modifies this, data
      ensures Valid()
      ensures inserted == Batch(old(Contents()), overlap)
      ensures Contents() == Arrived(overlap, old(len))
      ensures data == old(data) || fresh(data)
    {
      ghost var rows := Contents();
      var conns, n := Swap(rows, overlap);
      inserted := [];
      for i := 0 to n
        invariant Swapped(conns, rows, Arrived(overlap, i))
        invariant data == conns || fresh(data)
        invariant IsBatch(rows, overlap, inserted, i)
      {
        var row := ReadNext(conns, rows, overlap, i);
        NextRow(rows, overlap, inserted, i, row);
        inserted := inserted + [row];
      }
      WholeBatch(rows, overlap, inserted);
    }

    /** The locked part: the old slice is kept, the buffer is emptied; then writes may land. */
    method Swap(ghost rows: seq<Row>, overlap: Schedule) returns (conns: array<Row>, n: nat)
      requires Valid() && rows == Contents()
      modifies this, data
      ensures conns == old(data) && n == old(len) == |rows|
      ensures Swapped(conns, rows, Arrived(overlap, 0))
      ensures data == conns || fresh(data)
    {
      conns, n := data, len;
      len := 0;
      Land(conns, rows, [], Landing(overlap, 0));
      assert [] + Landing(overlap, 0) == Arrived(overlap, 0);
    }

    /** One turn of the insert loop: row i is read, then more writes land. */
    method ReadNext(conns: array<Row>, ghost rows: seq<Row>, overlap: Schedule, i: nat) returns (row: Row)
      requires i < |rows| && Swapped(conns, rows, Arrived(overlap, i))
      modifies this, data
      ensures row == ReadRow(rows, overlap, i)
      ensures Swapped(conns, rows, Arrived(overlap, i + 1))
      ensures data == old(data) || fresh(data)
    {
      row := conns[i];
      Land(conns, rows, Arrived(overlap, i), Landing(overlap, i + 1));
    }

    /** While the batch is read from `conns`, the overlapping writes sit on top of its rows. */
    ghost predicate Swapped(conns: array<Row>, rows: seq<Row>, arrived: seq<Row>)
      reads this, data, conns
    {
      && Valid() && Contents() == arrived && |rows| <= conns.Length
      && (data != conns ==> |arrived| > conns.Length)
      && (forall j :: 0 <= j < |rows| ==> conns[j] == if j < |arrived| then arrived[j] else rows[j])
    }

    method Land(conns: array<Row>, ghost rows: seq<Row>, ghost arrived: seq<Row>, more: seq<Row>)
      requires Swapped(conns, rows, arrived)
      modifies this, data
      ensures Swapped(conns, rows, arrived + more)
      ensures data == old(data) || fresh(data)
    {
      for i := 0 to |more|
        invariant Swapped(conns, rows, arrived + more[..i])
        invariant data == old(data) || fresh(data)
      {
        Append(more[i]);
        assert arrived + more[..i + 1] == arrived + more[..i] + [more[i]];
      }
      assert more[..|more|] == more;
    }
  }
}
