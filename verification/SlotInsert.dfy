/** Inserting a row in the middle of a queue: the +1 shift, in whatever order the UPDATE visits its rows. */
module SlotInsert {
  import opened Sequences
  import opened SlotTable

  /** `rows` are the positions from `pos` on, in the order in which the UPDATE visits them. */
  ghost predicate Visits(slots: Slots, q: int, pos: int, rows: seq<int>) {
    && NoDup(rows)
    && forall p :: p in rows <==> p >= pos && Slot(q, p) in slots
  }

  /** No row is visited while its upper neighbour still waits. */
  ghost predicate Climbs(rows: seq<int>) {
    forall i, j :: 0 <= i < j < |rows| ==> rows[j] != rows[i] + 1
  }

  /** The first k rows have met no such neighbour. */
  ghost predicate ClimbsSoFar(rows: seq<int>, k: nat) {
    forall i, j :: 0 <= i < k && i < j < |rows| ==> rows[j] != rows[i] + 1
  }

  /** Visiting upwards works exactly when no two of the rows are neighbours. */
  lemma UpwardsClimbs(rows: seq<int>)
    requires StrictlyAscending(rows)
    ensures Climbs(rows) <==> forall i :: 0 < i < |rows| ==> rows[i] != rows[i - 1] + 1
  {
    forall i, j | 0 <= i < j < |rows| && rows[j] == rows[i] + 1
      ensures j == i + 1
    {
      assert rows[i] < rows[i + 1] <= rows[j];
    }
  }

  /** SET position=position+1 on one row. */
  function MoveUp(slots: Slots, q: int, p: int): Slots
    requires Slot(q, p) in slots
  {
    (slots - {Slot(q, p)})[Slot(q, p + 1) := slots[Slot(q, p)]]
  }

  /** UPDATE queue SET position=position+1 WHERE queue_id=q AND position>=pos. */
  ghost predicate ShiftedUp(before: Slots, after: Slots, q: int, pos: int) {
    && SameElsewhere(before, after, q)
    && (forall p :: p < pos ==> SameRow(after, Slot(q, p), before, Slot(q, p)))
    && Slot(q, pos) !in after
    && (forall p :: pos < p ==> SameRow(after, Slot(q, p), before, Slot(q, p - 1)))
  }

  /** The same UPDATE after it has moved the rows `done`. */
  ghost predicate RaisedRows(before: Slots, after: Slots, q: int, done: seq<int>) {
    && SameElsewhere(before, after, q)
    && (forall p :: p in done ==> NeighbourDone(before, q, done, p))
    && forall p :: RaisedAt(before, after, q, done, p)
  }

  ghost predicate NeighbourDone(before: Slots, q: int, done: seq<int>, p: int) {
    Slot(q, p + 1) in before ==> p + 1 in done
  }

  /** What position p holds then: a row that has come up, nothing, or what it held. */
  ghost predicate RaisedAt(before: Slots, after: Slots, q: int, done: seq<int>, p: int) {
    if p - 1 in done then SameRow(after, Slot(q, p), before, Slot(q, p - 1))
    else if p in done then Slot(q, p) !in after
    else SameRow(after, Slot(q, p), before, Slot(q, p))
  }

  /** The slot above the next row is free exactly when that row's upper neighbour does not still wait. */
  lemma RaiseTarget(before: Slots, after: Slots, q: int, pos: int, rows: seq<int>, k: nat)
    requires Visits(before, q, pos, rows) && k < |rows|
    requires RaisedRows(before, after, q, rows[..k])
    ensures Slot(q, rows[k]) in after
    ensures Slot(q, rows[k] + 1) !in after <==> forall j :: k < j < |rows| ==> rows[j] != rows[k] + 1
  {
    var p, done := rows[k], rows[..k];
    assert p in rows && p !in done;
    assert p - 1 in done ==> NeighbourDone(before, q, done, p - 1);
    assert RaisedAt(before, after, q, done, p) && RaisedAt(before, after, q, done, p + 1);
    if Slot(q, p + 1) in before {
      assert p + 1 in rows;
      var j :| 0 <= j < |rows| && rows[j] == p + 1;
      assert j < k ==> done[j] == p + 1;
    }
    forall j | k < j < |rows| && rows[j] == p + 1
      ensures p + 1 !in done && Slot(q, p + 1) in before
    {
      assert rows[j] in rows;
    }
  }

  lemma RaiseNextAt(before: Slots, after: Slots, q: int, done: seq<int>, x: int, p: int)
    requires RaisedAt(before, after, q, done, p) && RaisedAt(before, after, q, done, x)
    requires x !in done && x - 1 !in done && Slot(q, x) in after && Slot(q, x + 1) !in after
    ensures RaisedAt(before, MoveUp(after, q, x), q, done + [x], p)
  {
    assert forall y :: y in done + [x] <==> y in done || y == x;
  }

  lemma RaiseNext(before: Slots, after: Slots, q: int, pos: int, rows: seq<int>, k: nat)
    requires Visits(before, q, pos, rows) && k < |rows|
    requires RaisedRows(before, after, q, rows[..k])
    requires Slot(q, rows[k]) in after && Slot(q, rows[k] + 1) !in after
    ensures RaisedRows(before, MoveUp(after, q, rows[k]), q, rows[..k + 1])
  {
    var x, done, more := rows[k], rows[..k], rows[..k + 1];
    var up := MoveUp(after, q, x);
    TakeOneMore(rows, k);
    assert x in rows && x !in done;
    assert x - 1 in done ==> NeighbourDone(before, q, done, x - 1);
    forall p
      ensures RaisedAt(before, up, q, more, p)
    {
      RaiseNextAt(before, after, q, done, x, p);
    }
    assert RaisedAt(before, after, q, done, x + 1);
    forall p | p in more
      ensures NeighbourDone(before, q, more, p)
    {
      if p in done {
        assert NeighbourDone(before, q, done, p);
      }
    }
  }

  /** The UPDATE has moved the first k rows and was not stopped. */
  ghost predicate Raising(before: Slots, after: Slots, q: int, rows: seq<int>, k: nat) {
    k <= |rows| && RaisedRows(before, after, q, rows[..k]) && ClimbsSoFar(rows, k)
  }

  /** The next row either moves, or the order does not climb. */
  lemma RaiseStep(before: Slots, after: Slots, q: int, pos: int, rows: seq<int>, k: nat)
    requires Visits(before, q, pos, rows) && k < |rows| && Raising(before, after, q, rows, k)
    ensures Slot(q, rows[k]) in after
    ensures if Slot(q, rows[k] + 1) in after then !Climbs(rows)
            else Raising(before, MoveUp(after, q, rows[k]), q, rows, k + 1)
  {
    RaiseTarget(before, after, q, pos, rows, k);
    if Slot(q, rows[k] + 1) !in after {
      RaiseNext(before, after, q, pos, rows, k);
    }
  }

  lemma RaiseEnd(before: Slots, after: Slots, q: int, pos: int, rows: seq<int>)
    requires Visits(before, q, pos, rows) && Raising(before, after, q, rows, |rows|)
    ensures ShiftedUp(before, after, q, pos) && Climbs(rows)
  {
    assert rows[..|rows|] == rows;
    assert pos - 1 !in rows && RaisedAt(before, after, q, rows, pos);
    forall p | p < pos
      ensures SameRow(after, Slot(q, p), before, Slot(q, p))
    {
      assert RaisedAt(before, after, q, rows, p);
    }
    forall p | pos < p
      ensures SameRow(after, Slot(q, p), before, Slot(q, p - 1))
    {
      assert RaisedAt(before, after, q, rows, p);
    }
  }

  lemma {:induction false} SplitPoint(ps: seq<int>, pos: int) returns (i: nat)
    requires StrictlyAscending(ps)
    ensures Splits(ps, pos, i)
  {
    i := 0;
    while i < |ps| && ps[i] < pos
      invariant 0 <= i <= |ps|
      invariant forall j :: 0 <= j < i ==> ps[j] < pos
    {
      i := i + 1;
    }
  }

  /** Exactly the first i entries are below `pos`. */
  ghost predicate Splits(ps: seq<int>, pos: int, i: nat) {
    && i <= |ps|
    && (forall j :: 0 <= j < i ==> ps[j] < pos)
    && (forall j :: i <= j < |ps| ==> ps[j] >= pos)
  }

  /** The positions below `pos` come first, as many as are counted. */
  lemma RankSplits(slots: Slots, q: int, pos: int)
    ensures Splits(Order(slots, q), pos, CountBelow(slots, q, pos))
  {
    OrderEnumerates(slots, q);
    var ps := Order(slots, q);
    var i := SplitPoint(ps, pos);
    var below := set p | p in Positions(slots, q) && p < pos;
    forall p
      ensures p in ps[..i] <==> p in below
    {
      if p in below {
        var k :| 0 <= k < |ps| && ps[k] == p;
        assert ps[..i][k] == p;
      }
    }
    AscendingUnique(below, ps[..i]);
    AscendingLength(below);
  }

  /** The positions from the i-th on, one higher. */
  function Lifted(ps: seq<int>, i: nat): seq<int> {
    seq(|ps|, j requires 0 <= j < |ps| => if j < i then ps[j] else ps[j] + 1)
  }

  lemma LiftedAscends(ps: seq<int>, i: nat)
    requires StrictlyAscending(ps)
    ensures StrictlyAscending(Lifted(ps, i))
  {
  }

  lemma LiftedCovers(before: Slots, after: Slots, q: int, pos: int, ps: seq<int>, i: nat, p: int)
    requires ShiftedUp(before, after, q, pos) && Enumerates(before, q, ps) && Splits(ps, pos, i) && Slot(q, p) in after
    ensures p in Lifted(ps, i)
  {
    var was := if p < pos then p else p - 1;
    assert SameRow(after, Slot(q, p), before, Slot(q, was));
    var k :| 0 <= k < |ps| && ps[k] == was;
    assert Lifted(ps, i)[k] == p;
  }

  lemma LiftedEnumerates(before: Slots, after: Slots, q: int, pos: int)
    requires ShiftedUp(before, after, q, pos)
    ensures Enumerates(after, q, Lifted(Order(before, q), CountBelow(before, q, pos)))
  {
    var ps, i := Order(before, q), CountBelow(before, q, pos);
    var ls := Lifted(ps, i);
    OrderEnumerates(before, q);
    RankSplits(before, q, pos);
    LiftedAscends(ps, i);
    forall k | 0 <= k < |ls|
      ensures Slot(q, ls[k]) in after
    {
      assert SameRow(after, Slot(q, ls[k]), before, Slot(q, ps[k]));
    }
    forall p | Slot(q, p) in after
      ensures p in ls
    {
      LiftedCovers(before, after, q, pos, ps, i, p);
    }
  }

  lemma SameRank(ps: seq<int>, pos: int, i: nat, j: nat)
    requires Splits(ps, pos, i) && Splits(ps, pos, j)
    ensures i == j
  {
    var k := if i < j then i else j;
    if k < |ps| {
      assert ps[k] < pos || pos <= ps[k];
    }
  }

  lemma LiftedTracks(before: Slots, after: Slots, q: int, pos: int)
    requires ShiftedUp(before, after, q, pos)
    requires Within(before, q, Order(before, q))
    requires Within(after, q, Lifted(Order(before, q), CountBelow(before, q, pos)))
    ensures TracksAt(after, q, Lifted(Order(before, q), CountBelow(before, q, pos)))
         == TracksAt(before, q, Order(before, q))
  {
    var ps, i := Order(before, q), CountBelow(before, q, pos);
    var ls := Lifted(ps, i);
    RankSplits(before, q, pos);
    forall k | 0 <= k < |ls|
      ensures after[Slot(q, ls[k])].track == before[Slot(q, ps[k])].track
    {
      assert SameRow(after, Slot(q, ls[k]), before, Slot(q, ps[k]));
    }
    TracksAtSame(after, before, q, ls, ps);
  }

  /** The shift changes no listing, only makes room. */
  lemma ShiftedUpListing(before: Slots, after: Slots, q: int, pos: int)
    requires ShiftedUp(before, after, q, pos)
    ensures Order(after, q) == Lifted(Order(before, q), CountBelow(before, q, pos))
    ensures Listing(after, q) == Listing(before, q)
    ensures CountBelow(after, q, pos) == CountBelow(before, q, pos)
  {
    OrderEnumerates(before, q);
    LiftedEnumerates(before, after, q, pos);
    OrderUnique(after, q, Lifted(Order(before, q), CountBelow(before, q, pos)));
    LiftedTracks(before, after, q, pos);
    ShiftedUpRank(before, after, q, pos);
  }

  lemma ShiftedUpRank(before: Slots, after: Slots, q: int, pos: int)
    requires Order(after, q) == Lifted(Order(before, q), CountBelow(before, q, pos))
    ensures CountBelow(after, q, pos) == CountBelow(before, q, pos)
  {
    RankSplits(before, q, pos);
    RankSplits(after, q, pos);
    SameRank(Order(after, q), pos, CountBelow(before, q, pos), CountBelow(after, q, pos));
  }

  lemma InsertedAt(ps: seq<int>, i: nat, x: int, k: nat)
    requires i <= |ps| && k <= |ps|
    ensures InsertAt(ps, i, x)[k] == if k < i then ps[k] else if k == i then x else ps[k - 1]
  {
  }

  lemma InsertAscends(ps: seq<int>, i: nat, pos: int)
    requires StrictlyAscending(ps) && Splits(ps, pos, i) && pos !in ps
    ensures StrictlyAscending(InsertAt(ps, i, pos))
  {
    var rs := InsertAt(ps, i, pos);
    forall a, b | 0 <= a < b < |rs|
      ensures rs[a] < rs[b]
    {
      InsertedAt(ps, i, pos, a);
      InsertedAt(ps, i, pos, b);
      assert b == i + 1 || a < i ==> ps[b - 1] in ps;
      assert b > i ==> ps[b - 1] in ps && ps[b - 1] >= pos;
    }
  }

  lemma InsertMembers(ps: seq<int>, i: nat, pos: int, p: int)
    requires i <= |ps|
    ensures p in InsertAt(ps, i, pos) <==> p == pos || p in ps
  {
    assert ps == ps[..i] + ps[i..];
  }

  lemma InsertEnumerates(slots: Slots, q: int, pos: int, item: Item)
    requires Slot(q, pos) !in slots && CountBelow(slots, q, pos) <= |Order(slots, q)|
    ensures Enumerates(slots[Slot(q, pos) := item], q, InsertAt(Order(slots, q), CountBelow(slots, q, pos), pos))
  {
    var ps, i := Order(slots, q), CountBelow(slots, q, pos);
    var rs := InsertAt(ps, i, pos);
    OrderEnumerates(slots, q);
    RankSplits(slots, q, pos);
    InsertAscends(ps, i, pos);
    forall k | 0 <= k < |rs|
      ensures Slot(q, rs[k]) in slots[Slot(q, pos) := item]
    {
      InsertMembers(ps, i, pos, rs[k]);
    }
    forall p | Slot(q, p) in slots[Slot(q, pos) := item]
      ensures p in rs
    {
      InsertMembers(ps, i, pos, p);
    }
  }

  lemma InsertTracks(slots: Slots, q: int, pos: int, item: Item, ps: seq<int>, i: nat)
    requires Slot(q, pos) !in slots && i <= |ps| && Within(slots, q, ps)
    requires Within(slots[Slot(q, pos) := item], q, InsertAt(ps, i, pos))
    ensures TracksAt(slots[Slot(q, pos) := item], q, InsertAt(ps, i, pos))
         == InsertAt(TracksAt(slots, q, ps), i, item.track)
  {
    var after, rs := slots[Slot(q, pos) := item], InsertAt(ps, i, pos);
    var longer := InsertAt(TracksAt(slots, q, ps), i, item.track);
    forall k | 0 <= k < |rs|
      ensures TracksAt(after, q, rs)[k] == longer[k]
    {
      TracksAtIndex(after, q, rs, k);
      if k < i {
        TracksAtIndex(slots, q, ps, k);
      } else if k > i {
        TracksAtIndex(slots, q, ps, k - 1);
      }
    }
  }

  /** A row put into a free slot joins the listing at the rank of its position. */
  lemma InsertListing(slots: Slots, q: int, pos: int, item: Item)
    requires Slot(q, pos) !in slots
    ensures CountBelow(slots, q, pos) <= |Order(slots, q)| == |Listing(slots, q)|
    ensures Order(slots[Slot(q, pos) := item], q) == InsertAt(Order(slots, q), CountBelow(slots, q, pos), pos)
    ensures Listing(slots[Slot(q, pos) := item], q)
         == InsertAt(Listing(slots, q), CountBelow(slots, q, pos), item.track)
  {
    RankSplits(slots, q, pos);
    OrderEnumerates(slots, q);
    InsertEnumerates(slots, q, pos, item);
    OrderUnique(slots[Slot(q, pos) := item], q, InsertAt(Order(slots, q), CountBelow(slots, q, pos), pos));
    InsertTracks(slots, q, pos, item, Order(slots, q), CountBelow(slots, q, pos));
  }

  /** On a contiguous queue the rank of a position up to the end is the position ... */
  lemma ContiguousRank(slots: Slots, q: int, pos: int)
    requires Contiguous(slots, q) && 0 <= pos <= |Order(slots, q)|
    ensures CountBelow(slots, q, pos) == pos
  {
    RankSplits(slots, q, pos);
    SameRank(Order(slots, q), pos, pos, CountBelow(slots, q, pos));
  }

  /** ... and room made there and filled again leaves it contiguous. */
  lemma LiftedCountsUp(ps: seq<int>, i: nat)
    requires CountsUp(ps) && i <= |ps|
    ensures CountsUp(InsertAt(Lifted(ps, i), i, i))
  {
  }

  /** Inserting into a contiguous queue of n items: an UPDATE that visits its rows upwards gets through only at the
      last item or behind it, one that visits them downwards always does. */
  lemma MiddleInsert(slots: Slots, q: int, pos: nat, rows: seq<int>)
    requires Contiguous(slots, q) && Visits(slots, q, pos, rows)
    ensures StrictlyAscending(rows) ==> (Climbs(rows) <==> pos + 1 >= |Order(slots, q)|)
    ensures (forall i, j :: 0 <= i < j < |rows| ==> rows[i] > rows[j]) ==> Climbs(rows)
  {
    var n := |Order(slots, q)|;
    OrderEnumerates(slots, q);
    forall p
      ensures p in rows <==> pos <= p < n
    {
      if pos <= p < n {
        assert Slot(q, Order(slots, q)[p]) in slots;
      }
    }
    if StrictlyAscending(rows) && pos + 1 < n {
      assert pos in rows && pos + 1 in rows;
      var i :| 0 <= i < |rows| && rows[i] == pos;
      var j :| 0 <= j < |rows| && rows[j] == pos + 1;
      assert i < j;
    }
    assert forall i :: 0 <= i < |rows| ==> rows[i] in rows;
  }
}
