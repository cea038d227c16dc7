/** The queue table as the schema's UNIQUE(queue_id, position) lets it be seen: a map from
    (queue, position) to the row stored there, and what its SELECTs and UPDATEs mean. */
module SlotTable {
  import opened Sequences

  datatype Slot = Slot(queue: int, position: int)
  datatype Item = Item(id: int, track: int)

  type Slots = map<Slot, Item>

  function Positions(slots: Slots, q: int): set<int> {
    set s | s in slots && s.queue == q :: s.position
  }

  lemma NonEmpty(s: set<int>)
    ensures s == {} || exists e :: e in s
  {
    if forall e :: e !in s {
      assert s == {};
    }
  }

  lemma {:induction false} MinExists(s: set<int>)
    requires s != {}
    ensures exists m :: m in s && forall x :: x in s ==> m <= x
  {
    NonEmpty(s);
    var e :| e in s;
    var below := set x | x in s && x < e;
    assert forall x :: x in s && x < e ==> x in below;
    NonEmpty(below);
    if below != {} {
      assert e in s - below;
      MinExists(below);
      var m :| m in below && forall x :: x in below ==> m <= x;
      assert m in s;
    }
  }

  function Min(s: set<int>): (m: int)
    requires s != {}
    ensures m in s && forall x :: x in s ==> m <= x
  {
    MinExists(s);
    var m :| m in s && forall x :: x in s ==> m <= x;
    m
  }

  ghost predicate StrictlyAscending(ps: seq<int>) {
    forall i, j :: 0 <= i < j < |ps| ==> ps[i] < ps[j]
  }

  /** ORDER BY position. */
  function Ascending(s: set<int>): seq<int> {
    if s == {} then [] else
      var m := Min(s);
      [m] + Ascending(s - {m})
  }

  lemma {:induction false} AscendingSorts(s: set<int>)
    ensures StrictlyAscending(Ascending(s))
    ensures forall p :: p in Ascending(s) <==> p in s
  {
    if s != {} {
      var m := Min(s);
      var rest := Ascending(s - {m});
      AscendingSorts(s - {m});
      assert forall i :: 0 <= i < |rest| ==> rest[i] in rest;
      assert forall p :: p in Ascending(s) <==> p == m || p in rest;
    }
  }

  lemma {:induction false} AscendingLength(s: set<int>)
    ensures |Ascending(s)| == |s|
  {
    if s != {} {
      AscendingLength(s - {Min(s)});
    }
  }

  lemma {:induction false} AscendingUnique(s: set<int>, ps: seq<int>)
    requires StrictlyAscending(ps) && forall p :: p in ps <==> p in s
    ensures Ascending(s) == ps
  {
    if ps == [] {
      NonEmpty(s);
      assert forall p :: p in s ==> p in ps;
    } else {
      assert ps[0] in ps;
      var m := Min(s);
      assert m in ps;
      forall p
        ensures p in ps[1..] <==> p in s - {m}
      {
        if p in s && p != m {
          assert p in ps;
        }
      }
      AscendingUnique(s - {m}, ps[1..]);
    }
  }

  /** Every entry of `ps` is a position in use in queue `q`. */
  ghost predicate Within(slots: Slots, q: int, ps: seq<int>) {
    forall i :: 0 <= i < |ps| ==> Slot(q, ps[i]) in slots
  }

  /** `ps` lists the positions in use in queue `q`, in order. */
  ghost predicate Enumerates(slots: Slots, q: int, ps: seq<int>) {
    && StrictlyAscending(ps)
    && Within(slots, q, ps)
    && forall p :: Slot(q, p) in slots ==> p in ps
  }

  function Order(slots: Slots, q: int): seq<int> {
    Ascending(Positions(slots, q))
  }

  lemma OrderEnumerates(slots: Slots, q: int)
    ensures Enumerates(slots, q, Order(slots, q))
  {
    var s := Positions(slots, q);
    var ps := Ascending(s);
    AscendingSorts(s);
    assert forall i :: 0 <= i < |ps| ==> ps[i] in ps;
    assert forall p :: p in s <==> Slot(q, p) in slots;
  }

  function TracksAt(slots: Slots, q: int, ps: seq<int>): (ts: seq<int>)
    requires Within(slots, q, ps)
    ensures |ts| == |ps|
  {
    if ps == [] then [] else
      var k := |ps| - 1;
      assert forall i :: 0 <= i < k ==> ps[..k][i] == ps[i];
      TracksAt(slots, q, ps[..k]) + [slots[Slot(q, ps[k])].track]
  }

  lemma {:induction false} TracksAtIndex(slots: Slots, q: int, ps: seq<int>, i: nat)
    requires Within(slots, q, ps) && i < |ps|
    ensures TracksAt(slots, q, ps)[i] == slots[Slot(q, ps[i])].track
  {
    var k := |ps| - 1;
    if i < k {
      assert forall j :: 0 <= j < k ==> ps[..k][j] == ps[j];
      TracksAtIndex(slots, q, ps[..k], i);
    }
  }

  /** Equal rows are listed equally. */
  lemma {:induction false} TracksAtSame(a: Slots, b: Slots, q: int, ps: seq<int>, rs: seq<int>)
    requires |ps| == |rs| && Within(a, q, ps) && Within(b, q, rs)
    requires forall i :: 0 <= i < |ps| ==> a[Slot(q, ps[i])].track == b[Slot(q, rs[i])].track
    ensures TracksAt(a, q, ps) == TracksAt(b, q, rs)
  {
    if ps != [] {
      var k := |ps| - 1;
      assert forall j :: 0 <= j < k ==> ps[..k][j] == ps[j] && rs[..k][j] == rs[j];
      TracksAtSame(a, b, q, ps[..k], rs[..k]);
    }
  }

  /** SELECT track_id ... WHERE queue_id=q ORDER BY position. */
  function Listing(slots: Slots, q: int): seq<int> {
    OrderEnumerates(slots, q);
    TracksAt(slots, q, Order(slots, q))
  }

  lemma OrderUnique(slots: Slots, q: int, ps: seq<int>)
    requires Enumerates(slots, q, ps)
    ensures Order(slots, q) == ps
    ensures Listing(slots, q) == TracksAt(slots, q, ps)
  {
    var s := Positions(slots, q);
    forall p
      ensures p in ps <==> p in s
    {
      if p in ps {
        var k :| 0 <= k < |ps| && ps[k] == p;
      }
    }
    AscendingUnique(s, ps);
  }

  /** The positions in use are exactly 0, 1, ..., n-1. */
  ghost predicate Contiguous(slots: Slots, q: int) {
    CountsUp(Order(slots, q))
  }

  ghost predicate CountsUp(ps: seq<int>) {
    forall i :: 0 <= i < |ps| ==> ps[i] == i
  }

  /** SELECT COUNT(*) ... WHERE queue_id=q AND position<pos. */
  function CountBelow(slots: Slots, q: int, pos: int): nat {
    |set p | p in Positions(slots, q) && p < pos|
  }

  /** Counting the smaller positions finds the place of a position in the order, gaps or not. */
  lemma CountBelowIsRank(slots: Slots, q: int, i: nat)
    requires i < |Order(slots, q)|
    ensures CountBelow(slots, q, Order(slots, q)[i]) == i
  {
    OrderEnumerates(slots, q);
    var ps := Order(slots, q);
    var below := set p | p in Positions(slots, q) && p < ps[i];
    forall p
      ensures p in ps[..i] <==> p in below
    {
      if p in below {
        var k :| 0 <= k < |ps| && ps[k] == p;
        assert k < i;
        assert ps[..i][k] == p;
      }
    }
    AscendingUnique(below, ps[..i]);
    AscendingLength(below);
  }

  /** Nothing outside queue `q` changed. */
  ghost predicate SameElsewhere(before: Slots, after: Slots, q: int) {
    forall s: Slot :: s.queue != q ==>
      (s in after <==> s in before) && (s in before ==> after[s] == before[s])
  }

  lemma SameElsewhereListing(before: Slots, after: Slots, q: int, other: int)
    requires SameElsewhere(before, after, q) && other != q
    ensures Order(after, other) == Order(before, other)
    ensures Listing(after, other) == Listing(before, other)
  {
    var ps := Order(before, other);
    OrderEnumerates(before, other);
    OrderUnique(after, other, ps);
    TracksAtSame(after, before, other, ps, ps);
  }

  /** Every other queue is listed as before. */
  lemma OtherListingsKept(before: Slots, after: Slots, q: int)
    requires SameElsewhere(before, after, q)
    ensures forall other :: other != q ==> Listing(after, other) == Listing(before, other)
  {
    forall other | other != q
      ensures Listing(after, other) == Listing(before, other)
    {
      SameElsewhereListing(before, after, q, other);
    }
  }

  /** Row `s` of `after` is row `t` of `before`, or neither exists. */
  ghost predicate SameRow(after: Slots, s: Slot, before: Slots, t: Slot) {
    (s in after <==> t in before) && (t in before ==> after[s] == before[t])
  }

  /** UPDATE queue SET position=position-1 WHERE queue_id=q AND position>pos, with slot pos empty. */
  ghost predicate ShiftedDown(before: Slots, after: Slots, q: int, pos: int) {
    && SameElsewhere(before, after, q)
    && (forall p :: p < pos ==> SameRow(after, Slot(q, p), before, Slot(q, p)))
    && (forall p :: pos <= p ==> SameRow(after, Slot(q, p), before, Slot(q, p + 1)))
  }

  /** The same UPDATE stopped after the rows below `h` have been rewritten. */
  ghost predicate ShiftedBelow(before: Slots, after: Slots, q: int, pos: int, h: int) {
    && pos < h
    && SameElsewhere(before, after, q)
    && (forall p :: p < pos || h <= p ==> SameRow(after, Slot(q, p), before, Slot(q, p)))
    && (forall p :: pos <= p < h - 1 ==> SameRow(after, Slot(q, p), before, Slot(q, p + 1)))
    && Slot(q, h - 1) !in after
  }

  function Closed(ps: seq<int>, i: nat): seq<int>
    requires i < |ps|
  {
    seq(|ps| - 1, j requires 0 <= j < |ps| - 1 => if j < i then ps[j] else ps[j + 1] - 1)
  }

  lemma ClosedCovers(before: Slots, after: Slots, q: int, ps: seq<int>, i: nat)
    requires i < |ps| && Enumerates(before, q, ps)
    requires ShiftedDown(before - {Slot(q, ps[i])}, after, q, ps[i])
    ensures forall p :: Slot(q, p) in after ==> p in Closed(ps, i)
  {
    var cs := Closed(ps, i);
    forall p | Slot(q, p) in after
      ensures p in cs
    {
      var was := if p < ps[i] then p else p + 1;
      assert Slot(q, was) in before;
      var k :| 0 <= k < |ps| && ps[k] == was;
      assert if k < i then cs[k] == p else cs[k - 1] == p;
    }
  }

  lemma ClosedEnumerates(before: Slots, after: Slots, q: int, ps: seq<int>, i: nat)
    requires i < |ps| && Enumerates(before, q, ps)
    requires ShiftedDown(before - {Slot(q, ps[i])}, after, q, ps[i])
    ensures Enumerates(after, q, Closed(ps, i))
  {
    var cs := Closed(ps, i);
    ClosedCovers(before, after, q, ps, i);
    forall k | 0 <= k < |cs|
      ensures Slot(q, cs[k]) in after
    {
      assert Slot(q, ps[k]) in before && Slot(q, ps[k + 1]) in before;
    }
  }

  lemma ClosedTrackAt(before: Slots, after: Slots, q: int, ps: seq<int>, i: nat, j: nat)
    requires i < |ps| && Within(before, q, ps) && StrictlyAscending(ps) && j < |Closed(ps, i)|
    requires ShiftedDown(before - {Slot(q, ps[i])}, after, q, ps[i])
    requires Within(after, q, Closed(ps, i))
    ensures TracksAt(after, q, Closed(ps, i))[j] == TracksAt(before, q, ps)[if j < i then j else j + 1]
  {
    var cs := Closed(ps, i);
    var left := before - {Slot(q, ps[i])};
    var k := if j < i then j else j + 1;
    assert Slot(q, ps[k]) in left;
    assert SameRow(after, Slot(q, cs[j]), left, Slot(q, ps[k]));
    TracksAtIndex(after, q, cs, j);
    TracksAtIndex(before, q, ps, k);
  }

  lemma ClosedTracks(before: Slots, after: Slots, q: int, ps: seq<int>, i: nat)
    requires i < |ps| && Within(before, q, ps) && StrictlyAscending(ps)
    requires ShiftedDown(before - {Slot(q, ps[i])}, after, q, ps[i])
    requires Within(after, q, Closed(ps, i))
    ensures TracksAt(after, q, Closed(ps, i)) == RemoveAt(TracksAt(before, q, ps), i)
  {
    forall j | 0 <= j < |Closed(ps, i)|
      ensures TracksAt(after, q, Closed(ps, i))[j] == RemoveAt(TracksAt(before, q, ps), i)[j]
    {
      ClosedTrackAt(before, after, q, ps, i, j);
    }
  }

  /** Deleting the i-th row and shifting the later ones down removes the i-th entry of the listing. */
  lemma RemovalListing(before: Slots, after: Slots, q: int, i: nat)
    requires i < |Order(before, q)|
    requires ShiftedDown(before - {Slot(q, Order(before, q)[i])}, after, q, Order(before, q)[i])
    ensures Order(after, q) == Closed(Order(before, q), i)
    ensures Listing(after, q) == RemoveAt(Listing(before, q), i)
  {
    var ps := Order(before, q);
    OrderEnumerates(before, q);
    ClosedEnumerates(before, after, q, ps, i);
    OrderUnique(after, q, Closed(ps, i));
    ClosedTracks(before, after, q, ps, i);
  }

  lemma ClosedCountsUp(ps: seq<int>, i: nat)
    requires i < |ps| && CountsUp(ps)
    ensures CountsUp(Closed(ps, i))
  {
  }

  lemma AppendEnumerates(before: Slots, q: int, was: seq<int>, pos: int, item: Item)
    requires Enumerates(before, q, was)
    requires forall p :: Slot(q, p) in before ==> p < pos
    ensures Enumerates(before[Slot(q, pos) := item], q, was + [pos])
  {
    var ps := was + [pos];
    assert forall i :: 0 <= i < |was| ==> Slot(q, was[i]) in before;
    forall p | Slot(q, p) in before[Slot(q, pos) := item]
      ensures p in ps
    {
      if p == pos {
        assert ps[|was|] == p;
      }
    }
  }

  lemma AppendTracks(before: Slots, q: int, was: seq<int>, pos: int, item: Item)
    requires Within(before, q, was) && Slot(q, pos) !in before
    requires Within(before[Slot(q, pos) := item], q, was + [pos])
    ensures TracksAt(before[Slot(q, pos) := item], q, was + [pos]) == TracksAt(before, q, was) + [item.track]
  {
    var after := before[Slot(q, pos) := item];
    assert forall i :: 0 <= i < |was| ==> Slot(q, was[i]) in before;
    assert (was + [pos])[..|was|] == was;
    TracksAtSame(after, before, q, was, was);
  }

  /** A row added past the end extends the listing. */
  lemma AppendListing(before: Slots, q: int, pos: int, item: Item)
    requires forall p :: Slot(q, p) in before ==> p < pos
    ensures Order(before[Slot(q, pos) := item], q) == Order(before, q) + [pos]
    ensures Listing(before[Slot(q, pos) := item], q) == Listing(before, q) + [item.track]
  {
    var was := Order(before, q);
    OrderEnumerates(before, q);
    AppendEnumerates(before, q, was, pos, item);
    OrderUnique(before[Slot(q, pos) := item], q, was + [pos]);
    AppendTracks(before, q, was, pos, item);
  }

  /** COALESCE(MAX(position), -1) + 1, and never below zero. */
  function NextPosition(slots: Slots, q: int): int {
    var ps := Order(slots, q);
    var pos := (if ps == [] then -1 else ps[|ps| - 1]) + 1;
    if pos < 0 then 0 else pos
  }

  /** Queue `q` gained the tracks `extra` at its end and nothing else changed. */
  ghost predicate Appended(before: Slots, after: Slots, q: int, extra: seq<int>) {
    && Listing(after, q) == Listing(before, q) + extra
    && SameElsewhere(before, after, q)
    && (Contiguous(before, q) ==> Contiguous(after, q))
  }

  lemma SeqAssociative(a: seq<int>, b: seq<int>, c: seq<int>)
    ensures a + b + c == a + (b + c)
  {
  }

  lemma AppendedNothing(slots: Slots, q: int)
    ensures Appended(slots, slots, q, [])
  {
  }

  lemma AppendedMore(a: Slots, b: Slots, c: Slots, q: int, xs: seq<int>, ys: seq<int>)
    requires Appended(a, b, q, xs) && Appended(b, c, q, ys)
    ensures Appended(a, c, q, xs + ys)
  {
    SeqAssociative(Listing(a, q), xs, ys);
    SameElsewhereTransitive(a, b, c, q);
  }

  lemma NextPositionIsPast(slots: Slots, q: int)
    ensures forall p :: Slot(q, p) in slots ==> p < NextPosition(slots, q)
  {
    var ps := Order(slots, q);
    OrderEnumerates(slots, q);
    forall p | Slot(q, p) in slots
      ensures p < NextPosition(slots, q)
    {
      var k :| 0 <= k < |ps| && ps[k] == p;
      assert k == |ps| - 1 || ps[k] < ps[|ps| - 1];
    }
  }

  /** INSERT of one row at the end of queue `q`. */
  function Append1(slots: Slots, q: int, id: int, tid: int): Slots {
    slots[Slot(q, NextPosition(slots, q)) := Item(id, tid)]
  }

  /** One INSERT after another, with consecutive row ids from `id` on. */
  function AppendAll(slots: Slots, q: int, id: int, tids: seq<int>): Slots {
    if tids == [] then slots else
      var k := |tids| - 1;
      Append1(AppendAll(slots, q, id, tids[..k]), q, id + k, tids[k])
  }

  lemma AppendAllNext(slots: Slots, q: int, id: int, tids: seq<int>, k: nat)
    requires k < |tids|
    ensures AppendAll(slots, q, id, tids[..k + 1]) == Append1(AppendAll(slots, q, id, tids[..k]), q, id + k, tids[k])
  {
    assert tids[..k + 1][..k] == tids[..k];
  }

  lemma Append1Listing(slots: Slots, q: int, id: int, tid: int)
    ensures Order(Append1(slots, q, id, tid), q) == Order(slots, q) + [NextPosition(slots, q)]
    ensures Listing(Append1(slots, q, id, tid), q) == Listing(slots, q) + [tid]
  {
    NextPositionIsPast(slots, q);
    AppendListing(slots, q, NextPosition(slots, q), Item(id, tid));
  }

  lemma Append1Contiguous(slots: Slots, q: int, id: int, tid: int)
    requires Contiguous(slots, q)
    ensures Contiguous(Append1(slots, q, id, tid), q)
  {
    Append1Listing(slots, q, id, tid);
  }

  lemma Append1Elsewhere(slots: Slots, q: int, id: int, tid: int)
    ensures SameElsewhere(slots, Append1(slots, q, id, tid), q)
  {
  }

  lemma Append1Effect(slots: Slots, q: int, id: int, tid: int)
    ensures Appended(slots, Append1(slots, q, id, tid), q, [tid])
  {
    Append1Listing(slots, q, id, tid);
    Append1Elsewhere(slots, q, id, tid);
    if Contiguous(slots, q) {
      Append1Contiguous(slots, q, id, tid);
    }
  }

  lemma AppendedOneMore(before: Slots, most: Slots, after: Slots, q: int, tids: seq<int>)
    requires tids != []
    requires Appended(before, most, q, tids[..|tids| - 1]) && Appended(most, after, q, [tids[|tids| - 1]])
    ensures Appended(before, after, q, tids)
  {
    AppendedMore(before, most, after, q, tids[..|tids| - 1], [tids[|tids| - 1]]);
    assert tids == tids[..|tids| - 1] + [tids[|tids| - 1]];
  }

  lemma {:induction false} AppendAllEffect(slots: Slots, q: int, id: int, tids: seq<int>)
    ensures Appended(slots, AppendAll(slots, q, id, tids), q, tids)
  {
    if tids == [] {
      AppendedNothing(slots, q);
    } else {
      var k := |tids| - 1;
      var most := AppendAll(slots, q, id, tids[..k]);
      AppendAllEffect(slots, q, id, tids[..k]);
      Append1Effect(most, q, id + k, tids[k]);
      AppendedOneMore(slots, most, AppendAll(slots, q, id, tids), q, tids);
    }
  }

  /** `todo` is what is left of the -1 shift above `pos`, whose rows below `h` have been rewritten. */
  ghost predicate ShiftPending(before: Slots, slots: Slots, q: int, pos: int, h: int, todo: seq<int>) {
    && ShiftedBelow(before, slots, q, pos, h)
    && StrictlyAscending(todo)
    && (forall j :: 0 <= j < |todo| ==> h <= todo[j] && Slot(q, todo[j]) in before)
    && (forall p :: h <= p && Slot(q, p) in before ==> p in todo)
  }

  lemma ShiftStart(before: Slots, q: int, pos: int, todo: seq<int>)
    requires Slot(q, pos) !in before
    requires StrictlyAscending(todo) && forall p :: p in todo <==> p > pos && Slot(q, p) in before
    ensures ShiftPending(before, before, q, pos, pos + 1, todo)
  {
    assert forall j :: 0 <= j < |todo| ==> todo[j] in todo;
  }

  /** SET position=position-1 on one row. */
  function MoveDown(slots: Slots, q: int, p: int): Slots
    requires Slot(q, p) in slots
  {
    (slots - {Slot(q, p)})[Slot(q, p - 1) := slots[Slot(q, p)]]
  }

  /** The slot a row moves to is free whenever the rows before it have moved. */
  lemma ShiftTarget(before: Slots, slots: Slots, q: int, pos: int, h: int, todo: seq<int>)
    requires ShiftPending(before, slots, q, pos, h, todo) && todo != []
    ensures Slot(q, todo[0] - 1) !in slots && Slot(q, todo[0]) in slots
    ensures forall x :: h <= x < todo[0] ==> Slot(q, x) !in before && Slot(q, x) !in slots
  {
    var p := todo[0];
    assert SameRow(slots, Slot(q, p), before, Slot(q, p));
    forall x | h <= x < p
      ensures Slot(q, x) !in before && Slot(q, x) !in slots
    {
      assert SameRow(slots, Slot(q, x), before, Slot(q, x));
    }
  }

  /** The rows between the last one moved and the next do not exist. */
  ghost predicate Gap(slots: Slots, q: int, from: int, to: int) {
    forall x :: from <= x < to ==> Slot(q, x) !in slots
  }

  lemma MoveNext(before: Slots, slots: Slots, q: int, pos: int, h: int, p: int)
    requires ShiftedBelow(before, slots, q, pos, h) && h <= p
    requires Slot(q, p - 1) !in slots && Slot(q, p) in slots && Gap(before, q, h, p) && Gap(slots, q, h, p)
    ensures ShiftedBelow(before, MoveDown(slots, q, p), q, pos, p + 1)
  {
    assert SameRow(slots, Slot(q, p), before, Slot(q, p));
  }

  lemma ShiftNext(before: Slots, slots: Slots, q: int, pos: int, h: int, todo: seq<int>)
    requires ShiftPending(before, slots, q, pos, h, todo) && todo != []
    requires Slot(q, todo[0] - 1) !in slots && Slot(q, todo[0]) in slots
    ensures ShiftPending(before, MoveDown(slots, q, todo[0]), q, pos, todo[0] + 1, todo[1..])
  {
    ShiftTarget(before, slots, q, pos, h, todo);
    MoveNext(before, slots, q, pos, h, todo[0]);
  }

  lemma ShiftEnd(before: Slots, slots: Slots, q: int, pos: int, h: int)
    requires ShiftPending(before, slots, q, pos, h, [])
    ensures ShiftedDown(before, slots, q, pos)
  {
    forall p | pos <= p
      ensures SameRow(slots, Slot(q, p), before, Slot(q, p + 1))
    {
      assert p >= h ==> SameRow(slots, Slot(q, p), before, Slot(q, p));
    }
  }

  lemma ShiftedTracks(before: Slots, slots: Slots, q: int, pos: int, tracks: set<int>)
    requires ShiftedDown(before, slots, q, pos)
    requires forall s :: s in before ==> before[s].track in tracks
    ensures forall s :: s in slots ==> slots[s].track in tracks
  {
    forall s | s in slots
      ensures slots[s].track in tracks
    {
      if s.queue == q {
        var was := if s.position < pos then s else Slot(q, s.position + 1);
        assert SameRow(slots, Slot(q, s.position), before, was);
      }
    }
  }

  lemma ShiftedPositions(before: Slots, slots: Slots, q: int, pos: int)
    requires ShiftedDown(before, slots, q, pos) && pos >= 0
    requires forall s :: s in before ==> s.position >= 0
    ensures forall s :: s in slots ==> s.position >= 0
  {
    forall s | s in slots
      ensures s.position >= 0
    {
      if s.queue == q && s.position < pos {
        assert SameRow(slots, Slot(q, s.position), before, Slot(q, s.position));
      }
    }
  }

  lemma SameElsewhereTransitive(a: Slots, b: Slots, c: Slots, q: int)
    requires SameElsewhere(a, b, q) && SameElsewhere(b, c, q)
    ensures SameElsewhere(a, c, q)
  {
  }

  // ----- rows dropped by track ------------------------------------------------------------------

  /** The list without any entry `tid`, in order. */
  function Without(list: seq<int>, tid: int): seq<int> {
    if list == [] then [] else
      var k := |list| - 1;
      Without(list[..k], tid) + (if list[k] == tid then [] else [list[k]])
  }

  /** DELETE of every row that holds the track. */
  function DropTrack(slots: Slots, tid: int): Slots {
    map s | s in slots && slots[s].track != tid :: slots[s]
  }

  /** The positions of `ps` that hold another track. */
  function Left(slots: Slots, q: int, ps: seq<int>, tid: int): seq<int>
    requires Within(slots, q, ps)
  {
    if ps == [] then [] else
      var k := |ps| - 1;
      assert forall j :: 0 <= j < k ==> ps[..k][j] == ps[j];
      Left(slots, q, ps[..k], tid) + (if slots[Slot(q, ps[k])].track == tid then [] else [ps[k]])
  }

  lemma {:induction false} LeftMembers(slots: Slots, q: int, ps: seq<int>, tid: int, p: int)
    requires Within(slots, q, ps)
    ensures p in Left(slots, q, ps, tid) <==> p in ps && slots[Slot(q, p)].track != tid
  {
    if ps != [] {
      var k := |ps| - 1;
      assert forall j :: 0 <= j < k ==> ps[..k][j] == ps[j];
      LeftMembers(slots, q, ps[..k], tid, p);
      assert ps == ps[..k] + [ps[k]];
    }
  }

  lemma {:induction false} LeftAscends(slots: Slots, q: int, ps: seq<int>, tid: int)
    requires StrictlyAscending(ps) && Within(slots, q, ps)
    ensures StrictlyAscending(Left(slots, q, ps, tid))
  {
    if ps != [] {
      var k := |ps| - 1;
      var most := Left(slots, q, ps[..k], tid);
      assert forall j :: 0 <= j < k ==> ps[..k][j] == ps[j];
      LeftAscends(slots, q, ps[..k], tid);
      forall j | 0 <= j < |most|
        ensures most[j] < ps[k]
      {
        LeftMembers(slots, q, ps[..k], tid, most[j]);
      }
    }
  }

  lemma TracksAtPush(slots: Slots, q: int, ps: seq<int>, p: int)
    requires Within(slots, q, ps) && Slot(q, p) in slots
    ensures Within(slots, q, ps + [p])
    ensures TracksAt(slots, q, ps + [p]) == TracksAt(slots, q, ps) + [slots[Slot(q, p)].track]
  {
    assert (ps + [p])[..|ps|] == ps;
  }

  lemma WithoutPush(list: seq<int>, x: int, tid: int)
    ensures Without(list + [x], tid) == Without(list, tid) + (if x == tid then [] else [x])
  {
    assert (list + [x])[..|list|] == list;
  }

  lemma {:induction false} LeftTracks(slots: Slots, q: int, ps: seq<int>, tid: int)
    requires Within(slots, q, ps)
    ensures Within(DropTrack(slots, tid), q, Left(slots, q, ps, tid))
    ensures TracksAt(DropTrack(slots, tid), q, Left(slots, q, ps, tid)) == Without(TracksAt(slots, q, ps), tid)
  {
    if ps != [] {
      var k := |ps| - 1;
      assert forall j :: 0 <= j < k ==> ps[..k][j] == ps[j];
      LeftTracks(slots, q, ps[..k], tid);
      WithoutPush(TracksAt(slots, q, ps[..k]), slots[Slot(q, ps[k])].track, tid);
      if slots[Slot(q, ps[k])].track != tid {
        TracksAtPush(DropTrack(slots, tid), q, Left(slots, q, ps[..k], tid), ps[k]);
      } else {
        assert Left(slots, q, ps, tid) == Left(slots, q, ps[..k], tid);
        assert Without(TracksAt(slots, q, ps), tid) == Without(TracksAt(slots, q, ps[..k]), tid);
      }
    }
  }

  /** What is left is listed as before, without the track. */
  lemma DropTrackListing(slots: Slots, q: int, tid: int)
    ensures Listing(DropTrack(slots, tid), q) == Without(Listing(slots, q), tid)
  {
    var ps := Order(slots, q);
    OrderEnumerates(slots, q);
    LeftAscends(slots, q, ps, tid);
    LeftTracks(slots, q, ps, tid);
    forall p | Slot(q, p) in DropTrack(slots, tid)
      ensures p in Left(slots, q, ps, tid)
    {
      LeftMembers(slots, q, ps, tid, p);
    }
    OrderUnique(DropTrack(slots, tid), q, Left(slots, q, ps, tid));
  }
}
