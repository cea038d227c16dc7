/** The database object: the queue table's statements and the single engine_state row. */
module Db {
  import opened Common
  import opened Sequences
  import opened SlotTable
  import opened SlotInsert
  import PlayOrder

  /** Columns of the engine_state row; the shuffle_perm blob is NULL exactly when `perm` is empty. */
  datatype EngineRow = EngineRow(
    shuffle: bool, repeat: PlayOrder.Repeat, cursor: int, currentTrack: int,
    activeQueue: int, perm: seq<int>, positionMs: int)

  function Qid(q: int): int {
    if q == 0 then 1 else q
  }

  class Database {
    var slots: Slots
    var nextId: int
    var tracks: set<int>
    var queues: set<int>
    var row: EngineRow

    /** The foreign key from queue rows to tracks, no negative positions, and positive track ids. */
    ghost predicate Valid()
      reads this`slots, this`tracks
    {
      && (forall s :: s in slots ==> slots[s].track in tracks && s.position >= 0)
      && (forall t :: t in tracks ==> t > 0)
    }

    function List(q: int): seq<int>
      reads this`slots
    {
      Listing(slots, Qid(q))
    }

    method InsertRow(q: int, tid: int, pos: int) returns (r: Status)
      requires Valid() && pos >= 0
      modifies this`slots, this`nextId
      ensures Valid()
      ensures r == if tid !in tracks || Slot(q, pos) in old(slots) then Err(Internal) else DONE
      ensures r.Ok? ==> slots == old(slots)[Slot(q, pos) := Item(old(nextId), tid)] && nextId == old(nextId) + 1
      ensures r.Err? ==> slots == old(slots)
    {
      if tid !in tracks || Slot(q, pos) in slots {
        return Err(Internal);
      }
      slots := slots[Slot(q, pos) := Item(nextId, tid)];
      nextId := nextId + 1;
      return DONE;
    }

    /** queueEnqueueLocked. For pos >= 0 the UPDATE that makes room visits its rows in the order `rows`, which
        SQL leaves open; if UNIQUE stops it, it is undone and the INSERT is tried all the same. */
    method Enqueue(qid: int, tid: int, pos: int, rows: seq<int>) returns (r: Status)
      requires Valid() && (pos >= 0 ==> Visits(slots, Qid(qid), pos, rows))
      modifies this`slots, this`nextId
      ensures Valid()
      ensures tid == 0 ==> r == Err(InvalidArg)
      ensures r.Err? && (tid == 0 || pos < 0) ==> slots == old(slots)
      ensures pos < 0 && tid != 0 ==> r == if tid in tracks then DONE else Err(Internal)
      ensures pos >= 0 && tid != 0 ==>
        r == if tid in tracks && (Climbs(rows) || Slot(Qid(qid), pos) !in old(slots)) then DONE else Err(Internal)
      ensures r.Ok? && pos < 0 ==> List(qid) == old(List(qid)) + [tid]
      ensures r.Ok? && pos >= 0 ==>
        var i := CountBelow(old(slots), Qid(qid), pos);
        i <= |old(List(qid))| && List(qid) == InsertAt(old(List(qid)), i, tid)
      ensures r.Err? ==> List(qid) == old(List(qid))
      ensures forall o :: Qid(o) != Qid(qid) ==> List(o) == old(List(o))
      ensures r.Ok? && pos <= |old(List(qid))| && old(Contiguous(slots, Qid(qid))) ==>
        Contiguous(slots, Qid(qid)) && (pos >= 0 ==> CountBelow(old(slots), Qid(qid), pos) == pos)
    {
      if pos < 0 {
        r := EnqueueLast(qid, tid);
        Append1Effect(old(slots), Qid(qid), old(nextId), tid);
        OtherListingsKept(old(slots), slots, Qid(qid));
      } else {
        r := EnqueueAt(qid, tid, pos, rows);
      }
    }

    /** The branch for pos < 0: append after the last position in use. */
    method EnqueueLast(qid: int, tid: int) returns (r: Status)
      requires Valid()
      modifies this`slots, this`nextId
      ensures Valid()
      ensures r == if tid == 0 then Err(InvalidArg) else if tid !in tracks then Err(Internal) else DONE
      ensures r.Ok? ==> slots == Append1(old(slots), Qid(qid), old(nextId), tid) && nextId == old(nextId) + 1
      ensures r.Err? ==> slots == old(slots)
    {
      if tid == 0 {
        return Err(InvalidArg);
      }
      var q := Qid(qid);
      var ps := Order(slots, q);
      var pos := (if ps == [] then -1 else ps[|ps| - 1]) + 1;
      if pos < 0 {
        pos := 0;
      }
      NextPositionIsPast(slots, q);
      r := InsertRow(q, tid, pos);
    }

    /** The branch for pos >= 0. */
    method EnqueueAt(qid: int, tid: int, pos: nat, rows: seq<int>) returns (r: Status)
      requires Valid() && Visits(slots, Qid(qid), pos, rows)
      modifies this`slots, this`nextId
      ensures Valid()
      ensures r == if tid == 0 then Err(InvalidArg)
                   else if tid in tracks && (Climbs(rows) || Slot(Qid(qid), pos) !in old(slots)) then DONE
                   else Err(Internal)
      ensures tid == 0 ==> slots == old(slots)
      ensures r.Ok? ==>
        var i := CountBelow(old(slots), Qid(qid), pos);
        i <= |old(List(qid))| && List(qid) == InsertAt(old(List(qid)), i, tid)
      ensures r.Err? ==> List(qid) == old(List(qid))
      ensures forall o :: Qid(o) != Qid(qid) ==> List(o) == old(List(o))
      ensures r.Ok? && pos <= |old(List(qid))| && old(Contiguous(slots, Qid(qid))) ==>
        Contiguous(slots, Qid(qid)) && CountBelow(old(slots), Qid(qid), pos) == pos
    {
      if tid == 0 {
        return Err(InvalidArg);
      }
      var q := Qid(qid);
      ghost var before := slots;
      var shifted := ShiftUp(q, pos, rows);
      ghost var roomy, item := slots, Item(nextId, tid);
      MadeRoom(before, roomy, q, pos, shifted);
      r := InsertRow(q, tid, pos);
      InsertTried(before, roomy, slots, q, pos, item, shifted);
    }

    /** UPDATE queue SET position=position+1 ... AND position>=pos, row by row: all of it, or none. */
    method ShiftUp(q: int, pos: nat, rows: seq<int>) returns (ok: bool)
      requires Valid() && Visits(slots, q, pos, rows)
      modifies this`slots
      ensures Valid()
      ensures ok <==> Climbs(rows)
      ensures if ok then ShiftedUp(old(slots), slots, q, pos) else slots == old(slots)
    {
      var saved := slots;
      for k := 0 to |rows|
        invariant Valid() && Raising(saved, slots, q, rows, k)
      {
        RaiseStep(saved, slots, q, pos, rows, k);
        ok := RaiseRow(q, rows[k]);
        if !ok {
          slots := saved;
          return;
        }
      }
      RaiseEnd(saved, slots, q, pos, rows);
      return true;
    }

    method RaiseRow(q: int, p: int) returns (ok: bool)
      requires Valid() && Slot(q, p) in slots
      modifies this`slots
      ensures Valid()
      ensures ok <==> Slot(q, p + 1) !in old(slots)
      ensures slots == if ok then MoveUp(old(slots), q, p) else old(slots)
    {
      ok := Slot(q, p + 1) !in slots;
      if ok {
        slots := MoveUp(slots, q, p);
      }
    }

    /** One row of an UPDATE: refused when UNIQUE(queue_id, position) would be broken. */
    method UpdateRow(q: int, p: int) returns (ok: bool)
      requires Slot(q, p) in slots
      modifies this`slots
      ensures ok <==> Slot(q, p - 1) !in old(slots)
      ensures slots == if ok then MoveDown(old(slots), q, p) else old(slots)
    {
      ok := Slot(q, p - 1) !in slots;
      if ok {
        slots := MoveDown(slots, q, p);
      }
    }

    /** The row-by-row part of the shift: no row is ever refused. */
    method ShiftRows(q: int, pos: int, rows: seq<int>) returns (ok: bool)
      requires ShiftPending(slots, slots, q, pos, pos + 1, rows)
      modifies this`slots
      ensures ok && ShiftedDown(old(slots), slots, q, pos)
    {
      var todo := rows;
      ghost var h := pos + 1;
      ok := true;
      while todo != []
        invariant ok
        invariant ShiftPending(old(slots), slots, q, pos, h, todo)
      {
        var p := todo[0];
        ShiftTarget(old(slots), slots, q, pos, h, todo);
        ShiftNext(old(slots), slots, q, pos, h, todo);
        ok := UpdateRow(q, p);
        h := p + 1;
        todo := todo[1..];
      }
      ShiftEnd(old(slots), slots, q, pos, h);
    }

    /** UPDATE queue SET position=position-1 ... AND position>pos, row by row in ascending order. */
    method ShiftDown(q: int, pos: int) returns (ok: bool)
      requires Valid() && Slot(q, pos) !in slots && pos >= 0
      modifies this`slots
      ensures Valid()
      ensures ok && ShiftedDown(old(slots), slots, q, pos)
    {
      var rows := Ascending(set p | p in Positions(slots, q) && p > pos);
      AscendingSorts(set p | p in Positions(slots, q) && p > pos);
      ShiftStart(slots, q, pos, rows);
      ok := ShiftRows(q, pos, rows);
      ShiftedTracks(old(slots), slots, q, pos, tracks);
      ShiftedPositions(old(slots), slots, q, pos);
    }

    /** queueRemoveLocked. */
    method Remove(qid: int, pos: int) returns (r: Status)
      requires Valid()
      modifies this`slots
      ensures Valid()
      ensures r == if Slot(Qid(qid), pos) in old(slots) then DONE else Err(NotFound)
      ensures r.Ok? ==>
        var i := CountBelow(old(slots), Qid(qid), pos);
        && i < |old(List(qid))| == |old(Order(slots, Qid(qid)))| && List(qid) == RemoveAt(old(List(qid)), i)
        && Order(slots, Qid(qid)) == Closed(old(Order(slots, Qid(qid))), i)
      ensures r.Ok? && old(Contiguous(slots, Qid(qid))) ==>
        0 <= pos < |old(List(qid))| && CountBelow(old(slots), Qid(qid), pos) == pos
      ensures r.Err? ==> slots == old(slots)
      ensures SameElsewhere(old(slots), slots, Qid(qid))
      ensures forall o :: Qid(o) != Qid(qid) ==> List(o) == old(List(o))
      ensures old(Contiguous(slots, Qid(qid))) ==> Contiguous(slots, Qid(qid))
    {
      var q := Qid(qid);
      if Slot(q, pos) !in slots {
        return Err(NotFound);
      }
      ghost var i := RankOf(slots, q, pos);
      slots := slots - {Slot(q, pos)};
      var shifted := ShiftDown(q, pos);
      RemovalListing(old(slots), slots, q, i);
      OtherListingsKept(old(slots), slots, q);
      return DONE;
    }

    /** queueDequeueLocked: take the row with the smallest position. */
    method Dequeue(qid: int) returns (r: Result<int>)
      requires Valid()
      modifies this`slots
      ensures Valid()
      ensures r == if old(List(qid)) == [] then Err(NotFound) else Ok(old(List(qid))[0])
      ensures r.Ok? ==> List(qid) == old(List(qid))[1..]
      ensures r.Err? ==> slots == old(slots)
      ensures SameElsewhere(old(slots), slots, Qid(qid))
      ensures forall o :: Qid(o) != Qid(qid) ==> List(o) == old(List(o))
      ensures old(Contiguous(slots, Qid(qid))) ==> Contiguous(slots, Qid(qid))
    {
      var q := Qid(qid);
      var ps := Order(slots, q);
      if ps == [] {
        return Err(NotFound);
      }
      OrderEnumerates(slots, q);
      var item := slots[Slot(q, ps[0])];
      slots := slots - {Slot(q, ps[0])};
      var shifted := ShiftDown(q, ps[0]);
      DequeueEffect(old(slots), slots, q);
      OtherListingsKept(old(slots), slots, q);
      return Ok(item.track);
    }

    /** queueClearLocked. */
    method Clear(qid: int)
      requires Valid()
      modifies this`slots
      ensures Valid()
      ensures List(qid) == [] && Contiguous(slots, Qid(qid))
      ensures SameElsewhere(old(slots), slots, Qid(qid))
      ensures forall o :: Qid(o) != Qid(qid) ==> List(o) == old(List(o))
    {
      var q := Qid(qid);
      slots := map s | s in slots && s.queue != q :: slots[s];
      OrderUnique(slots, q, []);
      OtherListingsKept(old(slots), slots, q);
    }

    /** The append loop of both batch operations: stops at the first id that is refused. */
    method AppendRows(q: int, tids: seq<int>) returns (r: Status)
      requires Valid() && q != 0
      modifies this`slots, this`nextId
      ensures Valid()
      ensures r.Ok? <==> forall t :: t in tids ==> t in tracks
      ensures r.Err? ==> Refused(tids, tracks, r)
      ensures r.Ok? ==> slots == AppendAll(old(slots), q, old(nextId), tids)
    {
      ghost var was, id := slots, nextId;
      for k := 0 to |tids|
        invariant Valid()
        invariant forall t :: t in tids[..k] ==> t in tracks
        invariant slots == AppendAll(was, q, id, tids[..k]) && nextId == id + k
      {
        TakeOneMore(tids, k);
        r := AppendNth(q, tids, k, was, id);
        if r.Err? {
          var t := tids[k];
          assert t in tids && t !in tracks;
          assert !(forall t :: t in tids ==> t in tracks);
          return;
        }
      }
      assert tids[..|tids|] == tids;
      return DONE;
    }

    method AppendNth(q: int, tids: seq<int>, k: nat, ghost was: Slots, ghost id: int) returns (r: Status)
      requires Valid() && q != 0 && k < |tids|
      requires slots == AppendAll(was, q, id, tids[..k]) && nextId == id + k
      modifies this`slots, this`nextId
      ensures Valid()
      ensures r.Ok? <==> tids[k] in tracks
      ensures r.Err? ==> r == Err(if tids[k] == 0 then InvalidArg else Internal)
      ensures r.Ok? ==> slots == AppendAll(was, q, id, tids[..k + 1]) && nextId == id + k + 1
    {
      AppendAllNext(was, q, id, tids, k);
      r := EnqueueLast(q, tids[k]);
    }

    /** queueEnqueueBatch: BEGIN IMMEDIATE, append every id, COMMIT; any failure rolls all back. */
    method EnqueueBatch(qid: int, tids: seq<int>, begins: bool, commits: bool) returns (r: Status)
      requires Valid()
      modifies this`slots, this`nextId
      ensures Valid()
      ensures r.Ok? <==> begins && commits && forall t :: t in tids ==> t in tracks
      ensures r.Err? ==> BatchFails(tids, tracks, begins, commits, r)
      ensures r.Ok? ==> Appended(old(slots), slots, Qid(qid), tids)
      ensures forall o :: Qid(o) != Qid(qid) ==> List(o) == old(List(o))
      ensures r.Err? ==> slots == old(slots)
    {
      if !begins {
        return Err(Busy);
      }
      var saved := slots;
      AppendAllEffect(slots, Qid(qid), nextId, tids);
      r := AppendRows(Qid(qid), tids);
      if r.Err? {
        slots := saved;
        return;
      }
      if !commits {
        slots := saved;
        return Err(Internal);
      }
      OtherListingsKept(saved, slots, Qid(qid));
    }

    /** queueReplaceAll: clear and append inside one transaction. */
    method ReplaceAll(qid: int, ids: seq<int>, begins: bool, commits: bool) returns (r: Status)
      requires Valid()
      modifies this`slots, this`nextId
      ensures Valid()
      ensures r.Ok? <==> begins && commits && forall t :: t in ids ==> t in tracks
      ensures r.Err? ==> BatchFails(ids, tracks, begins, commits, r)
      ensures r.Ok? ==> List(qid) == ids && Contiguous(slots, Qid(qid))
      ensures r.Ok? ==> SameElsewhere(old(slots), slots, Qid(qid))
      ensures forall o :: Qid(o) != Qid(qid) ==> List(o) == old(List(o))
      ensures r.Err? ==> slots == old(slots)
    {
      if !begins {
        return Err(Busy);
      }
      var saved := slots;
      Clear(qid);
      ghost var cleared := slots;
      AppendAllEffect(cleared, Qid(qid), nextId, ids);
      r := AppendRows(Qid(qid), ids);
      if r.Err? {
        slots := saved;
        return;
      }
      if !commits {
        slots := saved;
        return Err(Internal);
      }
      SameElsewhereTransitive(saved, cleared, slots, Qid(qid));
      OtherListingsKept(saved, slots, Qid(qid));
    }

    /** deleteTrack as the queue sees it: ON DELETE CASCADE drops rows and leaves gaps. */
    method DeleteTrack(tid: int)
      requires Valid()
      modifies this`slots, this`tracks
      ensures Valid() && tracks == old(tracks) - {tid}
      ensures slots == DropTrack(old(slots), tid)
      ensures forall q :: List(q) == Without(old(List(q)), tid)
    {
      tracks := tracks - {tid};
      slots := map s | s in slots && slots[s].track != tid :: slots[s];
      forall q
        ensures List(q) == Without(old(List(q)), tid)
      {
        DropTrackListing(old(slots), Qid(q), tid);
      }
    }

    method Count(qid: int) returns (n: nat)
      ensures n == |List(qid)|
    {
      AscendingLength(Positions(slots, Qid(qid)));
      n := |Positions(slots, Qid(qid))|;
    }

    /** queueIndexOfLocked: the smallest position holding the track, then the rows before it. */
    method IndexOf(qid: int, tid: int) returns (r: Option<nat>)
      requires Valid()
      ensures r == FirstIndex(List(qid), tid)
    {
      var q := Qid(qid);
      if tid == 0 {
        ListedTracksExist(slots, q, tracks);
        return None;
      }
      var hits := set p | p in Positions(slots, q) && slots[Slot(q, p)].track == tid;
      HitsAreListed(slots, q, tid, hits);
      if hits == {} {
        return None;
      }
      var pos := Min(hits);
      FirstHitIsFirstListed(slots, q, tid, hits);
      return Some(CountBelow(slots, q, pos));
    }

    /** queueTrackAt: ORDER BY position LIMIT 1 OFFSET i; a negative offset counts as zero. The answer is the
        track of the row that has exactly so many rows below it. */
    method TrackAt(qid: int, i: int) returns (r: Option<int>)
      ensures r == Fetch(List(qid), i)
      ensures r.None? <==> |List(qid)| <= i || List(qid) == []
      ensures r.Some? ==>
        exists p :: Slot(Qid(qid), p) in slots && slots[Slot(Qid(qid), p)].track == r.value
          && CountBelow(slots, Qid(qid), p) == if i < 0 then 0 else i
    {
      var q := Qid(qid);
      var ps := Order(slots, q);
      var skip := if i < 0 then 0 else i;
      OrderEnumerates(slots, q);
      if skip >= |ps| {
        return None;
      }
      TracksAtIndex(slots, q, ps, skip);
      CountBelowIsRank(slots, q, skip);
      return Some(slots[Slot(q, ps[skip])].track);
    }

    /** saveEngineState: loading gives the saved state back exactly when it was fit to be stored. */
    method SaveEngineState(state: EngineRow)
      modifies this`row
      ensures row == Stored(state)
      ensures Loaded(row, queues) == state <==> Storable(state, queues)
    {
      row := state;
      if !state.shuffle {
        row := row.(perm := []);
      }
      if state.activeQueue <= 0 {
        row := row.(activeQueue := 1);
      }
      if state.positionMs < 0 {
        row := row.(positionMs := 0);
      }
    }

    method SaveEngineShuffle(enabled: bool, perm: seq<int>, cursor: int)
      modifies this`row
      ensures row == old(row).(shuffle := enabled, perm := if enabled then perm else [], cursor := cursor)
    {
      row := row.(shuffle := enabled, perm := if enabled then perm else [], cursor := cursor);
    }

    method SaveEngineCursor(cursor: int)
      modifies this`row
      ensures row == old(row).(cursor := cursor)
    {
      row := row.(cursor := cursor);
    }

    method LoadEngineState() returns (state: EngineRow)
      ensures state == Loaded(row, queues)
    {
      state := row;
      if state.activeQueue <= 0 {
        state := state.(activeQueue := 1);
      }
      if !state.shuffle {
        state := state.(perm := []);
      }
      if state.positionMs < 0 {
        state := state.(positionMs := 0);
      }
      if state.activeQueue !in queues {
        state := state.(activeQueue := 1);
      }
    }
  }

  function Fetch(list: seq<int>, i: int): Option<int> {
    var off := if i < 0 then 0 else i;
    if off < |list| then Some(list[off]) else None
  }

  /** What saveEngineState leaves in the row. */
  function Stored(state: EngineRow): EngineRow {
    state.(perm := if state.shuffle then state.perm else [],
           activeQueue := if state.activeQueue > 0 then state.activeQueue else 1,
           positionMs := if state.positionMs >= 0 then state.positionMs else 0)
  }

  /** No arrangement without shuffle, an existing active queue or queue 1, a position from 0 on. */
  predicate Storable(state: EngineRow, queues: set<int>) {
    && (!state.shuffle ==> state.perm == [])
    && (state.activeQueue == 1 || (state.activeQueue > 0 && state.activeQueue in queues))
    && state.positionMs >= 0
  }

  /** The first id the table does not take decides the answer. */
  ghost predicate Refused(tids: seq<int>, tracks: set<int>, r: Status) {
    exists k: nat ::
      && k < |tids| && tids[k] !in tracks && (forall t :: t in tids[..k] ==> t in tracks)
      && r == Err(if tids[k] == 0 then InvalidArg else Internal)
  }

  /** How a batch fails: busy if it cannot begin, then by the first refused id, then by its COMMIT. */
  ghost predicate BatchFails(tids: seq<int>, tracks: set<int>, begins: bool, commits: bool, r: Status) {
    if !begins then r == Err(Busy)
    else Refused(tids, tracks, r) || ((forall t :: t in tids ==> t in tracks) && !commits && r == Err(Internal))
  }

  /** What loadEngineState makes of the row. */
  function Loaded(row: EngineRow, queues: set<int>): EngineRow {
    row.(activeQueue := if row.activeQueue > 0 && row.activeQueue in queues then row.activeQueue else 1,
         perm := if row.shuffle then row.perm else [],
         positionMs := if row.positionMs < 0 then 0 else row.positionMs)
  }

  /** What a row cannot hold is cleaned up on the way in or on the way out, with the same result, once and for all. */
  lemma CleanedOnce(state: EngineRow, queues: set<int>)
    ensures Loaded(Stored(state), queues) == Loaded(state, queues)
    ensures 1 in queues ==> Storable(Loaded(state, queues), queues)
    ensures Loaded(state, queues).activeQueue == state.activeQueue || Loaded(state, queues).activeQueue == 1
  {
  }

  /** Whether or not the shift went through, the listing and the rank of `pos` are what they were. */
  lemma MadeRoom(before: Slots, after: Slots, q: int, pos: int, shifted: bool)
    requires if shifted then ShiftedUp(before, after, q, pos) else after == before
    ensures SameElsewhere(before, after, q) && (shifted ==> Slot(q, pos) !in after)
    ensures Listing(after, q) == Listing(before, q)
    ensures CountBelow(after, q, pos) == CountBelow(before, q, pos)
  {
    if shifted {
      ShiftedUpListing(before, after, q, pos);
    }
  }

  lemma FilledContiguous(before: Slots, after: Slots, q: int, pos: nat, item: Item, shifted: bool)
    requires Contiguous(before, q) && pos <= |Order(before, q)| && Slot(q, pos) !in after
    requires if shifted then ShiftedUp(before, after, q, pos) else after == before
    ensures Contiguous(after[Slot(q, pos) := item], q) && CountBelow(before, q, pos) == pos
  {
    ContiguousRank(before, q, pos);
    InsertListing(after, q, pos, item);
    if shifted {
      ShiftedUpListing(before, after, q, pos);
      LiftedCountsUp(Order(before, q), pos);
    } else {
      OrderEnumerates(before, q);
      forall k | 0 <= k < |Order(before, q)|
        ensures Slot(q, k) in before
      {
        assert Slot(q, Order(before, q)[k]) in before;
      }
    }
  }

  lemma Filled(before: Slots, after: Slots, q: int, pos: nat, item: Item, shifted: bool)
    requires Slot(q, pos) !in after
    requires if shifted then ShiftedUp(before, after, q, pos) else after == before
    ensures CountBelow(before, q, pos) <= |Listing(before, q)|
    ensures Listing(after[Slot(q, pos) := item], q)
         == InsertAt(Listing(before, q), CountBelow(before, q, pos), item.track)
    ensures Contiguous(before, q) && pos <= |Listing(before, q)| ==>
              Contiguous(after[Slot(q, pos) := item], q) && CountBelow(before, q, pos) == pos
  {
    MadeRoom(before, after, q, pos, shifted);
    InsertListing(after, q, pos, item);
    OrderEnumerates(before, q);
    if Contiguous(before, q) && pos <= |Order(before, q)| {
      FilledContiguous(before, after, q, pos, item, shifted);
    }
  }

  /** The INSERT after the shift, refused or not. */
  lemma InsertTried(before: Slots, roomy: Slots, after: Slots, q: int, pos: nat, item: Item, shifted: bool)
    requires if shifted then ShiftedUp(before, roomy, q, pos) else roomy == before
    requires after == roomy || (Slot(q, pos) !in roomy && after == roomy[Slot(q, pos) := item])
    ensures after == roomy ==> Listing(after, q) == Listing(before, q)
    ensures after != roomy ==>
              && CountBelow(before, q, pos) <= |Listing(before, q)|
              && Listing(after, q) == InsertAt(Listing(before, q), CountBelow(before, q, pos), item.track)
              && (Contiguous(before, q) && pos <= |Listing(before, q)| ==>
                    Contiguous(after, q) && CountBelow(before, q, pos) == pos)
    ensures forall other :: other != q ==> Listing(after, other) == Listing(before, other)
  {
    MadeRoom(before, roomy, q, pos, shifted);
    OtherListingsKept(before, after, q);
    if after != roomy {
      Filled(before, roomy, q, pos, item, shifted);
    }
  }

  /** A stored position has a rank in the order; deleting and shifting there removes that entry. */
  lemma RankOf(slots: Slots, q: int, pos: int) returns (i: nat)
    requires Slot(q, pos) in slots
    ensures i == CountBelow(slots, q, pos) && i < |Order(slots, q)| && Order(slots, q)[i] == pos
    ensures Contiguous(slots, q) ==> i == pos && CountsUp(Closed(Order(slots, q), i))
  {
    OrderEnumerates(slots, q);
    var ps := Order(slots, q);
    i :| 0 <= i < |ps| && ps[i] == pos;
    CountBelowIsRank(slots, q, i);
    if Contiguous(slots, q) {
      ClosedCountsUp(ps, i);
    }
  }

  lemma DequeueEffect(before: Slots, after: Slots, q: int)
    requires Order(before, q) != []
    requires ShiftedDown(before - {Slot(q, Order(before, q)[0])}, after, q, Order(before, q)[0])
    ensures Slot(q, Order(before, q)[0]) in before && |Listing(before, q)| > 0
    ensures before[Slot(q, Order(before, q)[0])].track == Listing(before, q)[0]
    ensures Listing(after, q) == Listing(before, q)[1..]
    ensures Contiguous(before, q) ==> Contiguous(after, q)
  {
    OrderEnumerates(before, q);
    TracksAtIndex(before, q, Order(before, q), 0);
    RemovalListing(before, after, q, 0);
    if Contiguous(before, q) {
      ClosedCountsUp(Order(before, q), 0);
    }
  }

  lemma ListedTracksExist(slots: Slots, q: int, tracks: set<int>)
    requires forall s :: s in slots ==> slots[s].track in tracks
    ensures forall t :: t in Listing(slots, q) ==> t in tracks
  {
    OrderEnumerates(slots, q);
    var ps := Order(slots, q);
    forall k | 0 <= k < |ps|
      ensures Listing(slots, q)[k] in tracks
    {
      TracksAtIndex(slots, q, ps, k);
    }
  }

  lemma HitsAreListed(slots: Slots, q: int, tid: int, hits: set<int>)
    requires forall p :: p in hits <==> Slot(q, p) in slots && slots[Slot(q, p)].track == tid
    ensures hits == {} <==> tid !in Listing(slots, q)
  {
    var ps := Order(slots, q);
    OrderEnumerates(slots, q);
    NonEmpty(hits);
    forall p | p in hits
      ensures tid in Listing(slots, q)
    {
      var k :| 0 <= k < |ps| && ps[k] == p;
      TracksAtIndex(slots, q, ps, k);
      assert Listing(slots, q)[k] == tid;
    }
    forall k | 0 <= k < |ps| && Listing(slots, q)[k] == tid
      ensures ps[k] in hits
    {
      TracksAtIndex(slots, q, ps, k);
    }
  }

  lemma FirstHitIsFirstListed(slots: Slots, q: int, tid: int, hits: set<int>)
    requires forall p :: p in hits <==> Slot(q, p) in slots && slots[Slot(q, p)].track == tid
    requires hits != {}
    ensures FirstIndex(Listing(slots, q), tid) == Some(CountBelow(slots, q, Min(hits)))
  {
    var pos := Min(hits);
    var i := RankOf(slots, q, pos);
    var ps := Order(slots, q);
    var list := Listing(slots, q);
    OrderEnumerates(slots, q);
    forall k | 0 <= k < i
      ensures list[..i][k] != tid
    {
      assert ps[k] < pos;
      assert ps[k] !in hits;
      TracksAtIndex(slots, q, ps, k);
    }
    TracksAtIndex(slots, q, ps, i);
    FirstIndexUnique(list, tid, i);
  }
}
