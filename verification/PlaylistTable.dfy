/** The playlist_items table: one row per (playlist, track), with a position that nothing constrains. */
module PlaylistTable {
  import opened Common
  import opened Sequences
  import SlotTable

  datatype Key = Key(playlist: int, track: int)

  type Rows = map<Key, int>

  /** Within each playlist no two tracks share a position. */
  ghost predicate DistinctPositions(rows: Rows) {
    forall a, b :: a in rows && b in rows && a.playlist == b.playlist && rows[a] == rows[b] ==> a == b
  }

  /** Playlist `pid` holds exactly `list`, at positions 0, 1, ..., n-1. */
  ghost predicate Lays(rows: Rows, pid: int, list: seq<int>) {
    && (forall i :: 0 <= i < |list| ==> Key(pid, list[i]) in rows && rows[Key(pid, list[i])] == i)
    && (forall k :: k in rows && k.playlist == pid ==> 0 <= rows[k] < |list| && list[rows[k]] == k.track)
  }

  /** `a` comes before `b` in its playlist. */
  ghost predicate Before(rows: Rows, a: Key, b: Key)
    requires a in rows && b in rows
  {
    rows[a] < rows[b]
  }

  /** UPDATE ... SET position=position+1 WHERE playlist_id=pid AND position>=pos. */
  function ShiftUp(rows: Rows, pid: int, pos: int): Rows {
    map k | k in rows :: if k.playlist == pid && rows[k] >= pos then rows[k] + 1 else rows[k]
  }

  /** The two UPDATEs of playlistReorder for the track found at `from`. */
  function Reordered(rows: Rows, pid: int, from: int, to: int, track: int): Rows {
    map k | k in rows ::
      if k.playlist != pid then rows[k]
      else if k.track == track then to
      else if from < rows[k] <= to then rows[k] - 1
      else if to <= rows[k] < from then rows[k] + 1
      else rows[k]
  }

  /** COALESCE(MAX(position), -1). */
  function LastPosition(rows: Rows, pid: int): int {
    var ps := SlotTable.Ascending(set k | k in rows && k.playlist == pid :: rows[k]);
    if ps == [] then -1 else ps[|ps| - 1]
  }

  lemma LastPositionBounds(rows: Rows, pid: int)
    ensures forall k :: k in rows && k.playlist == pid ==> rows[k] <= LastPosition(rows, pid)
    ensures LastPosition(rows, pid) == -1
            || exists k :: k in rows && k.playlist == pid && rows[k] == LastPosition(rows, pid)
  {
    var s := set k | k in rows && k.playlist == pid :: rows[k];
    var ps := SlotTable.Ascending(s);
    SlotTable.AscendingSorts(s);
    forall k | k in rows && k.playlist == pid
      ensures rows[k] <= LastPosition(rows, pid)
    {
      assert rows[k] in s;
      assert rows[k] in ps;
      var i :| 0 <= i < |ps| && ps[i] == rows[k];
      assert i == |ps| - 1 || ps[i] < ps[|ps| - 1];
    }
    if ps != [] {
      assert ps[|ps| - 1] in ps;
    }
  }

  lemma ShiftUpKeepsDistinct(rows: Rows, pid: int, pos: int)
    requires DistinctPositions(rows)
    ensures DistinctPositions(ShiftUp(rows, pid, pos))
    ensures forall k :: k in ShiftUp(rows, pid, pos) && k.playlist == pid ==> ShiftUp(rows, pid, pos)[k] != pos
  {
  }

  lemma ReorderKeepsDistinct(rows: Rows, pid: int, from: int, to: int, track: int)
    requires DistinctPositions(rows) && Key(pid, track) in rows && rows[Key(pid, track)] == from
    ensures DistinctPositions(Reordered(rows, pid, from, to, track))
  {
  }

  /** A reorder to any target keeps the relative order of all the other tracks. */
  lemma ReorderKeepsOthersOrder(rows: Rows, pid: int, from: int, to: int, track: int, a: Key, b: Key)
    requires DistinctPositions(rows) && Key(pid, track) in rows && rows[Key(pid, track)] == from
    requires a in rows && b in rows && a.playlist == b.playlist && a != Key(pid, track) && b != Key(pid, track)
    ensures Before(Reordered(rows, pid, from, to, track), a, b) <==> Before(rows, a, b)
  {
  }

  /** The swapped reorder restores every position, gaps or not. */
  lemma ReorderUndone(rows: Rows, pid: int, from: int, to: int, track: int)
    requires DistinctPositions(rows) && Key(pid, track) in rows && rows[Key(pid, track)] == from
    ensures Reordered(Reordered(rows, pid, from, to, track), pid, to, from, track) == rows
  {
  }

  /** On contiguous positions with a target in range a reorder is the sequence move. */
  lemma ReorderIsMove(rows: Rows, pid: int, list: seq<int>, from: nat, to: nat)
    requires Lays(rows, pid, list) && from < |list| && to < |list|
    ensures Lays(Reordered(rows, pid, from, to, list[from]), pid, Move(list, from, to))
  {
    var after := Reordered(rows, pid, from, to, list[from]);
    var moved := Move(list, from, to);
    forall k: nat | k < |list|
      ensures |moved| == |list| && Key(pid, moved[k]) in after && after[Key(pid, moved[k])] == k
    {
      MoveAt(list, from, to, k);
    }
    forall k | k in after && k.playlist == pid
      ensures 0 <= after[k] < |moved| && moved[after[k]] == k.track
    {
      assert |moved| == |list|;
      MoveAt(list, from, to, after[k]);
    }
  }

  lemma InsertLays(rows: Rows, pid: int, list: seq<int>, pos: nat, track: int)
    requires Lays(rows, pid, list) && pos <= |list| && Key(pid, track) !in rows
    ensures Lays(ShiftUp(rows, pid, pos)[Key(pid, track) := pos], pid, InsertAt(list, pos, track))
  {
  }

  /** Making room for a row at `pos`; a negative `pos` stands for the end, where there is room already. */
  function Opened(rows: Rows, pid: int, pos: int): Rows {
    if pos >= 0 then ShiftUp(rows, pid, pos) else rows
  }

  /** The position of a row added at `pos`. */
  function Place(rows: Rows, pid: int, pos: int): int {
    if pos >= 0 then pos else if LastPosition(rows, pid) < 0 then 0 else LastPosition(rows, pid) + 1
  }

  function Added(rows: Rows, pid: int, tid: int, pos: int): Rows {
    Opened(rows, pid, pos)[Key(pid, tid) := Place(rows, pid, pos)]
  }

  lemma AddedKeepsDistinct(rows: Rows, pid: int, tid: int, pos: int)
    requires DistinctPositions(rows)
    ensures DistinctPositions(Opened(rows, pid, pos))
    ensures DistinctPositions(Added(rows, pid, tid, pos))
  {
    LastPositionBounds(rows, pid);
    if pos >= 0 {
      ShiftUpKeepsDistinct(rows, pid, pos);
    }
  }

  /** The room is there even if the row is refused then: nothing stands at the position any more, and the table is as it
      was only if nothing stood at it or behind. */
  lemma RefusedAddLeavesRoom(rows: Rows, pid: int, pos: int)
    requires pos >= 0
    ensures forall k :: k in Opened(rows, pid, pos) && k.playlist == pid ==> Opened(rows, pid, pos)[k] != pos
    ensures Opened(rows, pid, pos) == rows <==> forall k :: k in rows && k.playlist == pid ==> rows[k] < pos
  {
    if k :| k in rows && k.playlist == pid && rows[k] >= pos {
      assert Opened(rows, pid, pos)[k] == rows[k] + 1;
    } else {
      assert Opened(rows, pid, pos) == rows;
    }
  }

  /** With or without gaps, an added track goes right before what stood at its position, or last, and the
      others keep their order. */
  lemma AddedGoesThere(rows: Rows, pid: int, tid: int, pos: int, a: Key, b: Key)
    requires a in rows && b in rows && a.playlist == b.playlist && a != Key(pid, tid) && b != Key(pid, tid)
    ensures var after := Added(rows, pid, tid, pos);
            && (Before(after, a, b) <==> Before(rows, a, b))
            && (a.playlist == pid ==> (Before(after, a, Key(pid, tid)) <==> pos < 0 || rows[a] < pos))
            && (a.playlist != pid ==> after[a] == rows[a])
  {
    LastPositionBounds(rows, pid);
  }

  /** On contiguous positions an append appends, and an insert inserts. */
  lemma AddedInserts(rows: Rows, pid: int, list: seq<int>, tid: int, pos: int)
    requires Lays(rows, pid, list) && Key(pid, tid) !in rows && pos <= |list|
    ensures Lays(Added(rows, pid, tid, pos), pid, if pos < 0 then list + [tid] else InsertAt(list, pos, tid))
  {
    if pos >= 0 {
      InsertLays(rows, pid, list, pos, tid);
    } else {
      AppendLays(rows, pid, list, tid);
    }
  }

  class Playlists {
    var rows: Rows
    var tracks: set<int>
    var playlists: set<int>

    ghost predicate Valid()
      reads this
    {
      DistinctPositions(rows)
    }

    /** INSERT under PRIMARY KEY (playlist_id, track_id) and the two foreign keys. */
    method InsertRow(pid: int, tid: int, pos: int) returns (r: Status)
      modifies this`rows
      ensures r == if tid in tracks && pid in playlists && Key(pid, tid) !in old(rows) then DONE else Err(Internal)
      ensures rows == if r.Ok? then old(rows)[Key(pid, tid) := pos] else old(rows)
    {
      if tid in tracks && pid in playlists && Key(pid, tid) !in rows {
        rows := rows[Key(pid, tid) := pos];
        return DONE;
      }
      return Err(Internal);
    }

    /** playlistAddTrack. There is no transaction: a refused INSERT leaves the shift in place. */
    method AddTrack(pid: int, tid: int, pos: int) returns (r: Status)
      requires Valid()
      modifies this`rows
      ensures Valid()
      ensures r == if pid == 0 || tid == 0 then Err(InvalidArg)
                   else if tid in tracks && pid in playlists && Key(pid, tid) !in old(rows) then DONE
                   else Err(Internal)
      ensures rows == if r.Ok? then Added(old(rows), pid, tid, pos)
                      else if r == Err(Internal) then Opened(old(rows), pid, pos) else old(rows)
    {
      if pid == 0 || tid == 0 {
        return Err(InvalidArg);
      }
      AddedKeepsDistinct(rows, pid, tid, pos);
      var at := pos;
      if pos < 0 {
        at := LastPosition(rows, pid) + 1;
        if at < 0 {
          at := 0;
        }
      } else {
        rows := ShiftUp(rows, pid, pos);
      }
      r := InsertRow(pid, tid, at);
    }

    /** playlistRemoveTrack: the other rows keep their positions, so a gap remains. */
    method RemoveTrack(pid: int, tid: int) returns (r: Status)
      requires Valid()
      modifies this`rows
      ensures Valid()
      ensures r == if pid == 0 || tid == 0 then Err(InvalidArg)
                   else if Key(pid, tid) in old(rows) then DONE else Err(NotFound)
      ensures rows == if r.Ok? then old(rows) - {Key(pid, tid)} else old(rows)
    {
      if pid == 0 || tid == 0 {
        return Err(InvalidArg);
      }
      if Key(pid, tid) !in rows {
        return Err(NotFound);
      }
      rows := rows - {Key(pid, tid)};
      return DONE;
    }

    /** playlistReorder. */
    method Reorder(pid: int, from: int, to: int) returns (r: Status)
      requires Valid()
      modifies this`rows
      ensures Valid()
      ensures pid == 0 ==> r == Err(InvalidArg) && rows == old(rows)
      ensures pid != 0 && from == to ==> r == DONE && rows == old(rows)
      ensures pid != 0 && from != to ==>
        r == if exists t :: Key(pid, t) in old(rows) && old(rows)[Key(pid, t)] == from then DONE else Err(NotFound)
      ensures pid != 0 && from != to ==>
        forall t :: Key(pid, t) in old(rows) && old(rows)[Key(pid, t)] == from ==>
          rows == Reordered(old(rows), pid, from, to, t)
      ensures r.Err? ==> rows == old(rows)
    {
      if pid == 0 {
        return Err(InvalidArg);
      }
      if from == to {
        return DONE;
      }
      if !exists k :: k in rows && k.playlist == pid && rows[k] == from {
        assert forall t :: Key(pid, t) in rows ==> rows[Key(pid, t)] != from;
        return Err(NotFound);
      }
      var sel :| sel in rows && sel.playlist == pid && rows[sel] == from;
      assert Key(pid, sel.track) == sel;
      ReorderKeepsDistinct(rows, pid, from, to, sel.track);
      if from < to {
        rows := map k | k in rows ::
          if k.playlist == pid && from < rows[k] <= to then rows[k] - 1 else rows[k];
      } else {
        rows := map k | k in rows ::
          if k.playlist == pid && to <= rows[k] < from then rows[k] + 1 else rows[k];
      }
      rows := rows[sel := to];
      assert rows == Reordered(old(rows), pid, from, to, sel.track);
      return DONE;
    }

    /** Reordering there and back leaves the table as it was. */
    method ReorderThereAndBack(pid: int, from: int, to: int) returns (first: Status, second: Status)
      requires Valid()
      modifies this`rows
      ensures Valid() && rows == old(rows)
      ensures first.Ok? ==> second.Ok?
    {
      first := Reorder(pid, from, to);
      if first.Err? {
        return first, first;
      }
      if from != to {
        ghost var t :| Key(pid, t) in old(rows) && old(rows)[Key(pid, t)] == from;
        ReorderUndone(old(rows), pid, from, to, t);
        assert Key(pid, t) in rows && rows[Key(pid, t)] == to;
      }
      second := Reorder(pid, to, from);
    }

    /** Over every run of additions, insertions, removals and reorders positions stay distinct. */
    method Run(ops: seq<Op>)
      requires Valid()
      modifies this`rows
      ensures Valid()
    {
      for i := 0 to |ops|
        invariant Valid()
      {
        match ops[i]
        case Add(p, t, pos) => var _ := AddTrack(p, t, pos);
        case Remove(p, t) => var _ := RemoveTrack(p, t);
        case Shift(p, from, to) => var _ := Reorder(p, from, to);
      }
    }
  }

  datatype Op = Add(pid: int, tid: int, pos: int) | Remove(pid: int, tid: int) | Shift(pid: int, from: int, to: int)

  lemma AppendLays(rows: Rows, pid: int, list: seq<int>, track: int)
    requires Lays(rows, pid, list) && Key(pid, track) !in rows
    ensures LastPosition(rows, pid) == |list| - 1
    ensures Lays(rows[Key(pid, track) := |list|], pid, list + [track])
  {
    LastPositionBounds(rows, pid);
    if |list| > 0 {
      assert rows[Key(pid, list[|list| - 1])] == |list| - 1;
    }
  }
}
