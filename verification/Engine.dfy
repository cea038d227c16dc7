/** The engine object: its queue state, its mirror of the persisted row, and the row itself. */
module Engine {
  import opened Common
  import opened Sequences
  import opened PlayOrder
  import opened Db
  import opened Playback

  /** loadState's clean-up of a cursor. */
  function Norm(perm: seq<int>, cursor: int): nat {
    if cursor < 0 || (perm != [] && cursor >= |perm|) then 0 else cursor
  }

  /** The queue state a fresh engine takes from a row. */
  function Recovered(row: EngineRow): Queue {
    var perm := if row.shuffle then row.perm else [];
    Queue(row.shuffle, row.repeat, perm, Norm(perm, row.cursor))
  }

  /** The row stands for this queue state and this active queue, the cursor apart. */
  ghost predicate Agrees(row: EngineRow, q: Queue, queueId: int) {
    row.shuffle == q.shuffle && row.repeat == q.repeat && row.perm == q.perm && row.activeQueue == queueId
  }

  /** A stored cursor that comes back as the cursor of this queue state. */
  ghost predicate CursorAgrees(stored: int, q: Queue) {
    stored >= 0 && Norm(q.perm, stored) == Norm(q.perm, q.cursor)
  }

  /** The row a fresh engine reads stands for this queue state and this active queue. */
  ghost predicate Persists(row: EngineRow, q: Queue, queueId: int) {
    Agrees(row, q, queueId) && CursorAgrees(row.cursor, q)
  }

  ghost predicate CursorInPerm(q: Queue) {
    q.perm != [] ==> q.cursor <= |q.perm|
  }

  ghost predicate Tidy(q: Queue) {
    CursorInPerm(q) && (!q.shuffle ==> q.perm == [])
  }

  /** No queue step, whatever has happened to the table, lets the cursor leave the arrangement. */
  lemma CursorStaysInPerm(q: Queue, n: nat, drawn: seq<int>, on: bool, count: nat)
    requires Tidy(q) && |drawn| == n
    ensures Tidy(Next(q, n, drawn).queue) && Tidy(Prev(q, n).queue)
    ensures Tidy(PlayOrder.SetShuffle(q, n, on, drawn)) && Tidy(PlayOrder.NoteEnqueued(q, n, count))
  {
  }

  lemma PickSetsQueue(p: Player, pick: Pick, list: seq<int>, resume: bool, env: Env)
    ensures PlayPicked(p, pick, list, resume, env).player.queue == pick.queue
  {
  }

  /** The calls that pick a track keep the queue state tidy. */
  lemma PicksStayTidy(p: Player, list: seq<int>, stopAtEnd: bool, env: Env)
    requires Tidy(p.queue) && |env.drawn| == |list|
    ensures Tidy(Playback.Play(p, list, env).player.queue)
    ensures Tidy(Playback.Advance(p, list, stopAtEnd, env).player.queue)
    ensures Tidy(Back(p, list, env).player.queue)
  {
    CursorStaysInPerm(p.queue, |list|, env.drawn, true, 0);
    PickSetsQueue(p, Next(p.queue, |list|, env.drawn), list, true, env);
    PickSetsQueue(p, Next(p.queue, |list|, env.drawn), list, false, env);
    PickSetsQueue(p, Prev(p.queue, |list|), list, false, env);
  }

  lemma PlayTrackStaysTidy(p: Player, list: seq<int>, track: int, env: Env)
    requires Tidy(p.queue) && |env.drawn| == |list|
    ensures Tidy(Playback.PlayTrack(p, list, track, env).player.queue)
  {
    if track > 0 && env.locked && track in list {
      var i := FirstIndex(list, track).value;
      var q := if p.queue.shuffle && p.queue.perm == []
               then PlayOrder.SetShuffle(p.queue, |list|, true, env.drawn) else p.queue;
      var c := CursorOf(q, i);
      if c.Some? {
        CursorStaysInPerm(q.(cursor := c.value), |list|, env.drawn, true, 0);
        PickSetsQueue(p.(queue := q), Next(q.(cursor := c.value), |list|, env.drawn), list, false, env);
      }
    }
  }

  /** After a crash a fresh engine recovers shuffle, repeat, arrangement, active queue and cursor; a cursor
      parked at the end of an arrangement comes back as 0, and that is the only change. */
  lemma RecoveryRestores(row: EngineRow, q: Queue, queueId: int, queues: set<int>)
    requires Persists(row, q, queueId) && queueId > 0 && queueId in queues
    requires !q.shuffle ==> q.perm == []
    requires CursorInPerm(q)
    ensures Recovered(Loaded(row, queues)) == AfterCrash(q)
    ensures Loaded(row, queues).activeQueue == queueId
  {
  }

  /** Whatever the row holds, the recovered cursor is at an entry of a non-empty arrangement: the stored one if that is
      at an entry, the first otherwise. */
  lemma RecoveredIsUsable(row: EngineRow)
    ensures var q := Recovered(row);
            && (q.perm != [] ==> q.cursor < |q.perm|) && (!q.shuffle ==> q.perm == [])
            && (q.cursor == row.cursor
                || (q.cursor == 0 && (row.cursor < 0 || (row.shuffle && row.perm != [] && |row.perm| <= row.cursor))))
  {
  }

  class Engine {
    const db: Database

    // QueueState
    var shuffle: bool
    var repeat: Repeat
    var perm: seq<int>
    var cursor: nat
    var queueId: int

    // EngineState, the in-memory copy of the row
    var stShuffle: bool
    var stRepeat: Repeat
    var stCursor: int
    var stTrack: int
    var stQueue: int
    var stPositionMs: nat

    var hasCurrent: bool
    var currentTrack: int
    var mode: Mode
    var pausePosMs: nat
    var hasDecoder: bool

    ghost function QueueState(): Queue
      reads this
    {
      Queue(shuffle, repeat, perm, cursor)
    }

    ghost function Abs(): Player
      reads this
    {
      Player(QueueState(), if hasCurrent then Some(currentTrack) else None, mode, stTrack, stPositionMs, pausePosMs,
             hasDecoder)
    }

    ghost function List(): seq<int>
      reads this, db
    {
      db.List(queueId)
    }

    /** The row, the mirror and the queue state agree, so a crash now loses nothing of them. */
    ghost predicate Valid()
      reads this, db
    {
      Loose() && CursorSaved()
    }

    /** What holds even while a call is changing things. */
    ghost predicate Sane()
      reads this, db
    {
      db.Valid() && queueId != 0 && stQueue > 0 && stQueue in db.queues && (!shuffle ==> perm == [])
    }

    /** Row, mirror and queue state agree on everything but the cursor. */
    ghost predicate Loose()
      reads this, db
    {
      Sane() && stShuffle == shuffle && stRepeat == repeat && Agrees(db.row, QueueState(), stQueue) && TrackSaved()
    }

    /** The row holds the last track and its position; a negative stored position stands for 0. */
    ghost predicate TrackSaved()
      reads this, db
    {
      db.row.currentTrack == stTrack && stPositionMs == if db.row.positionMs < 0 then 0 else db.row.positionMs
    }

    /** The mirror is ready to be written to the row. */
    ghost predicate Mirrored()
      reads this, db
    {
      Sane() && stShuffle == shuffle && stRepeat == repeat && CursorAgrees(stCursor, QueueState())
    }

    ghost predicate CursorSaved()
      reads this, db
    {
      CursorAgrees(stCursor, QueueState()) && CursorAgrees(db.row.cursor, QueueState())
    }

    /** The cursor addresses an item, so taking the next one moves and saves it. */
    ghost predicate AtItem()
      reads this, db
    {
      cursor < if shuffle then |perm| else |List()|
    }

    /** The queue being played is the one the row names. Only play with another queue id breaks this. */
    ghost predicate InStep()
      reads this
    {
      stQueue == queueId
    }

    constructor (db: Database)
      ensures this.db == db && mode == Stopped && !hasCurrent && pausePosMs == 0 && !hasDecoder
    {
      this.db := db;
      shuffle, repeat, perm, cursor, queueId := false, Off, [], 0, 1;
      stShuffle, stRepeat, stCursor, stTrack, stQueue, stPositionMs := false, Off, 0, 0, 1, 0;
      hasCurrent, currentTrack, mode, pausePosMs, hasDecoder := false, 0, Stopped, 0, false;
    }

    method LoadState()
      modifies this`shuffle, this`repeat, this`perm, this`cursor, this`queueId, this`stShuffle, this`stRepeat,
               this`stCursor, this`stTrack, this`stQueue, this`stPositionMs
      ensures QueueState() == Recovered(Loaded(db.row, db.queues))
      ensures queueId == if Loaded(db.row, db.queues).activeQueue in db.queues
                         then Loaded(db.row, db.queues).activeQueue else 1
      ensures stTrack == db.row.currentTrack && stPositionMs == Loaded(db.row, db.queues).positionMs
      ensures Abs() == old(Abs()).(queue := QueueState(), lastTrack := stTrack, resumeMs := stPositionMs)
      ensures (db.Valid() && db.row.activeQueue > 0 && db.row.activeQueue in db.queues
               && (!db.row.shuffle ==> db.row.perm == []) && db.row.cursor >= 0) ==> Valid()
    {
      LoadMirror();
      LoadQueue();
      if queueId !in db.queues {
        queueId := 1;
        stQueue := 1;
      }
    }

    /** The first half of loadState: the row becomes the mirror, its arrangement the queue's. */
    method LoadMirror()
      modifies this`perm, this`stShuffle, this`stRepeat, this`stCursor, this`stTrack, this`stQueue, this`stPositionMs
      ensures var state := Loaded(db.row, db.queues);
              && perm == state.perm && stShuffle == state.shuffle && stRepeat == state.repeat
              && stCursor == state.cursor && stTrack == state.currentTrack && stQueue == state.activeQueue
              && stPositionMs == state.positionMs
      ensures Abs() == old(Abs()).(queue := QueueState(), lastTrack := stTrack, resumeMs := stPositionMs)
    {
      var loaded := db.LoadEngineState();
      stShuffle, stRepeat, stCursor := loaded.shuffle, loaded.repeat, loaded.cursor;
      stTrack, stQueue, stPositionMs := loaded.currentTrack, loaded.activeQueue, loaded.positionMs;
      perm := loaded.perm;
    }

    /** The second half: the mirror becomes the queue state. */
    method LoadQueue()
      modifies this`shuffle, this`repeat, this`cursor, this`queueId
      ensures shuffle == stShuffle && repeat == stRepeat && cursor == Norm(perm, stCursor) && queueId == stQueue
      ensures Abs() == old(Abs()).(queue := QueueState())
    {
      shuffle := stShuffle;
      repeat := stRepeat;
      cursor := if stCursor < 0 then 0 else stCursor;
      if perm != [] && cursor >= |perm| {
        cursor := 0;
      }
      queueId := stQueue;
    }

    method SaveState(clockMs: nat)
      requires stQueue > 0 && (!stShuffle ==> perm == [])
      modifies this`stPositionMs, db`row
      ensures db.row == EngineRow(stShuffle, stRepeat, stCursor, stTrack, stQueue, perm, stPositionMs)
      ensures stPositionMs == if hasCurrent then clockMs else old(stPositionMs)
      ensures Mirrored() ==> Valid()
      ensures Abs() == old(Abs()).(resumeMs := if hasCurrent then clockMs else old(stPositionMs))
    {
      var position := if hasCurrent then clockMs else stPositionMs;
      db.SaveEngineState(EngineRow(stShuffle, stRepeat, stCursor, stTrack, stQueue, perm, position));
      stPositionMs := position;
    }

    method PersistShuffleBlobLocked()
      modifies this`stShuffle, this`stCursor, db`row
      ensures stShuffle == shuffle && stCursor == cursor
      ensures db.row == old(db.row).(shuffle := shuffle, perm := if shuffle then perm else [], cursor := cursor)
      ensures Sane() && stRepeat == repeat == db.row.repeat && db.row.activeQueue == stQueue && TrackSaved() ==> Valid()
    {
      db.SaveEngineShuffle(shuffle, perm, cursor);
      stShuffle := shuffle;
      stCursor := cursor;
    }

    method PersistCursorLocked()
      modifies this`stCursor, db`row
      ensures stCursor == cursor
      ensures db.row == old(db.row).(cursor := cursor)
      ensures old(Loose()) ==> Valid()
      ensures Abs() == old(Abs())
    {
      db.SaveEngineCursor(cursor);
      stCursor := cursor;
    }

    method SetShuffleLocked(on: bool, drawn: seq<int>)
      requires Valid() && IsPerm(drawn, |List()|)
      modifies this`shuffle, this`perm, this`cursor, this`stShuffle, this`stCursor, db`row
      ensures Valid()
      ensures QueueState() == PlayOrder.SetShuffle(old(QueueState()), |List()|, on, drawn)
    {
      if shuffle == on && perm != [] {
        return;
      }
      if on {
        perm := [];
        cursor := 0;
        var cnt := db.Count(queueId);
        if cnt == 0 {
          shuffle := true;
          PersistShuffleBlobLocked();
          return;
        }
        perm := drawn;
        shuffle := true;
        PersistShuffleBlobLocked();
      } else {
        perm := [];
        cursor := 0;
        shuffle := false;
        PersistShuffleBlobLocked();
      }
    }

    /** The track the listing holds at a picked position. */
    ghost function Picked(position: Option<int>): Result<int>
      reads this, db
    {
      if position.None? then Err(NotFound)
      else match Fetch(List(), position.value) case None => Err(NotFound) case Some(t) => Ok(t)
    }

    method FetchTrackByPosLocked(pos: int) returns (r: Result<int>)
      ensures r == Picked(Some(pos))
    {
      var t := db.TrackAt(queueId, pos);
      match t
      case None => r := Err(NotFound);
      case Some(id) => r := Ok(id);
    }

    /** queueNextLocked with shuffle on. */
    method NextInArrangement(drawn: seq<int>) returns (r: Result<int>)
      requires Loose() && (CursorSaved() || AtItem()) && IsPerm(drawn, |List()|) && shuffle
      modifies this`shuffle, this`perm, this`cursor, this`stShuffle, this`stCursor, db`row
      ensures Valid()
      ensures QueueState() == Next(old(QueueState()), |List()|, drawn).queue
      ensures r == Picked(Next(old(QueueState()), |List()|, drawn).position)
    {
      if perm == [] {
        var cnt := db.Count(queueId);
        if cnt == 0 {
          return Err(NotFound);
        }
        SetShuffleLocked(true, drawn);
      }
      r := TakeOrWrap(drawn);
    }

    /** Once there is an arrangement: the entry under the cursor, the last one again, or the head. */
    method TakeOrWrap(drawn: seq<int>) returns (r: Result<int>)
      requires Loose() && (CursorSaved() || AtItem()) && IsPerm(drawn, |List()|) && shuffle && perm != []
      modifies this`shuffle, this`perm, this`cursor, this`stShuffle, this`stCursor, db`row
      ensures Valid()
      ensures QueueState() == Take(old(QueueState()), |old(perm)|).queue && perm == old(perm)
      ensures r == Picked(Take(old(QueueState()), |old(perm)|).position)
    {
      if cursor >= |perm| {
        if repeat.One? {
          var idx := |perm| - 1;
          if cursor > 0 && cursor <= |perm| {
            idx := cursor - 1;
          }
          r := FetchTrackByPosLocked(perm[idx]);
          return;
        }
        Wrap(drawn);
      }
      r := TakeEntry();
    }

    /** Turning shuffle on again keeps the arrangement; only the cursor goes back. */
    method Wrap(drawn: seq<int>)
      requires Valid() && IsPerm(drawn, |List()|) && shuffle && perm != []
      modifies this`shuffle, this`perm, this`cursor, this`stShuffle, this`stCursor, db`row
      ensures Valid() && QueueState() == old(QueueState()).(cursor := 0)
    {
      SetShuffleLocked(true, drawn);
      cursor := 0;
      PersistCursorLocked();
    }

    method TakeEntry() returns (r: Result<int>)
      requires Loose() && shuffle && cursor < |perm|
      modifies this`cursor, this`stCursor, db`row
      ensures Valid() && cursor == old(cursor) + 1 && r == Picked(Some(perm[old(cursor)]))
    {
      var pos := perm[cursor];
      cursor := cursor + 1;
      PersistCursorLocked();
      r := FetchTrackByPosLocked(pos);
    }

    /** queueNextLocked with shuffle off. */
    method NextInLine(drawn: seq<int>) returns (r: Result<int>)
      requires Loose() && (CursorSaved() || AtItem()) && IsPerm(drawn, |List()|) && !shuffle
      modifies this`cursor, this`stCursor, db`row
      ensures Valid()
      ensures QueueState() == Next(old(QueueState()), |List()|, drawn).queue
      ensures r == Picked(Next(old(QueueState()), |List()|, drawn).position)
    {
      var cnt := db.Count(queueId);
      if cnt == 0 {
        return Err(NotFound);
      }
      if cursor >= cnt {
        if repeat.One? {
          var idx := cnt - 1;
          if cursor > 0 && cursor <= cnt {
            idx := cursor - 1;
          }
          r := FetchTrackByPosLocked(idx);
          return;
        }
        cursor := 0;
        PersistCursorLocked();
      }
      r := TakeListed();
    }

    method TakeListed() returns (r: Result<int>)
      requires Loose() && !shuffle && cursor < |List()|
      modifies this`cursor, this`stCursor, db`row
      ensures Valid() && cursor == old(cursor) + 1 && r == Picked(Some(old(cursor)))
    {
      r := FetchTrackByPosLocked(cursor);
      if r.Ok? {
        cursor := cursor + 1;
        PersistCursorLocked();
      }
    }

    method QueueNextLocked(drawn: seq<int>) returns (r: Result<int>)
      requires Loose() && (CursorSaved() || AtItem()) && IsPerm(drawn, |List()|)
      modifies this`shuffle, this`perm, this`cursor, this`stShuffle, this`stCursor, db`row
      ensures Valid()
      ensures QueueState() == Next(old(QueueState()), |List()|, drawn).queue
      ensures Abs() == old(Abs()).(queue := Next(old(QueueState()), |List()|, drawn).queue)
      ensures r == Picked(Next(old(QueueState()), |List()|, drawn).position)
    {
      if shuffle {
        r := NextInArrangement(drawn);
      } else {
        r := NextInLine(drawn);
      }
    }

    /** queuePrevLocked with shuffle off. */
    method PrevInLine() returns (r: Result<int>)
      requires Valid() && !shuffle
      modifies this`cursor, this`stCursor, db`row
      ensures Valid()
      ensures QueueState() == Prev(old(QueueState()), |List()|).queue
      ensures r == Picked(Prev(old(QueueState()), |List()|).position)
    {
      var cnt := db.Count(queueId);
      if cnt == 0 || cursor == 0 {
        return Err(NotFound);
      }
      StepBack(cnt);
      r := TakeListed();
    }

    /** The cursor arithmetic of queuePrevLocked over `len` entries. */
    method StepBack(len: nat)
      requires len > 0 && cursor > 0
      modifies this`cursor
      ensures cursor < len
      ensures cursor == if old(cursor) == 1 then 0 else if old(cursor) - 2 < len then old(cursor) - 2 else len - 1
    {
      if cursor <= 1 {
        cursor := 0;
      } else {
        cursor := cursor - 2;
        if cursor >= len {
          cursor := len - 1;
        }
      }
    }

    /** queuePrevLocked with shuffle on. */
    method PrevInArrangement() returns (r: Result<int>)
      requires Valid() && shuffle
      modifies this`cursor, this`stCursor, db`row
      ensures Valid()
      ensures QueueState() == Prev(old(QueueState()), |List()|).queue
      ensures r == Picked(Prev(old(QueueState()), |List()|).position)
    {
      if perm == [] || cursor == 0 {
        return Err(NotFound);
      }
      StepBack(|perm|);
      r := TakeEntry();
    }

    method QueuePrevLocked() returns (r: Result<int>)
      requires Valid()
      modifies this`cursor, this`stCursor, db`row
      ensures Valid()
      ensures QueueState() == Prev(old(QueueState()), |List()|).queue
      ensures Abs() == old(Abs()).(queue := Prev(old(QueueState()), |List()|).queue)
      ensures r == Picked(Prev(old(QueueState()), |List()|).position)
    {
      if shuffle {
        r := PrevInArrangement();
      } else {
        r := PrevInLine();
      }
    }

    /** The first half of doPlayTrack: drop the old decoder and output, open the new ones, seek. */
    method OpenTrack(startMs: nat, env: Env) returns (r: Status, from: nat)
      modifies this`hasDecoder
      ensures r == if env.Starts() then DONE else if env.opening.NoFile? then Err(NotFound) else Err(Device)
      ensures hasDecoder == (env.Starts() && !env.opening.NoFile?)
      ensures from == if env.opening.NoFile? || env.seeks then startMs else 0
    {
      hasDecoder := false;
      from := startMs;
      if !env.opening.NoFile? {
        hasDecoder := true;
        from := if env.seeks then startMs else 0;
      }
      r := DONE;
      if env.opening.NoFile? && !env.simulated {
        r := Err(NotFound);
      } else if env.opening.NoDevice? && !env.simulated {
        hasDecoder := false;
        r := Err(Device);
      }
    }

    method DoPlayTrack(track: int, startMs: nat, env: Env) returns (r: Status)
      requires Valid()
      modifies this`hasCurrent, this`currentTrack, this`mode, this`pausePosMs, this`stTrack, this`stCursor,
               this`stPositionMs, this`hasDecoder, db`row
      ensures Valid()
      ensures Outcome(Abs(), r) == Begin(old(Abs()), track, startMs, env)
    {
      var from;
      r, from := OpenTrack(startMs, env);
      if r.Err? {
        return;
      }
      StartTrack(track, from, env.clockMs);
    }

    /** The second half of doPlayTrack. */
    method StartTrack(track: int, from: nat, clockMs: nat)
      requires Valid()
      modifies this`hasCurrent, this`currentTrack, this`mode, this`pausePosMs, this`stTrack, this`stCursor,
               this`stPositionMs, db`row
      ensures Valid()
      ensures Abs() == old(Abs()).(loaded := Some(track), mode := Playing, lastTrack := track,
                                   resumeMs := clockMs, startMs := from)
    {
      SetCurrent(track, from);
      stTrack := track;
      stCursor := cursor;
      SaveState(clockMs);
    }

    method SetCurrent(track: int, from: nat)
      modifies this`hasCurrent, this`currentTrack, this`mode, this`pausePosMs
      ensures hasCurrent && Abs() == old(Abs()).(loaded := Some(track), mode := Playing, startMs := from)
    {
      currentTrack := track;
      hasCurrent := true;
      mode := Playing;
      pausePosMs := from;
    }

    /** The shared tail of play, playTrack and advanceLocked: take the next entry and play it, from the
        resume position if `resume` and it is the track that position belongs to. */
    method PlayFollowing(resume: bool, env: Env) returns (r: Status)
      requires Loose() && (CursorSaved() || AtItem()) && IsPerm(env.drawn, |List()|)
      modifies this`shuffle, this`perm, this`cursor, this`stShuffle, this`stCursor, this`hasCurrent,
               this`currentTrack, this`mode, this`pausePosMs, this`stTrack, this`stPositionMs, this`hasDecoder, db`row
      ensures Valid()
      ensures Outcome(Abs(), r)
           == PlayPicked(old(Abs()), Next(old(QueueState()), |List()|, env.drawn), List(), resume, env)
    {
      var next := QueueNextLocked(env.drawn);
      if next.Err? {
        return Err(next.code);
      }
      var from := 0;
      if resume && next.value == stTrack && stPositionMs > 0 {
        from := stPositionMs;
      }
      r := DoPlayTrack(next.value, from, env);
    }

    /** play. The service passes the active queue; 0 stands for queue 1. Another queue id is played, but the
        mirror and the row go on naming the old queue. */
    method Play(qid: int, env: Env) returns (r: Status)
      requires Valid() && IsPerm(env.drawn, |db.List(qid)|)
      modifies this`queueId, this`shuffle, this`perm, this`cursor, this`stShuffle, this`stCursor, this`hasCurrent,
               this`currentTrack, this`mode, this`pausePosMs, this`stTrack, this`stPositionMs, this`hasDecoder, db`row
      ensures Valid()
      ensures queueId == if old(mode).Stopped? && env.locked then Qid(qid) else old(queueId)
      ensures Outcome(Abs(), r) == Playback.Play(old(Abs()), db.List(qid), env)
    {
      if mode == Paused {
        mode := Playing;
        return DONE;
      }
      if mode == Playing {
        r := RestartTrack(env.seeks);
        return;
      }
      r := PlayStopped(qid, env);
    }

    /** A stopped engine starts the next item of the queue. */
    method PlayStopped(qid: int, env: Env) returns (r: Status)
      requires Valid() && mode == Stopped && IsPerm(env.drawn, |db.List(qid)|)
      modifies this`queueId, this`shuffle, this`perm, this`cursor, this`stShuffle, this`stCursor, this`hasCurrent,
               this`currentTrack, this`mode, this`pausePosMs, this`stTrack, this`stPositionMs, this`hasDecoder, db`row
      ensures Valid()
      ensures queueId == if env.locked then Qid(qid) else old(queueId)
      ensures Outcome(Abs(), r) == Playback.Play(old(Abs()), db.List(qid), env)
    {
      if !env.locked {
        return Err(Busy);
      }
      queueId := Qid(qid);
      r := PlayFollowing(true, env);
    }

    method PlayTrack(track: int, env: Env) returns (r: Status)
      requires Valid() && IsPerm(env.drawn, |List()|)
      modifies this`shuffle, this`perm, this`cursor, this`stShuffle, this`stCursor, this`hasCurrent,
               this`currentTrack, this`mode, this`pausePosMs, this`stTrack, this`stPositionMs, this`hasDecoder, db`row
      ensures Valid()
      ensures Outcome(Abs(), r) == Playback.PlayTrack(old(Abs()), List(), track, env)
    {
      if track <= 0 {
        return Err(InvalidArg);
      }
      if !env.locked {
        return Err(Busy);
      }
      var idx := db.IndexOf(queueId, track);
      if idx.None? {
        return Err(NotFound);
      }
      r := PlayItem(idx.value, env);
    }

    /** playTrack once the item is known. */
    method PlayItem(i: nat, env: Env) returns (r: Status)
      requires Valid() && IsPerm(env.drawn, |List()|) && i < |List()|
      modifies this`shuffle, this`perm, this`cursor, this`stShuffle, this`stCursor, this`hasCurrent,
               this`currentTrack, this`mode, this`pausePosMs, this`stTrack, this`stPositionMs, this`hasDecoder, db`row
      ensures Valid()
      ensures Outcome(Abs(), r) == Playback.PlayItem(old(Abs()), List(), i, env)
    {
      var at := CursorFor(i, env.drawn);
      if at.None? {
        return Err(NotFound);
      }
      r := PlayFromCursor(at.value, env);
    }

    /** The middle of playTrack: the cursor that addresses item `i`, drawing an arrangement if need be. */
    method CursorFor(i: nat, drawn: seq<int>) returns (at: Option<nat>)
      requires Valid() && IsPerm(drawn, |List()|)
      modifies this`shuffle, this`perm, this`cursor, this`stShuffle, this`stCursor, db`row
      ensures Valid()
      ensures QueueState() == if old(shuffle && perm == [])
                              then PlayOrder.SetShuffle(old(QueueState()), |List()|, true, drawn)
                              else old(QueueState())
      ensures Abs() == old(Abs()).(queue := QueueState())
      ensures at == CursorOf(QueueState(), i)
    {
      if !shuffle {
        return Some(i);
      }
      if perm == [] {
        SetShuffleLocked(true, drawn);
      }
      at := FindInPerm(i);
    }

    /** The search loop of playTrack. */
    method FindInPerm(position: int) returns (slot: Option<nat>)
      ensures slot == FirstIndex(perm, position)
    {
      for i := 0 to |perm|
        invariant position !in perm[..i]
      {
        if perm[i] == position {
          FirstIndexUnique(perm, position, i);
          return Some(i);
        }
        TakeOneMore(perm, i);
      }
      assert perm[..|perm|] == perm;
      return None;
    }

    /** The tail of playTrack: move the cursor, take the entry there and play it. */
    method PlayFromCursor(at: nat, env: Env) returns (r: Status)
      requires Valid() && IsPerm(env.drawn, |List()|)
      requires if shuffle then at < |perm| else at < |List()|
      modifies this`shuffle, this`perm, this`cursor, this`stShuffle, this`stCursor, this`hasCurrent,
               this`currentTrack, this`mode, this`pausePosMs, this`stTrack, this`stPositionMs, this`hasDecoder, db`row
      ensures Valid()
      ensures Outcome(Abs(), r)
           == PlayPicked(old(Abs()), Next(old(QueueState()).(cursor := at), |List()|, env.drawn), List(), false, env)
    {
      cursor := at;
      r := PlayFollowing(false, env);
    }

    method Pause(env: Env) returns (r: Status)
      requires Valid()
      modifies this`mode, this`pausePosMs, this`stPositionMs, db`row
      ensures Valid()
      ensures Outcome(Abs(), r) == Playback.Pause(old(Abs()), env)
    {
      if mode != Playing {
        return Err(State);
      }
      pausePosMs := env.clockMs;
      mode := Paused;
      SaveState(env.clockMs);
      return DONE;
    }

    method Resume() returns (r: Status)
      requires Valid()
      modifies this`mode
      ensures Valid()
      ensures Outcome(Abs(), r) == Playback.Resume(old(Abs()))
    {
      if mode != Paused {
        return Err(State);
      }
      mode := Playing;
      return DONE;
    }

    method Stop(env: Env)
      requires Valid()
      modifies this`cursor, this`stCursor, this`mode, this`hasDecoder, this`pausePosMs, this`hasCurrent,
               this`stPositionMs, db`row
      ensures Valid()
      ensures Abs() == Playback.Stop(old(Abs()), env)
    {
      if mode == Stopped {
        return;
      }
      Unload();
      Rewind(env.locked);
      ForgetPosition(env.clockMs);
    }

    method ForgetPosition(clockMs: nat)
      requires Valid() && !hasCurrent
      modifies this`stPositionMs, db`row
      ensures Valid() && Abs() == old(Abs()).(resumeMs := 0)
    {
      stPositionMs := 0;
      SaveState(clockMs);
    }

    method Unload()
      modifies this`mode, this`hasDecoder, this`pausePosMs, this`hasCurrent
      ensures !hasCurrent
      ensures Abs() == old(Abs()).(loaded := None, mode := Stopped, startMs := 0, decoder := false)
    {
      mode := Stopped;
      hasDecoder := false;
      pausePosMs := 0;
      hasCurrent := false;
    }

    /** Give the stopped track back to the queue, if the lock can be had. */
    method Rewind(locked: bool)
      requires Valid()
      modifies this`cursor, this`stCursor, db`row
      ensures Valid()
      ensures Abs() == if locked && old(cursor) > 0
                       then old(Abs()).(queue := old(QueueState()).(cursor := old(cursor) - 1)) else old(Abs())
    {
      if locked && cursor > 0 {
        cursor := cursor - 1;
        PersistCursorLocked();
      }
    }

    method AtEnd() returns (atEnd: bool)
      ensures atEnd == (cursor >= if shuffle then |perm| else |List()|)
    {
      if shuffle {
        atEnd := cursor >= |perm|;
      } else {
        var cnt := db.Count(queueId);
        atEnd := cursor >= cnt;
      }
    }

    /** The natural end of the queue: unload and forget the resume position, cursor parked. */
    method Halt(env: Env)
      requires Valid()
      modifies this`stPositionMs, this`stTrack, this`hasCurrent, this`mode, this`pausePosMs, db`row
      ensures Valid()
      ensures Abs() == old(Abs()).(loaded := None, mode := Stopped, lastTrack := 0, resumeMs := 0, startMs := 0)
    {
      Forget();
      SaveState(env.clockMs);
      mode := Stopped;
      pausePosMs := 0;
    }

    method Forget()
      modifies this`stPositionMs, this`stTrack, this`hasCurrent
      ensures !hasCurrent && stPositionMs == 0
      ensures Abs() == old(Abs()).(loaded := None, lastTrack := 0, resumeMs := 0)
    {
      stPositionMs := 0;
      stTrack := 0;
      hasCurrent := false;
    }

    /** advanceLocked: next() passes stopAtEnd = false, autoNext() true. */
    method Advance(stopAtEnd: bool, env: Env) returns (r: Status)
      requires Valid() && IsPerm(env.drawn, |List()|)
      modifies this`shuffle, this`perm, this`cursor, this`stShuffle, this`stCursor, this`hasCurrent,
               this`currentTrack, this`mode, this`pausePosMs, this`stTrack, this`stPositionMs, this`hasDecoder, db`row
      ensures Valid()
      ensures Outcome(Abs(), r) == Playback.Advance(old(Abs()), List(), stopAtEnd, env)
    {
      if !shuffle && repeat == One && hasCurrent {
        r := RestartTrack(env.seeks);
        return;
      }
      r := MoveOn(stopAtEnd, env);
    }

    /** Halt at the natural end, otherwise play the next item. */
    method MoveOn(stopAtEnd: bool, env: Env) returns (r: Status)
      requires Valid() && (shuffle || repeat != One || !hasCurrent) && IsPerm(env.drawn, |List()|)
      modifies this`shuffle, this`perm, this`cursor, this`stShuffle, this`stCursor, this`hasCurrent,
               this`currentTrack, this`mode, this`pausePosMs, this`stTrack, this`stPositionMs, this`hasDecoder, db`row
      ensures Valid()
      ensures Outcome(Abs(), r) == Playback.Advance(old(Abs()), List(), stopAtEnd, env)
    {
      if !env.locked {
        return Err(Busy);
      }
      if stopAtEnd && repeat == Off {
        var atEnd := AtEnd();
        if atEnd {
          Halt(env);
          return DONE;
        }
      }
      r := PlayFollowing(false, env);
    }

    /** Repeat One in linear order: seek back to the beginning. */
    method RestartTrack(seeks: bool) returns (r: Status)
      modifies this`pausePosMs, this`mode
      ensures r == if !hasDecoder || seeks then DONE else Err(Io)
      ensures Abs() == if r.Ok? then old(Abs()).(mode := Playing, startMs := 0) else old(Abs())
    {
      if hasDecoder && !seeks {
        return Err(Io);
      }
      pausePosMs := 0;
      mode := Playing;
      return DONE;
    }

    method Previous(env: Env) returns (r: Status)
      requires Valid()
      modifies this`shuffle, this`perm, this`cursor, this`stShuffle, this`stCursor, this`hasCurrent,
               this`currentTrack, this`mode, this`pausePosMs, this`stTrack, this`stPositionMs, this`hasDecoder, db`row
      ensures Valid()
      ensures Outcome(Abs(), r) == Back(old(Abs()), List(), env)
    {
      if !env.locked {
        return Err(Busy);
      }
      var next := QueuePrevLocked();
      if next.Err? {
        return Err(next.code);
      }
      r := DoPlayTrack(next.value, 0, env);
    }

    method SetRepeat(m: Repeat, env: Env) returns (r: Status)
      requires Valid()
      modifies this`repeat, this`stRepeat, this`stCursor, this`stPositionMs, db`row
      ensures Valid()
      ensures Outcome(Abs(), r) == Playback.SetRepeat(old(Abs()), m, env)
    {
      if !env.locked {
        return Err(Busy);
      }
      repeat := m;
      stRepeat := m;
      stCursor := cursor;
      SaveState(env.clockMs);
      return DONE;
    }

    method SetShuffle(on: bool, env: Env) returns (r: Status)
      requires Valid() && IsPerm(env.drawn, |List()|)
      modifies this`shuffle, this`perm, this`cursor, this`stShuffle, this`stCursor, db`row
      ensures Valid()
      ensures r == if env.locked then DONE else Err(Busy)
      ensures Abs() == if env.locked
                       then old(Abs()).(queue := PlayOrder.SetShuffle(old(QueueState()), |List()|, on, env.drawn))
                       else old(Abs())
    {
      if !env.locked {
        return Err(Busy);
      }
      SetShuffleLocked(on, env.drawn);
      return DONE;
    }

    /** Switching to another existing queue rewinds the cursor and drops the arrangement. */
    method SwitchQueue(qid: int, env: Env) returns (r: Status)
      requires Valid() && forall q :: q in db.queues ==> q > 0
      modifies this`queueId, this`perm, this`cursor, this`stQueue, this`stCursor, this`stPositionMs, db`row
      ensures Valid()
      ensures r == if !env.locked then Err(Busy) else if Qid(qid) !in db.queues then Err(NotFound) else DONE
      ensures queueId == if r.Ok? then Qid(qid) else old(queueId)
      ensures stQueue == if queueId == old(queueId) then old(stQueue) else queueId
      ensures Abs() == if queueId == old(queueId) then old(Abs())
                       else old(Abs()).(queue := old(QueueState()).(perm := [], cursor := 0),
                                        resumeMs := if hasCurrent then env.clockMs else old(stPositionMs))
    {
      if !env.locked {
        return Err(Busy);
      }
      var q := Qid(qid);
      if q !in db.queues {
        return Err(NotFound);
      }
      if queueId == q {
        return DONE;
      }
      StartAfresh(q);
      SaveState(env.clockMs);
      return DONE;
    }

    method StartAfresh(q: int)
      requires Valid() && q > 0 && q in db.queues
      modifies this`queueId, this`perm, this`cursor, this`stQueue, this`stCursor
      ensures queueId == stQueue == q && Mirrored()
      ensures Abs() == old(Abs()).(queue := old(QueueState()).(perm := [], cursor := 0))
    {
      queueId := q;
      cursor := 0;
      perm := [];
      stQueue := q;
      stCursor := 0;
    }

    /** noteEnqueued: the `count` rows just appended join the arrangement of the active queue. */
    method NoteEnqueued(qid: int, count: nat, locked: bool)
      requires Valid()
      modifies this`perm, this`stShuffle, this`stCursor, db`row
      ensures Valid()
      ensures QueueState() == if locked && qid == queueId
                              then PlayOrder.NoteEnqueued(old(QueueState()), |List()|, count)
                              else old(QueueState())
    {
      if count == 0 || !locked {
        return;
      }
      if queueId == qid && shuffle && perm != [] {
        var n := db.Count(qid);
        var start := if n >= count then n - count else 0;
        for i := start to n
          invariant db.row == old(db.row) && stShuffle == old(stShuffle) && stCursor == old(stCursor)
          invariant perm == old(perm) + seq(i - start, k requires 0 <= k => start + k)
        {
          perm := perm + [i];
        }
        PersistShuffleBlobLocked();
      }
    }
  }

  /** The calls that may start a track, and the others; CallPlay passes the active queue, as the service does. */
  datatype PickCall =
    | CallPlay | CallPlayQueue(qid: int) | CallNext | CallAutoNext | CallPrev | CallPlayTrack(track: int)

  datatype ControlCall =
    | CallStop | CallPause | CallResume | CallSetRepeat(repeat: Repeat) | CallSetShuffle(on: bool)
    | CallSwitchQueue(qid: int)

  /** What else happens to the tables meanwhile; only an append tells the engine. */
  datatype TableEdit =
    | EditAppend(qid: int, tids: seq<int>) | EditDequeue(qid: int) | EditRemove(qid: int, pos: int)
    | EditClear(qid: int) | EditReplaceAll(qid: int, ids: seq<int>) | EditDeleteTrack(track: int)

  datatype Event =
    | Picks(pick: PickCall, env: Env)
    | Controls(control: ControlCall, env: Env)
    | Edits(edit: TableEdit, locked: bool, commits: bool)

  /** No call plays a queue other than the active one. */
  predicate ActiveQueueOnly(events: seq<Event>) {
    forall i :: 0 <= i < |events| && events[i].Picks? ==> !events[i].pick.CallPlayQueue?
  }

  /** Any run of engine calls and table edits followed by a crash: a fresh engine on the same database comes up
      stopped, with the queue state the old one had, a cursor at the end of the arrangement apart, with the last track
      and its last saved position, and with the queue the row names: the one that was playing, unless another queue
      was played without a switch. */
  method RunThenCrash(engine: Engine, events: seq<Event>) returns (revived: Engine)
    requires engine.Valid() && CursorInPerm(engine.QueueState())
    requires forall q :: q in engine.db.queues ==> q > 0
    modifies engine, engine.db`row, engine.db`slots, engine.db`nextId, engine.db`tracks
    ensures engine.Valid() && revived.Valid() && revived.db == engine.db
    ensures revived.queueId == engine.stQueue
    ensures old(engine.InStep()) && ActiveQueueOnly(events) ==> revived.queueId == engine.queueId
    ensures revived.Abs() == Crashed(engine.Abs())
  {
    for i := 0 to |events|
      invariant engine.Valid() && CursorInPerm(engine.QueueState())
      invariant old(engine.InStep()) && ActiveQueueOnly(events) ==> engine.InStep()
    {
      match events[i] {
        case Picks(call, env) => DoPick(engine, call, env);
        case Controls(call, env) => DoControl(engine, call, env);
        case Edits(edit, locked, commits) => DoEdit(engine, edit, locked, commits);
      }
    }
    revived := Revive(engine);
  }

  /** A fresh engine on the database that a valid one has left behind. */
  method Revive(engine: Engine) returns (revived: Engine)
    requires engine.Valid() && CursorInPerm(engine.QueueState())
    ensures fresh(revived) && revived.Valid() && revived.db == engine.db
    ensures revived.queueId == engine.stQueue
    ensures revived.Abs() == Crashed(engine.Abs())
  {
    RecoveryRestores(engine.db.row, engine.QueueState(), engine.stQueue, engine.db.queues);
    revived := new Engine(engine.db);
    revived.LoadState();
  }

  method DoPick(engine: Engine, call: PickCall, env: Env)
    requires engine.Valid() && CursorInPerm(engine.QueueState())
    modifies engine, engine.db`row
    ensures engine.Valid() && CursorInPerm(engine.QueueState())
    ensures old(engine.InStep()) && !call.CallPlayQueue? ==> engine.InStep()
  {
    match call
    case CallPlay => DoPlay(engine, engine.queueId, env);
    case CallPlayQueue(q) => DoPlay(engine, q, env);
    case CallNext => DoAdvance(engine, false, env);
    case CallAutoNext => DoAdvance(engine, true, env);
    case CallPrev => DoPrevious(engine, env);
    case CallPlayTrack(t) => DoTrack(engine, t, env);
  }

  method DoPlay(engine: Engine, qid: int, env: Env)
    requires engine.Valid() && CursorInPerm(engine.QueueState())
    modifies engine, engine.db`row
    ensures engine.Valid() && CursorInPerm(engine.QueueState())
    ensures old(engine.InStep()) && qid == old(engine.queueId) ==> engine.InStep()
  {
    var e := DrawFor(engine.db, qid, env);
    PicksStayTidy(engine.Abs(), engine.db.List(qid), false, e);
    var _ := engine.Play(qid, e);
  }

  method DoAdvance(engine: Engine, stopAtEnd: bool, env: Env)
    requires engine.Valid() && CursorInPerm(engine.QueueState())
    modifies engine, engine.db`row
    ensures engine.Valid() && CursorInPerm(engine.QueueState())
    ensures old(engine.InStep()) ==> engine.InStep()
  {
    var e := DrawFor(engine.db, engine.queueId, env);
    PicksStayTidy(engine.Abs(), engine.List(), stopAtEnd, e);
    var _ := engine.Advance(stopAtEnd, e);
  }

  method DoPrevious(engine: Engine, env: Env)
    requires engine.Valid() && CursorInPerm(engine.QueueState())
    modifies engine, engine.db`row
    ensures engine.Valid() && CursorInPerm(engine.QueueState())
    ensures old(engine.InStep()) ==> engine.InStep()
  {
    var e := DrawFor(engine.db, engine.queueId, env);
    PicksStayTidy(engine.Abs(), engine.List(), false, e);
    var _ := engine.Previous(e);
  }

  method DoTrack(engine: Engine, track: int, env: Env)
    requires engine.Valid() && CursorInPerm(engine.QueueState())
    modifies engine, engine.db`row
    ensures engine.Valid() && CursorInPerm(engine.QueueState())
    ensures old(engine.InStep()) ==> engine.InStep()
  {
    var e := DrawFor(engine.db, engine.queueId, env);
    PlayTrackStaysTidy(engine.Abs(), engine.List(), track, e);
    var _ := engine.PlayTrack(track, e);
  }

  method DoControl(engine: Engine, call: ControlCall, env: Env)
    requires engine.Valid() && CursorInPerm(engine.QueueState())
    requires forall q :: q in engine.db.queues ==> q > 0
    modifies engine, engine.db`row
    ensures engine.Valid() && CursorInPerm(engine.QueueState())
    ensures old(engine.InStep()) ==> engine.InStep()
  {
    match call
    case CallStop => engine.Stop(env);
    case CallPause => var _ := engine.Pause(env);
    case CallResume => var _ := engine.Resume();
    case CallSetRepeat(m) => var _ := engine.SetRepeat(m, env);
    case CallSetShuffle(on) => DoSetShuffle(engine, on, env);
    case CallSwitchQueue(q) => DoSwitch(engine, q, env);
  }

  method DoSetShuffle(engine: Engine, on: bool, env: Env)
    requires engine.Valid() && CursorInPerm(engine.QueueState())
    modifies engine, engine.db`row
    ensures engine.Valid() && CursorInPerm(engine.QueueState())
    ensures old(engine.InStep()) ==> engine.InStep()
  {
    var e := DrawFor(engine.db, engine.queueId, env);
    var _ := engine.SetShuffle(on, e);
  }

  method DoSwitch(engine: Engine, qid: int, env: Env)
    requires engine.Valid() && CursorInPerm(engine.QueueState())
    requires forall q :: q in engine.db.queues ==> q > 0
    modifies engine, engine.db`row
    ensures engine.Valid() && CursorInPerm(engine.QueueState())
    ensures old(engine.InStep()) ==> engine.InStep()
  {
    var _ := engine.SwitchQueue(qid, env);
  }

  method DrawFor(db: Database, qid: int, env: Env) returns (e: Env)
    ensures e == env.(drawn := e.drawn) && IsPerm(e.drawn, |db.List(qid)|)
  {
    var n := db.Count(qid);
    var drawn := Draw(n);
    e := env.(drawn := drawn);
  }

  method DoEdit(engine: Engine, edit: TableEdit, locked: bool, commits: bool)
    requires engine.Valid() && CursorInPerm(engine.QueueState())
    modifies engine, engine.db`row, engine.db`slots, engine.db`nextId, engine.db`tracks
    ensures engine.Valid() && CursorInPerm(engine.QueueState())
    ensures engine.db.queues == old(engine.db.queues)
    ensures old(engine.InStep()) ==> engine.InStep()
  {
    if edit.EditAppend? {
      var r := engine.db.EnqueueBatch(edit.qid, edit.tids, true, commits);
      if r.Ok? {
        engine.NoteEnqueued(edit.qid, |edit.tids|, locked);
      }
    } else {
      EditTable(engine.db, edit, commits);
    }
  }

  method EditTable(db: Database, edit: TableEdit, commits: bool)
    requires db.Valid() && !edit.EditAppend?
    modifies db`slots, db`nextId, db`tracks
    ensures db.Valid()
  {
    match edit
    case EditDequeue(q) => var _ := db.Dequeue(q);
    case EditRemove(q, pos) => var _ := db.Remove(q, pos);
    case EditClear(q) => db.Clear(q);
    case EditReplaceAll(q, ids) => var _ := db.ReplaceAll(q, ids, true, commits);
    case EditDeleteTrack(t) => db.DeleteTrack(t);
  }

  /** shufflePerm on 0, 1, ..., n-1: swap each place with an arbitrary earlier one. */
  method Draw(n: nat) returns (p: seq<int>)
    ensures IsPerm(p, n)
  {
    p := Identity(n);
    for i := 0 to n
      invariant IsPerm(p, n)
    {
      var j :| 0 <= j <= i;
      p := p[i := p[j]][j := p[i]];
    }
  }
}
