/** Laws of the playback order: laps, natural end, the cursor link and the inverses. */
module PlaybackLaws {
  import opened Common
  import opened Sequences
  import opened PlayOrder
  import opened Db
  import opened Playback

  lemma IdentityIsPerm(n: nat)
    ensures IsPerm(Identity(n), n)
  {
  }

  lemma VisitsIsPerm(q: Queue, n: nat, drawn: seq<int>)
    requires WellFormed(q, n) && IsPerm(drawn, n)
    ensures IsPerm(Visits(q, n, drawn), n)
  {
    IdentityIsPerm(n);
  }

  /** One call visits the item under the cursor, the head after the end, and keeps the order. */
  lemma NextVisits(q: Queue, n: nat, drawn: seq<int>)
    requires n > 0 && WellFormed(q, n) && IsPerm(drawn, n)
    requires q.repeat.One? ==> q.cursor < n
    ensures var c := if q.cursor == n then 0 else q.cursor;
            var k := Next(q, n, drawn);
            && k.position == Some(Visits(q, n, drawn)[c])
            && k.queue.cursor == c + 1
            && k.queue.repeat == q.repeat && k.queue.shuffle == q.shuffle
            && k.queue.perm == (if q.shuffle then Visits(q, n, drawn) else [])
            && WellFormed(k.queue, n)
  {
  }

  /** The positions visited by `k` successive calls. */
  function Visited(q: Queue, n: nat, drawn: seq<int>, k: nat): seq<int>
    requires n > 0 && |drawn| == n
    decreases k
  {
    if k == 0 then [] else
      var s := Next(q, n, drawn);
      [if s.position.Some? then s.position.value else 0] + Visited(s.queue, n, drawn, k - 1)
  }

  lemma {:induction false} VisitedRotates(q: Queue, n: nat, drawn: seq<int>, k: nat)
    requires n > 0 && WellFormed(q, n) && IsPerm(drawn, n) && !q.repeat.One?
    decreases k
    ensures Visited(q, n, drawn, k) == Rotate(Visits(q, n, drawn), if q.cursor == n then 0 else q.cursor, k)
  {
    if k > 0 {
      var c := if q.cursor == n then 0 else q.cursor;
      var s := Next(q, n, drawn).queue;
      var order := Visits(q, n, drawn);
      NextVisits(q, n, drawn);
      VisitedRotates(s, n, drawn, k - 1);
      assert Visits(s, n, drawn) == order;
      var c' := if s.cursor == n then 0 else s.cursor;
      RotateStep(order, c, c', k);
    }
  }

  lemma RotateStep(order: seq<int>, c: nat, next: nat, k: nat)
    requires c < |order| && k > 0 && next == if c + 1 == |order| then 0 else c + 1
    ensures Rotate(order, c, k) == [order[c]] + Rotate(order, next, k - 1)
  {
    ModWithinTwo(c, |order|);
    var now, later := Rotate(order, c, k), Rotate(order, next, k - 1);
    forall i: nat | i < k - 1
      ensures later[i] == now[i + 1]
    {
      if c + 1 == |order| {
        ModTurn(i, |order|);
      }
    }
  }

  /** With repeat Off or All, any n consecutive calls, wrap included, visit each position exactly once. */
  lemma LapVisitsEachOnce(q: Queue, n: nat, drawn: seq<int>)
    requires n > 0 && WellFormed(q, n) && IsPerm(drawn, n) && !q.repeat.One?
    ensures IsPerm(Visited(q, n, drawn, n), n)
  {
    VisitedRotates(q, n, drawn, n);
    VisitsIsPerm(q, n, drawn);
    RotateIsPerm(Visits(q, n, drawn), n, if q.cursor == n then 0 else q.cursor);
  }

  /** ... and the visit n calls later is the same one: shuffled or not, the order never changes. */
  lemma LapsRepeat(q: Queue, n: nat, drawn: seq<int>, k: nat, i: nat)
    requires n > 0 && WellFormed(q, n) && IsPerm(drawn, n) && !q.repeat.One? && i + n < k
    ensures |Visited(q, n, drawn, k)| == k
    ensures Visited(q, n, drawn, k)[i + n] == Visited(q, n, drawn, k)[i]
  {
    VisitedRotates(q, n, drawn, k);
    ModTurn((if q.cursor == n then 0 else q.cursor) + i, n);
  }

  /** The loaded track is the item before the cursor in play order. */
  ghost predicate Linked(p: Player, list: seq<int>) {
    p.loaded.Some? ==>
      var order := Visits(p.queue, |list|, p.queue.perm);
      && 1 <= p.queue.cursor <= |list| == |order|
      && 0 <= order[p.queue.cursor - 1] < |list|
      && p.loaded.value == list[order[p.queue.cursor - 1]]
  }

  ghost predicate Sound(p: Player, list: seq<int>) {
    && WellFormed(p.queue, |list|)
    && (p.loaded.Some? <==> !p.mode.Stopped?)
  }

  ghost predicate Fits(env: Env, list: seq<int>) {
    IsPerm(env.drawn, |list|)
  }

  datatype Op =
    | OpPlay | OpNext | OpPrev | OpAutoNext | OpPlayTrack(track: int) | OpStop | OpPause | OpResume
    | OpSetRepeat(mode: Repeat) | OpSetShuffle(on: bool) | OpAppend(tracks: seq<int>)

  /** The player together with the listing of its active queue. */
  datatype World = World(player: Player, list: seq<int>)

  function Step(w: World, op: Op, env: Env): World
    requires |env.drawn| == |w.list|
  {
    match op
    case OpPlay => w.(player := Play(w.player, w.list, env).player)
    case OpNext => w.(player := Advance(w.player, w.list, false, env).player)
    case OpAutoNext => w.(player := Advance(w.player, w.list, true, env).player)
    case OpPrev => w.(player := Back(w.player, w.list, env).player)
    case OpPlayTrack(t) => w.(player := PlayTrack(w.player, w.list, t, env).player)
    case OpStop => w.(player := Stop(w.player, env))
    case OpPause => w.(player := Pause(w.player, env).player)
    case OpResume => w.(player := Resume(w.player).player)
    case OpSetRepeat(m) => w.(player := SetRepeat(w.player, m, env).player)
    case OpSetShuffle(on) =>
      if env.locked then w.(player := w.player.(queue := SetShuffle(w.player.queue, |w.list|, on, env.drawn))) else w
    case OpAppend(ts) => World(w.player.(queue := Told(w.player.queue, |w.list|, ts, env.locked)), w.list + ts)
  }

  /** The rows are there already when the engine is told; a busy lock loses the note. */
  function Told(q: Queue, n: nat, ts: seq<int>, locked: bool): Queue {
    if locked then NoteEnqueued(q, n + |ts|, |ts|) else q
  }

  lemma PickKeepsSound(p: Player, pick: Pick, list: seq<int>, resume: bool, env: Env)
    requires Sound(p, list) && WellFormed(pick.queue, |list|)
    ensures Sound(PlayPicked(p, pick, list, resume, env).player, list)
  {
  }

  lemma NextKeepsWellFormed(q: Queue, n: nat, drawn: seq<int>)
    requires WellFormed(q, n) && IsPerm(drawn, n)
    ensures WellFormed(Next(q, n, drawn).queue, n)
  {
  }

  /** A full arrangement is extended to a full arrangement of the grown queue. */
  lemma NoteKeepsFull(q: Queue, n: nat, count: nat)
    requires q.shuffle && q.perm != [] && IsPerm(q.perm, n)
    ensures IsPerm(NoteEnqueued(q, n + count, count).perm, n + count)
    ensures q.perm <= NoteEnqueued(q, n + count, count).perm
  {
    var p := NoteEnqueued(q, n + count, count).perm;
    assert forall i :: n <= i < |p| ==> p[i] == i;
  }

  lemma AppendKeepsWellFormed(q: Queue, n: nat, count: nat)
    requires WellFormed(q, n)
    ensures WellFormed(NoteEnqueued(q, n + count, count), n + count)
  {
    if q.shuffle && q.perm != [] {
      NoteKeepsFull(q, n, count);
    }
  }

  lemma PlayTrackKeepsSound(p: Player, list: seq<int>, t: int, env: Env)
    requires Sound(p, list) && Fits(env, list)
    ensures Sound(PlayTrack(p, list, t, env).player, list)
  {
    if t > 0 && env.locked && FirstIndex(list, t).Some? {
      var i := FirstIndex(list, t).value;
      var q := if p.queue.shuffle && p.queue.perm == [] then SetShuffle(p.queue, |list|, true, env.drawn) else p.queue;
      if CursorOf(q, i).Some? {
        var c := CursorOf(q, i).value;
        NextKeepsWellFormed(q.(cursor := c), |list|, env.drawn);
        PickKeepsSound(p.(queue := q), Next(q.(cursor := c), |list|, env.drawn), list, false, env);
      }
    }
  }

  lemma AdvanceKeepsSound(p: Player, list: seq<int>, stopAtEnd: bool, env: Env)
    requires Sound(p, list) && Fits(env, list)
    ensures Sound(Advance(p, list, stopAtEnd, env).player, list)
  {
    NextKeepsWellFormed(p.queue, |list|, env.drawn);
    PickKeepsSound(p, Next(p.queue, |list|, env.drawn), list, false, env);
  }

  lemma PlayKeepsSound(p: Player, list: seq<int>, env: Env)
    requires Sound(p, list) && Fits(env, list)
    ensures Sound(Play(p, list, env).player, list)
  {
    NextKeepsWellFormed(p.queue, |list|, env.drawn);
    PickKeepsSound(p, Next(p.queue, |list|, env.drawn), list, true, env);
  }

  /** A lost note does not matter if nothing was added or there is no arrangement to extend. */
  predicate KeepsSound(w: World, op: Op, env: Env) {
    op.OpAppend? ==> env.locked || op.tracks == [] || !w.player.queue.shuffle || w.player.queue.perm == []
  }

  /** Only a lost note hurts: the arrangement is then too short for the queue. */
  lemma AppendKeepsSound(p: Player, list: seq<int>, ts: seq<int>, locked: bool)
    requires Sound(p, list)
    ensures Sound(p.(queue := Told(p.queue, |list|, ts, locked)), list + ts) <==>
            locked || ts == [] || !p.queue.shuffle || p.queue.perm == []
  {
    if locked {
      AppendKeepsWellFormed(p.queue, |list|, |ts|);
    }
  }

  /** Every operation, successful or not, keeps the queue state well formed, unless it loses a note that matters. */
  lemma StepKeepsSound(w: World, op: Op, env: Env)
    requires Sound(w.player, w.list) && Fits(env, w.list)
    ensures Sound(Step(w, op, env).player, Step(w, op, env).list) <==> KeepsSound(w, op, env)
  {
    var p := w.player;
    match op
    case OpPlay => PlayKeepsSound(p, w.list, env);
    case OpNext => AdvanceKeepsSound(p, w.list, false, env);
    case OpAutoNext => AdvanceKeepsSound(p, w.list, true, env);
    case OpPrev => PickKeepsSound(p, Prev(p.queue, |w.list|), w.list, false, env);
    case OpPlayTrack(t) => PlayTrackKeepsSound(p, w.list, t, env);
    case OpAppend(ts) => AppendKeepsSound(p, w.list, ts, env.locked);
    case _ =>
  }

  /** After a lost note the added tracks cannot be played by id until the arrangement is drawn anew. */
  lemma LostNoteHides(p: Player, list: seq<int>, ts: seq<int>, t: int, env: Env)
    requires Sound(p, list) && p.queue.shuffle && p.queue.perm != []
    requires t in ts && t !in list && t > 0 && env.locked && Fits(env, list + ts)
    ensures PlayTrack(p, list + ts, t, env) == Outcome(p, Err(NotFound))
  {
    assert forall k :: 0 <= k < |list| ==> (list + ts)[k] in list;
    PlayTrackPlaysIt(p, list + ts, t, env);
  }

  /** Tracks 7 and 8 are played in the order 8, 7; track 9 is added while the lock is busy. */
  lemma LostNoteExample(busy: Env, env: Env)
    requires Fits(busy, [7, 8]) && !busy.locked && Fits(env, [7, 8, 9]) && env.locked
    ensures var w := World(Player(Queue(true, Off, [1, 0], 1), Some(8), Playing, 8, 0, 0, true), [7, 8]);
            var after := Step(w, OpAppend([9]), busy);
            && Sound(w.player, w.list) && Linked(w.player, w.list) && after == w.(list := [7, 8, 9])
            && !Sound(after.player, after.list) && !Linked(after.player, after.list)
            && PlayTrack(after.player, after.list, 9, env) == Outcome(after.player, Err(NotFound))
  {
    var p := Player(Queue(true, Off, [1, 0], 1), Some(8), Playing, 8, 0, 0, true);
    assert [7, 8] + [9] == [7, 8, 9];
    LostNoteHides(p, [7, 8], [9], 9, env);
  }

  lemma NextLinks(q: Queue, n: nat, drawn: seq<int>)
    requires n > 0 && WellFormed(q, n) && IsPerm(drawn, n)
    ensures var k := Next(q, n, drawn);
            && 1 <= k.queue.cursor <= n
            && k.position == Some(Visits(k.queue, n, k.queue.perm)[k.queue.cursor - 1])
  {
  }

  lemma PrevLinks(q: Queue, n: nat)
    requires WellFormed(q, n)
    ensures var k := Prev(q, n);
            if k.position.None? then k.queue == q
            else
              && 1 <= k.queue.cursor <= n
              && k.position == Some(Visits(k.queue, n, k.queue.perm)[k.queue.cursor - 1])
  {
  }

  lemma PickLinks(p: Player, pick: Pick, list: seq<int>, resume: bool, env: Env)
    requires WellFormed(pick.queue, |list|) && env.Starts()
    requires 1 <= pick.queue.cursor <= |list|
    requires pick.position == Some(Visits(pick.queue, |list|, pick.queue.perm)[pick.queue.cursor - 1])
    ensures Linked(PlayPicked(p, pick, list, resume, env).player, list)
    ensures PlayPicked(p, pick, list, resume, env).status == DONE
  {
    if pick.queue.shuffle {
      assert 0 <= pick.queue.perm[pick.queue.cursor - 1] < |list|;
    }
  }

  lemma CursorOfFinds(q: Queue, n: nat, i: nat)
    requires WellFormed(q, n) && i < n && (q.shuffle ==> q.perm != [])
    ensures CursorOf(q, i).Some? && CursorOf(q, i).value < n && At(q, CursorOf(q, i).value) == i
  {
    if q.shuffle {
      PermCovers(q.perm, n, i);
    }
  }

  lemma PlaysItem(p: Player, q: Queue, c: nat, list: seq<int>, env: Env)
    requires WellFormed(q, |list|) && c < |list| && (q.shuffle ==> q.perm != []) && 0 <= At(q, c) < |list|
    requires Sound(p, list) && Fits(env, list) && env.Starts()
    ensures var o := PlayPicked(p.(queue := q), Next(q.(cursor := c), |list|, env.drawn), list, false, env);
            && o.status == DONE && o.player.loaded == Some(list[At(q, c)]) && o.player.mode == Playing
            && Linked(o.player, list)
  {
    NextKeepsWellFormed(q.(cursor := c), |list|, env.drawn);
    NextLinks(q.(cursor := c), |list|, env.drawn);
    PickLinks(p.(queue := q), Next(q.(cursor := c), |list|, env.drawn), list, false, env);
  }

  /** The item can be addressed: in a shuffled queue a stale arrangement may have lost its position. */
  predicate Addressed(q: Queue, list: seq<int>, t: int) {
    t in list && (q.shuffle && q.perm != [] ==> FirstIndex(list, t).value in q.perm)
  }

  /** Playing a track id, whatever has happened to arrangement and cursor: it starts exactly when lock and file
      allow and the arrangement still has its item, and then exactly that track plays. */
  lemma PlayTrackPlaysIt(p: Player, list: seq<int>, t: int, env: Env)
    requires Fits(env, list)
    ensures var o := PlayTrack(p, list, t, env);
            && (o.status == DONE <==> t > 0 && env.locked && env.Starts() && Addressed(p.queue, list, t))
            && (o.status == DONE ==> o.player.loaded == Some(t) && o.player.mode == Playing)
            && (t > 0 && env.locked && !Addressed(p.queue, list, t) ==> o == Outcome(p, Err(NotFound)))
  {
    if t > 0 && env.locked && Addressed(p.queue, list, t) {
      var i := FirstIndex(list, t).value;
      var q := if p.queue.shuffle && p.queue.perm == [] then SetShuffle(p.queue, |list|, true, env.drawn) else p.queue;
      if q.shuffle && p.queue.perm == [] {
        PermCovers(env.drawn, |list|, i);
      }
      var c := CursorOf(q, i).value;
      PlaysAt(p.(queue := q), q, c, list, env);
    }
  }

  /** From a cursor that addresses an item of the list, exactly that item is tried. */
  lemma PlaysAt(p: Player, q: Queue, c: nat, list: seq<int>, env: Env)
    requires Fits(env, list) && (if q.shuffle then c < |q.perm| else c < |list|) && 0 <= At(q, c) < |list|
    ensures var o := PlayPicked(p, Next(q.(cursor := c), |list|, env.drawn), list, false, env);
            && (o.status == DONE <==> env.Starts())
            && (o.status == DONE ==> o.player.loaded == Some(list[At(q, c)]) && o.player.mode == Playing)
  {
  }

  /** On append-only use every queued track can be addressed, and the cursor ends up just after it. */
  lemma PlayTrackLinks(p: Player, list: seq<int>, t: int, env: Env)
    requires Sound(p, list) && Fits(env, list) && env.Starts() && env.locked && t > 0 && t in list
    ensures Addressed(p.queue, list, t) && Linked(PlayTrack(p, list, t, env).player, list)
  {
    var i := FirstIndex(list, t).value;
    var q := if p.queue.shuffle && p.queue.perm == [] then SetShuffle(p.queue, |list|, true, env.drawn) else p.queue;
    assert WellFormed(q, |list|);
    CursorOfFinds(q, |list|, i);
    PlaysItem(p, q, CursorOf(q, i).value, list, env);
  }

  /** ... and it hides the loaded track's place from the queue. */
  lemma AppendKeepsLink(p: Player, list: seq<int>, ts: seq<int>, locked: bool)
    requires Sound(p, list) && Linked(p, list)
    ensures Linked(p.(queue := Told(p.queue, |list|, ts, locked)), list + ts) <==>
            p.loaded.None? || locked || ts == [] || !p.queue.shuffle
  {
  }

  /** The track at a picked position. */
  function Fetched(pick: Pick, list: seq<int>): Option<int> {
    if pick.position.None? then None else Fetch(list, pick.position.value)
  }

  /** The track that an operation goes on to open, if it gets that far. */
  function Tried(w: World, op: Op, env: Env): Option<int>
    requires |env.drawn| == |w.list|
  {
    var p := w.player;
    if !env.locked then None
    else
      match op
      case OpPlay => if p.mode.Stopped? then Fetched(Next(p.queue, |w.list|, env.drawn), w.list) else None
      case OpNext => if Restarting(p) then None else Fetched(Next(p.queue, |w.list|, env.drawn), w.list)
      case OpAutoNext =>
        if Restarting(p) || AtNaturalEnd(p.queue, |w.list|) then None
        else Fetched(Next(p.queue, |w.list|, env.drawn), w.list)
      case OpPrev => Fetched(Prev(p.queue, |w.list|), w.list)
      case OpPlayTrack(t) => if t > 0 && t in w.list then Some(t) else None
      case _ => None
  }

  predicate Restarting(p: Player) {
    !p.queue.shuffle && p.queue.repeat.One? && p.loaded.Some?
  }

  predicate AtNaturalEnd(q: Queue, n: nat) {
    q.repeat.Off? && q.cursor >= if q.shuffle then |q.perm| else n
  }

  /** The condition under which an operation keeps the cursor link: nothing is loaded, or its track starts, or it
      opens no track, or only the one that is loaded; for a shuffle toggle, that it changes nothing; for an append,
      that no note is lost that an arrangement needs. */
  predicate KeepsLink(w: World, op: Op, env: Env)
    requires |env.drawn| == |w.list|
  {
    || w.player.loaded.None?
    || (if op.OpSetShuffle? then !env.locked || (op.on && w.player.queue.shuffle)
        else if op.OpAppend? then env.locked || op.tracks == [] || !w.player.queue.shuffle
        else env.Starts() || Tried(w, op, env).None? || Tried(w, op, env) == w.player.loaded)
  }

  /** A picked item that is tried moves the cursor behind it; the loaded track follows only if it starts. */
  lemma TriedPick(p: Player, pick: Pick, list: seq<int>, resume: bool, env: Env)
    requires WellFormed(pick.queue, |list|) && 1 <= pick.queue.cursor <= |list|
    requires pick.position == Some(Visits(pick.queue, |list|, pick.queue.perm)[pick.queue.cursor - 1])
    ensures Fetched(pick, list).Some?
    ensures Linked(PlayPicked(p, pick, list, resume, env).player, list) <==>
            env.Starts() || p.loaded.None? || p.loaded == Fetched(pick, list)
  {
    assert 0 <= Visits(pick.queue, |list|, pick.queue.perm)[pick.queue.cursor - 1] < |list|;
    if env.Starts() {
      PickLinks(p, pick, list, resume, env);
    }
  }

  lemma TriedNext(p: Player, list: seq<int>, resume: bool, env: Env)
    requires Sound(p, list) && Linked(p, list) && Fits(env, list)
    ensures var pick := Next(p.queue, |list|, env.drawn);
            Linked(PlayPicked(p, pick, list, resume, env).player, list) <==>
            env.Starts() || p.loaded.None? || Fetched(pick, list).None? || p.loaded == Fetched(pick, list)
  {
    if |list| > 0 {
      NextKeepsWellFormed(p.queue, |list|, env.drawn);
      NextLinks(p.queue, |list|, env.drawn);
      TriedPick(p, Next(p.queue, |list|, env.drawn), list, resume, env);
    }
  }

  lemma TriedPrev(p: Player, list: seq<int>, env: Env)
    requires Sound(p, list) && Linked(p, list)
    ensures var pick := Prev(p.queue, |list|);
            Linked(PlayPicked(p, pick, list, false, env).player, list) <==>
            env.Starts() || p.loaded.None? || Fetched(pick, list).None? || p.loaded == Fetched(pick, list)
  {
    PrevLinks(p.queue, |list|);
    if Prev(p.queue, |list|).position.Some? {
      TriedPick(p, Prev(p.queue, |list|), list, false, env);
    }
  }

  /** The queue state from which playTrack takes the item. */
  function Arranged(q: Queue, n: nat, drawn: seq<int>): Queue
    requires |drawn| == n
  {
    if q.shuffle && q.perm == [] then SetShuffle(q, n, true, drawn) else q
  }

  lemma PlayTrackPicks(p: Player, list: seq<int>, t: int, env: Env) returns (from: Queue)
    requires Sound(p, list) && Fits(env, list) && t > 0 && t in list && env.locked
    ensures WellFormed(from, |list|) && from.cursor < |list| && (from.shuffle ==> from.perm != [])
    ensures At(from, from.cursor) == FirstIndex(list, t).value
    ensures PlayTrack(p, list, t, env)
         == PlayPicked(p.(queue := Arranged(p.queue, |list|, env.drawn)), Next(from, |list|, env.drawn), list, false,
                       env)
  {
    var q := Arranged(p.queue, |list|, env.drawn);
    CursorOfFinds(q, |list|, FirstIndex(list, t).value);
    from := q.(cursor := CursorOf(q, FirstIndex(list, t).value).value);
  }

  lemma TriedItem(p: Player, list: seq<int>, t: int, env: Env)
    requires Sound(p, list) && Linked(p, list) && Fits(env, list) && t > 0 && t in list && env.locked
    ensures Linked(PlayTrack(p, list, t, env).player, list) <==> env.Starts() || p.loaded.None? || p.loaded == Some(t)
  {
    var from := PlayTrackPicks(p, list, t, env);
    NextKeepsWellFormed(from, |list|, env.drawn);
    NextLinks(from, |list|, env.drawn);
    TriedPick(p.(queue := Arranged(p.queue, |list|, env.drawn)), Next(from, |list|, env.drawn), list, false, env);
  }

  lemma AdvanceKeepsLink(w: World, op: Op, env: Env)
    requires Sound(w.player, w.list) && Linked(w.player, w.list) && Fits(env, w.list)
    requires op.OpNext? || op.OpAutoNext?
    ensures Linked(Step(w, op, env).player, Step(w, op, env).list) <==> KeepsLink(w, op, env)
  {
    TriedNext(w.player, w.list, false, env);
  }

  lemma PlayKeepsLink(w: World, op: Op, env: Env)
    requires Sound(w.player, w.list) && Linked(w.player, w.list) && Fits(env, w.list)
    requires op.OpPlay?
    ensures Linked(Step(w, op, env).player, Step(w, op, env).list) <==> KeepsLink(w, op, env)
  {
    TriedNext(w.player, w.list, true, env);
  }

  lemma BackKeepsLink(w: World, op: Op, env: Env)
    requires Sound(w.player, w.list) && Linked(w.player, w.list) && Fits(env, w.list)
    requires op.OpPrev?
    ensures Linked(Step(w, op, env).player, Step(w, op, env).list) <==> KeepsLink(w, op, env)
  {
    TriedPrev(w.player, w.list, env);
  }

  lemma PlayTrackKeepsLink(w: World, op: Op, env: Env)
    requires Sound(w.player, w.list) && Linked(w.player, w.list) && Fits(env, w.list)
    requires op.OpPlayTrack?
    ensures Linked(Step(w, op, env).player, Step(w, op, env).list) <==> KeepsLink(w, op, env)
  {
    if op.track > 0 && op.track in w.list && env.locked {
      TriedItem(w.player, w.list, op.track, env);
    }
  }

  lemma ToggleKeepsLink(w: World, op: Op, env: Env)
    requires Sound(w.player, w.list) && Linked(w.player, w.list) && Fits(env, w.list)
    requires op.OpSetShuffle?
    ensures Linked(Step(w, op, env).player, Step(w, op, env).list) <==> KeepsLink(w, op, env)
  {
    if env.locked {
      ShuffleToggleAndLink(w, op.on, env);
    }
  }

  /** Exactly under that condition the cursor link survives an operation. */
  lemma StepKeepsLink(w: World, op: Op, env: Env)
    requires Sound(w.player, w.list) && Linked(w.player, w.list) && Fits(env, w.list)
    ensures Linked(Step(w, op, env).player, Step(w, op, env).list) <==> KeepsLink(w, op, env)
  {
    match op
    case OpPlay => PlayKeepsLink(w, op, env);
    case OpPrev => BackKeepsLink(w, op, env);
    case OpNext => AdvanceKeepsLink(w, op, env);
    case OpAutoNext => AdvanceKeepsLink(w, op, env);
    case OpPlayTrack(t) => PlayTrackKeepsLink(w, op, env);
    case OpAppend(ts) => AppendKeepsLink(w.player, w.list, ts, env.locked);
    case OpSetShuffle(on) => ToggleKeepsLink(w, op, env);
    case _ =>
  }

  /** What next tries: the item under the cursor, the head on wrap, the last one again under repeat One. */
  lemma NextTries(w: World, env: Env)
    requires Sound(w.player, w.list) && Linked(w.player, w.list) && Fits(env, w.list) && env.locked
    requires w.player.loaded.Some? && !Restarting(w.player)
    ensures var n, q := |w.list|, w.player.queue;
            var c := if q.cursor < n then q.cursor else if q.repeat.One? then n - 1 else 0;
            Tried(w, OpNext, env) == Some(w.list[Visits(q, n, q.perm)[c]])
  {
    NextLinks(w.player.queue, |w.list|, env.drawn);
    NextKeepsWellFormed(w.player.queue, |w.list|, env.drawn);
  }

  /** Track 7 of the queue 7, 8 is playing; next finds that 8 does not open. The cursor has moved behind 8, track 7
      stays loaded without a decoder. */
  lemma LinkLostExample(env: Env)
    requires Fits(env, [7, 8]) && env.locked && !env.Starts()
    ensures var w := World(Player(Queue(false, Off, [], 1), Some(7), Playing, 7, 0, 0, true), [7, 8]);
            var after := Step(w, OpNext, env).player;
            && Sound(w.player, w.list) && Linked(w.player, w.list)
            && after == w.player.(queue := Queue(false, Off, [], 2), decoder := false) && !Linked(after, w.list)
  {
  }

  /** A toggle of shuffle resets the cursor under the loaded track: after it the link is gone exactly when
      the arrangement was really redrawn or dropped while a track was loaded. */
  lemma ShuffleToggleAndLink(w: World, on: bool, env: Env)
    requires Sound(w.player, w.list) && Linked(w.player, w.list) && Fits(env, w.list) && env.locked
    ensures Linked(Step(w, OpSetShuffle(on), env).player, w.list) <==>
            w.player.loaded.None? || (on && w.player.queue.shuffle)
  {
  }

  /** A run of operations, each with its own surroundings. */
  function Run(w: World, ops: seq<(Op, Env)>): World
    requires RunFits(w, ops)
    decreases |ops|
  {
    if ops == [] then w else Run(Step(w, ops[0].0, ops[0].1), ops[1..])
  }

  ghost predicate RunFits(w: World, ops: seq<(Op, Env)>)
    decreases |ops|
  {
    ops == [] || (Fits(ops[0].1, w.list) && RunFits(Step(w, ops[0].0, ops[0].1), ops[1..]))
  }

  /** The cursor is within the list and the arrangement fits it, now and after each operation. */
  ghost predicate AlwaysSound(w: World, ops: seq<(Op, Env)>)
    requires RunFits(w, ops)
    decreases |ops|
  {
    Sound(w.player, w.list) && (ops == [] || AlwaysSound(Step(w, ops[0].0, ops[0].1), ops[1..]))
  }

  /** No operation loses a note that matters. */
  predicate NoNoteLost(w: World, ops: seq<(Op, Env)>)
    requires RunFits(w, ops)
    decreases |ops|
  {
    ops == [] || (KeepsSound(w, ops[0].0, ops[0].1) && NoNoteLost(Step(w, ops[0].0, ops[0].1), ops[1..]))
  }

  /** Over every append-only run the cursor stays within the list and the arrangement stays a permutation,
      exactly when no note is lost that matters. */
  lemma {:induction false} RunKeepsSound(w: World, ops: seq<(Op, Env)>)
    requires RunFits(w, ops) && Sound(w.player, w.list)
    decreases |ops|
    ensures AlwaysSound(w, ops) <==> NoNoteLost(w, ops)
    ensures NoNoteLost(w, ops) ==> Sound(Run(w, ops).player, Run(w, ops).list)
  {
    if ops != [] {
      StepKeepsSound(w, ops[0].0, ops[0].1);
      if KeepsSound(w, ops[0].0, ops[0].1) {
        RunKeepsSound(Step(w, ops[0].0, ops[0].1), ops[1..]);
      }
    }
  }

  /** Besides, the loaded track is the item before the cursor now and after each operation. */
  ghost predicate AlwaysLinked(w: World, ops: seq<(Op, Env)>)
    requires RunFits(w, ops)
    decreases |ops|
  {
    && Sound(w.player, w.list) && Linked(w.player, w.list)
    && (ops == [] || AlwaysLinked(Step(w, ops[0].0, ops[0].1), ops[1..]))
  }

  predicate AlwaysKeeps(w: World, ops: seq<(Op, Env)>)
    requires RunFits(w, ops)
    decreases |ops|
  {
    || ops == []
    || (KeepsSound(w, ops[0].0, ops[0].1) && KeepsLink(w, ops[0].0, ops[0].1)
        && AlwaysKeeps(Step(w, ops[0].0, ops[0].1), ops[1..]))
  }

  /** Over every run queue state and cursor link hold throughout exactly when every operation meets its conditions. */
  lemma {:induction false} RunKeepsLink(w: World, ops: seq<(Op, Env)>)
    requires RunFits(w, ops) && Sound(w.player, w.list) && Linked(w.player, w.list)
    decreases |ops|
    ensures AlwaysLinked(w, ops) <==> AlwaysKeeps(w, ops)
    ensures AlwaysKeeps(w, ops) ==> Linked(Run(w, ops).player, Run(w, ops).list)
  {
    if ops != [] {
      StepKeepsSound(w, ops[0].0, ops[0].1);
      StepKeepsLink(w, ops[0].0, ops[0].1);
      if KeepsSound(w, ops[0].0, ops[0].1) && KeepsLink(w, ops[0].0, ops[0].1) {
        RunKeepsLink(Step(w, ops[0].0, ops[0].1), ops[1..]);
      }
    }
  }

  ghost predicate Smooth(env: Env, list: seq<int>) {
    Fits(env, list) && env.Starts() && env.locked && env.seeks
  }

  /** The same track at the same place of the same order. */
  ghost predicate SamePlace(a: Player, b: Player) {
    a.loaded == b.loaded && a.queue == b.queue
  }

  /** In linear order with repeat One, next restarts the loaded track instead of moving. */
  predicate Restarts(q: Queue) {
    !q.shuffle && q.repeat.One?
  }

  /** Under the cursor link the queue state tells which track is loaded. */
  lemma SameQueueSamePlace(a: Player, b: Player, list: seq<int>)
    requires Linked(a, list) && Linked(b, list) && a.loaded.Some? && b.loaded.Some?
    ensures SamePlace(a, b) <==> a.queue == b.queue
  {
  }

  /** Where next takes the cursor: behind the following item, behind the head on wrap, or nowhere. */
  function CursorAfterNext(q: Queue, n: nat): nat {
    if Restarts(q) then q.cursor else if q.cursor < n then q.cursor + 1 else if q.repeat.One? then n else 1
  }

  function CursorAfterPrev(q: Queue): nat {
    if q.cursor >= 2 then q.cursor - 1 else q.cursor
  }

  /** A loaded track of a queue in order, with the cursor just behind it. */
  ghost predicate InPlay(p: Player, list: seq<int>) {
    Sound(p, list) && Linked(p, list) && p.loaded.Some?
  }

  lemma NextWhenRestarting(p: Player, list: seq<int>, env: Env)
    requires InPlay(p, list) && Smooth(env, list) && Restarts(p.queue)
    ensures var there := Advance(p, list, false, env).player;
            there.queue == p.queue && InPlay(there, list)
  {
  }

  /** next loads the item under the cursor, the head if it wraps, or the same one again. */
  lemma NextMoves(p: Player, list: seq<int>, env: Env)
    requires InPlay(p, list) && Smooth(env, list)
    ensures var there := Advance(p, list, false, env).player;
            there.queue == p.queue.(cursor := CursorAfterNext(p.queue, |list|)) && InPlay(there, list)
  {
    if Restarts(p.queue) {
      NextWhenRestarting(p, list, env);
    } else {
      NextLinks(p.queue, |list|, env.drawn);
      NextKeepsWellFormed(p.queue, |list|, env.drawn);
      PickLinks(p, Next(p.queue, |list|, env.drawn), list, false, env);
    }
  }

  lemma PrevMoves(p: Player, list: seq<int>, env: Env)
    requires InPlay(p, list) && Smooth(env, list)
    ensures var there := Back(p, list, env).player;
            there.queue == p.queue.(cursor := CursorAfterPrev(p.queue)) && InPlay(there, list)
  {
    PrevLinks(p.queue, |list|);
    PickLinks(p, Prev(p.queue, |list|), list, false, env);
  }

  /** prev undoes next exactly when next neither wrapped nor stayed (or there was nowhere else to go). */
  lemma PrevAfterNext(p: Player, list: seq<int>, e1: Env, e2: Env)
    requires Sound(p, list) && Linked(p, list) && p.loaded.Some?
    requires Smooth(e1, list) && Smooth(e2, list)
    ensures SamePlace(Back(Advance(p, list, false, e1).player, list, e2).player, p) <==>
            if Restarts(p.queue) then p.queue.cursor == 1 else p.queue.cursor < |list| || |list| == 1
  {
    var there := Advance(p, list, false, e1).player;
    NextMoves(p, list, e1);
    PrevMoves(there, list, e2);
    SameQueueSamePlace(Back(there, list, e2).player, p, list);
  }

  /** next undoes prev exactly when prev had an earlier item to go back to and next moves on from it (or there
      was nowhere else to go). */
  lemma NextAfterPrev(p: Player, list: seq<int>, e1: Env, e2: Env)
    requires Sound(p, list) && Linked(p, list) && p.loaded.Some?
    requires Smooth(e1, list) && Smooth(e2, list)
    ensures SamePlace(Advance(Back(p, list, e1).player, list, false, e2).player, p) <==>
            if Restarts(p.queue) then p.queue.cursor == 1 else p.queue.cursor >= 2 || |list| == 1
  {
    var there := Back(p, list, e1).player;
    PrevMoves(p, list, e1);
    NextMoves(there, list, e2);
    SameQueueSamePlace(Advance(there, list, false, e2).player, p, list);
  }

  /** stop, then play, plays from the head of a track. It is the stopped one, with the queue state as it was, exactly
      when stop obtained the lock and could rewind, or play comes back to it anyway. */
  lemma PlayAfterStop(p: Player, list: seq<int>, e1: Env, e2: Env)
    requires Sound(p, list) && Linked(p, list) && p.loaded.Some? && Smooth(e2, list)
    ensures var back := Play(Stop(p, e1), list, e2).player;
            && back.mode == Playing && back.startMs == 0
            && (SamePlace(back, p) <==>
                e1.locked || (p.queue.cursor == |list| && (p.queue.repeat.One? || |list| == 1)))
  {
    if e1.locked {
      NextVisits(p.queue.(cursor := p.queue.cursor - 1), |list|, e2.drawn);
    } else {
      PlayWithoutRewind(p, list, e2);
    }
  }

  lemma PlayWithoutRewind(p: Player, list: seq<int>, env: Env)
    requires Sound(p, list) && Linked(p, list) && p.loaded.Some? && Smooth(env, list)
    ensures var pick := Next(p.queue, |list|, env.drawn);
            && pick.position.Some? && 0 <= pick.position.value < |list|
            && (pick.queue == p.queue <==> p.queue.cursor == |list| && (p.queue.repeat.One? || |list| == 1))
            && (pick.queue == p.queue ==> Some(list[pick.position.value]) == p.loaded)
  {
    NextLinks(p.queue, |list|, env.drawn);
    NextKeepsWellFormed(p.queue, |list|, env.drawn);
  }

  /** Track 7 of the queue 7, 8 is stopped while the lock is busy: the next play skips it. */
  lemma StopSkipsExample(busy: Env, env: Env)
    requires !busy.locked && Smooth(env, [7, 8])
    ensures var p := Player(Queue(false, Off, [], 1), Some(7), Playing, 7, 0, 0, true);
            && Sound(p, [7, 8]) && Linked(p, [7, 8])
            && Play(Stop(p, busy), [7, 8], env).player.loaded == Some(8)
  {
  }

  ghost predicate AllSmooth(envs: nat -> Env, list: seq<int>) {
    forall i :: Smooth(envs(i), list)
  }

  /** autoNext, `k` times. */
  ghost function AutoNexts(p: Player, list: seq<int>, envs: nat -> Env, k: nat): Player
    requires AllSmooth(envs, list)
  {
    assert k > 0 ==> Smooth(envs(k - 1), list);
    if k == 0 then p else Advance(AutoNexts(p, list, envs, k - 1), list, true, envs(k - 1)).player
  }

  /** Playing item `i` of the order, with the cursor just after it. */
  ghost predicate PlayingItem(p: Player, list: seq<int>, order: seq<int>, i: nat) {
    && |order| == |list| && i < |order| && 0 <= order[i] < |list|
    && p.mode == Playing && p.loaded == Some(list[order[i]])
    && p.queue.cursor == i + 1
    && WellFormed(p.queue, |list|) && Visits(p.queue, |list|, p.queue.perm) == order
  }

  lemma AutoNextMoves(p: Player, list: seq<int>, order: seq<int>, i: nat, env: Env)
    requires PlayingItem(p, list, order, i) && IsPerm(order, |list|) && Smooth(env, list)
    requires p.queue.repeat.All? || (p.queue.repeat.Off? && i + 1 < |list|)
    ensures var p' := Advance(p, list, true, env).player;
            PlayingItem(p', list, order, if i + 1 < |list| then i + 1 else 0) && p'.queue.repeat == p.queue.repeat
  {
    NextVisits(p.queue, |list|, env.drawn);
  }

  lemma PlayStarts(p: Player, list: seq<int>, env: Env)
    requires |list| > 0 && Smooth(env, list) && WellFormed(p.queue, |list|)
    requires p.mode.Stopped? && (p.queue.cursor == 0 || p.queue.cursor == |list|) && !p.queue.repeat.One?
    ensures var p1 := Play(p, list, env).player;
            PlayingItem(p1, list, Visits(p.queue, |list|, env.drawn), 0) && p1.queue.repeat == p.queue.repeat
  {
    NextVisits(p.queue, |list|, env.drawn);
    VisitsIsPerm(p.queue, |list|, env.drawn);
  }

  /** One more automatic advance plays the next item of the order, the head after the last. */
  lemma OneMoreAutoNext(first: Player, list: seq<int>, order: seq<int>, envs: nat -> Env, k: nat, i: nat)
    requires AllSmooth(envs, list) && IsPerm(order, |list|)
    requires PlayingItem(AutoNexts(first, list, envs, k), list, order, i)
    requires var r := AutoNexts(first, list, envs, k).queue.repeat; r.All? || (r.Off? && i + 1 < |list|)
    ensures PlayingItem(AutoNexts(first, list, envs, k + 1), list, order, if i + 1 < |list| then i + 1 else 0)
    ensures AutoNexts(first, list, envs, k + 1).queue.repeat == AutoNexts(first, list, envs, k).queue.repeat
  {
    assert Smooth(envs(k), list);
    AutoNextMoves(AutoNexts(first, list, envs, k), list, order, i, envs(k));
  }

  lemma {:induction false} RunsToTheEnd(first: Player, list: seq<int>, order: seq<int>, envs: nat -> Env, k: nat)
    requires AllSmooth(envs, list) && IsPerm(order, |list|) && k < |list|
    requires PlayingItem(first, list, order, 0) && first.queue.repeat.Off?
    ensures PlayingItem(AutoNexts(first, list, envs, k), list, order, k)
    ensures AutoNexts(first, list, envs, k).queue.repeat.Off?
  {
    if k > 0 {
      RunsToTheEnd(first, list, order, envs, k - 1);
      OneMoreAutoNext(first, list, order, envs, k - 1, k - 1);
    }
  }

  /** Repeat off: from a stopped player at the head, play and n-1 automatic advances play every item once
      in visiting order. */
  lemma {:induction false} NaturalRun(p: Player, list: seq<int>, start: Env, envs: nat -> Env, k: nat)
    requires |list| > 0 && Smooth(start, list) && AllSmooth(envs, list) && WellFormed(p.queue, |list|)
    requires p.mode.Stopped? && p.queue.cursor == 0 && p.queue.repeat.Off? && k < |list|
    ensures IsPerm(Visits(p.queue, |list|, start.drawn), |list|)
    ensures var pk := AutoNexts(Play(p, list, start).player, list, envs, k);
            PlayingItem(pk, list, Visits(p.queue, |list|, start.drawn), k) && pk.queue.repeat.Off?
  {
    VisitsIsPerm(p.queue, |list|, start.drawn);
    PlayStarts(p, list, start);
    RunsToTheEnd(Play(p, list, start).player, list, Visits(p.queue, |list|, start.drawn), envs, k);
  }

  lemma EndHalts(p: Player, list: seq<int>, order: seq<int>, env: Env)
    requires |list| > 0 && PlayingItem(p, list, order, |list| - 1) && p.queue.repeat.Off? && Smooth(env, list)
    ensures Advance(p, list, true, env).player
         == p.(loaded := None, mode := Stopped, lastTrack := 0, resumeMs := 0, startMs := 0)
  {
  }

  lemma PlayAfterEnd(p: Player, list: seq<int>, order: seq<int>, env: Env)
    requires |list| > 0 && Smooth(env, list) && WellFormed(p.queue, |list|) && p.queue.repeat.Off?
    requires p.mode.Stopped? && p.queue.cursor == |list| && p.resumeMs == 0
    requires Visits(p.queue, |list|, p.queue.perm) == order
    ensures var p1 := Play(p, list, env).player;
            PlayingItem(p1, list, order, 0) && p1.startMs == 0
  {
    PlayStarts(p, list, env);
  }

  /** ... the next automatic advance halts with the cursor parked at the end and no resume position, and
      the next play starts the head of the same order from its beginning. */
  lemma {:induction false} NaturalEnd(p: Player, list: seq<int>, start: Env, envs: nat -> Env, again: Env)
    requires |list| > 0 && Smooth(start, list) && AllSmooth(envs, list) && WellFormed(p.queue, |list|)
    requires p.mode.Stopped? && p.queue.cursor == 0 && p.queue.repeat.Off? && Smooth(again, list)
    ensures var order := Visits(p.queue, |list|, start.drawn);
            var ended := AutoNexts(Play(p, list, start).player, list, envs, |list|);
            && ended.mode.Stopped? && ended.loaded.None? && ended.queue.cursor == |list| && ended.resumeMs == 0
            && PlayingItem(Play(ended, list, again).player, list, order, 0)
            && Play(ended, list, again).player.startMs == 0
  {
    var n := |list|;
    var order := Visits(p.queue, n, start.drawn);
    var first := Play(p, list, start).player;
    NaturalRun(p, list, start, envs, n - 1);
    assert Smooth(envs(n - 1), list);
    EndHalts(AutoNexts(first, list, envs, n - 1), list, order, envs(n - 1));
    PlayAfterEnd(AutoNexts(first, list, envs, n), list, order, again);
  }

  /** Counting up to n, again and again. */
  function Around(k: nat, n: nat): (i: nat)
    requires n > 0
    ensures i < n
  {
    if k == 0 then 0
    else if Around(k - 1, n) + 1 < n then Around(k - 1, n) + 1 else 0
  }

  lemma {:induction false} AroundIsModulo(k: nat, n: nat)
    requires n > 0
    ensures Around(k, n) == k % n
  {
    if k > 0 {
      AroundIsModulo(k - 1, n);
      ModNext(k - 1, n);
    } else {
      ModWithinTwo(0, n);
    }
  }

  /** After k automatic advances under repeat All. */
  ghost predicate AtTurn(first: Player, list: seq<int>, order: seq<int>, envs: nat -> Env, k: nat)
    requires AllSmooth(envs, list) && list != []
  {
    var p := AutoNexts(first, list, envs, k);
    PlayingItem(p, list, order, Around(k, |list|)) && p.queue.repeat.All?
  }

  lemma OneMoreTurn(first: Player, list: seq<int>, order: seq<int>, envs: nat -> Env, k: nat)
    requires AllSmooth(envs, list) && IsPerm(order, |list|) && list != [] && AtTurn(first, list, order, envs, k)
    ensures AtTurn(first, list, order, envs, k + 1)
  {
    OneMoreAutoNext(first, list, order, envs, k, Around(k, |list|));
  }

  lemma RunsForever(first: Player, list: seq<int>, order: seq<int>, envs: nat -> Env, k: nat)
    requires AllSmooth(envs, list) && IsPerm(order, |list|) && list != []
    requires AtTurn(first, list, order, envs, 0)
    ensures AtTurn(first, list, order, envs, k)
  {
    var holds := (i: nat) => AtTurn(first, list, order, envs, i);
    forall i: nat | holds(i)
      ensures holds(i + 1)
    {
      OneMoreTurn(first, list, order, envs, i);
    }
    UpTo(holds, k);
  }

  /** Repeat all: automatic advances never halt; the k-th plays item k mod n of the order. */
  lemma {:induction false} RepeatAllNeverHalts(p: Player, list: seq<int>, start: Env, envs: nat -> Env, k: nat)
    requires |list| > 0 && Smooth(start, list) && AllSmooth(envs, list) && WellFormed(p.queue, |list|)
    requires p.mode.Stopped? && p.queue.cursor == 0 && p.queue.repeat.All?
    ensures var pk := AutoNexts(Play(p, list, start).player, list, envs, k);
            PlayingItem(pk, list, Visits(p.queue, |list|, start.drawn), k % |list|) && pk.queue.repeat.All?
  {
    VisitsIsPerm(p.queue, |list|, start.drawn);
    PlayStarts(p, list, start);
    RunsForever(Play(p, list, start).player, list, Visits(p.queue, |list|, start.drawn), envs, k);
    AroundIsModulo(k, |list|);
  }

  lemma ModNext(a: nat, n: nat)
    requires n > 0
    ensures (a + 1) % n == if a % n + 1 < n then a % n + 1 else 0
  {
    var r := a % n;
    if r + 1 < n {
      ModUnique(a + 1, a / n, r + 1, n);
    } else {
      ModUnique(a + 1, a / n + 1, 0, n);
    }
  }
}
