/** Laws of the transport calls: which mode they leave, what they answer, where a track starts, what a crash keeps. */
module TransportLaws {
  import opened Common
  import opened Sequences
  import opened PlayOrder
  import opened Db
  import opened Playback
  import opened PlaybackLaws

  // ----- pause, resume, play ------------------------------------------------------------------------------

  /** The track goes on, where it was when it was paused. */
  ghost predicate GoesOn(back: Outcome, p: Player, atMs: nat) {
    && back.status == DONE && back.player.mode == Playing && back.player.startMs == atMs
    && back.player.queue == p.queue && back.player.loaded == p.loaded && back.player.decoder == p.decoder
    && back.player.lastTrack == p.lastTrack && back.player.resumeMs == if p.loaded.Some? then atMs else p.resumeMs
  }

  /** Pausing and then either resuming or playing goes on with the track, where it was paused. */
  lemma PauseThenGoOn(p: Player, list: seq<int>, e1: Env, e2: Env)
    requires p.mode.Playing? && Fits(e2, list)
    ensures var paused := Pause(p, e1);
            && paused.status == DONE && paused.player.mode == Paused && paused.player.loaded == p.loaded
            && (p.loaded.Some? ==> paused.player.resumeMs == e1.clockMs)
            && GoesOn(Resume(paused.player), p, e1.clockMs) && GoesOn(Play(paused.player, list, e2), p, e1.clockMs)
  {
  }

  /** Exactly a playing player can be paused, exactly a paused one resumed; play makes every player play unless it
      answers an error. */
  lemma ModeChanges(p: Player, list: seq<int>, env: Env)
    requires Fits(env, list)
    ensures (Pause(p, env).player.mode != p.mode <==> p.mode.Playing?)
            && (Pause(p, env).status.Ok? <==> p.mode.Playing?)
    ensures (Resume(p).player.mode != p.mode <==> p.mode.Paused?) && (Resume(p).status.Ok? <==> p.mode.Paused?)
    ensures Play(p, list, env).player.mode == if Play(p, list, env).status.Ok? then Playing else p.mode
    ensures p.mode.Paused? ==> Play(p, list, env).status == DONE
  {
  }

  /** A refused pause or resume changes nothing. */
  lemma RefusedModeChange(p: Player, env: Env)
    ensures !p.mode.Playing? ==> Pause(p, env) == Outcome(p, Err(State))
    ensures !p.mode.Paused? ==> Resume(p) == Outcome(p, Err(State))
  {
  }

  /** play while playing goes back to the beginning of the track and touches nothing else. */
  lemma PlayRestarts(p: Player, list: seq<int>, env: Env)
    requires p.mode.Playing? && Fits(env, list)
    ensures var o := Play(p, list, env);
            && o.player == p.(startMs := o.player.startMs)
            && (o.player.startMs == 0 <==> o.status == DONE || p.startMs == 0)
            && (o.status == DONE <==> !p.decoder || env.seeks) && (o.status.Err? ==> o.status == Err(Io))
  {
  }

  // ----- stop ---------------------------------------------------------------------------------------------

  /** stop leaves nothing loaded and nothing to resume, and stopping again changes nothing. */
  lemma StopReleases(p: Player, e1: Env, e2: Env)
    ensures Stop(p, e1).mode == Stopped && Stop(Stop(p, e1), e2) == Stop(p, e1)
    ensures !p.mode.Stopped? ==>
              Stop(p, e1).loaded.None? && Stop(p, e1).resumeMs == 0 && Stop(p, e1).startMs == 0 && !Stop(p, e1).decoder
    ensures Stop(p, e1).lastTrack == p.lastTrack && Stop(p, e1).queue == p.queue.(cursor := Stop(p, e1).queue.cursor)
    ensures p.queue.cursor > 0 ==>
              (Stop(p, e1).queue.cursor + 1 == p.queue.cursor <==> !p.mode.Stopped? && e1.locked)
              && (Stop(p, e1).queue.cursor == p.queue.cursor <==> p.mode.Stopped? || !e1.locked)
  {
  }

  // ----- what calls answer ----------------------------------------------------------------------------------

  /** How opening a track ends; silent playback needs neither file nor device. */
  function OpeningAnswer(env: Env): Status {
    if env.opening == Opens || env.simulated then DONE else if env.opening == NoFile then Err(NotFound) else Err(Device)
  }

  lemma PickAnswers(p: Player, q: Queue, list: seq<int>, resume: bool, env: Env)
    requires WellFormed(q, |list|) && Fits(env, list) && list != []
    ensures PlayPicked(p, Next(q, |list|, env.drawn), list, resume, env).status == OpeningAnswer(env)
  {
    NextLinks(q, |list|, env.drawn);
    NextKeepsWellFormed(q, |list|, env.drawn);
  }

  /** next and autoNext. */
  lemma NextAnswers(p: Player, list: seq<int>, stopAtEnd: bool, env: Env)
    requires Sound(p, list) && Fits(env, list)
    ensures Advance(p, list, stopAtEnd, env).status ==
            if Restarting(p) then (if p.decoder && !env.seeks then Err(Io) else DONE)
            else if !env.locked then Err(Busy)
            else if stopAtEnd && AtNaturalEnd(p.queue, |list|) then DONE
            else if list == [] then Err(NotFound)
            else OpeningAnswer(env)
  {
    if list != [] {
      PickAnswers(p, p.queue, list, false, env);
    }
  }

  lemma PrevAnswers(p: Player, list: seq<int>, env: Env)
    requires Sound(p, list) && Fits(env, list)
    ensures Back(p, list, env).status ==
            if !env.locked then Err(Busy)
            else if p.queue.cursor == 0 then Err(NotFound)
            else OpeningAnswer(env)
  {
    PrevLinks(p.queue, |list|);
  }

  lemma PlayAnswers(p: Player, list: seq<int>, env: Env)
    requires Sound(p, list) && Fits(env, list)
    ensures Play(p, list, env).status ==
            match p.mode
            case Paused => DONE
            case Playing => if p.decoder && !env.seeks then Err(Io) else DONE
            case Stopped =>
              if !env.locked then Err(Busy) else if list == [] then Err(NotFound) else OpeningAnswer(env)
  {
    if list != [] {
      PickAnswers(p, p.queue, list, true, env);
    }
  }

  lemma PlayTrackAnswers(p: Player, list: seq<int>, t: int, env: Env)
    requires Fits(env, list)
    ensures PlayTrack(p, list, t, env).status ==
            if t <= 0 then Err(InvalidArg)
            else if !env.locked then Err(Busy)
            else if !Addressed(p.queue, list, t) then Err(NotFound)
            else OpeningAnswer(env)
  {
    PlayTrackPlaysIt(p, list, t, env);
    if t > 0 && env.locked && Addressed(p.queue, list, t) {
      var i := FirstIndex(list, t).value;
      var q := Arranged(p.queue, |list|, env.drawn);
      if q.shuffle && p.queue.perm == [] {
        PermCovers(env.drawn, |list|, i);
      }
      PickedItemAnswers(p.(queue := q), q, CursorOf(q, i).value, list, env);
    }
  }

  lemma PickedItemAnswers(p: Player, q: Queue, c: nat, list: seq<int>, env: Env)
    requires Fits(env, list) && (if q.shuffle then c < |q.perm| else c < |list|) && 0 <= At(q, c) < |list|
    ensures PlayPicked(p, Next(q.(cursor := c), |list|, env.drawn), list, false, env).status == OpeningAnswer(env)
  {
  }

  // ----- what an answer means -------------------------------------------------------------------------------

  /** Of the player itself an error leaves all but the queue state and the decoder alone. */
  ghost predicate ErrorKeeps(o: Outcome, p: Player) {
    o.status.Err? ==>
      && o.player == p.(queue := o.player.queue, decoder := o.player.decoder)
      && (o.player.decoder ==> p.decoder)
  }

  /** A track that was started is playing, from `atMs`, and its start has been noted for a restart. */
  ghost predicate Started(p: Player, atMs: nat, env: Env) {
    && p.mode == Playing && p.loaded == Some(p.lastTrack) && p.startMs == atMs && p.resumeMs == env.clockMs
    && (p.decoder <==> env.opening != NoFile)
  }

  lemma PickMeans(p: Player, pick: Pick, list: seq<int>, resume: bool, env: Env)
    ensures var o := PlayPicked(p, pick, list, resume, env);
            && ErrorKeeps(o, p)
            && (o.status.Ok? ==>
                  Started(o.player, if resume && o.player.lastTrack == p.lastTrack
                                       && (env.seeks || env.opening == NoFile)
                                    then p.resumeMs else 0, env))
            && (o.player.queue == pick.queue)
  {
  }

  /** next that neither restarts nor halts, prev and playing a track start their track at its beginning. */
  lemma OthersStartAtZero(p: Player, list: seq<int>, stopAtEnd: bool, env: Env)
    requires Fits(env, list)
    ensures ErrorKeeps(Advance(p, list, stopAtEnd, env), p)
    ensures Advance(p, list, stopAtEnd, env).status.Ok? && !Restarting(p)
            && !(stopAtEnd && AtNaturalEnd(p.queue, |list|)) ==>
              Started(Advance(p, list, stopAtEnd, env).player, 0, env)
    ensures ErrorKeeps(Back(p, list, env), p)
    ensures Back(p, list, env).status.Ok? ==> Started(Back(p, list, env).player, 0, env)
  {
    PickMeans(p, Next(p.queue, |list|, env.drawn), list, false, env);
    PickMeans(p, Prev(p.queue, |list|), list, false, env);
  }

  lemma PlayTrackStartsAtZero(p: Player, list: seq<int>, t: int, env: Env)
    requires Fits(env, list)
    ensures ErrorKeeps(PlayTrack(p, list, t, env), p)
    ensures PlayTrack(p, list, t, env).status.Ok? ==> Started(PlayTrack(p, list, t, env).player, 0, env)
  {
    PlayTrackPlaysIt(p, list, t, env);
    if t > 0 && env.locked && Addressed(p.queue, list, t) {
      var q := Arranged(p.queue, |list|, env.drawn);
      var i := FirstIndex(list, t).value;
      if q.shuffle && p.queue.perm == [] {
        PermCovers(env.drawn, |list|, i);
      }
      var c := CursorOf(q, i).value;
      PickMeans(p.(queue := q), Next(q.(cursor := c), |list|, env.drawn), list, false, env);
    }
  }

  /** Restarting under repeat One seeks back and touches nothing else. */
  lemma RestartingSeeksBack(p: Player, list: seq<int>, stopAtEnd: bool, env: Env)
    requires Restarting(p) && Fits(env, list)
    ensures var o := Advance(p, list, stopAtEnd, env);
            if p.decoder && !env.seeks then o == Outcome(p, Err(Io))
            else o.status == DONE && o.player.mode == Playing && o.player.startMs == 0
                 && o.player == p.(mode := o.player.mode, startMs := o.player.startMs)
  {
  }

  /** play on a stopped player starts a track at the saved position exactly when it is the track that position
      belongs to and the decoder can seek there; any other track starts at its beginning. */
  lemma PlayResumes(p: Player, list: seq<int>, env: Env)
    requires p.mode.Stopped? && Fits(env, list)
    ensures var o := Play(p, list, env);
            && ErrorKeeps(o, p)
            && (o.status.Ok? ==>
                  Started(o.player, if o.player.loaded == Some(p.lastTrack) && (env.seeks || env.opening == NoFile)
                                    then p.resumeMs else 0, env))
  {
    PickMeans(p, Next(p.queue, |list|, env.drawn), list, true, env);
  }

  /** After a track failed to open, the player has no decoder: play then answers DONE without anything to seek. */
  lemma FailedOpenThenPlay(p: Player, list: seq<int>, e1: Env, e2: Env)
    requires Sound(p, list) && p.mode.Playing? && list != [] && Fits(e1, list) && Fits(e2, list)
    requires e1.locked && !e1.Starts() && !Restarting(p)
    ensures var failed := Advance(p, list, false, e1).player;
            && failed.mode == Playing && failed.loaded == p.loaded && !failed.decoder
            && Play(failed, list, e2).status == DONE && Play(failed, list, e2).player.loaded == p.loaded
  {
    NextLinks(p.queue, |list|, e1.drawn);
    NextKeepsWellFormed(p.queue, |list|, e1.drawn);
  }

  // ----- crashes ------------------------------------------------------------------------------------------

  /** After a crash, play starts the track that was saved last at the position saved last, if it is the next item
      and the decoder can seek; any other track starts at its beginning. */
  lemma CrashThenPlay(p: Player, list: seq<int>, env: Env)
    requires Fits(env, list)
    ensures var o := Play(Crashed(p), list, env);
            o.status.Ok? ==>
              Started(o.player, if o.player.loaded == Some(p.lastTrack) && (env.seeks || env.opening == NoFile)
                                then p.resumeMs else 0, env)
  {
    PlayResumes(Crashed(p), list, env);
  }

  /** While a track is loaded there is an order, and it is a permutation of the positions. */
  lemma OrderInPlay(p: Player, list: seq<int>)
    requires InPlay(p, list)
    ensures IsPerm(Visits(p.queue, |list|, p.queue.perm), |list|)
  {
    IdentityIsPerm(|list|);
  }

  /** The item that play takes after a crash: the cursor addresses the one after the track that was loaded. */
  lemma NextAfterCrash(p: Player, list: seq<int>, env: Env)
    requires InPlay(p, list) && Smooth(env, list)
    ensures var order := Visits(p.queue, |list|, p.queue.perm);
            var c := if p.queue.cursor < |list| then p.queue.cursor
                     else if !p.queue.shuffle && p.queue.repeat.One? then |list| - 1 else 0;
            && |order| == |list| && 0 <= order[c] < |list|
            && Play(Crashed(p), list, env).status == DONE
            && Play(Crashed(p), list, env).player.loaded == Some(list[order[c]])
  {
    var q := AfterCrash(p.queue);
    OrderInPlay(p, list);
    NextLinks(q, |list|, env.drawn);
    NextKeepsWellFormed(q, |list|, env.drawn);
    PickLinks(Crashed(p), Next(q, |list|, env.drawn), list, true, env);
  }

  /** Pause, crash, play: in a queue without duplicates the paused track goes on where it was paused exactly when it
      is the only one, or the last in line under repeat One. Otherwise its successor starts at its beginning. */
  lemma PausedTrackResumes(p: Player, list: seq<int>, e1: Env, e2: Env)
    requires InPlay(p, list) && p.mode.Playing? && p.loaded == Some(p.lastTrack) && NoDup(list) && Smooth(e2, list)
    ensures var back := Play(Crashed(Pause(p, e1).player), list, e2).player;
            && (back.loaded == p.loaded <==>
                  |list| == 1 || (Restarts(p.queue) && p.queue.cursor == |list|))
            && back.startMs == if back.loaded == p.loaded then e1.clockMs else 0
  {
    var paused := Pause(p, e1).player;
    NextAfterCrash(paused, list, e2);
    CrashThenPlay(paused, list, e2);
    OrderInPlay(p, list);
  }

  // ----- repeat and shuffle ---------------------------------------------------------------------------------

  /** A repeat mode takes effect at the end of the queue: Off halts, All starts the head, One plays the same again. */
  lemma RepeatTakesEffect(p: Player, list: seq<int>, m: Repeat, e1: Env, e2: Env)
    requires InPlay(p, list) && p.queue.cursor == |list| && e1.locked && Smooth(e2, list)
    ensures SetRepeat(p, m, e1).status == DONE
    ensures var after := Advance(SetRepeat(p, m, e1).player, list, true, e2).player;
            match m
            case Off => after.loaded.None? && after.mode == Stopped
            case All => after.mode == Playing && after.loaded == Some(list[Visits(p.queue, |list|, p.queue.perm)[0]])
            case One => after.mode == Playing && after.loaded == p.loaded
  {
    var changed := SetRepeat(p, m, e1).player;
    OrderInPlay(p, list);
    NextLinks(changed.queue, |list|, e2.drawn);
    NextKeepsWellFormed(changed.queue, |list|, e2.drawn);
  }

  /** A change of the repeat mode saves the position of the loaded track: after a crash a play that takes it goes on
      from there. */
  lemma RepeatChangeSavesPosition(p: Player, list: seq<int>, m: Repeat, e1: Env, e2: Env)
    requires p.loaded == Some(p.lastTrack) && e1.locked && Fits(e2, list)
    ensures var back := Play(Crashed(SetRepeat(p, m, e1).player), list, e2);
            back.status.Ok? && back.player.loaded == p.loaded && e2.seeks ==> Started(back.player, e1.clockMs, e2)
  {
    CrashThenPlay(SetRepeat(p, m, e1).player, list, e2);
  }

  /** ... and touches nothing else; without the lock nothing happens at all. */
  lemma SetRepeatKeeps(p: Player, m: Repeat, env: Env)
    ensures var o := SetRepeat(p, m, env);
            && o.player == p.(queue := p.queue.(repeat := o.player.queue.repeat), resumeMs := o.player.resumeMs)
            && (p.loaded.None? || !env.locked ==> o.player.resumeMs == p.resumeMs)
            && (!env.locked ==> o == Outcome(p, Err(Busy)))
  {
  }

  /** Asking for shuffle while it is on with an arrangement changes nothing. Any other request, even one for the
      linear order that is on already, starts at the head of the new order: the drawn one or the linear one. */
  lemma ShuffleStartsAfresh(q: Queue, n: nat, on: bool, drawn: seq<int>, now: seq<int>)
    requires n > 0 && WellFormed(q, n) && IsPerm(drawn, n) && IsPerm(now, n) && !q.repeat.One?
    ensures var s := SetShuffle(q, n, on, drawn);
            if on && q.shuffle && q.perm != [] then s == q
            else WellFormed(s, n) && s.shuffle == on && s.repeat == q.repeat
                 && Visited(s, n, now, n) == if on then drawn else Identity(n)
  {
    var s := SetShuffle(q, n, on, drawn);
    if !(on && q.shuffle && q.perm != []) {
      IdentityIsPerm(n);
      VisitedRotates(s, n, now, n);
      RotateByNone(Visits(s, n, now));
    }
  }

  lemma RotateByNone(order: seq<int>)
    requires order != []
    ensures Rotate(order, 0, |order|) == order
  {
    ModWithinTwo(0, |order|);
    forall i | 0 <= i < |order|
      ensures Rotate(order, 0, |order|)[i] == order[i]
    {
      ModUnique(i, 0, i, |order|);
    }
  }

  // ----- cursors that the queue has outrun --------------------------------------------------------------------

  /** next from any cursor over any arrangement, stale ones included: the first entry from the cursor on, else the
      last one again under repeat One and the first otherwise. */
  lemma NextFromAnywhere(q: Queue, n: nat, drawn: seq<int>) returns (i: nat)
    requires |drawn| == n && if q.shuffle then q.perm != [] else n > 0
    ensures var len := if q.shuffle then |q.perm| else n;
            && i < len && Next(q, n, drawn).position == Some(At(q, i))
            && (i == q.cursor || (q.cursor >= len && i == if q.repeat.One? then len - 1 else 0))
            && Next(q, n, drawn).queue
            == if q.cursor >= len && q.repeat.One? then q else q.(cursor := i + 1)
  {
    var len := if q.shuffle then |q.perm| else n;
    i := if q.cursor < len then q.cursor else if q.repeat.One? then len - 1 else 0;
  }

  /** prev from any cursor: the last entry before the one consumed last, or the first entry again. */
  lemma PrevFromAnywhere(q: Queue, n: nat) returns (i: nat)
    requires q.cursor > 0 && if q.shuffle then q.perm != [] else n > 0
    ensures var len := if q.shuffle then |q.perm| else n;
            && i < len && Prev(q, n) == Pick(q.(cursor := i + 1), Some(At(q, i)))
            && (if q.cursor == 1 then i == 0 else i + 2 <= q.cursor && (i + 2 == q.cursor || i + 1 == len))
  {
    i := Prev(q, n).queue.cursor - 1;
  }
}
