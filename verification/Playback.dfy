/** What one call of each transport operation does to the player, over a listing of the active queue. */
module Playback {
  import opened Common
  import opened Sequences
  import opened PlayOrder
  import opened Db

  datatype Mode = Stopped | Playing | Paused

  /** What comes of opening a track: file or decoder may fail, or only the audio device. */
  datatype Opening = Opens | NoFile | NoDevice

  /** What the surroundings decide during one call: whether the queue lock is obtained, what comes of opening a
      track and whether silent playback is allowed then, whether a decoder seek works, the playback position
      the clock shows, and the arrangement a shuffle would draw. */
  datatype Env = Env(locked: bool, opening: Opening, simulated: bool, seeks: bool, clockMs: nat, drawn: seq<int>) {
    predicate Starts() {
      opening.Opens? || simulated
    }
  }

  /** `loaded` is currentTrack_ while hasCurrent_ holds; `startMs` is pausePos_ when playing began; `decoder` says
      whether decoder_ is set. */
  datatype Player = Player(
    queue: Queue, loaded: Option<int>, mode: Mode, lastTrack: int, resumeMs: nat, startMs: nat, decoder: bool)

  datatype Outcome = Outcome(player: Player, status: Status)

  /** doPlayTrack. The old decoder is gone whatever happens; a track that does not start leaves the rest alone. */
  function Begin(p: Player, track: int, fromMs: nat, env: Env): Outcome {
    if !env.Starts() then Outcome(p.(decoder := false), Err(if env.opening.NoFile? then NotFound else Device))
    else Outcome(p.(loaded := Some(track), mode := Playing, lastTrack := track, resumeMs := env.clockMs,
                    startMs := if env.opening.NoFile? || env.seeks then fromMs else 0,
                    decoder := !env.opening.NoFile?), DONE)
  }

  /** Fetch the picked position from the listing and play it. */
  function PlayPicked(p: Player, pick: Pick, list: seq<int>, resume: bool, env: Env): Outcome {
    var moved := p.(queue := pick.queue);
    if pick.position.None? then Outcome(moved, Err(NotFound))
    else
      match Fetch(list, pick.position.value)
      case None => Outcome(moved, Err(NotFound))
      case Some(t) => Begin(moved, t, if resume && t == p.lastTrack then p.resumeMs else 0, env)
  }

  function Play(p: Player, list: seq<int>, env: Env): Outcome
    requires |env.drawn| == |list|
  {
    match p.mode
    case Paused => Outcome(p.(mode := Playing), DONE)
    case Playing => if !p.decoder || env.seeks then Outcome(p.(startMs := 0), DONE) else Outcome(p, Err(Io))
    case Stopped =>
      if !env.locked then Outcome(p, Err(Busy))
      else PlayPicked(p, Next(p.queue, |list|, env.drawn), list, true, env)
  }

  /** advanceLocked; `stopAtEnd` distinguishes autoNext from next. */
  function Advance(p: Player, list: seq<int>, stopAtEnd: bool, env: Env): Outcome
    requires |env.drawn| == |list|
  {
    if !p.queue.shuffle && p.queue.repeat.One? && p.loaded.Some? then
      if !p.decoder || env.seeks then Outcome(p.(mode := Playing, startMs := 0), DONE) else Outcome(p, Err(Io))
    else if !env.locked then Outcome(p, Err(Busy))
    else if stopAtEnd && p.queue.repeat.Off?
         && p.queue.cursor >= (if p.queue.shuffle then |p.queue.perm| else |list|) then
      Outcome(p.(loaded := None, mode := Stopped, lastTrack := 0, resumeMs := 0, startMs := 0), DONE)
    else PlayPicked(p, Next(p.queue, |list|, env.drawn), list, false, env)
  }

  function Back(p: Player, list: seq<int>, env: Env): Outcome {
    if !env.locked then Outcome(p, Err(Busy))
    else PlayPicked(p, Prev(p.queue, |list|), list, false, env)
  }

  /** The cursor value that addresses item `i`: `i` itself, or its place in the arrangement. */
  function CursorOf(q: Queue, i: nat): Option<nat> {
    if q.shuffle then FirstIndex(q.perm, i) else Some(i)
  }

  /** Move the cursor to item `i` of the listing and play from there. */
  function PlayItem(p: Player, list: seq<int>, i: nat, env: Env): Outcome
    requires |env.drawn| == |list|
  {
    var q := if p.queue.shuffle && p.queue.perm == [] then SetShuffle(p.queue, |list|, true, env.drawn) else p.queue;
    match CursorOf(q, i)
    case None => Outcome(p.(queue := q), Err(NotFound))
    case Some(c) => PlayPicked(p.(queue := q), Next(q.(cursor := c), |list|, env.drawn), list, false, env)
  }

  function PlayTrack(p: Player, list: seq<int>, track: int, env: Env): Outcome
    requires |env.drawn| == |list|
  {
    if track <= 0 then Outcome(p, Err(InvalidArg))
    else if !env.locked then Outcome(p, Err(Busy))
    else
      match FirstIndex(list, track)
      case None => Outcome(p, Err(NotFound))
      case Some(i) => PlayItem(p, list, i, env)
  }

  /** stop: unload, clear the resume position and, if the lock is free, step the cursor back. */
  function Stop(p: Player, env: Env): Player {
    if p.mode.Stopped? then p
    else
      var q := if env.locked && p.queue.cursor > 0 then p.queue.(cursor := p.queue.cursor - 1) else p.queue;
      p.(queue := q, loaded := None, mode := Stopped, resumeMs := 0, startMs := 0, decoder := false)
  }

  function Pause(p: Player, env: Env): Outcome {
    if !p.mode.Playing? then Outcome(p, Err(State))
    else Outcome(p.(mode := Paused, resumeMs := if p.loaded.Some? then env.clockMs else p.resumeMs,
                    startMs := env.clockMs), DONE)
  }

  function Resume(p: Player): Outcome {
    if !p.mode.Paused? then Outcome(p, Err(State)) else Outcome(p.(mode := Playing), DONE)
  }

  function SetRepeat(p: Player, m: Repeat, env: Env): Outcome {
    if !env.locked then Outcome(p, Err(Busy))
    else Outcome(p.(queue := p.queue.(repeat := m),
                    resumeMs := if p.loaded.Some? then env.clockMs else p.resumeMs), DONE)
  }

  /** A cursor parked at the end of an arrangement does not survive a crash. */
  function AfterCrash(q: Queue): Queue {
    q.(cursor := if q.perm != [] && q.cursor == |q.perm| then 0 else q.cursor)
  }

  /** What a fresh engine knows of the player that was lost. */
  function Crashed(p: Player): Player {
    Player(AfterCrash(p.queue), None, Stopped, p.lastTrack, p.resumeMs, 0, false)
  }
}
