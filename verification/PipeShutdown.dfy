/** Shutdown of the pipe server comes to its end: no step of the protocol can block it for good. */
module PipeShutdown {
  import opened Sequences
  import opened PipeServer

  /** The stop flag is up once shutdown has been called, and a lock has a holder that exists. */
  ghost predicate HolderFits(s: Server) {
    && (s.shut != NotCalled ==> s.stop)
    && (s.lock.HeldByConn? ==> s.lock.tid < |s.conns|)
  }

  /** The invariant, with what progress needs besides. */
  ghost predicate Steady(s: Server) {
    Inv(s) && HolderFits(s)
  }

  lemma AcceptKeepsHolder(s: Server, s': Server)
    requires HolderFits(s) && AcceptStep(s, s')
    ensures HolderFits(s') && s'.shut == s.shut
  {
  }

  lemma ShutKeepsHolder(s: Server, s': Server)
    requires HolderFits(s) && ShutStep(s, s')
    ensures HolderFits(s') && s'.shut != NotCalled
  {
  }

  lemma ConnKeepsHolder(s: Server, s': Server, t: nat)
    requires HolderFits(s) && t < |s.conns| && ConnStep(s, s', t)
    ensures HolderFits(s') && s'.shut == s.shut
  {
  }

  lemma StepKeepsHolder(s: Server, s': Server)
    requires HolderFits(s) && Next(s, s')
    ensures HolderFits(s') && (s.shut != NotCalled ==> s'.shut != NotCalled)
  {
    if AcceptStep(s, s') {
      AcceptKeepsHolder(s, s');
    } else if ShutStep(s, s') {
      ShutKeepsHolder(s, s');
    } else if OuterStep(s, s') {
      assert HolderFits(s');
    } else {
      var t: nat :| t < |s.conns| && ConnStep(s, s', t);
      ConnKeepsHolder(s, s', t);
    }
  }

  lemma StepKeepsSteady(s: Server, s': Server)
    requires Steady(s) && Next(s, s')
    ensures Steady(s') && (s.shut != NotCalled ==> s'.shut != NotCalled)
  {
    StepKeepsInv(s, s');
    StepKeepsHolder(s, s');
  }

  lemma {:induction false} RunSteady(run: seq<Server>, i: nat)
    requires IsRun(run) && i < |run|
    ensures Steady(run[i])
  {
    if i > 0 {
      RunSteady(run, i - 1);
      assert Steps(run, i - 1);
      StepKeepsSteady(run[i - 1], run[i]);
    } else {
      RunInv(run, 0);
    }
  }

  // ----- some step is always enabled --------------------------------------------------------------------

  ghost predicate CanStep(s: Server) {
    exists s' :: Next(s, s')
  }

  lemma ShutCan(s: Server, s': Server)
    requires ShutStep(s, s')
    ensures CanStep(s)
  {
    assert Next(s, s');
  }

  /** A step of the accept loop or of a connection thread. */
  ghost predicate WorkStep(s: Server, s': Server) {
    AcceptStep(s, s') || exists t: nat :: t < |s.conns| && ConnStep(s, s', t)
  }

  lemma WorkCan(s: Server, s': Server)
    requires WorkStep(s, s')
    ensures CanStep(s)
  {
    assert Next(s, s');
  }

  /** A connection thread can always go on, unless it waits for the lock. */
  lemma ConnGoesOn(s: Server, t: nat) returns (s': Server)
    requires t < |s.conns| && s.conns[t] != ConnExited && (s.conns[t] == Closed ==> s.lock == Free)
    ensures ConnStep(s, s', t)
  {
    s' :=
      match s.conns[t]
      case Serving(h) => WithClosed(s, h).(conns := s.conns[t := Closed])
      case Closed => s.(lock := HeldByConn(t), conns := s.conns[t := Marking])
      case Marking => s.(lock := Free, clients := MarkDone(s.clients, t), conns := s.conns[t := Retired])
      case Retired => s.(conns := s.conns[t := ConnExited])
      case ConnExited => s;
  }

  /** A held lock is given back: its holder can go on. */
  lemma HolderGoesOn(s: Server) returns (s': Server)
    requires Steady(s) && s.lock.HeldByConn?
    ensures s.lock.tid < |s.conns| && ConnStep(s, s', s.lock.tid)
  {
    s' := ConnGoesOn(s, s.lock.tid);
  }

  lemma ReaperGoesOn(s: Server) returns (s': Server)
    requires Steady(s) && s.accept == Reaping
    ensures WorkStep(s, s')
  {
    if i: nat :| i < |s.clients| && s.clients[i].done {
      var t := s.clients[i].tid;
      if s.conns[t] == ConnExited {
        s' := s.(clients := RemoveAt(s.clients, i),
                 joined := if s.clients[i].joinable then s.joined + [t] else s.joined);
        assert Reaps(s, s', i);
      } else {
        s' := ConnGoesOn(s, t);
      }
    } else {
      s' := s.(lock := Free, accept := LoopHead);
    }
  }

  /** The accept loop can go on, or whoever it waits for. */
  lemma AcceptGoesOn(s: Server) returns (s': Server)
    requires Steady(s) && s.accept != AcceptExited
    ensures WorkStep(s, s')
  {
    if s.accept == Reaping {
      s' := ReaperGoesOn(s);
    } else if s.accept.Spawning? && s.lock != Free {
      s' := HolderGoesOn(s);
    } else {
      s' :=
        match s.accept
        case LoopHead => s.(accept := if s.stop || s.outer then AcceptExited else Entered)
        case Entered => s.(accept := Loaded(s.cell))
        case Loaded(h) => s.(accept := if s.cell == INVALID then Creating else Connecting(h))
        case Creating => s.(accept := LoopHead)
        case StoringListener(h) => s.(cell := h, accept := LoopHead)
        case Connecting(_) => s.(accept := Taking)
        case DroppingStale =>
          s.(cell := INVALID, accept := if s.cell == INVALID then LoopHead else ClosingStale(s.cell))
        case ClosingStale(h) => WithClosed(s, h).(accept := LoopHead)
        case Taking => s.(cell := INVALID, accept := if s.cell == INVALID then LoopHead else MakingNext(s.cell))
        case MakingNext(c) => s.(accept := Spawning(c))
        case StoringNext(c, h) => s.(cell := h, accept := Spawning(c))
        case Spawning(c) =>
          s.(lock := HeldByAccept, conns := s.conns + [Serving(c)],
             clients := s.clients + [Slot(|s.conns|, false, true)], accept := Reaping)
        case _ => s;
    }
  }

  /** Shutdown's own joins wait only for threads that can go on. */
  lemma JoinerGoesOn(s: Server)
    requires Steady(s) && s.shut.JoiningClients?
    ensures CanStep(s)
  {
    var i := s.shut.next;
    if i >= |s.clients| {
      ShutCan(s, s.(shut := Clearing));
    } else if !s.clients[i].joinable {
      ShutCan(s, s.(shut := JoiningClients(i + 1)));
    } else {
      var t := s.clients[i].tid;
      if s.conns[t] == ConnExited {
        ShutCan(s, s.(clients := s.clients[i := s.clients[i].(joinable := false)],
                      joined := s.joined + [t], shut := JoiningClients(i + 1)));
      } else {
        var s';
        if s.conns[t] == Closed && s.lock != Free {
          s' := HolderGoesOn(s);
        } else {
          s' := ConnGoesOn(s, t);
        }
        WorkCan(s, s');
      }
    }
  }

  /** Once shutdown has been called, some step is enabled until it is done: nothing deadlocks. */
  lemma GoesOn(s: Server)
    requires Steady(s) && s.shut != NotCalled && s.shut != ShutDone
    ensures CanStep(s)
  {
    match s.shut
    case JoiningAccept =>
      if s.accept == AcceptExited {
        ShutCan(s, s.(shut := Draining));
      } else {
        var s' := AcceptGoesOn(s);
        WorkCan(s, s');
      }
    case JoiningClients(_) => JoinerGoesOn(s);
    case RequestingStops =>
      if s.lock == Free {
        ShutCan(s, s.(shut := JoiningClients(0)));
      } else {
        var s' := HolderGoesOn(s);
        WorkCan(s, s');
      }
    case Clearing =>
      if s.lock == Free {
        ShutCan(s, s.(clients := [], shut := ShutDone));
      } else {
        var s' := HolderGoesOn(s);
        WorkCan(s, s');
      }
    case _ => TakerGoesOn(s);
  }

  lemma TakerGoesOn(s: Server)
    requires s.shut == Stopping || s.shut.ClosingFirst? || s.shut == Draining || s.shut.ClosingLeftover?
    ensures CanStep(s)
  {
    var s' :=
      match s.shut
      case Stopping => s.(cell := INVALID, shut := if s.cell == INVALID then JoiningAccept else ClosingFirst(s.cell))
      case ClosingFirst(h) => WithClosed(s, h).(shut := JoiningAccept)
      case Draining =>
        s.(cell := INVALID, shut := if s.cell == INVALID then RequestingStops else ClosingLeftover(s.cell))
      case ClosingLeftover(h) => WithClosed(s, h).(shut := RequestingStops)
      case _ => s;
    ShutCan(s, s');
  }

  // ----- and only so many are left ------------------------------------------------------------------------

  /** How many steps the accept loop can still take before it leaves, each spawned thread paid for. */
  function AcceptLeft(a: Accept): nat {
    match a
    case AcceptExited => 0
    case LoopHead => 1
    case Reaping => 2
    case StoringListener(_) => 2
    case ClosingStale(_) => 2
    case Creating => 3
    case DroppingStale => 3
    case Spawning(_) => 8
    case StoringNext(_, _) => 9
    case MakingNext(_) => 10
    case Taking => 11
    case Connecting(_) => 12
    case Loaded(_) => 13
    case Entered => 14
  }

  function ConnLeft(c: Conn): nat {
    match c
    case Serving(_) => 4
    case Closed => 3
    case Marking => 2
    case Retired => 1
    case ConnExited => 0
  }

  function ConnsLeft(conns: seq<Conn>): nat {
    if conns == [] then 0 else ConnsLeft(conns[..|conns| - 1]) + ConnLeft(conns[|conns| - 1])
  }

  /** With `n` connection slots. */
  function ShutLeft(sh: Shut, n: nat): nat {
    match sh
    case NotCalled => n + 10
    case Stopping => n + 9
    case ClosingFirst(_) => n + 8
    case JoiningAccept => n + 7
    case Draining => n + 6
    case ClosingLeftover(_) => n + 5
    case RequestingStops => n + 4
    case JoiningClients(i) => if i < n then n - i + 2 else 2
    case Clearing => 1
    case ShutDone => 0
  }

  function StepsLeft(s: Server): nat {
    AcceptLeft(s.accept) + ConnsLeft(s.conns) + ShutLeft(s.shut, |s.clients|) + One(!s.outer)
  }

  lemma {:induction false} ConnsLeftUpdate(conns: seq<Conn>, t: nat, c: Conn)
    requires t < |conns|
    ensures ConnsLeft(conns[t := c]) + ConnLeft(conns[t]) == ConnsLeft(conns) + ConnLeft(c)
  {
    var k := |conns| - 1;
    if t < k {
      ConnsLeftUpdate(conns[..k], t, c);
      assert conns[t := c][..k] == conns[..k][t := c];
    } else {
      assert conns[t := c][..k] == conns[..k];
    }
  }

  lemma SpawnCounts(s: Server, s': Server)
    requires s.accept.Spawning? && AcceptStep(s, s') && !PastDrain(s.shut)
    ensures StepsLeft(s') < StepsLeft(s)
  {
    assert (s.conns + [Serving(s.accept.client)])[..|s.conns|] == s.conns;
  }

  lemma ReapCounts(s: Server, s': Server)
    requires s.accept.Reaping? && AcceptStep(s, s') && !PastDrain(s.shut)
    ensures StepsLeft(s') < StepsLeft(s)
  {
    if s'.accept.Reaping? {
      var i: nat :| i < |s.clients| && Reaps(s, s', i);
    }
  }

  lemma OtherAcceptCounts(s: Server, s': Server)
    requires !s.accept.Spawning? && !s.accept.Reaping? && (s.accept == LoopHead ==> s.stop) && AcceptStep(s, s')
    ensures StepsLeft(s') < StepsLeft(s)
  {
  }

  lemma AcceptStepCounts(s: Server, s': Server)
    requires Steady(s) && (s.accept == LoopHead ==> s.stop) && AcceptStep(s, s')
    ensures StepsLeft(s') < StepsLeft(s)
  {
    if s.accept.Spawning? {
      SpawnCounts(s, s');
    } else if s.accept.Reaping? {
      ReapCounts(s, s');
    } else {
      OtherAcceptCounts(s, s');
    }
  }

  lemma ConnStepCounts(s: Server, s': Server, t: nat)
    requires t < |s.conns| && ConnStep(s, s', t)
    ensures StepsLeft(s') < StepsLeft(s)
  {
    ConnsLeftUpdate(s.conns, t, s'.conns[t]);
    MarkDoneAt(s.clients, t);
  }

  lemma ShutStepCounts(s: Server, s': Server)
    requires ShutStep(s, s')
    ensures StepsLeft(s') < StepsLeft(s)
  {
  }

  /** Once shutdown has been called, every step of any party uses up one of the steps left. */
  lemma StepCounts(s: Server, s': Server)
    requires Steady(s) && s.shut != NotCalled && Next(s, s')
    ensures StepsLeft(s') < StepsLeft(s)
  {
    if AcceptStep(s, s') {
      AcceptStepCounts(s, s');
    } else if ShutStep(s, s') {
      ShutStepCounts(s, s');
    } else if OuterStep(s, s') {
      assert StepsLeft(s') + 1 == StepsLeft(s);
    } else {
      var t: nat :| t < |s.conns| && ConnStep(s, s', t);
      ConnStepCounts(s, s', t);
    }
  }

  // ----- what every run guarantees ---------------------------------------------------------------------------

  lemma RunCounts(run: seq<Server>, j: nat)
    requires IsRun(run) && j + 1 < |run| && run[j].shut != NotCalled
    ensures run[j + 1].shut != NotCalled && StepsLeft(run[j + 1]) < StepsLeft(run[j])
  {
    RunSteady(run, j);
    assert Steps(run, j);
    StepKeepsSteady(run[j], run[j + 1]);
    StepCounts(run[j], run[j + 1]);
  }

  /** No run goes on for longer than that after shutdown has been called. */
  lemma {:induction false} ShutdownIsBounded(run: seq<Server>, i: nat, j: nat)
    requires IsRun(run) && i <= j < |run| && run[i].shut != NotCalled
    ensures run[j].shut != NotCalled && j - i + StepsLeft(run[j]) <= StepsLeft(run[i])
  {
    if i < j {
      ShutdownIsBounded(run, i, j - 1);
      RunCounts(run, j - 1);
    }
  }

  /** A run that has stopped after shutdown was called has finished the shutdown. */
  lemma StuckMeansDone(run: seq<Server>, i: nat)
    requires IsRun(run) && i < |run| && run[i].shut != NotCalled
    requires !CanStep(run[|run| - 1])
    ensures run[|run| - 1].shut == ShutDone
  {
    ShutdownIsBounded(run, i, |run| - 1);
    RunSteady(run, |run| - 1);
    if run[|run| - 1].shut != ShutDone {
      GoesOn(run[|run| - 1]);
    }
  }

  lemma Extends(run: seq<Server>) returns (s': Server)
    requires IsRun(run) && run[|run| - 1].shut != NotCalled && run[|run| - 1].shut != ShutDone
    ensures IsRun(run + [s']) && s'.shut != NotCalled && StepsLeft(s') < StepsLeft(run[|run| - 1])
  {
    var s := run[|run| - 1];
    RunSteady(run, |run| - 1);
    GoesOn(s);
    s' :| Next(s, s');
    StepKeepsSteady(s, s');
    StepCounts(s, s');
    forall i: nat | i + 1 < |run + [s']|
      ensures Steps(run + [s'], i)
    {
      assert i + 1 < |run| ==> Steps(run, i);
    }
  }

  /** Every run in which shutdown has been called can be carried on to its end. */
  lemma {:induction false} ShutdownIsReached(run: seq<Server>) returns (longer: seq<Server>)
    requires IsRun(run) && run[|run| - 1].shut != NotCalled
    ensures IsRun(longer) && run <= longer && longer[|longer| - 1].shut == ShutDone
    decreases StepsLeft(run[|run| - 1])
  {
    if run[|run| - 1].shut == ShutDone {
      return run;
    }
    var s' := Extends(run);
    longer := ShutdownIsReached(run + [s']);
  }
}
