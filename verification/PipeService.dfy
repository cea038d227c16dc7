/** The pipe server serves: unless it is asked to stop, clients get a thread of their own, which ends and is swept. */
module PipeService {
  import opened Sequences
  import opened PipeServer
  import opened PipeShutdown
  import PipeListen

  /** Nobody has asked the server to stop. */
  predicate Live(s: Server) {
    !s.stop && !s.outer && s.shut == NotCalled
  }

  // ----- slots of threads that are past the lock are done --------------------------------------------------

  ghost predicate Marked(s: Server) {
    && (forall i :: 0 <= i < |s.clients| && s.clients[i].tid < |s.conns| && PastLock(s.conns[s.clients[i].tid]) ==>
          s.clients[i].done)
    && (s.accept == AcceptExited ==> s.stop || s.outer)
  }

  lemma ReapKeepsMarked(s: Server, s': Server, r: nat)
    requires Marked(s) && SlotsFit(s) && r < |s.clients| && Reaps(s, s', r)
    ensures Marked(s')
  {
    forall i | 0 <= i < |s'.clients|
      ensures s'.clients[i] == s.clients[if i < r then i else i + 1]
    {
      ReapedAt(s.clients, r, i);
    }
  }

  lemma SpawnKeepsMarked(s: Server, s': Server)
    requires Marked(s) && SlotsFit(s) && s.accept.Spawning? && AcceptStep(s, s')
    ensures Marked(s')
  {
  }

  lemma AcceptKeepsMarked(s: Server, s': Server)
    requires Marked(s) && SlotsFit(s) && AcceptStep(s, s')
    ensures Marked(s')
  {
    if s.accept.Reaping? && s'.accept.Reaping? {
      var r: nat :| r < |s.clients| && Reaps(s, s', r);
      ReapKeepsMarked(s, s', r);
    } else if s.accept.Spawning? {
      SpawnKeepsMarked(s, s');
    } else {
      assert s'.clients == s.clients && s'.conns == s.conns;
    }
  }

  lemma ConnKeepsMarked(s: Server, s': Server, t: nat)
    requires Marked(s) && SlotsFit(s) && t < |s.conns| && ConnStep(s, s', t)
    ensures Marked(s')
  {
    MarkDoneAt(s.clients, t);
  }

  lemma ShutKeepsMarked(s: Server, s': Server)
    requires Marked(s) && ShutStep(s, s')
    ensures Marked(s')
  {
  }

  lemma StepKeepsMarked(s: Server, s': Server)
    requires Marked(s) && SlotsFit(s) && Next(s, s')
    ensures Marked(s')
  {
    if AcceptStep(s, s') {
      AcceptKeepsMarked(s, s');
    } else if ShutStep(s, s') {
      ShutKeepsMarked(s, s');
    } else if OuterStep(s, s') {
      assert s'.clients == s.clients && s'.conns == s.conns;
    } else {
      var t: nat :| t < |s.conns| && ConnStep(s, s', t);
      ConnKeepsMarked(s, s', t);
    }
  }

  lemma {:induction false} RunMarked(run: seq<Server>, i: nat)
    requires IsRun(run) && i < |run|
    ensures Marked(run[i])
  {
    if i > 0 {
      RunMarked(run, i - 1);
      MarkedNext(run, i - 1);
    }
  }

  lemma MarkedNext(run: seq<Server>, i: nat)
    requires IsRun(run) && i + 1 < |run| && Marked(run[i])
    ensures Marked(run[i + 1])
  {
    RunInv(run, i);
    assert Steps(run, i);
    StepKeepsMarked(run[i], run[i + 1]);
  }

  /** A slot is marked done exactly when its thread has given the lock back for good. */
  lemma DoneMeansPastLock(run: seq<Server>, i: nat, k: nat)
    requires IsRun(run) && i < |run| && k < |run[i].clients|
    ensures run[i].clients[k].tid < |run[i].conns|
    ensures run[i].clients[k].done <==> PastLock(run[i].conns[run[i].clients[k].tid])
  {
    RunInv(run, i);
    RunMarked(run, i);
  }

  /** The list of slots changed in the hands of who holds the lock, or takes it for that step; only shutdown's joins,
      which come when the accept loop is gone, do without. */
  ghost predicate UnderLock(s: Server, s': Server) {
    if s'.accept != s.accept then s.lock == Free
    else if s'.shut != s.shut then s.lock == Free || s.shut.JoiningClients?
    else s.lock == HeldByAccept || s.lock.HeldByConn?
  }

  lemma AcceptUnderLock(s: Server, s': Server)
    requires LockFits(s) && AcceptStep(s, s') && s'.clients != s.clients
    ensures UnderLock(s, s')
  {
  }

  lemma ShutUnderLock(s: Server, s': Server)
    requires ShutStep(s, s') && s'.clients != s.clients
    ensures UnderLock(s, s')
  {
  }

  lemma ConnUnderLock(s: Server, s': Server, t: nat)
    requires LockFits(s) && t < |s.conns| && ConnStep(s, s', t) && s'.clients != s.clients
    ensures UnderLock(s, s')
  {
  }

  lemma SlotsChangeUnderLock(run: seq<Server>, i: nat)
    requires IsRun(run) && i + 1 < |run| && run[i + 1].clients != run[i].clients
    ensures UnderLock(run[i], run[i + 1])
  {
    var s, s' := run[i], run[i + 1];
    LockFitsAt(run, i);
    assert Steps(run, i);
    if AcceptStep(s, s') {
      AcceptUnderLock(s, s');
    } else if ShutStep(s, s') {
      ShutUnderLock(s, s');
    } else {
      var t: nat :| t < |s.conns| && ConnStep(s, s', t);
      ConnUnderLock(s, s', t);
    }
  }

  lemma LockFitsAt(run: seq<Server>, i: nat)
    requires IsRun(run) && i < |run|
    ensures LockFits(run[i])
  {
    RunInv(run, i);
  }

  // ----- going on -------------------------------------------------------------------------------------------

  function Last(run: seq<Server>): Server
    requires run != []
  {
    run[|run| - 1]
  }

  /** A run of the live server, and a longer one. */
  ghost predicate Continues(run: seq<Server>, longer: seq<Server>) {
    IsRun(run) && IsRun(longer) && run <= longer && Live(Last(longer))
  }

  lemma GoOn(run: seq<Server>, s': Server) returns (longer: seq<Server>)
    requires IsRun(run) && WorkStep(Last(run), s') && Live(Last(run))
    ensures Continues(run, longer) && longer == run + [s'] && Last(longer) == s'
  {
    longer := run + [s'];
    forall i: nat | i + 1 < |longer|
      ensures Steps(longer, i)
    {
      assert i + 1 < |run| ==> Steps(run, i);
    }
  }

  /** The loop is at its head, the lock is free, every connection thread has exited. */
  ghost predicate AtRest(s: Server) {
    s.accept == LoopHead && s.lock == Free && forall t :: 0 <= t < |s.conns| ==> s.conns[t] == ConnExited
  }

  lemma WorkGoesOn(s: Server) returns (s': Server)
    requires Steady(s) && Marked(s) && Live(s) && !AtRest(s)
    ensures WorkStep(s, s') && StepsLeft(s') < StepsLeft(s)
  {
    if s.accept != LoopHead {
      s' := AcceptGoesOn(s);
      if AcceptStep(s, s') {
        AcceptStepCounts(s, s');
      } else {
        var t: nat :| t < |s.conns| && ConnStep(s, s', t);
        ConnStepCounts(s, s', t);
      }
    } else if s.lock != Free {
      s' := HolderGoesOn(s);
      ConnStepCounts(s, s', s.lock.tid);
    } else {
      var t :| 0 <= t < |s.conns| && s.conns[t] != ConnExited;
      s' := ConnGoesOn(s, t);
      ConnStepCounts(s, s', t);
    }
  }

  lemma ContinuesOn(a: seq<Server>, b: seq<Server>, c: seq<Server>)
    requires Continues(a, b) && Continues(b, c)
    ensures Continues(a, c)
  {
  }

  /** Unless it is asked to stop, the server can always come to rest: every connection thread has then closed its
      handle and exited, whatever it was doing. */
  lemma {:induction false} ComesToRest(run: seq<Server>) returns (longer: seq<Server>)
    requires IsRun(run) && Live(Last(run))
    ensures Continues(run, longer) && AtRest(Last(longer))
    decreases StepsLeft(Last(run))
  {
    RunSteady(run, |run| - 1);
    RunMarked(run, |run| - 1);
    if AtRest(Last(run)) {
      return run;
    }
    var s' := WorkGoesOn(Last(run));
    var next := GoOn(run, s');
    longer := ComesToRest(next);
    ContinuesOn(run, next, longer);
  }

  // ----- accepting a client ----------------------------------------------------------------------------------

  /** The accept loop goes on; whoever it waits for does not matter here. */
  lemma Accepts(run: seq<Server>, s': Server) returns (longer: seq<Server>)
    requires IsRun(run) && AcceptStep(Last(run), s') && Live(Last(run))
    ensures Continues(run, longer) && Last(longer) == s'
  {
    longer := GoOn(run, s');
  }

  /** Without a listener the loop makes one. */
  lemma Recreates(run: seq<Server>) returns (longer: seq<Server>)
    requires IsRun(run) && Live(Last(run)) && Last(run).accept == LoopHead && Last(run).cell == INVALID
    ensures Continues(run, longer)
    ensures Last(longer) == WithNew(Last(run)).(cell := Last(run).nextHandle)
  {
    var s := Last(run);
    var s1 := s.(accept := Entered);
    var s2 := s1.(accept := Loaded(INVALID));
    var s3 := s2.(accept := Creating);
    var s4 := WithNew(s3).(accept := StoringListener(s.nextHandle));
    var s5 := s4.(cell := s.nextHandle, accept := LoopHead);
    var r1 := Accepts(run, s1);
    var r2 := Accepts(r1, s2);
    var r3 := Accepts(r2, s3);
    var r4 := Accepts(r3, s4);
    longer := Accepts(r4, s5);
  }

  /** At rest with a listener. */
  lemma Listens(run: seq<Server>) returns (longer: seq<Server>)
    requires IsRun(run) && Live(Last(run)) && AtRest(Last(run))
    ensures Continues(run, longer) && AtRest(Last(longer)) && Last(longer).cell != INVALID
    ensures Last(longer).conns == Last(run).conns
  {
    longer := run;
    if Last(run).cell == INVALID {
      RunInv(run, |run| - 1);
      longer := Recreates(run);
    }
  }

  /** A client connects to the listener, and the loop takes the handle out of the cell. */
  lemma Takes(run: seq<Server>) returns (longer: seq<Server>)
    requires IsRun(run) && Live(Last(run)) && AtRest(Last(run)) && Last(run).cell != INVALID
    ensures Continues(run, longer)
    ensures Last(longer) == Last(run).(cell := INVALID, accept := MakingNext(Last(run).cell))
  {
    var s := Last(run);
    var s1 := s.(accept := Entered);
    var s2 := s1.(accept := Loaded(s.cell));
    var s3 := s2.(accept := Connecting(s.cell));
    var s4 := s3.(accept := Taking);
    var s5 := s4.(cell := INVALID, accept := MakingNext(s.cell));
    var r1 := Accepts(run, s1);
    var r2 := Accepts(r1, s2);
    var r3 := Accepts(r2, s3);
    var r4 := Accepts(r3, s4);
    longer := Accepts(r4, s5);
  }

  /** The connected instance becomes a connection of its own; a new instance listens if it can be created. */
  lemma Spawns(run: seq<Server>, created: bool) returns (longer: seq<Server>)
    requires IsRun(run) && Live(Last(run)) && AtRest(Last(run)) && Last(run).cell != INVALID
    ensures Continues(run, longer)
    ensures var s, after := Last(run), Last(longer);
            && after.accept == Reaping && after.lock == HeldByAccept
            && after.cell == (if created then s.nextHandle else INVALID)
            && after.conns == s.conns + [Serving(s.cell)]
  {
    var c, h := Last(run).cell, Last(run).nextHandle;
    var taken := Takes(run);
    var ready := taken;
    if created {
      var s1 := WithNew(Last(taken)).(accept := StoringNext(c, h));
      var s2 := s1.(cell := h, accept := Spawning(c));
      var r1 := Accepts(taken, s1);
      ready := Accepts(r1, s2);
    } else {
      ready := Accepts(taken, Last(taken).(accept := Spawning(c)));
    }
    var s := Last(ready);
    longer := Accepts(ready, s.(lock := HeldByAccept, conns := s.conns + [Serving(c)],
                                clients := s.clients + [Slot(|s.conns|, false, true)], accept := Reaping));
  }

  /** Reaping, with every connection but the newest over. */
  ghost predicate Sweeping(s: Server) {
    && s.accept == Reaping && s.lock == HeldByAccept && s.conns != []
    && s.conns[|s.conns| - 1].Serving?
    && forall t :: 0 <= t < |s.conns| - 1 ==> s.conns[t] == ConnExited
  }

  ghost predicate SomeDone(s: Server) {
    exists i :: 0 <= i < |s.clients| && s.clients[i].done
  }

  /** A done slot can be reaped at once. */
  lemma ReapNext(s: Server) returns (s': Server)
    requires SlotsSound(s) && Sweeping(s) && SomeDone(s)
    ensures AcceptStep(s, s') && Sweeping(s') && |s'.clients| < |s.clients|
    ensures s'.conns == s.conns && s'.cell == s.cell && (Live(s) ==> Live(s'))
  {
    var i: nat :| i < |s.clients| && s.clients[i].done;
    s' := s.(clients := RemoveAt(s.clients, i),
             joined := if s.clients[i].joinable then s.joined + [s.clients[i].tid] else s.joined);
    assert Reaps(s, s', i);
  }

  lemma LastSlotsSound(run: seq<Server>)
    requires IsRun(run)
    ensures SlotsSound(Last(run))
  {
    RunInv(run, |run| - 1);
  }

  /** The sweep joins every thread that is over. */
  lemma {:induction false} Sweeps(run: seq<Server>) returns (longer: seq<Server>)
    requires IsRun(run) && Live(Last(run)) && Sweeping(Last(run))
    ensures Continues(run, longer)
    ensures var s, after := Last(run), Last(longer);
            && after.accept == LoopHead && after.lock == Free && after.conns == s.conns && after.cell == s.cell
            && !SomeDone(after)
    decreases |Last(run).clients|
  {
    var s := Last(run);
    LastSlotsSound(run);
    if SomeDone(s) {
      var s' := ReapNext(s);
      var next := Accepts(run, s');
      longer := Sweeps(next);
      ContinuesOn(run, next, longer);
    } else {
      longer := Accepts(run, s.(lock := Free, accept := LoopHead));
    }
  }

  /** One client is being served with the handle it connected to; another instance listens, or none; all earlier
      connections are over, joined and swept away. */
  ghost predicate ServesOne(s: Server, listening: bool) {
    && s.conns != [] && s.accept == LoopHead && s.lock == Free
    && (var n := |s.conns| - 1;
        && s.conns[n].Serving? && s.conns[n].h in s.open
        && (if listening then s.cell in s.open && s.cell != s.conns[n].h else s.cell == INVALID)
        && s.clients == [Slot(n, false, true)]
        && forall t :: 0 <= t < n ==> s.conns[t] == ConnExited && t in s.joined)
  }

  lemma OnlySlot(clients: seq<Slot>, t: nat)
    requires HasSlot(clients, t) && forall k :: 0 <= k < |clients| ==> clients[k].tid == t
    requires forall i, j :: 0 <= i < j < |clients| ==> clients[i].tid != clients[j].tid
    ensures |clients| == 1
  {
    var i :| 0 <= i < |clients| && clients[i].tid == t;
    assert clients[0].tid == clients[|clients| - 1].tid;
  }

  lemma SweptServesOne(run: seq<Server>, i: nat)
    requires IsRun(run) && i < |run| && Live(run[i]) && run[i].accept == LoopHead && run[i].lock == Free
    requires var s := run[i];
             && s.conns != [] && s.conns[|s.conns| - 1].Serving?
             && (forall t :: 0 <= t < |s.conns| - 1 ==> s.conns[t] == ConnExited)
             && !SomeDone(s)
    ensures ServesOne(run[i], run[i].cell != INVALID)
  {
    var s := run[i];
    var n := |s.conns| - 1;
    RunInv(run, i);
    RunMarked(run, i);
    assert forall k :: 0 <= k < |s.clients| ==> s.clients[k].tid == n;
    assert n !in s.joined;
    assert HasSlot(s.clients, n);
    OnlySlot(s.clients, n);
    ConnOwnsAt(s.conns, n, s.conns[n].h);
    assert Owners(s, s.cell) == One(s.cell in s.open) && Owners(s, s.conns[n].h) == One(s.conns[n].h in s.open);
  }

  lemma {:induction false} ConnOwnsAt(conns: seq<Conn>, t: nat, h: int)
    requires t < |conns| && conns[t] == Serving(h)
    ensures ConnsOwn(conns, h) >= 1
  {
    if t < |conns| - 1 {
      ConnOwnsAt(conns[..|conns| - 1], t, h);
    }
  }

  /** However far a server has got, unless it is asked to stop: it can go on to serve one more client. By then every
      client that was connected has been let go, its thread joined and its slot removed. The next instance may or may
      not have been created. */
  lemma ClientIsServed(run: seq<Server>, listening: bool) returns (longer: seq<Server>)
    requires IsRun(run) && Live(Last(run))
    ensures IsRun(longer) && run <= longer && Live(Last(longer))
    ensures ServesOne(Last(longer), listening) && |Last(longer).conns| > |Last(run).conns|
  {
    var rest := ComesToRest(run);
    var ready := Listens(rest);
    RunInv(ready, |ready| - 1);
    var spawned := Spawns(ready, listening);
    longer := Sweeps(spawned);
    SweptServesOne(longer, |longer| - 1);
    ContinuesOn(run, rest, ready);
    ContinuesOn(run, ready, spawned);
    ContinuesOn(run, spawned, longer);
    ConnsGrow(run, rest);
  }

  lemma AcceptKeepsConns(s: Server, s': Server)
    requires AcceptStep(s, s')
    ensures |s'.conns| >= |s.conns|
  {
  }

  lemma ShutKeepsConns(s: Server, s': Server)
    requires ShutStep(s, s')
    ensures |s'.conns| >= |s.conns|
  {
  }

  lemma StepKeepsConns(s: Server, s': Server)
    requires Next(s, s')
    ensures |s'.conns| >= |s.conns|
  {
    if AcceptStep(s, s') {
      AcceptKeepsConns(s, s');
    } else if ShutStep(s, s') {
      ShutKeepsConns(s, s');
    }
  }

  lemma ConnsNext(run: seq<Server>, i: nat)
    requires IsRun(run) && i + 1 < |run|
    ensures |run[i].conns| <= |run[i + 1].conns|
  {
    assert Steps(run, i);
    StepKeepsConns(run[i], run[i + 1]);
  }

  lemma {:induction false} ConnsGrowUpTo(run: seq<Server>, i: nat, j: nat)
    requires IsRun(run) && i <= j < |run|
    ensures |run[i].conns| <= |run[j].conns|
  {
    if i < j {
      ConnsGrowUpTo(run, i, j - 1);
      ConnsNext(run, j - 1);
    }
  }

  lemma ConnsGrow(run: seq<Server>, longer: seq<Server>)
    requires Continues(run, longer)
    ensures |Last(run).conns| <= |Last(longer).conns|
  {
    ConnsGrowUpTo(longer, |run| - 1, |longer| - 1);
    assert longer[|run| - 1] == Last(run);
  }

  /** What is open when the loop waits on its copy of the handle. */
  lemma WaitsOnOpen(run: seq<Server>)
    requires IsRun(run) && Live(Last(run)) && Last(run).accept.Connecting?
    ensures var s := Last(run);
            s.cell == s.accept.listen && s.cell in s.open && s.cell != INVALID && s.cell < s.nextHandle
  {
    RunInv(run, |run| - 1);
    PipeListen.RunListen(run, |run| - 1);
    var s := Last(run);
    assert Owners(s, s.cell) == One(s.cell in s.open);
  }

  /** An instance that went stale while the loop waited on it can be closed and replaced, and nobody is served by it. */
  lemma StaleIsReplaced(run: seq<Server>) returns (longer: seq<Server>)
    requires IsRun(run) && Live(Last(run)) && Last(run).accept.Connecting?
    ensures IsRun(longer) && run <= longer && Live(Last(longer))
    ensures var s, after := Last(run), Last(longer);
            && after.accept == LoopHead && after.conns == s.conns && after.clients == s.clients
            && s.accept.listen in after.closed && after.cell in after.open && after.cell != s.accept.listen
  {
    WaitsOnOpen(run);
    var s := Last(run);
    var s1 := s.(accept := DroppingStale);
    var s2 := s1.(cell := INVALID, accept := ClosingStale(s.cell));
    var s3 := WithClosed(s2, s.cell).(accept := LoopHead);
    var r1 := Accepts(run, s1);
    var r2 := Accepts(r1, s2);
    var r3 := Accepts(r2, s3);
    longer := Recreates(r3);
    ContinuesOn(run, r3, longer);
  }

  /** A connect may fail: the loop tries again, or leaves if it was asked to stop, and nothing else has changed. */
  lemma ConnectFails(run: seq<Server>) returns (longer: seq<Server>)
    requires IsRun(run) && Last(run).accept.Connecting?
    ensures IsRun(longer) && run <= longer && |longer| == |run| + 1
    ensures var s := Last(run);
            Last(longer) == s.(accept := if s.stop || s.outer then AcceptExited else LoopHead)
  {
    var s := Last(run);
    var s' := s.(accept := if s.stop || s.outer then AcceptExited else LoopHead);
    longer := run + [s'];
    assert AcceptStep(s, s');
    forall i: nat | i + 1 < |longer|
      ensures Steps(longer, i)
    {
      assert i + 1 < |run| ==> Steps(run, i);
    }
  }

  /** Without a listener the loop goes round again for as long as none can be created. */
  lemma StaysDeaf(run: seq<Server>) returns (longer: seq<Server>)
    requires IsRun(run) && Live(Last(run)) && Last(run).accept == LoopHead && Last(run).cell == INVALID
    ensures IsRun(longer) && run < longer && Last(longer) == Last(run)
  {
    var s := Last(run);
    var s1 := s.(accept := Entered);
    var s2 := s1.(accept := Loaded(INVALID));
    var s3 := s2.(accept := Creating);
    var r1 := Accepts(run, s1);
    var r2 := Accepts(r1, s2);
    var r3 := Accepts(r2, s3);
    longer := Accepts(r3, s);
  }

  /** Asked to stop from outside, the loop leaves; the handle in the cell waits for shutdown. */
  lemma OutsideStops(run: seq<Server>) returns (longer: seq<Server>)
    requires IsRun(run) && Live(Last(run))
    ensures IsRun(longer) && run <= longer
    ensures var after := Last(longer);
            && after.accept == AcceptExited && !after.stop && after.shut == NotCalled
            && forall t :: 0 <= t < |after.conns| ==> after.conns[t] == ConnExited
  {
    var rest := ComesToRest(run);
    var s1 := Last(rest).(outer := true);
    var s2 := s1.(accept := AcceptExited);
    longer := rest + [s1, s2];
    assert OuterStep(Last(rest), s1) && AcceptStep(s1, s2);
    forall i: nat | i + 1 < |longer|
      ensures Steps(longer, i)
    {
      assert i + 1 < |rest| ==> Steps(rest, i);
    }
  }
}
