/** The server's handle and thread protocol on the named-pipe path: the accept loop, the connection
    threads and shutdown, one shared-memory access or system call at a time. */
module PipeServer {
  import opened Sequences

  const INVALID: int := -1

  /** The accept loop, between two steps. Parameters are the local variables that hold handles. */
  datatype Accept =
    | LoopHead | Entered | Loaded(listen: int) | Creating | StoringListener(h: int)
    | Connecting(listen: int)
    | DroppingStale | ClosingStale(h: int) | Taking | MakingNext(client: int)
    | StoringNext(client: int, next: int) | Spawning(client: int) | Reaping | AcceptExited

  /** A connection thread: it owns its handle while serving, closes it, then retires under the lock. */
  datatype Conn = Serving(h: int) | Closed | Marking | Retired | ConnExited

  datatype Shut =
    | NotCalled | Stopping | ClosingFirst(h: int) | JoiningAccept | Draining | ClosingLeftover(h: int)
    | RequestingStops | JoiningClients(next: nat) | Clearing | ShutDone

  datatype Slot = Slot(tid: nat, done: bool, joinable: bool)

  datatype Lock = Free | HeldByAccept | HeldByConn(tid: nat)

  /** `cell` is pipeHandle_, `outer` the stop token that run() was given. `open`, `closed` (in order of closing),
      `nextHandle` and `joined` record what the system calls have done. Thread ids are indices into `conns`. */
  datatype Server = Server(
    cell: int, stop: bool, outer: bool, accept: Accept, conns: seq<Conn>, clients: seq<Slot>, lock: Lock, shut: Shut,
    open: set<int>, closed: seq<int>, nextHandle: int, joined: seq<nat>)

  /** After listen(): a first instance is stored, or its creation failed. */
  ghost predicate Init(s: Server) {
    && s.accept == LoopHead && s.conns == [] && s.clients == [] && s.lock == Free && s.shut == NotCalled
    && !s.stop && !s.outer && s.closed == [] && s.joined == []
    && ((s.cell == INVALID && s.open == {} && s.nextHandle == 1) || (s.cell == 1 && s.open == {1} && s.nextHandle == 2))
  }

  // ----- system calls ---------------------------------------------------------------------------------

  function WithNew(s: Server): Server {
    s.(open := s.open + {s.nextHandle}, nextHandle := s.nextHandle + 1)
  }

  function WithClosed(s: Server, h: int): Server {
    s.(open := s.open - {h}, closed := s.closed + [h])
  }

  // ----- the accept loop ------------------------------------------------------------------------------

  ghost predicate AcceptStep(s: Server, s': Server) {
    match s.accept
    case LoopHead => s' == s.(accept := if s.stop || s.outer then AcceptExited else Entered)
    case Entered => s' == s.(accept := Loaded(s.cell))
    case Loaded(h) => s' == s.(accept := if s.cell == INVALID then Creating else Connecting(h))
    case Creating =>
      || s' == s.(accept := LoopHead)
      || s' == WithNew(s).(accept := StoringListener(s.nextHandle))
    case StoringListener(h) => s' == s.(cell := h, accept := LoopHead)
    case Connecting(_) =>
      || s' == s.(accept := Taking)
      || ((s.stop || s.outer) && s' == s.(accept := AcceptExited))
      || s' == s.(accept := LoopHead)
      || s' == s.(accept := DroppingStale)
    case DroppingStale =>
      s' == s.(cell := INVALID, accept := if s.cell == INVALID then LoopHead else ClosingStale(s.cell))
    case ClosingStale(h) => s' == WithClosed(s, h).(accept := LoopHead)
    case Taking =>
      s' == s.(cell := INVALID, accept := if s.cell == INVALID then LoopHead else MakingNext(s.cell))
    case MakingNext(c) =>
      || s' == s.(accept := Spawning(c))
      || s' == WithNew(s).(accept := StoringNext(c, s.nextHandle))
    case StoringNext(c, h) => s' == s.(cell := h, accept := Spawning(c))
    case Spawning(c) =>
      && s.lock == Free
      && s' == s.(lock := HeldByAccept, conns := s.conns + [Serving(c)],
                  clients := s.clients + [Slot(|s.conns|, false, true)], accept := Reaping)
    case Reaping =>
      if exists i :: 0 <= i < |s.clients| && s.clients[i].done
      then exists i: nat :: i < |s.clients| && Reaps(s, s', i)
      else s' == s.(lock := Free, accept := LoopHead)
    case AcceptExited => false
  }

  /** Erasing a done slot joins its thread, with the lock held; it blocks until the thread has exited. */
  ghost predicate Reaps(s: Server, s': Server, i: nat)
    requires i < |s.clients|
  {
    && s.clients[i].done && s.clients[i].tid < |s.conns| && s.conns[s.clients[i].tid] == ConnExited
    && s' == s.(clients := RemoveAt(s.clients, i),
                joined := if s.clients[i].joinable then s.joined + [s.clients[i].tid] else s.joined)
  }

  // ----- connection threads -----------------------------------------------------------------------------

  function MarkDone(clients: seq<Slot>, t: nat): seq<Slot> {
    if clients == [] then []
    else if clients[0].tid == t then [clients[0].(done := true)] + clients[1..]
    else [clients[0]] + MarkDone(clients[1..], t)
  }

  ghost predicate ConnStep(s: Server, s': Server, t: nat)
    requires t < |s.conns|
  {
    match s.conns[t]
    case Serving(h) => s' == WithClosed(s, h).(conns := s.conns[t := Closed])
    case Closed => s.lock == Free && s' == s.(lock := HeldByConn(t), conns := s.conns[t := Marking])
    case Marking => s' == s.(lock := Free, clients := MarkDone(s.clients, t), conns := s.conns[t := Retired])
    case Retired => s' == s.(conns := s.conns[t := ConnExited])
    case ConnExited => false
  }

  // ----- shutdown ---------------------------------------------------------------------------------------

  ghost predicate ShutStep(s: Server, s': Server) {
    match s.shut
    case NotCalled => s' == s.(stop := true, shut := Stopping)
    case Stopping =>
      s' == s.(cell := INVALID, shut := if s.cell == INVALID then JoiningAccept else ClosingFirst(s.cell))
    case ClosingFirst(h) => s' == WithClosed(s, h).(shut := JoiningAccept)
    case JoiningAccept => s.accept == AcceptExited && s' == s.(shut := Draining)
    case Draining =>
      s' == s.(cell := INVALID, shut := if s.cell == INVALID then RequestingStops else ClosingLeftover(s.cell))
    case ClosingLeftover(h) => s' == WithClosed(s, h).(shut := RequestingStops)
    case RequestingStops => s.lock == Free && s' == s.(shut := JoiningClients(0))
    case JoiningClients(i) =>
      if i >= |s.clients| then s' == s.(shut := Clearing)
      else if !s.clients[i].joinable then s' == s.(shut := JoiningClients(i + 1))
      else
        && s.clients[i].tid < |s.conns| && s.conns[s.clients[i].tid] == ConnExited
        && s' == s.(clients := s.clients[i := s.clients[i].(joinable := false)],
                    joined := s.joined + [s.clients[i].tid], shut := JoiningClients(i + 1))
    case Clearing => s.lock == Free && s' == s.(clients := [], shut := ShutDone)
    case ShutDone => false
  }

  /** The program around asks the server to stop. */
  ghost predicate OuterStep(s: Server, s': Server) {
    !s.outer && s' == s.(outer := true)
  }

  ghost predicate Next(s: Server, s': Server) {
    AcceptStep(s, s') || ShutStep(s, s') || OuterStep(s, s') || exists t: nat :: t < |s.conns| && ConnStep(s, s', t)
  }

  /** The i-th step of a run. */
  ghost predicate Steps(run: seq<Server>, i: nat)
    requires i + 1 < |run|
  {
    Next(run[i], run[i + 1])
  }

  ghost predicate IsRun(run: seq<Server>) {
    run != [] && Init(run[0]) && forall i: nat :: i + 1 < |run| ==> Steps(run, i)
  }

  // ----- who owns a handle --------------------------------------------------------------------------------

  function One(b: bool): nat {
    if b then 1 else 0
  }

  function AcceptOwns(a: Accept, h: int): nat {
    match a
    case StoringListener(x) => One(x == h)
    case ClosingStale(x) => One(x == h)
    case MakingNext(c) => One(c == h)
    case StoringNext(c, n) => One(c == h) + One(n == h)
    case Spawning(c) => One(c == h)
    case _ => 0
  }

  function ShutOwns(sh: Shut, h: int): nat {
    match sh
    case ClosingFirst(x) => One(x == h)
    case ClosingLeftover(x) => One(x == h)
    case _ => 0
  }

  function ConnOwns(c: Conn, h: int): nat {
    One(c == Serving(h))
  }

  function ConnsOwn(conns: seq<Conn>, h: int): nat {
    if conns == [] then 0 else ConnsOwn(conns[..|conns| - 1], h) + ConnOwns(conns[|conns| - 1], h)
  }

  /** In how many places handle h is held: the shared cell, the accept loop, shutdown, the connections. */
  function Owners(s: Server, h: int): nat {
    One(s.cell == h && h != INVALID) + AcceptOwns(s.accept, h) + ShutOwns(s.shut, h) + ConnsOwn(s.conns, h)
  }

  /** A handle that was created is open and has exactly one owner, or has been closed once and has none. */
  ghost predicate HandlesFit(s: Server) {
    && s.nextHandle >= 1
    && (forall h :: Owners(s, h) == One(h in s.open))
    && (forall h :: h in s.open ==> 1 <= h < s.nextHandle && h !in s.closed)
    && (forall h :: h in s.closed ==> 1 <= h < s.nextHandle)
    && (forall h :: 1 <= h < s.nextHandle ==> h in s.open || h in s.closed)
    && NoDup(s.closed)
  }

  /** Only the accept loop stores, and only after it has seen the cell empty. */
  ghost predicate CellFits(s: Server) {
    && (s.accept.Creating? || s.accept.StoringListener? || s.accept.MakingNext? || s.accept.StoringNext? ==>
          s.cell == INVALID)
    && (PastJoin(s.shut) ==> s.accept == AcceptExited)
    && (s.shut.ClosingLeftover? || PastDrain(s.shut) ==> s.cell == INVALID)
  }

  predicate PastJoin(sh: Shut) {
    sh.Draining? || sh.ClosingLeftover? || PastDrain(sh)
  }

  predicate PastDrain(sh: Shut) {
    sh.RequestingStops? || sh.JoiningClients? || sh.Clearing? || sh.ShutDone?
  }

  lemma {:induction false} ConnsOwnUpdate(conns: seq<Conn>, t: nat, c: Conn, h: int)
    requires t < |conns|
    ensures ConnsOwn(conns[t := c], h) + ConnOwns(conns[t], h) == ConnsOwn(conns, h) + ConnOwns(c, h)
  {
    var k := |conns| - 1;
    if t < k {
      ConnsOwnUpdate(conns[..k], t, c, h);
      assert conns[t := c][..k] == conns[..k][t := c];
    } else {
      assert conns[t := c][..k] == conns[..k];
    }
  }

  lemma ConnsOwnAppend(conns: seq<Conn>, c: Conn, h: int)
    ensures ConnsOwn(conns + [c], h) == ConnsOwn(conns, h) + ConnOwns(c, h)
  {
    assert (conns + [c])[..|conns|] == conns;
  }

  /** Closing a handle one owns, and dropping it, keeps the count. */
  lemma CloseKeepsHandles(s: Server, s': Server, x: int)
    requires HandlesFit(s) && s'.open == s.open - {x} && s'.closed == s.closed + [x] && s'.nextHandle == s.nextHandle
    requires Owners(s, x) >= 1
    requires forall h :: Owners(s', h) + One(h == x) == Owners(s, h)
    ensures HandlesFit(s')
  {
    assert x in s.open;
  }

  /** Moving handles between owners keeps the count. */
  lemma MoveKeepsHandles(s: Server, s': Server)
    requires HandlesFit(s) && s'.open == s.open && s'.closed == s.closed && s'.nextHandle == s.nextHandle
    requires forall h :: Owners(s', h) == Owners(s, h)
    ensures HandlesFit(s')
  {
  }

  lemma CreateKeepsHandles(s: Server, s': Server)
    requires HandlesFit(s) && s'.open == s.open + {s.nextHandle} && s'.closed == s.closed
    requires s'.nextHandle == s.nextHandle + 1
    requires forall h :: Owners(s', h) == Owners(s, h) + One(h == s.nextHandle)
    ensures HandlesFit(s')
  {
  }

  lemma AcceptCreates(s: Server, s': Server)
    requires HandlesFit(s) && AcceptStep(s, s') && (s.accept.Creating? || s.accept.MakingNext?)
    ensures HandlesFit(s')
  {
    if s'.nextHandle != s.nextHandle {
      CreateKeepsHandles(s, s');
    } else {
      MoveKeepsHandles(s, s');
    }
  }

  lemma AcceptStores(s: Server, s': Server)
    requires HandlesFit(s) && CellFits(s) && AcceptStep(s, s') && (s.accept.StoringListener? || s.accept.StoringNext?)
    ensures HandlesFit(s')
  {
    MoveKeepsHandles(s, s');
  }

  lemma AcceptCloses(s: Server, s': Server)
    requires HandlesFit(s) && AcceptStep(s, s') && s.accept.ClosingStale?
    ensures HandlesFit(s')
  {
    CloseKeepsHandles(s, s', s.accept.h);
  }

  lemma AcceptTakes(s: Server, s': Server)
    requires HandlesFit(s) && AcceptStep(s, s') && (s.accept.DroppingStale? || s.accept.Taking?)
    ensures HandlesFit(s')
  {
    MoveKeepsHandles(s, s');
  }

  lemma SpawnKeepsOwners(s: Server, s': Server, c: int, h: int)
    requires s.accept == Spawning(c) && s'.accept == Reaping && s'.conns == s.conns + [Serving(c)]
    requires s'.cell == s.cell && s'.shut == s.shut
    ensures Owners(s', h) == Owners(s, h)
  {
    ConnsOwnAppend(s.conns, Serving(c), h);
  }

  lemma AcceptSpawns(s: Server, s': Server)
    requires HandlesFit(s) && AcceptStep(s, s') && s.accept.Spawning?
    ensures HandlesFit(s')
  {
    forall h
      ensures Owners(s', h) == Owners(s, h)
    {
      SpawnKeepsOwners(s, s', s.accept.client, h);
    }
    MoveKeepsHandles(s, s');
  }

  lemma AcceptKeepsHandles(s: Server, s': Server)
    requires HandlesFit(s) && CellFits(s) && AcceptStep(s, s')
    ensures HandlesFit(s')
  {
    match s.accept
    case Creating => AcceptCreates(s, s');
    case MakingNext(c) => AcceptCreates(s, s');
    case StoringListener(h) => AcceptStores(s, s');
    case StoringNext(c, h) => AcceptStores(s, s');
    case ClosingStale(x) => AcceptCloses(s, s');
    case DroppingStale => AcceptTakes(s, s');
    case Taking => AcceptTakes(s, s');
    case Spawning(c) => AcceptSpawns(s, s');
    case _ => AcceptWaits(s, s');
  }

  lemma AcceptWaits(s: Server, s': Server)
    requires HandlesFit(s) && AcceptStep(s, s')
    requires s.accept.LoopHead? || s.accept.Entered? || s.accept.Loaded? || s.accept.Connecting? || s.accept.Reaping?
    ensures HandlesFit(s')
  {
    MoveKeepsHandles(s, s');
  }

  lemma ConnKeepsHandles(s: Server, s': Server, t: nat)
    requires HandlesFit(s) && t < |s.conns| && ConnStep(s, s', t)
    ensures HandlesFit(s')
  {
    forall h
      ensures ConnsOwn(s'.conns, h) + ConnOwns(s.conns[t], h) == ConnsOwn(s.conns, h)
    {
      ConnsOwnUpdate(s.conns, t, s'.conns[t], h);
    }
    if s.conns[t].Serving? {
      CloseKeepsHandles(s, s', s.conns[t].h);
    } else {
      MoveKeepsHandles(s, s');
    }
  }

  lemma ShutKeepsHandles(s: Server, s': Server)
    requires HandlesFit(s) && ShutStep(s, s')
    ensures HandlesFit(s')
  {
    if s.shut.ClosingFirst? || s.shut.ClosingLeftover? {
      CloseKeepsHandles(s, s', s.shut.h);
    } else {
      ShutMoves(s, s');
    }
  }

  lemma ShutMoves(s: Server, s': Server)
    requires HandlesFit(s) && ShutStep(s, s') && !s.shut.ClosingFirst? && !s.shut.ClosingLeftover?
    ensures HandlesFit(s')
  {
    if s.shut == Stopping || s.shut == Draining {
      ShutTakes(s, s');
    } else {
      MoveKeepsHandles(s, s');
    }
  }

  lemma ShutTakes(s: Server, s': Server)
    requires HandlesFit(s) && ShutStep(s, s') && (s.shut == Stopping || s.shut == Draining)
    ensures HandlesFit(s')
  {
    MoveKeepsHandles(s, s');
  }

  lemma AcceptKeepsCell(s: Server, s': Server)
    requires CellFits(s) && AcceptStep(s, s')
    ensures CellFits(s')
  {
  }

  lemma ShutKeepsCell(s: Server, s': Server)
    requires CellFits(s) && ShutStep(s, s')
    ensures CellFits(s')
  {
  }

  lemma ConnKeepsCell(s: Server, s': Server, t: nat)
    requires CellFits(s) && t < |s.conns| && ConnStep(s, s', t)
    ensures CellFits(s')
  {
  }

  // ----- slots, joins and the lock ---------------------------------------------------------------------------

  ghost predicate PastLock(c: Conn) {
    c.Retired? || c.ConnExited?
  }

  /** Every thread has been joined, or has exactly one slot that still can be; done slots belong to threads
      that will not take the lock again; the lock is held by whoever is inside it. */
  ghost predicate SlotsFit(s: Server) {
    SlotsSound(s) && ThreadsFit(s)
  }

  ghost predicate SlotsSound(s: Server) {
    && (forall i :: 0 <= i < |s.clients| ==> s.clients[i].tid < |s.conns|)
    && (forall i, j :: 0 <= i < j < |s.clients| ==> s.clients[i].tid != s.clients[j].tid)
    && (forall i :: 0 <= i < |s.clients| ==> (s.clients[i].joinable <==> s.clients[i].tid !in s.joined))
    && (forall i :: 0 <= i < |s.clients| && s.clients[i].done ==> PastLock(s.conns[s.clients[i].tid]))
  }

  ghost predicate ThreadsFit(s: Server) {
    && (forall t :: 0 <= t < |s.conns| ==> t in s.joined || HasSlot(s.clients, t))
    && NoDup(s.joined)
    && (forall i :: 0 <= i < |s.joined| ==> s.joined[i] < |s.conns| && s.conns[s.joined[i]] == ConnExited)
  }

  ghost predicate HasSlot(clients: seq<Slot>, t: int) {
    exists i :: 0 <= i < |clients| && clients[i].tid == t
  }

  ghost predicate LockFits(s: Server) {
    && (s.lock == HeldByAccept <==> s.accept == Reaping)
    && (forall t :: 0 <= t < |s.conns| ==> (s.lock == HeldByConn(t) <==> s.conns[t] == Marking))
  }

  /** How far shutdown's own joins have got. */
  ghost predicate JoinsFit(s: Server) {
    && (PastDrain(s.shut) ==> s.accept == AcceptExited)
    && (s.shut.JoiningClients? ==>
          forall i :: 0 <= i < s.shut.next && i < |s.clients| ==> !s.clients[i].joinable)
    && (s.shut.Clearing? || s.shut.ShutDone? ==> forall i :: 0 <= i < |s.clients| ==> !s.clients[i].joinable)
    && (s.shut.Clearing? || s.shut.ShutDone? ==> forall t :: 0 <= t < |s.conns| ==> t in s.joined)
  }

  lemma {:induction false} MarkDoneAt(clients: seq<Slot>, t: nat)
    ensures |MarkDone(clients, t)| == |clients|
    ensures forall i :: 0 <= i < |clients| ==>
              && MarkDone(clients, t)[i].tid == clients[i].tid
              && MarkDone(clients, t)[i].joinable == clients[i].joinable
              && (MarkDone(clients, t)[i].done ==> clients[i].done || clients[i].tid == t)
              && (clients[i].done ==> MarkDone(clients, t)[i].done)
    ensures forall i :: (0 <= i < |clients| && clients[i].tid == t && forall j :: 0 <= j < i ==> clients[j].tid != t)
              ==> MarkDone(clients, t)[i].done
  {
    if clients != [] && clients[0].tid != t {
      MarkDoneAt(clients[1..], t);
    }
  }

  lemma SpawnKeepsThreads(s: Server, s': Server)
    requires SlotsFit(s) && AcceptStep(s, s') && s.accept.Spawning?
    ensures ThreadsFit(s')
  {
    var n := |s.clients|;
    assert s'.clients[n].tid == |s.conns|;
    forall t | 0 <= t < |s'.conns|
      ensures t in s'.joined || HasSlot(s'.clients, t)
    {
      if t < |s.conns| && t !in s.joined {
        var i :| 0 <= i < n && s.clients[i].tid == t;
        assert s'.clients[i].tid == t;
      }
    }
  }

  lemma SpawnKeepsSlots(s: Server, s': Server)
    requires SlotsFit(s) && AcceptStep(s, s') && s.accept.Spawning?
    ensures SlotsFit(s')
  {
    SpawnKeepsThreads(s, s');
    assert forall i :: 0 <= i < |s.joined| ==> s.joined[i] in s.joined;
  }

  lemma SlotLeft(clients: seq<Slot>, r: nat, t: int)
    requires r < |clients| && HasSlot(clients, t) && t != clients[r].tid
    ensures HasSlot(RemoveAt(clients, r), t)
  {
    var i :| 0 <= i < |clients| && clients[i].tid == t;
    assert RemoveAt(clients, r)[if i < r then i else i - 1].tid == t;
  }

  lemma ReapJoins(s: Server, s': Server, r: nat)
    requires SlotsFit(s) && r < |s.clients| && Reaps(s, s', r)
    ensures forall t :: t in s'.joined <==> t in s.joined || t == s.clients[r].tid
  {
    assert s.clients[r].joinable ==> s'.joined[|s.joined|] == s.clients[r].tid;
    assert forall j :: 0 <= j < |s.joined| ==> s'.joined[j] == s.joined[j];
  }

  lemma ReapKeepsThreads(s: Server, s': Server, r: nat)
    requires SlotsFit(s) && r < |s.clients| && Reaps(s, s', r)
    ensures forall t :: t in s'.joined <==> t in s.joined || t == s.clients[r].tid
    ensures forall t :: 0 <= t < |s'.conns| ==> t in s'.joined || HasSlot(s'.clients, t)
  {
    ReapJoins(s, s', r);
    forall t | 0 <= t < |s'.conns|
      ensures t in s'.joined || HasSlot(s'.clients, t)
    {
      if t !in s'.joined {
        SlotLeft(s.clients, r, t);
      }
    }
  }

  lemma ReapedAt(clients: seq<Slot>, r: nat, i: nat)
    requires r < |clients| && i + 1 < |clients|
    ensures RemoveAt(clients, r)[i] == clients[if i < r then i else i + 1]
  {
  }

  lemma ReapKeepsSound(s: Server, s': Server, r: nat)
    requires SlotsSound(s) && r < |s.clients| && Reaps(s, s', r)
    requires forall t :: t in s'.joined <==> t in s.joined || t == s.clients[r].tid
    ensures SlotsSound(s')
  {
    forall i | 0 <= i < |s'.clients|
      ensures s'.clients[i] == s.clients[if i < r then i else i + 1] && s'.clients[i].tid != s.clients[r].tid
    {
      ReapedAt(s.clients, r, i);
    }
  }

  lemma ReapKeepsSlots(s: Server, s': Server, r: nat)
    requires SlotsFit(s) && r < |s.clients| && Reaps(s, s', r)
    ensures SlotsFit(s')
  {
    ReapKeepsThreads(s, s', r);
    ReapKeepsSound(s, s', r);
  }

  lemma SlotsStillThere(before: seq<Slot>, after: seq<Slot>)
    requires |before| == |after| && forall i :: 0 <= i < |before| ==> after[i].tid == before[i].tid
    ensures forall t :: HasSlot(before, t) ==> HasSlot(after, t)
  {
    forall t | HasSlot(before, t)
      ensures HasSlot(after, t)
    {
      var i :| 0 <= i < |before| && before[i].tid == t;
      assert after[i].tid == t;
    }
  }

  lemma MarkingKeepsThreads(s: Server, s': Server, c: nat)
    requires SlotsFit(s) && c < |s.conns| && s.conns[c].Marking? && ConnStep(s, s', c)
    ensures ThreadsFit(s')
  {
    MarkDoneAt(s.clients, c);
    SlotsStillThere(s.clients, s'.clients);
  }

  lemma MarkingKeepsSlots(s: Server, s': Server, c: nat)
    requires SlotsFit(s) && c < |s.conns| && s.conns[c].Marking? && ConnStep(s, s', c)
    ensures SlotsFit(s')
  {
    MarkingKeepsThreads(s, s', c);
    MarkDoneAt(s.clients, c);
  }

  lemma ConnKeepsSlots(s: Server, s': Server, c: nat)
    requires SlotsFit(s) && c < |s.conns| && ConnStep(s, s', c)
    ensures SlotsFit(s')
  {
    if s.conns[c].Marking? {
      MarkingKeepsSlots(s, s', c);
    } else {
      OtherConnStepKeepsSlots(s, s', c);
    }
  }

  lemma OtherConnStepKeepsThreads(s: Server, s': Server, c: nat)
    requires SlotsFit(s) && c < |s.conns| && !s.conns[c].Marking? && ConnStep(s, s', c)
    ensures ThreadsFit(s')
  {
  }

  lemma OtherConnStepKeepsSlots(s: Server, s': Server, c: nat)
    requires SlotsFit(s) && c < |s.conns| && !s.conns[c].Marking? && ConnStep(s, s', c)
    ensures SlotsFit(s')
  {
    OtherConnStepKeepsThreads(s, s', c);
  }

  lemma ShutJoinKeepsSlots(s: Server, s': Server)
    requires SlotsFit(s) && ShutStep(s, s') && s.shut.JoiningClients? && s'.joined != s.joined
    ensures SlotsFit(s')
  {
    var k := s.shut.next;
    assert s'.joined[|s.joined|] == s.clients[k].tid;
    SlotsStillThere(s.clients, s'.clients);
    assert forall t :: t in s'.joined <==> t in s.joined || t == s.clients[k].tid;
  }

  lemma ClearingKeepsSlots(s: Server, s': Server)
    requires SlotsFit(s) && JoinsFit(s) && ShutStep(s, s') && s.shut.Clearing?
    ensures SlotsFit(s')
  {
  }

  lemma ShutKeepsSlots(s: Server, s': Server)
    requires SlotsFit(s) && JoinsFit(s) && ShutStep(s, s')
    ensures SlotsFit(s')
  {
    if s.shut.Clearing? {
      ClearingKeepsSlots(s, s');
    } else if s'.joined == s.joined {
      SameSlots(s, s');
    } else {
      ShutJoinKeepsSlots(s, s');
    }
  }

  lemma AcceptKeepsSlots(s: Server, s': Server)
    requires SlotsFit(s) && AcceptStep(s, s')
    ensures SlotsFit(s')
  {
    if s.accept.Spawning? {
      SpawnKeepsSlots(s, s');
    } else if s.accept.Reaping? && s'.accept.Reaping? {
      var r: nat :| r < |s.clients| && Reaps(s, s', r);
      ReapKeepsSlots(s, s', r);
    } else {
      SameSlots(s, s');
    }
  }

  lemma SameSlots(s: Server, s': Server)
    requires SlotsFit(s) && s'.clients == s.clients && s'.conns == s.conns && s'.joined == s.joined
    ensures SlotsFit(s')
  {
  }

  lemma SpawnKeepsLock(s: Server, s': Server)
    requires LockFits(s) && AcceptStep(s, s') && s.accept.Spawning?
    ensures LockFits(s')
  {
  }

  lemma ReapingKeepsLock(s: Server, s': Server)
    requires LockFits(s) && AcceptStep(s, s') && s.accept.Reaping?
    ensures LockFits(s')
  {
  }

  lemma AcceptKeepsLock(s: Server, s': Server)
    requires LockFits(s) && AcceptStep(s, s')
    ensures LockFits(s')
  {
    if s.accept.Spawning? {
      SpawnKeepsLock(s, s');
    } else if s.accept.Reaping? {
      ReapingKeepsLock(s, s');
    } else {
      assert s'.lock == s.lock && s'.conns == s.conns && s'.accept != Reaping;
    }
  }

  lemma ConnKeepsLock(s: Server, s': Server, c: nat)
    requires LockFits(s) && c < |s.conns| && ConnStep(s, s', c)
    ensures LockFits(s')
  {
  }

  lemma ConnKeepsJoins(s: Server, s': Server, c: nat)
    requires JoinsFit(s) && c < |s.conns| && ConnStep(s, s', c)
    ensures JoinsFit(s')
  {
    MarkDoneAt(s.clients, c);
  }

  lemma ShutKeepsJoins(s: Server, s': Server)
    requires JoinsFit(s) && SlotsFit(s) && CellFits(s) && ShutStep(s, s')
    ensures JoinsFit(s')
  {
    if s'.shut.Clearing? {
      assert forall i :: 0 <= i < |s.clients| ==> s.clients[i].tid in s.joined;
    }
  }

  ghost predicate Inv(s: Server) {
    HandlesFit(s) && CellFits(s) && SlotsFit(s) && LockFits(s) && JoinsFit(s)
  }

  lemma AcceptKeepsInv(s: Server, s': Server)
    requires Inv(s) && AcceptStep(s, s')
    ensures Inv(s')
  {
    AcceptKeepsCell(s, s');
    AcceptKeepsLock(s, s');
    AcceptKeepsHandles(s, s');
    AcceptKeepsSlots(s, s');
    AcceptKeepsJoins(s, s');
  }

  lemma AcceptKeepsJoins(s: Server, s': Server)
    requires JoinsFit(s) && CellFits(s) && AcceptStep(s, s')
    ensures JoinsFit(s')
  {
  }

  lemma ShutKeepsInv(s: Server, s': Server)
    requires Inv(s) && ShutStep(s, s')
    ensures Inv(s')
  {
    ShutKeepsCell(s, s');
    ShutKeepsHandles(s, s');
    ShutKeepsSlots(s, s');
    ShutKeepsJoins(s, s');
  }

  lemma ConnKeepsInv(s: Server, s': Server, t: nat)
    requires Inv(s) && t < |s.conns| && ConnStep(s, s', t)
    ensures Inv(s')
  {
    ConnKeepsCell(s, s', t);
    ConnKeepsLock(s, s', t);
    ConnKeepsHandles(s, s', t);
    ConnKeepsSlots(s, s', t);
    ConnKeepsJoins(s, s', t);
  }

  lemma OuterKeepsHandles(s: Server, s': Server)
    requires HandlesFit(s) && OuterStep(s, s')
    ensures HandlesFit(s')
  {
    MoveKeepsHandles(s, s');
  }

  lemma OuterKeepsInv(s: Server, s': Server)
    requires Inv(s) && OuterStep(s, s')
    ensures Inv(s')
  {
    OuterKeepsHandles(s, s');
    SameSlots(s, s');
  }

  lemma StepKeepsInv(s: Server, s': Server)
    requires Inv(s) && Next(s, s')
    ensures Inv(s')
  {
    if AcceptStep(s, s') {
      AcceptKeepsInv(s, s');
    } else if ShutStep(s, s') {
      ShutKeepsInv(s, s');
    } else if OuterStep(s, s') {
      OuterKeepsInv(s, s');
    } else {
      var t: nat :| t < |s.conns| && ConnStep(s, s', t);
      ConnKeepsInv(s, s', t);
    }
  }

  lemma {:induction false} RunInv(run: seq<Server>, i: nat)
    requires IsRun(run) && i < |run|
    ensures Inv(run[i])
  {
    if i == 0 {
      InitInv(run[0]);
    } else {
      RunInv(run, i - 1);
      assert Steps(run, i - 1);
      StepKeepsInv(run[i - 1], run[i]);
    }
  }

  lemma InitInv(s: Server)
    requires Init(s)
    ensures Inv(s)
  {
  }

  // ----- what every run guarantees --------------------------------------------------------------------------------

  /** A handle never has two owners, a handle with no owner is not open, and none is closed twice. */
  lemma SingleOwnership(run: seq<Server>, i: nat, h: int)
    requires IsRun(run) && i < |run|
    ensures Owners(run[i], h) == One(h in run[i].open)
    ensures NoDup(run[i].closed) && (h in run[i].closed ==> h !in run[i].open)
  {
    RunInv(run, i);
  }

  /** Every store of a handle finds the cell empty, so no live handle is ever overwritten. */
  lemma StoresFindCellEmpty(run: seq<Server>, i: nat)
    requires IsRun(run) && i + 1 < |run| && run[i + 1].cell != run[i].cell && run[i + 1].cell != INVALID
    ensures run[i].cell == INVALID
  {
    RunInv(run, i);
    assert Steps(run, i);
    StoreFindsCellEmpty(run[i], run[i + 1]);
  }

  lemma StoreFindsCellEmpty(s: Server, s': Server)
    requires CellFits(s) && Next(s, s') && s'.cell != s.cell && s'.cell != INVALID
    ensures s.cell == INVALID
  {
  }

  /** When shutdown is done every handle ever created has been closed exactly once, and every connection
      thread ever started has exited and been joined exactly once. */
  lemma ShutdownLeavesNothing(run: seq<Server>, i: nat)
    requires IsRun(run) && i < |run| && run[i].shut == ShutDone
    ensures run[i].open == {} && run[i].cell == INVALID && NoDup(run[i].closed)
    ensures forall h :: h in run[i].closed <==> 1 <= h < run[i].nextHandle
    ensures NoDup(run[i].joined) && forall t :: 0 <= t < |run[i].conns| ==> t in run[i].joined
    ensures forall t :: 0 <= t < |run[i].conns| ==> run[i].conns[t] == ConnExited
  {
    var s := run[i];
    RunInv(run, i);
    forall t | 0 <= t < |s.conns|
      ensures s.conns[t] == ConnExited
    {
      assert t in s.joined;
      var j :| 0 <= j < |s.joined| && s.joined[j] == t;
    }
    forall h
      ensures h !in s.open
    {
      ExitedOwnNothing(s.conns, h);
      assert Owners(s, h) == 0;
    }
  }

  lemma {:induction false} ExitedOwnNothing(conns: seq<Conn>, h: int)
    requires forall t :: 0 <= t < |conns| ==> conns[t] == ConnExited
    ensures ConnsOwn(conns, h) == 0
  {
    if conns != [] {
      ExitedOwnNothing(conns[..|conns| - 1], h);
    }
  }

  /** A thread the accept loop joins while it holds the lock will not ask for the lock again; it has already
      closed its handle. */
  lemma ReapedThreadIsPastLock(run: seq<Server>, i: nat, k: nat)
    requires IsRun(run) && i < |run| && run[i].lock == HeldByAccept
    requires k < |run[i].clients| && run[i].clients[k].done
    ensures run[i].clients[k].tid < |run[i].conns| && PastLock(run[i].conns[run[i].clients[k].tid])
  {
    RunInv(run, i);
  }
}
