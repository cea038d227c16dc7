/** The handle the accept loop waits on: it is a copy, and shutdown may close the original under it. */
module PipeListen {
  import opened PipeServer

  /** The copy is still what the cell holds, until shutdown takes the handle, closes it and waits. */
  ghost predicate Tracked(s: Server, h: int) {
    if s.shut == NotCalled || s.shut == Stopping then s.cell == h
    else s.cell == INVALID && (s.shut == ClosingFirst(h) || (s.shut == JoiningAccept && h in s.closed))
  }

  ghost predicate ListenFits(s: Server) {
    && (s.shut != NotCalled ==> s.stop)
    && match s.accept
       case Entered => s.shut != NotCalled && s.shut != Stopping ==> s.cell == INVALID
       case Loaded(h) => if h == INVALID then s.cell == INVALID else Tracked(s, h)
       case Connecting(h) => h != INVALID && Tracked(s, h)
       case _ => true
  }

  lemma AcceptKeepsListen(s: Server, s': Server)
    requires ListenFits(s) && AcceptStep(s, s')
    ensures ListenFits(s')
  {
  }

  lemma ShutKeepsListen(s: Server, s': Server)
    requires ListenFits(s) && CellFits(s) && ShutStep(s, s')
    ensures ListenFits(s')
  {
  }

  lemma ConnKeepsListen(s: Server, s': Server, t: nat)
    requires ListenFits(s) && t < |s.conns| && ConnStep(s, s', t)
    ensures ListenFits(s')
  {
  }

  lemma StepKeepsListen(s: Server, s': Server)
    requires ListenFits(s) && CellFits(s) && Next(s, s')
    ensures ListenFits(s')
  {
    if AcceptStep(s, s') {
      AcceptKeepsListen(s, s');
    } else if ShutStep(s, s') {
      ShutKeepsListen(s, s');
    } else if OuterStep(s, s') {
      assert s'.accept == s.accept && s'.cell == s.cell && s'.shut == s.shut;
    } else {
      var t: nat :| t < |s.conns| && ConnStep(s, s', t);
      ConnKeepsListen(s, s', t);
    }
  }

  lemma {:induction false} RunListen(run: seq<Server>, i: nat)
    requires IsRun(run) && i < |run|
    ensures ListenFits(run[i])
  {
    if i > 0 {
      RunListen(run, i - 1);
      RunInv(run, i - 1);
      assert Steps(run, i - 1);
      StepKeepsListen(run[i - 1], run[i]);
    }
  }

  /** While the accept loop waits on handle h, h is open or has been closed, and it has been closed exactly when
      shutdown has made its first close and waits for the loop. */
  lemma WaitsOnClosedHandle(run: seq<Server>, i: nat)
    requires IsRun(run) && i < |run| && run[i].accept.Connecting?
    ensures var s, h := run[i], run[i].accept.listen;
            && (h in s.closed <==> s.shut == JoiningAccept)
            && (h in s.open <==> s.shut == NotCalled || s.shut == Stopping || s.shut == ClosingFirst(h))
            && (h in s.open <==> h !in s.closed)
  {
    RunInv(run, i);
    RunListen(run, i);
    var s, h := run[i], run[i].accept.listen;
    assert Owners(s, h) == One(h in s.open);
  }

  /** Why shutdown looks into the cell twice: the loop may find it empty after the first close, create another instance
      and store it. */
  lemma StoredAfterFirstClose(start: Server) returns (run: seq<Server>)
    requires Init(start) && start.cell == 1
    ensures IsRun(run) && run[0] == start
    ensures var s := run[|run| - 1];
            s.shut == JoiningAccept && 1 in s.closed && s.cell == 2 && 2 in s.open
  {
    var s1 := start.(accept := Entered);
    var s2 := s1.(accept := Loaded(1));
    var s3 := s2.(stop := true, shut := Stopping);
    var s4 := s3.(cell := INVALID, shut := ClosingFirst(1));
    var s5 := WithClosed(s4, 1).(shut := JoiningAccept);
    var s6 := s5.(accept := Creating);
    var s7 := WithNew(s6).(accept := StoringListener(2));
    var s8 := s7.(cell := 2, accept := LoopHead);
    run := [start, s1, s2, s3, s4, s5, s6, s7, s8];
    assert AcceptStep(start, s1) && AcceptStep(s1, s2) && ShutStep(s2, s3) && ShutStep(s3, s4);
    assert ShutStep(s4, s5) && AcceptStep(s5, s6) && AcceptStep(s6, s7) && AcceptStep(s7, s8);
    forall i: nat | i + 1 < |run|
      ensures Steps(run, i)
    {
      assert i == 0 || i == 1 || i == 2 || i == 3 || i == 4 || i == 5 || i == 6 || i == 7;
    }
  }

  /** It does happen: the loop has loaded handle 1 and is about to connect when shutdown takes and closes it. */
  lemma WaitsOnClosedExample(start: Server) returns (run: seq<Server>)
    requires Init(start) && start.cell == 1
    ensures IsRun(run) && run[0] == start
    ensures var s := run[|run| - 1];
            s.accept == Connecting(1) && 1 in s.closed
  {
    var s1 := start.(accept := Entered);
    var s2 := s1.(accept := Loaded(1));
    var s3 := s2.(accept := Connecting(1));
    var s4 := s3.(stop := true, shut := Stopping);
    var s5 := s4.(cell := INVALID, shut := ClosingFirst(1));
    var s6 := WithClosed(s5, 1).(shut := JoiningAccept);
    run := [start, s1, s2, s3, s4, s5, s6];
    assert AcceptStep(start, s1) && AcceptStep(s1, s2) && AcceptStep(s2, s3);
    assert ShutStep(s3, s4) && ShutStep(s4, s5) && ShutStep(s5, s6);
    forall i: nat | i + 1 < |run|
      ensures Steps(run, i)
    {
      assert i == 0 || i == 1 || i == 2 || i == 3 || i == 4 || i == 5;
    }
  }
}
