/** When a reader of the shared status record comes back: while no publish is under way, exactly when the sequence
    number is even. A writer that died in the middle of a publish leaves it odd, and readers spin. */
module SeqlockProgress {
  import opened Seqlock

  /** The reader after k of its own steps, with nobody else moving. */
  ghost function Alone(s: Shm, reader: Reader, k: nat): Reader {
    if k == 0 then reader else AfterStep(s, Alone(s, reader, k - 1))
  }

  /** In a run of nothing but its steps that is what becomes of it. */
  lemma {:induction false} AloneInRun(run: seq<Shm>, r: nat, k: nat)
    requires k < |run| && r < |run[0].readers|
    requires forall i: nat :: i < k ==> ReaderStepsAt(run, r, i)
    ensures r < |run[k].readers| && run[k].readers[r] == Alone(run[0], run[0].readers[r], k)
    ensures run[k].cells == run[0].cells && run[k].seqNo == run[0].seqNo
  {
    if k > 0 {
      AloneInRun(run, r, k - 1);
      assert ReaderStepsAt(run, r, k - 1);
    }
  }

  ghost predicate ReaderStepsAt(run: seq<Shm>, r: nat, i: nat) {
    i + 1 < |run| && ReaderSteps(run[i], run[i + 1], r)
  }

  lemma {:induction false} AloneAdds(s: Shm, reader: Reader, a: nat, b: nat)
    ensures Alone(s, Alone(s, reader, a), b) == Alone(s, reader, a + b)
  {
    if b > 0 {
      AloneAdds(s, reader, a, b - 1);
    }
  }

  /** k cells further on. */
  ghost function Further(s: Shm, reader: Reader, k: nat): Reader
    requires reader.activity.Copying? && |reader.activity.copy| + k <= |s.cells|
  {
    var n := |reader.activity.copy|;
    reader.(activity := Copying(reader.activity.seqNo, reader.activity.copy + s.cells[n..n + k]))
  }

  lemma {:induction false} CopiesOn(s: Shm, reader: Reader, k: nat)
    requires reader.activity.Copying? && |reader.activity.copy| + k <= |s.cells|
    ensures Alone(s, reader, k) == Further(s, reader, k)
  {
    var copy := reader.activity.copy;
    var n := |copy|;
    if k > 0 {
      CopiesOn(s, reader, k - 1);
      assert copy + s.cells[n..n + k] == copy + s.cells[n..n + k - 1] + [s.cells[n + k - 1]];
    } else {
      assert copy + s.cells[n..n] == copy;
    }
  }

  /** A copy that has been begun ends with a return, or with a fresh start if the number has changed. */
  lemma CopyEnds(s: Shm, reader: Reader)
    requires reader.activity.Copying? && |reader.activity.copy| <= |s.cells|
    ensures var after := Alone(s, reader, |s.cells| - |reader.activity.copy| + 1);
            && after.activity.Start?
            && if reader.activity.seqNo == s.seqNo then |after.returned| == |reader.returned| + 1
               else after == reader.(activity := Start)
  {
    CopiesOn(s, reader, |s.cells| - |reader.activity.copy|);
  }

  /** Starting afresh on an even number, it returns the record as it is, in as many steps as there are cells and
      two more. */
  lemma FreshReturns(s: Shm, reader: Reader)
    requires reader.activity.Start? && s.seqNo % 2 == 0
    ensures Alone(s, reader, |s.cells| + 2) == Reader(Start, reader.returned + [Snapshot(s.seqNo, s.cells)])
  {
    var begun := reader.(activity := Copying(s.seqNo, []));
    assert Alone(s, reader, 0) == reader;
    assert Alone(s, reader, 1) == begun;
    CopiesOn(s, begun, |s.cells|);
    assert [] + s.cells[0..0 + |s.cells|] == s.cells;
    AloneAdds(s, reader, 1, |s.cells|);
  }

  /** Copies are only begun on even numbers. */
  ghost predicate EvenCopy(reader: Reader) {
    reader.activity.Copying? ==> reader.activity.seqNo % 2 == 0
  }

  lemma {:induction false} OddNeverReturns(s: Shm, reader: Reader, k: nat)
    requires s.seqNo % 2 == 1 && EvenCopy(reader)
    ensures Alone(s, reader, k).returned == reader.returned && EvenCopy(Alone(s, reader, k))
  {
    if k > 0 {
      OddNeverReturns(s, reader, k - 1);
    }
  }

  ghost predicate Returned(s: Shm, reader: Reader, k: nat) {
    |Alone(s, reader, k).returned| > |reader.returned|
  }

  lemma EvenReturnsSoon(s: Shm, reader: Reader)
    requires s.seqNo % 2 == 0 && (reader.activity.Copying? ==> |reader.activity.copy| <= |s.cells|)
    ensures exists k: nat :: k <= 2 * |s.cells| + 3 && Returned(s, reader, k)
  {
    var n := |s.cells|;
    if reader.activity.Start? {
      FreshReturns(s, reader);
      assert Returned(s, reader, n + 2);
    } else {
      var a := n - |reader.activity.copy| + 1;
      CopyEnds(s, reader);
      if reader.activity.seqNo == s.seqNo {
        assert Returned(s, reader, a);
      } else {
        FreshReturns(s, Alone(s, reader, a));
        AloneAdds(s, reader, a, n + 2);
        assert Returned(s, reader, a + (n + 2));
      }
    }
  }

  /** With nobody else moving, wherever a reader of a run stands, it returns within two passes over the record
      exactly when the sequence number is even; otherwise it never does. */
  lemma ReturnsExactly(run: seq<Shm>, i: nat, r: nat)
    requires IsRun(run) && i < |run| && r < |run[i].readers|
    ensures (exists k: nat :: Returned(run[i], run[i].readers[r], k)) <==> run[i].seqNo % 2 == 0
    ensures run[i].seqNo % 2 == 0 ==>
              exists k: nat :: k <= 2 * CELLS + 3 && Returned(run[i], run[i].readers[r], k)
  {
    var s, reader := run[i], run[i].readers[r];
    ReaderReady(run, i, r);
    if s.seqNo % 2 == 0 {
      EvenReturnsSoon(s, reader);
    } else {
      forall k: nat
        ensures !Returned(s, reader, k)
      {
        OddNeverReturns(s, reader, k);
      }
    }
  }

  lemma ReaderReady(run: seq<Shm>, i: nat, r: nat)
    requires IsRun(run) && i < |run| && r < |run[i].readers|
    ensures EvenCopy(run[i].readers[r]) && |run[i].cells| == CELLS
    ensures run[i].readers[r].activity.Copying? ==> |run[i].readers[r].activity.copy| <= CELLS
  {
    RunInv(run, i);
    FittingIsReady(run[i], run[i].readers[r]);
  }

  lemma FittingIsReady(s: Shm, reader: Reader)
    requires WriterFits(s) && ReaderFits(s, reader)
    ensures EvenCopy(reader) && |s.cells| == CELLS
    ensures reader.activity.Copying? ==> |reader.activity.copy| <= CELLS
  {
    if reader.activity.Copying? {
      CopyIsEven(s, reader.activity.seqNo, reader.activity.copy);
    }
  }

  lemma CopyIsEven(s: Shm, q: nat, copy: seq<int>)
    requires CopyFits(s, q, copy) && s.base % 2 == 0
    ensures q % 2 == 0
  {
  }

  /** Without a publish under way the number is odd only if the record was found in the middle of one and none has
      been completed since. */
  lemma OddMeansAbandoned(run: seq<Shm>, i: nat)
    requires IsRun(run) && i < |run| && run[i].writer == Idle
    ensures run[i].seqNo % 2 == 1 <==> run[i].published == [] && run[i].seqNo + 1 == run[i].base
  {
    RunInv(run, i);
  }

  // ----- publishes complete, and are seen ----------------------------------------------------------------

  ghost function Last(run: seq<Shm>): Shm
    requires run != []
  {
    run[|run| - 1]
  }

  /** `longer` goes on where `run` stops. */
  ghost predicate GoesOn(run: seq<Shm>, longer: seq<Shm>) {
    IsRun(run) && IsRun(longer) && run <= longer
  }

  lemma OneStepMore(run: seq<Shm>, s': Shm)
    requires IsRun(run) && Next(Last(run), s')
    ensures GoesOn(run, run + [s'])
  {
    var longer := run + [s'];
    forall i: nat | i + 1 < |longer|
      ensures Steps(longer, i)
    {
      assert i + 1 < |run| ==> Steps(run, i);
    }
  }

  /** A publish under way stores its data to the end. */
  lemma {:induction false} StoresGoOn(run: seq<Shm>) returns (longer: seq<Shm>)
    requires IsRun(run) && Last(run).writer.Storing?
    requires Last(run).writer.done <= |Stores(Last(run).writer.update)|
    ensures GoesOn(run, longer) && Last(longer).writer.Storing? && Last(longer).readers == Last(run).readers
    ensures Last(longer).writer.update == Last(run).writer.update && Last(longer).published == Last(run).published
    ensures Last(longer).writer.done == |Stores(Last(longer).writer.update)|
    decreases |Stores(Last(run).writer.update)| - Last(run).writer.done
  {
    var s := Last(run);
    if s.writer.done == |Stores(s.writer.update)| {
      return run;
    }
    var s' := s.(cells := Apply(s.cells, Stores(s.writer.update)[s.writer.done]),
                 writer := s.writer.(done := s.writer.done + 1));
    assert PublishStores(s, s');
    OneStepMore(run, s');
    longer := StoresGoOn(run + [s']);
  }

  lemma PublishStarts(run: seq<Shm>, u: Update) returns (longer: seq<Shm>)
    requires IsRun(run) && Last(run).writer == Idle
    ensures GoesOn(run, longer) && Last(longer).writer.Storing? && Last(longer).readers == Last(run).readers
    ensures Last(longer).writer.update == u && Last(longer).writer.done == 0
    ensures Last(longer).published == Last(run).published
  {
    var s := Last(run);
    var s1 := s.(writer := Begun(u, s.seqNo + s.seqNo % 2));
    assert PublishBegins(s, s1, u);
    OneStepMore(run, s1);
    var s2 := s1.(seqNo := s1.writer.loaded + 1, writer := Storing(u, s1.writer.loaded, 0));
    assert PublishMarks(s1, s2);
    OneStepMore(run + [s1], s2);
    longer := run + [s1] + [s2];
  }

  lemma PublishFinishes(run: seq<Shm>) returns (longer: seq<Shm>)
    requires IsRun(run) && Last(run).writer.Storing?
    requires Last(run).writer.done == |Stores(Last(run).writer.update)|
    ensures GoesOn(run, longer) && Last(longer).writer == Idle && Last(longer).readers == Last(run).readers
    ensures Last(longer).published == Last(run).published + [Last(run).writer.update]
  {
    var s := Last(run);
    var s' := s.(seqNo := s.writer.loaded + 2, writer := Idle, published := s.published + [s.writer.update]);
    assert PublishEnds(s, s');
    OneStepMore(run, s');
    longer := run + [s'];
  }

  /** Wherever the record was left, even in the middle of a publish: every update can be published to its end,
      and then the number is even again. */
  lemma PublishCompletes(run: seq<Shm>, u: Update) returns (longer: seq<Shm>)
    requires IsRun(run) && Last(run).writer == Idle
    ensures GoesOn(run, longer) && Last(longer).writer == Idle && Last(longer).readers == Last(run).readers
    ensures Last(longer).published == Last(run).published + [u]
    ensures Last(longer).seqNo == Last(longer).base + 2 * |Last(longer).published|
  {
    longer := PublishStarts(run, u);
    longer := StoresGoOn(longer);
    longer := PublishFinishes(longer);
    RunInv(longer, |longer| - 1);
  }

  /** Any reader can take any number of steps in a row. */
  lemma {:induction false} ReaderGoesOn(run: seq<Shm>, r: nat, k: nat) returns (longer: seq<Shm>)
    requires IsRun(run) && r < |Last(run).readers|
    ensures GoesOn(run, longer) && |Last(longer).readers| == |Last(run).readers|
    ensures Last(longer) == Last(run).(readers := Last(longer).readers)
    ensures Last(longer).readers[r] == Alone(Last(run), Last(run).readers[r], k)
  {
    if k == 0 {
      return run;
    }
    longer := ReaderGoesOn(run, r, k - 1);
    var s := Last(longer);
    var s' := s.(readers := s.readers[r := AfterStep(s, s.readers[r])]);
    assert ReaderSteps(s, s', r);
    OneStepMore(longer, s');
    longer := longer + [s'];
  }

  /** The last snapshot that reader r has returned shows the last publish. */
  ghost predicate SeesLatest(s: Shm, r: nat) {
    && s.published != [] && r < |s.readers| && s.readers[r].returned != []
    && var returned := s.readers[r].returned;
       var m := |s.published| - 1;
       Displays(returned[|returned| - 1].cells, History(s.initial, s.published[..m]), s.published[m])
  }

  /** With no publish under way and one completed, a returned copy of the record shows it. */
  lemma RecordShowsLatest(run: seq<Shm>)
    requires IsRun(run) && Last(run).writer == Idle && Last(run).published != []
    ensures var s := Last(run);
            var m := |s.published| - 1;
            Displays(s.cells, History(s.initial, s.published[..m]), s.published[m])
  {
    var s := Last(run);
    var m := |s.published| - 1;
    RunInv(run, |run| - 1);
    PrefixDisplays(s.initial, s.published, m);
    assert s.published[..m + 1] == s.published;
    AgreeingDisplays(s.cells, History(s.initial, s.published), History(s.initial, s.published[..m]), s.published[m]);
  }

  /** From wherever it stands, a reader returns the record as it is. */
  lemma ReturnsRecord(s: Shm, reader: Reader) returns (k: nat)
    requires s.seqNo % 2 == 0 && (reader.activity.Copying? ==> |reader.activity.copy| <= |s.cells|)
    ensures var returned := Alone(s, reader, k).returned;
            returned != [] && returned[|returned| - 1] == Snapshot(s.seqNo, s.cells)
  {
    var n := |s.cells|;
    var a := 0;
    if reader.activity.Copying? {
      a := n - |reader.activity.copy| + 1;
      CopyEnds(s, reader);
    }
    FreshReturns(s, Alone(s, reader, a));
    AloneAdds(s, reader, a, n + 2);
    k := a + (n + 2);
  }

  /** ... and every reader, wherever it stands, can go on to return a snapshot that shows the last publish. */
  lemma EveryReaderSees(run: seq<Shm>, r: nat) returns (longer: seq<Shm>)
    requires IsRun(run) && Last(run).writer == Idle && Last(run).published != [] && r < |Last(run).readers|
    ensures GoesOn(run, longer) && SeesLatest(Last(longer), r) && Last(longer).published == Last(run).published
  {
    var s := Last(run);
    RunInv(run, |run| - 1);
    ReaderReady(run, |run| - 1, r);
    RecordShowsLatest(run);
    var k := ReturnsRecord(s, s.readers[r]);
    longer := ReaderGoesOn(run, r, k);
  }

  /** Duration and queue size can be stored at any time, also in the middle of a publish. */
  lemma OutsideStoresHappen(run: seq<Shm>, cell: nat, value: int) returns (longer: seq<Shm>)
    requires IsRun(run) && (cell == DURATION || cell == QUEUE_SIZE)
    ensures GoesOn(run, longer) && |Last(run).cells| == CELLS && Last(longer).cells == Last(run).cells[cell := value]
    ensures Last(longer).writer == Last(run).writer
  {
    RunInv(run, |run| - 1);
    var s := Last(run);
    var s' := s.(cells := Apply(s.cells, Store(cell, value)));
    assert StoresOutside(s, s', cell, value);
    OneStepMore(run, s');
    longer := run + [s'];
  }
}
