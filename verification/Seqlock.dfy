/** The shared-memory status record: one writer's stores interleaved with any number of readers' loads. */
module Seqlock {
  // The record, one cell per atomic field or string byte, in the order the reader loads them.
  const POSITION: nat := 0
  const DURATION: nat := 1
  const VOLUME: nat := 2
  const MUTED: nat := 3
  const STATE: nat := 4
  const TRACK: nat := 5
  const QUEUE_SIZE: nat := 6
  const TITLE: nat := 7
  const ARTIST: nat := 263
  const TEXT: nat := 256
  const CELLS: nat := 519

  datatype Update = Update(
    position: int, volume: int, muted: int, state: int, track: int, title: seq<int>, artist: seq<int>)

  datatype Store = Store(cell: nat, value: int)

  /** Copying a string: nothing if empty, otherwise at most 255 bytes and a terminator. */
  function TextStores(base: nat, text: seq<int>): seq<Store> {
    if text == [] then [] else
      var n := if |text| < TEXT - 1 then |text| else TEXT - 1;
      seq(n, j requires 0 <= j < n => Store(base + j, text[j])) + [Store(base + n, 0)]
  }

  /** The stores of one publish between its two sequence stores, in program order. */
  function Stores(u: Update): seq<Store> {
    Head(u) + TextStores(TITLE, u.title) + TextStores(ARTIST, u.artist)
  }

  function Apply(cells: seq<int>, w: Store): seq<int> {
    if w.cell < |cells| then cells[w.cell := w.value] else cells
  }

  function ApplyAll(cells: seq<int>, ws: seq<Store>): seq<int> {
    if ws == [] then cells else Apply(ApplyAll(cells, ws[..|ws| - 1]), ws[|ws| - 1])
  }

  /** The record after the publishes `us`, one whole publish after another. */
  function History(initial: seq<int>, us: seq<Update>): seq<int> {
    if us == [] then initial else ApplyAll(History(initial, us[..|us| - 1]), Stores(us[|us| - 1]))
  }

  // ----- what a publish leaves in the record ------------------------------------------------------------

  lemma {:induction false} ApplyAllLength(cells: seq<int>, ws: seq<Store>)
    ensures |ApplyAll(cells, ws)| == |cells|
  {
    if ws != [] {
      ApplyAllLength(cells, ws[..|ws| - 1]);
    }
  }

  lemma {:induction false} ApplyAllAppend(cells: seq<int>, a: seq<Store>, b: seq<Store>)
    ensures ApplyAll(cells, a + b) == ApplyAll(ApplyAll(cells, a), b)
  {
    if b == [] {
      assert a + b == a;
    } else {
      var k := |b| - 1;
      assert (a + b)[..|a| + k] == a + b[..k];
      ApplyAllAppend(cells, a, b[..k]);
    }
  }

  /** The text field at `base` reads `text`, cut to 255 bytes and terminated; an empty text changes nothing. */
  ghost predicate Shows(after: seq<int>, before: seq<int>, base: nat, text: seq<int>)
    requires |after| == |before| == CELLS && base + TEXT <= CELLS
  {
    var n := if |text| < TEXT - 1 then |text| else TEXT - 1;
    if text == [] then forall j :: base <= j < base + TEXT ==> after[j] == before[j]
    else after[base + n] == 0 && forall j :: base <= j < base + n ==> after[j] == text[j - base]
  }

  /** `cells` after the first k bytes of `text` have been copied to `base`. */
  ghost predicate Copied(after: seq<int>, cells: seq<int>, base: nat, text: seq<int>, k: nat)
    requires |cells| == CELLS && k <= |text|
  {
    && |after| == CELLS
    && forall i :: 0 <= i < CELLS ==> after[i] == if base <= i < base + k then text[i - base] else cells[i]
  }

  lemma {:induction false} CopyPrefix(cells: seq<int>, base: nat, text: seq<int>, k: nat)
    requires |cells| == CELLS && base + TEXT <= CELLS && text != [] && k < |TextStores(base, text)|
    ensures Copied(ApplyAll(cells, TextStores(base, text)[..k]), cells, base, text, k)
  {
    if k > 0 {
      CopyPrefix(cells, base, text, k - 1);
      assert TextStores(base, text)[..k][..k - 1] == TextStores(base, text)[..k - 1];
    }
  }

  ghost predicate SameRange(a: seq<int>, b: seq<int>, lo: nat, hi: nat) {
    |a| == |b| == CELLS && hi <= CELLS && forall i :: lo <= i < hi ==> a[i] == b[i]
  }

  /** The text is shown, and nothing else has changed. */
  ghost predicate TextStored(after: seq<int>, before: seq<int>, base: nat, text: seq<int>) {
    && |after| == |before| == CELLS && base + TEXT <= CELLS && Shows(after, before, base, text)
    && SameRange(after, before, 0, base) && SameRange(after, before, base + TEXT, CELLS)
  }

  lemma CopiedIsStored(copied: seq<int>, cells: seq<int>, base: nat, text: seq<int>, n: nat)
    requires |cells| == CELLS && base + TEXT <= CELLS && n <= |text| && Copied(copied, cells, base, text, n)
    requires text != [] && n == if |text| < TEXT - 1 then |text| else TEXT - 1
    ensures TextStored(copied[base + n := 0], cells, base, text)
  {
  }

  lemma TextIsShown(cells: seq<int>, base: nat, text: seq<int>)
    requires |cells| == CELLS && base + TEXT <= CELLS
    ensures TextStored(ApplyAll(cells, TextStores(base, text)), cells, base, text)
  {
    if text != [] {
      var ws := TextStores(base, text);
      CopyPrefix(cells, base, text, |ws| - 1);
      CopiedIsStored(ApplyAll(cells, ws[..|ws| - 1]), cells, base, text, |ws| - 1);
    }
  }

  function Head(u: Update): seq<Store> {
    [Store(POSITION, u.position), Store(VOLUME, u.volume), Store(STATE, u.state),
     Store(TRACK, u.track), Store(MUTED, u.muted)]
  }

  lemma HeadIsStored(cells: seq<int>, u: Update)
    requires |cells| == CELLS
    ensures ApplyAll(cells, Head(u))
         == cells[POSITION := u.position][VOLUME := u.volume][STATE := u.state][TRACK := u.track][MUTED := u.muted]
  {
    var w := Head(u);
    assert w[..4][..3] == w[..3] && w[..3][..2] == w[..2] && w[..2][..1] == w[..1] && w[..1][..0] == [];
    assert ApplyAll(cells, w[..1]) == cells[POSITION := u.position];
    assert ApplyAll(cells, w[..2]) == Apply(ApplyAll(cells, w[..1]), w[1]);
    assert ApplyAll(cells, w[..3]) == Apply(ApplyAll(cells, w[..2]), w[2]);
    assert ApplyAll(cells, w[..4]) == Apply(ApplyAll(cells, w[..3]), w[3]);
  }

  lemma ShowsThrough(before: seq<int>, a: seq<int>, b: seq<int>, c: seq<int>, base: nat, text: seq<int>)
    requires base + TEXT <= CELLS && SameRange(a, before, base, base + TEXT) && SameRange(c, b, base, base + TEXT)
    requires Shows(b, a, base, text)
    ensures Shows(c, before, base, text)
  {
  }

  /** The five scalar fields and the two texts of `u`. */
  ghost predicate Displays(cells: seq<int>, before: seq<int>, u: Update) {
    && |cells| == |before| == CELLS
    && cells[POSITION] == u.position && cells[VOLUME] == u.volume && cells[MUTED] == u.muted
    && cells[STATE] == u.state && cells[TRACK] == u.track
    && Shows(cells, before, TITLE, u.title) && Shows(cells, before, ARTIST, u.artist)
  }

  /** The scalar fields are stored, and nothing else has changed. */
  ghost predicate ScalarsStored(after: seq<int>, before: seq<int>, u: Update) {
    && |after| == |before| == CELLS
    && after[POSITION] == u.position && after[VOLUME] == u.volume && after[MUTED] == u.muted
    && after[STATE] == u.state && after[TRACK] == u.track
    && after[DURATION] == before[DURATION] && after[QUEUE_SIZE] == before[QUEUE_SIZE]
    && SameRange(after, before, TITLE, CELLS)
  }

  lemma ScalarsShown(cells: seq<int>, u: Update)
    requires |cells| == CELLS
    ensures ScalarsStored(ApplyAll(cells, Head(u)), cells, u)
  {
    HeadIsStored(cells, u);
  }

  lemma StoresInParts(cells: seq<int>, u: Update)
    ensures ApplyAll(cells, Stores(u))
         == ApplyAll(ApplyAll(ApplyAll(cells, Head(u)), TextStores(TITLE, u.title)), TextStores(ARTIST, u.artist))
  {
    ApplyAllAppend(cells, Head(u), TextStores(TITLE, u.title));
    ApplyAllAppend(cells, Head(u) + TextStores(TITLE, u.title), TextStores(ARTIST, u.artist));
  }

  lemma PartsAreShown(before: seq<int>, a: seq<int>, b: seq<int>, c: seq<int>, u: Update)
    requires ScalarsStored(a, before, u) && TextStored(b, a, TITLE, u.title) && TextStored(c, b, ARTIST, u.artist)
    ensures Displays(c, before, u) && c[DURATION] == before[DURATION] && c[QUEUE_SIZE] == before[QUEUE_SIZE]
  {
    ShowsThrough(before, a, b, c, TITLE, u.title);
    ShowsThrough(before, b, c, c, ARTIST, u.artist);
  }

  /** After a whole publish every protected field shows the update, and the other two are untouched. */
  lemma PublishShows(cells: seq<int>, u: Update)
    requires |cells| == CELLS
    ensures Displays(ApplyAll(cells, Stores(u)), cells, u)
    ensures ApplyAll(cells, Stores(u))[DURATION] == cells[DURATION]
    ensures ApplyAll(cells, Stores(u))[QUEUE_SIZE] == cells[QUEUE_SIZE]
  {
    var a := ApplyAll(cells, Head(u));
    var b := ApplyAll(a, TextStores(TITLE, u.title));
    StoresInParts(cells, u);
    ScalarsShown(cells, u);
    TextIsShown(a, TITLE, u.title);
    TextIsShown(b, ARTIST, u.artist);
    PartsAreShown(cells, a, b, ApplyAll(cells, Stores(u)), u);
  }

  // ----- the system ---------------------------------------------------------------------------------

  datatype Writer = Idle | Begun(update: Update, loaded: nat) | Storing(update: Update, loaded: nat, done: nat)

  datatype Snapshot = Snapshot(seqNo: nat, cells: seq<int>)

  datatype Activity = Start | Copying(seqNo: nat, copy: seq<int>)

  /** A reader: what it is doing, and the snapshots it has returned so far. */
  datatype Reader = Reader(activity: Activity, returned: seq<Snapshot>)

  /** `initial`, `base` and `published` only record the past: the record found at the start, its sequence
      number rounded up to even, and the completed publishes. */
  datatype Shm = Shm(
    seqNo: nat, cells: seq<int>, writer: Writer, readers: seq<Reader>,
    initial: seq<int>, base: nat, published: seq<Update>)

  /** Any record, even one abandoned in the middle of a publish; no one is in an operation. */
  ghost predicate Init(s: Shm) {
    && |s.cells| == CELLS && s.initial == s.cells
    && s.base == s.seqNo + s.seqNo % 2
    && s.writer == Idle && s.published == []
    && forall r :: 0 <= r < |s.readers| ==> s.readers[r] == Reader(Start, [])
  }

  // publish: load the sequence number and round it up; store it plus one; the data stores; store it plus two.

  ghost predicate PublishBegins(s: Shm, s': Shm, u: Update) {
    s.writer == Idle && s' == s.(writer := Begun(u, s.seqNo + s.seqNo % 2))
  }

  ghost predicate PublishMarks(s: Shm, s': Shm) {
    s.writer.Begun? && s' == s.(seqNo := s.writer.loaded + 1, writer := Storing(s.writer.update, s.writer.loaded, 0))
  }

  ghost predicate PublishStores(s: Shm, s': Shm) {
    && s.writer.Storing? && s.writer.done < |Stores(s.writer.update)|
    && s' == s.(cells := Apply(s.cells, Stores(s.writer.update)[s.writer.done]),
                writer := s.writer.(done := s.writer.done + 1))
  }

  ghost predicate PublishEnds(s: Shm, s': Shm) {
    && s.writer.Storing? && s.writer.done == |Stores(s.writer.update)|
    && s' == s.(seqNo := s.writer.loaded + 2, writer := Idle, published := s.published + [s.writer.update])
  }

  /** setDuration and setQueueSize store outside the bracket, at any time. */
  ghost predicate StoresOutside(s: Shm, s': Shm, cell: nat, value: int) {
    (cell == DURATION || cell == QUEUE_SIZE) && s' == s.(cells := Apply(s.cells, Store(cell, value)))
  }

  // snapshot: load the sequence number, spin while odd; copy cell by cell; load it again and compare.

  ghost predicate ReaderSteps(s: Shm, s': Shm, r: nat) {
    && r < |s.readers|
    && s' == s.(readers := s.readers[r := AfterStep(s, s.readers[r])])
  }

  ghost function AfterStep(s: Shm, reader: Reader): Reader {
    match reader.activity
    case Start => if s.seqNo % 2 == 1 then reader else reader.(activity := Copying(s.seqNo, []))
    case Copying(q, copy) =>
      if |copy| < |s.cells| then reader.(activity := Copying(q, copy + [s.cells[|copy|]]))
      else if s.seqNo == q then Reader(Start, reader.returned + [Snapshot(q, copy)])
      else reader.(activity := Start)
  }

  ghost predicate Next(s: Shm, s': Shm) {
    || (exists u :: PublishBegins(s, s', u))
    || PublishMarks(s, s')
    || PublishStores(s, s')
    || PublishEnds(s, s')
    || (exists cell, value :: StoresOutside(s, s', cell, value))
    || (exists r :: ReaderSteps(s, s', r))
  }

  /** The i-th step of a run. */
  ghost predicate Steps(run: seq<Shm>, i: nat)
    requires i + 1 < |run|
  {
    Next(run[i], run[i + 1])
  }

  ghost predicate IsRun(run: seq<Shm>) {
    && run != [] && Init(run[0])
    && forall i: nat :: i + 1 < |run| ==> Steps(run, i)
  }

  // ----- the invariant ------------------------------------------------------------------------------

  ghost predicate Bracketed(i: int) {
    0 <= i < CELLS && i != DURATION && i != QUEUE_SIZE
  }

  /** Equal wherever the bracket protects, as far as `a` goes. */
  ghost predicate Agree(a: seq<int>, b: seq<int>) {
    && |a| <= CELLS && |b| == CELLS
    && forall i :: 0 <= i < |a| && Bracketed(i) ==> a[i] == b[i]
  }

  /** Where the writer stands determines the sequence number and the protected cells. */
  ghost predicate WriterFits(s: Shm) {
    var now := History(s.initial, s.published);
    var even := s.base + 2 * |s.published|;
    && |s.cells| == CELLS && |now| == CELLS && s.base % 2 == 0
    && match s.writer
       case Idle => Quiet(s, even, now)
       case Begun(u, loaded) => loaded == even && Quiet(s, even, now)
       case Storing(u, loaded, done) =>
         && loaded == even && s.seqNo == even + 1 && done <= |Stores(u)|
         && Agree(s.cells, ApplyAll(now, Stores(u)[..done]))
  }

  ghost predicate Quiet(s: Shm, even: nat, now: seq<int>) {
    && (s.seqNo == even || (s.published == [] && s.seqNo + 1 == even))
    && Agree(s.cells, now)
  }

  /** The snapshot shows the record after some whole number of the completed publishes. */
  ghost predicate Whole(s: Shm, snap: Snapshot) {
    && s.base <= snap.seqNo <= s.seqNo && (snap.seqNo - s.base) % 2 == 0
    && var m := (snap.seqNo - s.base) / 2;
       m <= |s.published| && |snap.cells| == CELLS && Agree(snap.cells, History(s.initial, s.published[..m]))
  }

  ghost predicate CopyFits(s: Shm, q: nat, copy: seq<int>) {
    && s.base <= q <= s.seqNo && (q - s.base) % 2 == 0 && |copy| <= CELLS
    && (q == s.seqNo ==> Agree(copy, History(s.initial, s.published)))
  }

  ghost predicate ReaderFits(s: Shm, reader: Reader) {
    && (forall i :: 0 <= i < |reader.returned| ==> Whole(s, reader.returned[i]))
    && (forall i, j :: 0 <= i < j < |reader.returned| ==> reader.returned[i].seqNo <= reader.returned[j].seqNo)
    && (reader.activity.Copying? ==>
          && CopyFits(s, reader.activity.seqNo, reader.activity.copy)
          && forall i :: 0 <= i < |reader.returned| ==> reader.returned[i].seqNo <= reader.activity.seqNo)
  }

  ghost predicate Inv(s: Shm) {
    WriterFits(s) && forall r :: 0 <= r < |s.readers| ==> ReaderFits(s, s.readers[r])
  }

  lemma ApplyKeepsAgree(a: seq<int>, b: seq<int>, w: Store)
    requires |a| == CELLS && Agree(a, b)
    ensures Agree(Apply(a, w), Apply(b, w))
  {
  }

  /** A seqNo that only grows, and a history that only grows, keep what readers rely on. */
  lemma ReaderKept(s: Shm, s': Shm, reader: Reader)
    requires ReaderFits(s, reader)
    requires s'.base == s.base && s'.initial == s.initial && s.seqNo <= s'.seqNo
    requires s.published <= s'.published
    requires s.seqNo == s'.seqNo ==> s.published == s'.published
    ensures ReaderFits(s', reader)
  {
    forall i | 0 <= i < |reader.returned|
      ensures Whole(s', reader.returned[i])
    {
      var m := (reader.returned[i].seqNo - s.base) / 2;
      assert Whole(s, reader.returned[i]);
      assert s'.published[..m] == s.published[..m];
    }
  }

  lemma MarkFits(s: Shm, s': Shm)
    requires WriterFits(s) && PublishMarks(s, s')
    ensures WriterFits(s') && s.seqNo < s'.seqNo
  {
    assert Stores(s.writer.update)[..0] == [];
  }

  lemma StoreFits(s: Shm, s': Shm)
    requires WriterFits(s) && PublishStores(s, s')
    ensures WriterFits(s')
  {
    var now := History(s.initial, s.published);
    var ws := Stores(s.writer.update);
    var d := s.writer.done;
    ApplyAllLength(now, ws[..d]);
    ApplyKeepsAgree(s.cells, ApplyAll(now, ws[..d]), ws[d]);
    assert ws[..d + 1][..d] == ws[..d];
  }

  lemma EndFits(s: Shm, s': Shm)
    requires WriterFits(s) && PublishEnds(s, s')
    ensures WriterFits(s') && s.seqNo < s'.seqNo && s.published <= s'.published
  {
    var ws := Stores(s.writer.update);
    assert ws[..|ws|] == ws;
    assert s'.published[..|s.published|] == s.published;
    ApplyAllLength(History(s.initial, s.published), ws);
  }

  lemma WriterStepFits(s: Shm, s': Shm)
    requires WriterFits(s)
    requires (exists u :: PublishBegins(s, s', u)) || PublishMarks(s, s') || PublishStores(s, s') || PublishEnds(s, s')
    ensures WriterFits(s') && s'.base == s.base && s'.initial == s.initial && s'.readers == s.readers
    ensures s.seqNo <= s'.seqNo && s.published <= s'.published
    ensures s.seqNo == s'.seqNo ==> s.published == s'.published
  {
    if PublishMarks(s, s') {
      MarkFits(s, s');
    } else if PublishStores(s, s') {
      StoreFits(s, s');
    } else if PublishEnds(s, s') {
      EndFits(s, s');
    }
  }

  lemma WriterStepKeepsInv(s: Shm, s': Shm)
    requires Inv(s)
    requires (exists u :: PublishBegins(s, s', u)) || PublishMarks(s, s') || PublishStores(s, s') || PublishEnds(s, s')
    ensures Inv(s')
  {
    WriterStepFits(s, s');
    forall r | 0 <= r < |s'.readers|
      ensures ReaderFits(s', s'.readers[r])
    {
      assert ReaderFits(s, s.readers[r]);
      ReaderKept(s, s', s.readers[r]);
    }
  }

  lemma OutsideStoreKeepsInv(s: Shm, s': Shm, cell: nat, value: int)
    requires Inv(s) && StoresOutside(s, s', cell, value)
    ensures Inv(s')
  {
    forall r | 0 <= r < |s'.readers|
      ensures ReaderFits(s', s'.readers[r])
    {
      assert ReaderFits(s, s.readers[r]);
      ReaderKept(s, s', s.readers[r]);
    }
  }

  lemma CheckedCopyIsWhole(s: Shm, copy: seq<int>)
    requires WriterFits(s) && CopyFits(s, s.seqNo, copy) && |copy| == CELLS
    ensures Whole(s, Snapshot(s.seqNo, copy))
  {
    assert s.published[..|s.published|] == s.published;
  }

  lemma EvenMeansQuiet(s: Shm)
    requires WriterFits(s) && s.seqNo % 2 == 0
    ensures s.seqNo == s.base + 2 * |s.published|
  {
  }

  lemma ReturnedBelow(s: Shm, reader: Reader)
    requires ReaderFits(s, reader)
    ensures forall i :: 0 <= i < |reader.returned| ==> reader.returned[i].seqNo <= s.seqNo
  {
    forall i | 0 <= i < |reader.returned|
      ensures reader.returned[i].seqNo <= s.seqNo
    {
      assert Whole(s, reader.returned[i]);
    }
  }

  lemma LoadFits(s: Shm, reader: Reader)
    requires WriterFits(s) && ReaderFits(s, reader) && reader.activity.Start? && s.seqNo % 2 == 0
    ensures ReaderFits(s, reader.(activity := Copying(s.seqNo, [])))
  {
    EvenMeansQuiet(s);
    ReturnedBelow(s, reader);
  }

  lemma CopyOneFits(s: Shm, reader: Reader)
    requires WriterFits(s) && ReaderFits(s, reader) && reader.activity.Copying?
    requires |reader.activity.copy| < CELLS
    ensures ReaderFits(s, reader.(activity :=
              Copying(reader.activity.seqNo, reader.activity.copy + [s.cells[|reader.activity.copy|]])))
  {
    if reader.activity.seqNo == s.seqNo {
      assert Agree(s.cells, History(s.initial, s.published));
    }
  }

  lemma ReturnFits(s: Shm, reader: Reader)
    requires WriterFits(s) && ReaderFits(s, reader) && reader.activity.Copying?
    requires |reader.activity.copy| == CELLS && reader.activity.seqNo == s.seqNo
    ensures ReaderFits(s, Reader(Start, reader.returned + [Snapshot(s.seqNo, reader.activity.copy)]))
  {
    CheckedCopyIsWhole(s, reader.activity.copy);
  }

  lemma AfterStepFits(s: Shm, reader: Reader)
    requires WriterFits(s) && ReaderFits(s, reader)
    ensures ReaderFits(s, AfterStep(s, reader))
  {
    match reader.activity
    case Start =>
      if s.seqNo % 2 == 0 {
        LoadFits(s, reader);
      }
    case Copying(q, copy) =>
      if |copy| < CELLS {
        CopyOneFits(s, reader);
      } else if s.seqNo == q {
        ReturnFits(s, reader);
      }
  }

  lemma ReaderStepKeepsInv(s: Shm, s': Shm, r: nat)
    requires Inv(s) && ReaderSteps(s, s', r)
    ensures Inv(s')
  {
    AfterStepFits(s, s.readers[r]);
    forall i | 0 <= i < |s'.readers|
      ensures ReaderFits(s', s'.readers[i])
    {
      var reader := s'.readers[i];
      assert ReaderFits(s, reader);
      ReaderKept(s, s', reader);
    }
  }

  lemma InitInv(s: Shm)
    requires Init(s)
    ensures Inv(s)
  {
  }

  lemma StepKeepsInv(s: Shm, s': Shm)
    requires Inv(s) && Next(s, s')
    ensures Inv(s')
  {
    if cell, value :| StoresOutside(s, s', cell, value) {
      OutsideStoreKeepsInv(s, s', cell, value);
    } else if r :| ReaderSteps(s, s', r) {
      ReaderStepKeepsInv(s, s', r);
    } else {
      WriterStepKeepsInv(s, s');
    }
  }

  lemma {:induction false} RunInv(run: seq<Shm>, i: nat)
    requires IsRun(run) && i < |run|
    ensures Inv(run[i])
  {
    InitInv(run[0]);
    if i > 0 {
      RunInv(run, i - 1);
      assert Steps(run, i - 1);
      StepKeepsInv(run[i - 1], run[i]);
    }
  }

  /** In every interleaving, every snapshot returned has an even sequence number and, duration and queue
      size apart, is the record after a whole number of completed publishes. */
  lemma SnapshotsAreWhole(run: seq<Shm>, i: nat, r: nat, j: nat) returns (m: nat)
    requires IsRun(run) && i < |run| && r < |run[i].readers| && j < |run[i].readers[r].returned|
    ensures var s := run[i];
            var snap := s.readers[r].returned[j];
            && snap.seqNo % 2 == 0 && m <= |s.published| && snap.seqNo == s.base + 2 * m
            && |snap.cells| == CELLS && Agree(snap.cells, History(s.initial, s.published[..m]))
  {
    RunInv(run, i);
    assert ReaderFits(run[i], run[i].readers[r]);
    m := PublishOf(run[i], run[i].readers[r].returned[j]);
  }

  lemma PublishOf(s: Shm, snap: Snapshot) returns (m: nat)
    requires s.base % 2 == 0 && Whole(s, snap)
    ensures snap.seqNo % 2 == 0 && m <= |s.published| && snap.seqNo == s.base + 2 * m
    ensures |snap.cells| == CELLS && Agree(snap.cells, History(s.initial, s.published[..m]))
  {
    m := (snap.seqNo - s.base) / 2;
  }

  /** A reader never goes back to an older publish. */
  lemma SnapshotsNeverGoBack(run: seq<Shm>, i: nat, r: nat, a: nat, b: nat)
    requires IsRun(run) && i < |run| && r < |run[i].readers| && a < b < |run[i].readers[r].returned|
    ensures run[i].readers[r].returned[a].seqNo <= run[i].readers[r].returned[b].seqNo
  {
    RunInv(run, i);
    assert ReaderFits(run[i], run[i].readers[r]);
  }

  /** A snapshot is up to date: at the moment it is returned no publish has completed that it misses. */
  lemma SnapshotIsCurrent(run: seq<Shm>, i: nat, r: nat)
    requires IsRun(run) && i + 1 < |run| && r < |run[i].readers| && r < |run[i + 1].readers|
    requires ReaderSteps(run[i], run[i + 1], r)
    requires |run[i + 1].readers[r].returned| > |run[i].readers[r].returned|
    ensures var returned := run[i + 1].readers[r].returned;
            returned[|returned| - 1].seqNo == run[i].base + 2 * |run[i].published|
  {
    RunInv(run, i);
    assert ReaderFits(run[i], run[i].readers[r]);
  }

  /** What a returned snapshot says: the fields of the last publish it covers. */
  lemma SnapshotShowsPublish(run: seq<Shm>, i: nat, r: nat, j: nat)
    requires IsRun(run) && i < |run| && r < |run[i].readers| && j < |run[i].readers[r].returned|
    requires run[i].readers[r].returned[j].seqNo > run[i].base
    ensures var s := run[i];
            var snap := s.readers[r].returned[j];
            exists m: nat :: m < |s.published| && snap.seqNo == s.base + 2 * (m + 1)
              && Displays(snap.cells, History(s.initial, s.published[..m]), s.published[m])
  {
    var s := run[i];
    var m := SnapshotsAreWhole(run, i, r, j);
    RunInv(run, i);
    PrefixDisplays(s.initial, s.published, m - 1);
    AgreeingDisplays(s.readers[r].returned[j].cells, History(s.initial, s.published[..m]),
                     History(s.initial, s.published[..m - 1]), s.published[m - 1]);
  }

  lemma PrefixDisplays(initial: seq<int>, us: seq<Update>, m: nat)
    requires m < |us| && |History(initial, us)| == CELLS
    ensures Displays(History(initial, us[..m + 1]), History(initial, us[..m]), us[m])
  {
    HistoryLength(initial, us);
    HistoryLength(initial, us[..m]);
    assert us[..m + 1][..m] == us[..m];
    PublishShows(History(initial, us[..m]), us[m]);
  }

  lemma AgreeingDisplays(snap: seq<int>, cells: seq<int>, before: seq<int>, u: Update)
    requires |snap| == CELLS && Agree(snap, cells) && Displays(cells, before, u)
    ensures Displays(snap, before, u)
  {
    assert SameRange(snap, cells, TITLE, CELLS);
    ShowsThrough(before, before, cells, snap, TITLE, u.title);
    ShowsThrough(before, before, cells, snap, ARTIST, u.artist);
  }

  lemma {:induction false} HistoryLength(initial: seq<int>, us: seq<Update>)
    ensures |History(initial, us)| == |initial|
  {
    if us != [] {
      HistoryLength(initial, us[..|us| - 1]);
      ApplyAllLength(History(initial, us[..|us| - 1]), Stores(us[|us| - 1]));
    }
  }
}
