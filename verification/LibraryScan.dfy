/** The batched library scan: what happens to the tracks table for each scanned file. */
module LibraryScan {
  import opened Common
  import opened Sequences
  import SlotTable

  datatype Tag =
    | Title | Artist | Album | AlbumArtist | Genre | Year | TrackNum | DiscNum | Duration | SampleRate | Channels
    | Bitrate | CoverArt

  /** The tags that are set, that is non-empty or non-zero, numbers as text. */
  type Tags = map<Tag, string>

  /** A file as the walk of a library yields it, with its tags then, and what extracting them again gives. */
  datatype File = File(
    path: string, fingerprint: int, size: int, mtime: int, tags: Tags, meta: Option<Tags>, library: int)

  /** A row of the tracks table; `plays` stands for play count, rating and date added. */
  datatype Track = Track(
    path: string, fingerprint: int, size: int, mtime: int, tags: Tags, library: int, deleted: bool, dirty: bool,
    plays: nat)

  type Table = map<int, Track>

  datatype Verdict = Skipped | Added | Updated

  datatype Upserted = Upserted(table: Table, verdict: Verdict)

  /** The UNIQUE constraint on fingerprint. */
  ghost predicate UniqueFingerprints(t: Table) {
    forall a, b :: a in t && b in t && t[a].fingerprint == t[b].fingerprint ==> a == b
  }

  function Lowest(ids: set<int>): (r: Option<int>)
    ensures r.Some? ==> r.value in ids
    ensures forall i :: i in ids ==> r.Some? && r.value <= i
  {
    SlotTable.NonEmpty(ids);
    if ids == {} then None else Some(SlotTable.Min(ids))
  }

  /** SELECT ... WHERE path=?: paths are not unique, the index yields the lowest row id first. */
  function FindByPath(t: Table, path: string): (r: Option<int>)
    ensures r.Some? ==> r.value in t && t[r.value].path == path
    ensures forall i :: i in t && t[i].path == path ==> r.Some? && r.value <= i
  {
    var ids := set i | i in t && t[i].path == path;
    assert forall i :: i in t && t[i].path == path ==> i in ids;
    Lowest(ids)
  }

  function FindByFingerprint(t: Table, fp: int): (r: Option<int>)
    ensures r.Some? ==> r.value in t && t[r.value].fingerprint == fp
    ensures r.None? ==> forall i :: i in t ==> t[i].fingerprint != fp
  {
    var ids := set i | i in t && t[i].fingerprint == fp;
    assert forall i :: i in t && t[i].fingerprint == fp ==> i in ids;
    Lowest(ids)
  }

  /** The next rowid: one past the largest. */
  function NextId(t: Table): (id: int)
    ensures forall i :: i in t ==> i < id
    ensures if t == map[] then id == 1 else id - 1 in t
  {
    var ids := SlotTable.Ascending(t.Keys);
    SlotTable.AscendingSorts(t.Keys);
    var id := if ids == [] then 1 else ids[|ids| - 1] + 1;
    assert forall i :: i in t ==> i in ids;
    id
  }

  /** Extracted tags replace the old ones one by one; if nothing was extracted, all are cleared. No cover is
      ever extracted. */
  function Retagged(tags: Tags, meta: Option<Tags>): Tags {
    var extracted := meta.GetOr(map[]) - {CoverArt};
    if extracted == map[] then map[] else tags + extracted
  }

  /** The row of a new file. */
  function RowOf(f: File): Track {
    Track(f.path, f.fingerprint, f.size, f.mtime, f.tags, f.library, false, false, 0)
  }

  /** The row of known content that was found at a file's place. */
  function Moved(row: Track, f: File): Track {
    row.(path := f.path, size := f.size, mtime := f.mtime, library := f.library, deleted := false,
         tags := Retagged(row.tags, f.meta))
  }

  /** The row of a known place where a file's content was found. */
  function Rewritten(row: Track, f: File): Track {
    row.(fingerprint := f.fingerprint, size := f.size, mtime := f.mtime, library := f.library, deleted := false,
         dirty := false, tags := Retagged(row.tags, f.meta))
  }

  /** One file: unchanged, known content at a new place, new content at a known place, or new. */
  function Upsert(t: Table, f: File): Upserted {
    var here := FindByPath(t, f.path);
    if here.Some? && t[here.value].size == f.size && t[here.value].mtime == f.mtime then Upserted(t, Skipped)
    else
      var same := FindByFingerprint(t, f.fingerprint);
      if same.Some? then Upserted(t[same.value := Moved(t[same.value], f)], Updated)
      else if here.Some? then Upserted(t[here.value := Rewritten(t[here.value], f)], Updated)
      else Upserted(t[NextId(t) := RowOf(f)], Added)
  }

  /** What is done with one file. */
  type Placing = (Table, File) -> Upserted

  /** The table after all the files, taken in order. */
  function AfterBy(place: Placing, t: Table, files: seq<File>): Table {
    if files == [] then t else place(AfterBy(place, t, files[..|files| - 1]), files[|files| - 1]).table
  }

  function After(t: Table, files: seq<File>): Table {
    AfterBy(Upsert, t, files)
  }

  /** The counters of a scan; scanLibrary derives `skipped` as what is left of `scanned`. */
  datatype Report = Report(scanned: int, skipped: int, added: int, updated: int, failed: int)

  function Counted(r: Report, v: Verdict): Report {
    match v
    case Skipped => r.(scanned := r.scanned + 1, skipped := r.skipped + 1)
    case Added => r.(scanned := r.scanned + 1, added := r.added + 1)
    case Updated => r.(scanned := r.scanned + 1, updated := r.updated + 1)
  }

  /** How many of the files got each verdict. */
  function TallyBy(place: Placing, t: Table, files: seq<File>): Report {
    if files == [] then Report(0, 0, 0, 0, 0)
    else
      var most := files[..|files| - 1];
      Counted(TallyBy(place, t, most), place(AfterBy(place, t, most), files[|files| - 1]).verdict)
  }

  function Tally(t: Table, files: seq<File>): Report {
    TallyBy(Upsert, t, files)
  }

  /** The counters add up whatever is done with each file. */
  lemma {:induction false} CountersAddUp(place: Placing, t: Table, files: seq<File>)
    ensures var r := TallyBy(place, t, files);
            r.scanned == |files| && r.scanned == r.skipped + r.added + r.updated && r.failed == 0
            && r.skipped >= 0 && r.added >= 0 && r.updated >= 0
  {
    if files != [] {
      CountersAddUp(place, t, files[..|files| - 1]);
    }
  }

  lemma TallyAddsUp(t: Table, files: seq<File>)
    ensures var r := Tally(t, files);
            r.scanned == |files| && r.scanned == r.skipped + r.added + r.updated && r.failed == 0
            && r.skipped >= 0 && r.added >= 0 && r.updated >= 0
  {
    CountersAddUp(Upsert, t, files);
  }

  lemma PlaceNext(place: Placing, t: Table, files: seq<File>, k: nat)
    requires k < |files|
    ensures var mid := AfterBy(place, t, files[..k]);
            && AfterBy(place, t, files[..k + 1]) == place(mid, files[k]).table
            && TallyBy(place, t, files[..k + 1]) == Counted(TallyBy(place, t, files[..k]), place(mid, files[k]).verdict)
  {
    assert files[..k + 1][..k] == files[..k];
  }

  lemma ScanNext(t: Table, files: seq<File>, k: nat)
    requires k < |files|
    ensures After(t, files[..k + 1]) == Upsert(After(t, files[..k]), files[k]).table
    ensures Tally(t, files[..k + 1]) == Counted(Tally(t, files[..k]), Upsert(After(t, files[..k]), files[k]).verdict)
  {
    PlaceNext(Upsert, t, files, k);
  }

  /** No row is lost, no row's kept columns change, and fingerprints stay unique. */
  ghost predicate Extends(before: Table, after: Table) {
    && UniqueFingerprints(after)
    && forall i :: i in before ==> i in after && after[i].plays == before[i].plays
  }

  lemma UpsertExtends(t: Table, f: File)
    requires UniqueFingerprints(t)
    ensures Extends(t, Upsert(t, f).table)
  {
  }

  /** After a file that was not skipped exactly one row holds its content: at its path, in its library, live.
      Every other row is as it was. */
  lemma UpsertFiles(t: Table, f: File) returns (id: int)
    requires UniqueFingerprints(t) && Upsert(t, f).verdict != Skipped
    ensures var after := Upsert(t, f).table;
            && id in after
            && after[id].fingerprint == f.fingerprint && after[id].path == f.path && after[id].size == f.size
            && after[id].mtime == f.mtime && after[id].library == f.library && !after[id].deleted
            && (forall i :: i in after && after[i].fingerprint == f.fingerprint ==> i == id)
            && (forall i :: i != id ==> (i in after <==> i in t) && (i in t ==> after[i] == t[i]))
  {
    var same, here := FindByFingerprint(t, f.fingerprint), FindByPath(t, f.path);
    id := if same.Some? then same.value else if here.Some? then here.value else NextId(t);
    UpsertExtends(t, f);
  }

  lemma {:induction false} ScanExtends(t: Table, files: seq<File>)
    requires UniqueFingerprints(t)
    ensures Extends(t, After(t, files))
  {
    if files != [] {
      var most := files[..|files| - 1];
      ScanExtends(t, most);
      UpsertExtends(After(t, most), files[|files| - 1]);
    }
  }

  const BATCH: nat := 500

  class Library {
    var table: Table

    ghost predicate Valid()
      reads this
    {
      Committed(table)
    }

    /** updateTrackLocked: refused for id 0, an unknown id, or a fingerprint another row has. */
    method UpdateTrack(id: int, row: Track) returns (ok: bool)
      modifies this
      ensures ok <==> id != 0 && id in old(table)
                      && forall i :: i in old(table) && i != id ==> old(table)[i].fingerprint != row.fingerprint
      ensures table == if ok then old(table)[id := row] else old(table)
    {
      ok := id != 0 && id in table && forall i :: i in table && i != id ==> table[i].fingerprint != row.fingerprint;
      if ok {
        table := table[id := row];
      }
    }

    /** insertTrackLocked: refused when the fingerprint is taken. */
    method InsertTrack(row: Track) returns (ok: bool)
      modifies this
      ensures ok <==> forall i :: i in old(table) ==> old(table)[i].fingerprint != row.fingerprint
      ensures table == if ok then old(table)[NextId(old(table)) := row] else old(table)
    {
      ok := forall i :: i in table ==> table[i].fingerprint != row.fingerprint;
      if ok {
        table := table[NextId(table) := row];
      }
    }

    /** One turn of the loop, between the transaction bookkeeping. Nothing fails: the update and insert
        calls are never refused. */
    method ScanOne(trk: File, so: Report) returns (report: Report)
      requires Valid()
      modifies this
      ensures Valid()
      ensures table == Upsert(old(table), trk).table
      ensures report == Counted(so, Upsert(old(table), trk).verdict)
    {
      report := so.(scanned := so.scanned + 1);
      UpsertExtends(table, trk);
      var existing := FindByPath(table, trk.path);
      if existing.Some? && table[existing.value].size == trk.size && table[existing.value].mtime == trk.mtime {
        report := report.(skipped := report.skipped + 1);
        return;
      }
      var byFp := FindByFingerprint(table, trk.fingerprint);
      if byFp.Some? {
        var was := table;
        var other := if existing.Some? then existing.value else byFp.value;
        var upd := table[byFp.value];
        upd := upd.(path := trk.path, size := trk.size, mtime := trk.mtime, library := trk.library, deleted := false);
        upd := upd.(tags := Retagged(upd.tags, trk.meta));
        var ok := UpdateTrack(byFp.value, upd);
        report := if ok then report.(updated := report.updated + 1) else report.(failed := report.failed + 1);
        // The row found by path is dropped only if it holds the same fingerprint under another id.
        table := if other != byFp.value && was[other].fingerprint == trk.fingerprint then table - {other} else table;
      } else if existing.Some? {
        var upd := table[existing.value];
        upd := upd.(fingerprint := trk.fingerprint, size := trk.size, mtime := trk.mtime, library := trk.library);
        upd := upd.(deleted := false, tags := Retagged(upd.tags, trk.meta), dirty := false);
        var ok := UpdateTrack(existing.value, upd);
        report := if ok then report.(updated := report.updated + 1) else report.(failed := report.failed + 1);
      } else {
        var ok := InsertTrack(RowOf(trk));
        report := if ok then report.(added := report.added + 1) else report.(failed := report.failed + 1);
      }
    }

    method ScanNth(files: seq<File>, k: nat, so: Report, ghost course: Course) returns (report: Report)
      requires Valid() && k < |files| && Follows(course, files) && course(k) == Stand(table, so)
      modifies this
      ensures Valid() && course(k + 1) == Stand(table, report)
    {
      assert Moves(course, files, k);
      report := ScanOne(files[k], so);
    }

    /** scanLibrary over the files the walk yields; `begins` and `commits` say which BEGINs and COMMITs
        succeed. On an error the table is the one after a whole number of batches. */
    method Scan(files: seq<File>, begins: nat -> bool, commits: nat -> bool) returns (r: Status, report: Report)
      requires Valid()
      modifies this
      ensures Valid()
      ensures r.Ok? ==> table == After(old(table), files) && report == Tally(old(table), files)
      ensures r.Ok? <==> forall b: nat :: Needed(files, b) ==> Went(begins, commits, b)
      ensures r.Err? ==> exists b: nat :: FirstFailure(files, begins, commits, b, r)
                                          && WholeBatches(old(table), files, b, table)
    {
      ghost var course := CourseOf(table, files);
      CourseFollows(table, files);
      r, report := ScanAll(files, begins, commits, course);
      assert files[..|files|] == files;
    }

    /** The loop of scanLibrary; `course` says where it stands after each file. */
    method ScanAll(files: seq<File>, begins: nat -> bool, commits: nat -> bool, ghost course: Course)
      returns (r: Status, report: Report)
      requires Valid() && Follows(course, files) && course(0) == Stand(table, Report(0, 0, 0, 0, 0))
      modifies this
      ensures Valid()
      ensures r.Ok? ==> course(|files|) == Stand(table, report)
      ensures r.Ok? <==> forall b: nat :: Needed(files, b) ==> Went(begins, commits, b)
      ensures r.Err? ==> exists b: nat :: FirstFailure(files, begins, commits, b, r)
                                          && course(b * BATCH).table == table
    {
      r, report := DONE, Report(0, 0, 0, 0, 0);
      var saved, batch, batchPending, inTx := table, 0, 0, false;
      for k := 0 to |files|
        invariant Valid() && Committed(saved) && r == DONE
        invariant k == batch * BATCH + batchPending && 0 <= batchPending < BATCH
        invariant inTx <==> batchPending > 0
        invariant course(batch * BATCH).table == saved && course(k) == Stand(table, report)
        invariant AllWent(begins, commits, batch) && (inTx ==> begins(batch))
      {
        if !inTx {
          if !begins(batch) {
            Failed(files, begins, commits, k, batch, Err(Busy));
            return Err(Busy), report;
          }
          saved := table;
          inTx := true;
        }
        report := ScanNth(files, k, report, course);
        batchPending := batchPending + 1;
        if batchPending >= BATCH {
          r := EndBatch(saved, commits(batch));
          if r.Err? {
            Failed(files, begins, commits, k, batch, r);
            return;
          }
          OneMoreWent(begins, commits, batch);
          batch, batchPending, inTx := batch + 1, 0, false;
          saved := table;
        }
      }
      if inTx {
        r := EndBatch(saved, commits(batch));
      }
      Ended(files, begins, commits, batch, batchPending, inTx, r);
    }

    /** commitBatch: a failed COMMIT rolls back to the table the batch began with. */
    method EndBatch(saved: Table, commits: bool) returns (r: Status)
      requires Valid() && Committed(saved)
      modifies this
      ensures Valid() && r == if commits then DONE else Err(Internal)
      ensures table == if commits then old(table) else saved
    {
      if !commits {
        table := saved;
        return Err(Internal);
      }
      return DONE;
    }
  }

  /** Where a scan stands: the table and the counters. */
  datatype Stand = Stand(table: Table, report: Report)

  /** Where a scan stands after each number of files. */
  type Course = nat -> Stand

  ghost predicate Moves(course: Course, files: seq<File>, k: nat)
    requires k < |files|
  {
    var placed := Upsert(course(k).table, files[k]);
    course(k + 1) == Stand(placed.table, Counted(course(k).report, placed.verdict))
  }

  ghost predicate Follows(course: Course, files: seq<File>) {
    forall k: nat :: k < |files| ==> Moves(course, files, k)
  }

  ghost function CourseOf(t: Table, files: seq<File>): Course {
    (k: nat) => var done := files[..if k < |files| then k else |files|]; Stand(After(t, done), Tally(t, done))
  }

  lemma CourseFollows(t: Table, files: seq<File>)
    ensures Follows(CourseOf(t, files), files)
    ensures CourseOf(t, files)(0) == Stand(t, Report(0, 0, 0, 0, 0))
  {
    assert files[..if 0 < |files| then 0 else |files|] == [];
    assert After(t, []) == t && Tally(t, []) == Report(0, 0, 0, 0, 0);
    forall k: nat | k < |files|
      ensures Moves(CourseOf(t, files), files, k)
    {
      ScanNext(t, files, k);
    }
  }

  lemma Failed(files: seq<File>, begins: nat -> bool, commits: nat -> bool, k: nat, b: nat, r: Status)
    requires b * BATCH <= k < |files| && AllWent(begins, commits, b) && !Went(begins, commits, b)
    requires r == Err(if begins(b) then Internal else Busy)
    ensures FirstFailure(files, begins, commits, b, r)
    ensures !forall i: nat :: Needed(files, i) ==> Went(begins, commits, i)
  {
  }

  /** The files were all taken; `open` tells whether they left a last, not full batch. */
  lemma Ended(files: seq<File>, begins: nat -> bool, commits: nat -> bool, b: nat, pending: nat, open: bool, r: Status)
    requires |files| == b * BATCH + pending && pending < BATCH && (open <==> pending > 0)
    requires AllWent(begins, commits, b) && (open ==> begins(b))
    requires r == if open && !commits(b) then Err(Internal) else DONE
    ensures r.Ok? <==> forall i: nat :: Needed(files, i) ==> Went(begins, commits, i)
    ensures r.Err? ==> FirstFailure(files, begins, commits, b, r)
  {
    forall i: nat
      ensures Needed(files, i) <==> i < b || (i == b && open)
    {
    }
    assert !Went(begins, commits, b) ==> !open || !commits(b);
    assert open ==> Needed(files, b);
  }

  lemma OneMoreWent(begins: nat -> bool, commits: nat -> bool, b: nat)
    requires AllWent(begins, commits, b) && begins(b) && commits(b)
    ensures AllWent(begins, commits, b + 1)
  {
  }

  /** There is a file that belongs to batch b. */
  ghost predicate Needed(files: seq<File>, b: nat) {
    b * BATCH < |files|
  }

  ghost predicate Went(begins: nat -> bool, commits: nat -> bool, b: nat) {
    begins(b) && commits(b)
  }

  ghost predicate AllWent(begins: nat -> bool, commits: nat -> bool, b: nat) {
    forall i: nat :: i < b ==> Went(begins, commits, i)
  }

  /** Batch b is the first that could not begin, which answers busy, or not be committed, an internal error. */
  ghost predicate FirstFailure(files: seq<File>, begins: nat -> bool, commits: nat -> bool, b: nat, r: Status) {
    && Needed(files, b) && AllWent(begins, commits, b) && !Went(begins, commits, b)
    && r == Err(if begins(b) then Internal else Busy)
  }

  /** The table after the first b batches. */
  ghost predicate WholeBatches(was: Table, files: seq<File>, b: nat, table: Table) {
    b * BATCH <= |files| && table == After(was, files[..b * BATCH])
  }

  ghost predicate Committed(t: Table) {
    UniqueFingerprints(t) && forall i :: i in t ==> i > 0
  }

  // ----- a first scan and the next one ------------------------------------------------------------

  ghost predicate DistinctFiles(files: seq<File>) {
    forall i, j :: 0 <= i < j < |files| ==>
      files[i].path != files[j].path && files[i].fingerprint != files[j].fingerprint
  }

  /** No row has the path or the content of a file. */
  ghost predicate Unknown(t: Table, files: seq<File>) {
    forall i, k :: i in t && 0 <= k < |files| ==>
      t[i].path != files[k].path && t[i].fingerprint != files[k].fingerprint
  }

  /** `ids` are new row ids, one for each file in order, holding that file; nothing else changed. */
  ghost predicate OneRowEach(t: Table, after: Table, files: seq<File>, ids: seq<int>) {
    && |ids| == |files| && NoDup(ids)
    && (forall k :: 0 <= k < |ids| ==> ids[k] !in t && ids[k] in after && after[ids[k]] == RowOf(files[k]))
    && (forall i :: i in t ==> i in after && after[i] == t[i])
    && (forall i :: i in after ==> i in t || i in ids)
  }

  /** While files are being added, the next one is still unknown. */
  lemma NextStillUnknown(t: Table, mid: Table, files: seq<File>, ids: seq<int>)
    requires files != [] && DistinctFiles(files) && Unknown(t, files)
    requires OneRowEach(t, mid, files[..|files| - 1], ids)
    ensures forall i :: i in mid ==> mid[i].path != files[|files| - 1].path
                                     && mid[i].fingerprint != files[|files| - 1].fingerprint
  {
    var k := |files| - 1;
    forall i | i in mid
      ensures mid[i].path != files[k].path && mid[i].fingerprint != files[k].fingerprint
    {
      if i !in t {
        assert i in ids;
        var j :| 0 <= j < |ids| && ids[j] == i;
        assert mid[ids[j]] == RowOf(files[..k][j]);
      }
    }
  }

  lemma OneRowMore(t: Table, mid: Table, files: seq<File>, ids: seq<int>, id: int)
    requires files != [] && OneRowEach(t, mid, files[..|files| - 1], ids) && id !in mid
    ensures OneRowEach(t, mid[id := RowOf(files[|files| - 1])], files, ids + [id])
  {
    var k := |files| - 1;
    var more := ids + [id];
    assert forall j :: 0 <= j < k ==> more[j] == ids[j] && ids[j] in mid && files[..k][j] == files[j];
    assert more[k] == id;
    assert forall i :: i in ids ==> i in more;
  }

  lemma UnknownIsAdded(t: Table, f: File)
    requires forall i :: i in t ==> t[i].path != f.path && t[i].fingerprint != f.fingerprint
    ensures Upsert(t, f) == Upserted(t[NextId(t) := RowOf(f)], Added)
  {
  }

  /** Scanning files with distinct paths and contents, none of them known yet, adds one row for each. */
  lemma {:induction false} FirstScanAddsAll(t: Table, files: seq<File>) returns (ids: seq<int>)
    requires DistinctFiles(files) && Unknown(t, files)
    ensures OneRowEach(t, After(t, files), files, ids)
    ensures Tally(t, files).added == |files|
  {
    ids := [];
    if files != [] {
      var k := |files| - 1;
      ids := FirstScanAddsAll(t, files[..k]);
      var mid := After(t, files[..k]);
      NextStillUnknown(t, mid, files, ids);
      UnknownIsAdded(mid, files[k]);
      OneRowMore(t, mid, files, ids, NextId(mid));
      ids := ids + [NextId(mid)];
    }
  }

  lemma OnlyRowAtPath(t: Table, after: Table, files: seq<File>, ids: seq<int>, j: nat, i: int)
    requires DistinctFiles(files) && Unknown(t, files) && OneRowEach(t, after, files, ids)
    requires j < |files| && i in after && after[i].path == files[j].path
    ensures i == ids[j]
  {
    assert forall r :: r in t ==> t[r].path != files[j].path;
    assert i in ids;
    var m :| 0 <= m < |ids| && ids[m] == i;
    assert after[ids[m]] == RowOf(files[m]);
  }

  /** ... and scanning the same files again skips every one of them and leaves the table alone. */
  lemma {:induction false} RescanSkipsAll(t: Table, files: seq<File>, again: seq<File>)
    requires DistinctFiles(files) && Unknown(t, files)
    requires forall f :: f in again ==> f in files
    ensures After(After(t, files), again) == After(t, files)
    ensures Tally(After(t, files), again).skipped == |again|
  {
    if again != [] {
      var k := |again| - 1;
      var after := After(t, files);
      var ids := FirstScanAddsAll(t, files);
      RescanSkipsAll(t, files, again[..k]);
      assert again[k] in again;
      var j :| 0 <= j < |files| && files[j] == again[k];
      assert after[ids[j]] == RowOf(files[j]);
      OnlyRowAtPath(t, after, files, ids, j, FindByPath(after, files[j].path).value);
    }
  }

  ghost predicate DistinctPaths(files: seq<File>) {
    forall i, j :: 0 <= i < j < |files| ==> files[i].path != files[j].path
  }

  /** Every new row stands for one of the files, at its path and with its content. */
  ghost predicate RowsAreFiles(t: Table, after: Table, files: seq<File>) {
    forall i :: i in after ==>
      (i in t && after[i] == t[i]) || (exists j :: 0 <= j < |files| && StandsFor(after[i], files[j]))
  }

  ghost predicate StandsFor(row: Track, f: File) {
    row.path == f.path && row.fingerprint == f.fingerprint
  }

  lemma {:induction false} ScanYieldsFiles(t: Table, files: seq<File>)
    requires DistinctPaths(files) && Unknown(t, files)
    ensures RowsAreFiles(t, After(t, files), files)
  {
    if files != [] {
      var k := |files| - 1;
      ScanYieldsFiles(t, files[..k]);
      OneFileMore(t, After(t, files[..k]), files);
    }
  }

  lemma OneFileMore(t: Table, mid: Table, files: seq<File>)
    requires files != [] && DistinctPaths(files) && Unknown(t, files)
    requires RowsAreFiles(t, mid, files[..|files| - 1])
    ensures RowsAreFiles(t, Upsert(mid, files[|files| - 1]).table, files)
  {
    var k := |files| - 1;
    var f := files[k];
    forall i | i in mid
      ensures mid[i].path != f.path
      ensures (i in t && mid[i] == t[i]) || (exists j :: 0 <= j < |files| && StandsFor(mid[i], files[j]))
    {
      if !(i in t && mid[i] == t[i]) {
        var j :| 0 <= j < k && StandsFor(mid[i], files[..k][j]);
        assert StandsFor(mid[i], files[j]);
      }
    }
    var after := Upsert(mid, f).table;
    forall i | i in after && !(i in mid && after[i] == mid[i])
      ensures StandsFor(after[i], files[k])
    {
    }
  }

  /** Skipping leaves the table alone. */
  ghost predicate SkipsIdly(place: Placing) {
    forall t, f :: place(t, f).verdict.Skipped? ==> place(t, f).table == t
  }

  /** A scan that skips every file changes nothing, so every file is skipped on the table as it was. */
  lemma {:induction false} AllSkipped(place: Placing, t: Table, files: seq<File>)
    requires SkipsIdly(place) && TallyBy(place, t, files).skipped == |files|
    ensures AfterBy(place, t, files) == t
    ensures forall i :: 0 <= i < |files| ==> place(t, files[i]).verdict.Skipped?
  {
    if files != [] {
      var k := |files| - 1;
      CountersAddUp(place, t, files[..k]);
      AllSkipped(place, t, files[..k]);
      assert forall i :: 0 <= i < k ==> files[..k][i] == files[i];
    }
  }

  ghost predicate PathKnown(t: Table, f: File) {
    FindByPath(t, f.path).Some?
  }

  lemma SkippedMeansKnown(t: Table, f: File)
    requires Upsert(t, f).verdict.Skipped?
    ensures PathKnown(t, f)
  {
  }

  lemma AllSkippedFound(t: Table, files: seq<File>, i: nat)
    requires Tally(t, files).skipped == |files| && i < |files|
    ensures PathKnown(t, files[i])
  {
    UpsertSkipsIdly();
    AllSkipped(Upsert, t, files);
    SkippedMeansKnown(t, files[i]);
  }

  lemma UpsertSkipsIdly()
    ensures SkipsIdly(Upsert)
  {
  }

  lemma RowOfFile(t: Table, files: seq<File>, i: nat) returns (id: int)
    requires DistinctPaths(files) && Unknown(t, files) && i < |files|
    requires PathKnown(After(t, files), files[i])
    ensures id in After(t, files) && StandsFor(After(t, files)[id], files[i])
  {
    var after := After(t, files);
    ScanYieldsFiles(t, files);
    id := FindByPath(after, files[i].path).value;
    var j :| 0 <= j < |files| && StandsFor(after[id], files[j]);
    assert j == i;
  }

  /** Files at distinct paths, none of them known: an immediate rescan skips every one exactly when no two have the
      same content. Copies share one row, which moves back and forth. */
  lemma RescanSkipsExactly(t: Table, files: seq<File>)
    requires UniqueFingerprints(t) && DistinctPaths(files) && Unknown(t, files)
    ensures Tally(After(t, files), files).skipped == |files| <==> DistinctFiles(files)
  {
    var after := After(t, files);
    if DistinctFiles(files) {
      RescanSkipsAll(t, files, files);
    } else if Tally(after, files).skipped == |files| {
      ScanExtends(t, files);
      var i, j :| 0 <= i < j < |files| && files[i].fingerprint == files[j].fingerprint;
      AllSkippedFound(after, files, i);
      AllSkippedFound(after, files, j);
      var a := RowOfFile(t, files, i);
      var b := RowOfFile(t, files, j);
      assert false;
    }
  }
}
