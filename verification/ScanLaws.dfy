/** Laws of the library scan: every file is shown afterwards, which are skipped, what becomes of tags. */
module ScanLaws {
  import opened Common
  import opened LibraryScan

  // ----- one file -------------------------------------------------------------------------------------------

  /** The row has the file's path, size and time of last change. */
  predicate Shows(row: Track, f: File) {
    row.path == f.path && row.size == f.size && row.mtime == f.mtime
  }

  ghost predicate Shown(t: Table, f: File) {
    exists i :: i in t && Shows(t[i], f)
  }

  /** Whatever the verdict, some row shows the file afterwards. */
  lemma FileIsShown(t: Table, f: File)
    ensures Shown(Upsert(t, f).table, f)
  {
    var same, here := FindByFingerprint(t, f.fingerprint), FindByPath(t, f.path);
    var after := Upsert(t, f);
    var id := if after.verdict.Skipped? then here.value
              else if same.Some? then same.value else if here.Some? then here.value else NextId(t);
    assert id in after.table && Shows(after.table[id], f);
  }

  /** The first row at the path. */
  ghost predicate LowestAt(t: Table, path: string, i: int) {
    i in t && t[i].path == path && forall j :: j in t && t[j].path == path ==> i <= j
  }

  lemma FindsLowest(t: Table, path: string, i: int)
    requires LowestAt(t, path, i)
    ensures FindByPath(t, path) == Some(i)
  {
  }

  /** A file is skipped exactly when the first row at its path has its size and time, and added exactly when no row
      has its path or its content. */
  lemma VerdictMeans(t: Table, f: File)
    ensures Upsert(t, f).verdict.Skipped? <==> exists i :: LowestAt(t, f.path, i) && Shows(t[i], f)
    ensures Upsert(t, f).verdict.Added? <==>
            forall i :: i in t ==> t[i].path != f.path && t[i].fingerprint != f.fingerprint
    ensures Upsert(t, f).verdict.Skipped? ==> Upsert(t, f).table == t
  {
    var here := FindByPath(t, f.path);
    if here.Some? {
      assert LowestAt(t, f.path, here.value);
    }
  }

  /** The tags extracted replace the old ones, the others stay; with none extracted, all are gone. */
  ghost predicate Merged(before: Tags, meta: Option<Tags>, after: Tags) {
    if meta.Some? && exists g :: g in meta.value && g != CoverArt then
      forall g: Tag ::
        if g != CoverArt && g in meta.value then g in after && after[g] == meta.value[g]
        else (g in after <==> g in before) && (g in before ==> after[g] == before[g])
    else after == map[]
  }

  lemma RetaggedMerges(before: Tags, meta: Option<Tags>)
    ensures Merged(before, meta, Retagged(before, meta))
  {
    if meta.Some? {
      var extracted := meta.value - {CoverArt};
      if g :| g in meta.value && g != CoverArt {
        assert g in extracted;
      }
    }
  }

  /** An update changes one row: the one with the file's content, which stays dirty if it was, or else the first one
      at its path, which is clean afterwards. */
  lemma UpdatedRow(t: Table, f: File) returns (id: int)
    requires UniqueFingerprints(t) && Upsert(t, f).verdict.Updated?
    ensures id in t && Upsert(t, f).table.Keys == t.Keys
    ensures forall i :: i in t && i != id ==> t[i].fingerprint != f.fingerprint && Upsert(t, f).table[i] == t[i]
    ensures t[id].fingerprint == f.fingerprint || LowestAt(t, f.path, id)
    ensures var row := Upsert(t, f).table[id];
            && Merged(t[id].tags, f.meta, row.tags) && row.plays == t[id].plays
            && (row.dirty <==> t[id].dirty && t[id].fingerprint == f.fingerprint)
  {
    var same, here := FindByFingerprint(t, f.fingerprint), FindByPath(t, f.path);
    id := if same.Some? then same.value else here.value;
    RetaggedMerges(t[id].tags, f.meta);
  }

  /** A file that is added gets a row of its own, behind all others, with the tags of the walk and nothing played. */
  lemma AddedRow(t: Table, f: File) returns (id: int)
    requires Upsert(t, f).verdict.Added?
    ensures id !in t && (forall i :: i in t ==> i < id) && Upsert(t, f).table.Keys == t.Keys + {id}
    ensures forall i :: i in t ==> Upsert(t, f).table[i] == t[i]
    ensures var row := Upsert(t, f).table[id];
            && Shows(row, f) && row.fingerprint == f.fingerprint && row.tags == f.tags && row.library == f.library
            && !row.deleted && !row.dirty && row.plays == 0
  {
    id := NextId(t);
  }

  // ----- a whole scan -----------------------------------------------------------------------------------------

  /** What becomes of file k when its turn comes. */
  function VerdictAt(place: Placing, t: Table, files: seq<File>, k: nat): Verdict
    requires k < |files|
  {
    place(AfterBy(place, t, files[..k]), files[k]).verdict
  }

  ghost predicate SkippedAt(t: Table, files: seq<File>, k: nat)
    requires k < |files|
  {
    VerdictAt(Upsert, t, files, k).Skipped?
  }

  /** One of the first m files has this content and is not skipped: it takes the row with it. */
  ghost predicate TakenBy(t: Table, files: seq<File>, m: nat, fingerprint: int)
    requires m <= |files|
  {
    exists j: nat :: j < m && files[j].fingerprint == fingerprint && !SkippedAt(t, files, j)
  }

  /** The old rows at the path that none of the first m files took. */
  ghost predicate StillAt(t: Table, files: seq<File>, m: nat, path: string, i: int)
    requires m <= |files|
  {
    i in t && t[i].path == path && !TakenBy(t, files, m, t[i].fingerprint)
  }

  /** The files that get this verdict when their turn comes. */
  ghost function Turns(place: Placing, t: Table, files: seq<File>, v: Verdict): set<nat> {
    set k: nat | k < |files| && VerdictAt(place, t, files, k) == v
  }

  lemma TurnsNext(place: Placing, t: Table, files: seq<File>, v: Verdict)
    requires files != []
    ensures var n := |files| - 1;
            var before := Turns(place, t, files[..n], v);
            && n !in before
            && Turns(place, t, files, v) == if VerdictAt(place, t, files, n) == v then before + {n} else before
  {
    var n := |files| - 1;
    forall k: nat | k < n
      ensures VerdictAt(place, t, files[..n], k) == VerdictAt(place, t, files, k)
    {
      assert files[..n][..k] == files[..k];
    }
  }

  function CountOf(r: Report, v: Verdict): int {
    match v
    case Skipped => r.skipped
    case Added => r.added
    case Updated => r.updated
  }

  lemma CountedOneMore(r: Report, w: Verdict, v: Verdict)
    ensures CountOf(Counted(r, w), v) == CountOf(r, v) + if w == v then 1 else 0
  {
  }

  lemma {:induction false} CountedTurns(place: Placing, t: Table, files: seq<File>, v: Verdict)
    ensures CountOf(TallyBy(place, t, files), v) == |Turns(place, t, files, v)|
  {
    if files != [] {
      var n := |files| - 1;
      CountedTurns(place, t, files[..n], v);
      CountedOneMore(TallyBy(place, t, files[..n]), VerdictAt(place, t, files, n), v);
      TurnsNext(place, t, files, v);
    }
  }

  ghost predicate AddsRows(place: Placing) {
    forall t, f :: |place(t, f).table| == if place(t, f).verdict.Added? then |t| + 1 else |t|
  }

  lemma {:induction false} RowsGrow(place: Placing, t: Table, files: seq<File>)
    requires AddsRows(place)
    ensures |AfterBy(place, t, files)| == |t| + TallyBy(place, t, files).added
  {
    if files != [] {
      RowsGrow(place, t, files[..|files| - 1]);
    }
  }

  /** The counters mean what they say: so many rows are new, and so many files got each verdict. */
  lemma CountersMean(t: Table, files: seq<File>)
    ensures |After(t, files)| == |t| + Tally(t, files).added
    ensures Tally(t, files).skipped == |Turns(Upsert, t, files, Skipped)|
    ensures Tally(t, files).added == |Turns(Upsert, t, files, Added)|
    ensures Tally(t, files).updated == |Turns(Upsert, t, files, Updated)|
  {
    forall t, f
      ensures |Upsert(t, f).table| == if Upsert(t, f).verdict.Added? then |t| + 1 else |t|
    {
      RowsAdded(t, f);
    }
    RowsGrow(Upsert, t, files);
    CountedTurns(Upsert, t, files, Skipped);
    CountedTurns(Upsert, t, files, Added);
    CountedTurns(Upsert, t, files, Updated);
  }

  lemma RowKept(t: Table, id: int, row: Track)
    requires id in t
    ensures |t[id := row]| == |t|
  {
    assert t[id := row].Keys == t.Keys;
  }

  lemma RowAdded(t: Table, id: int, row: Track)
    requires id !in t
    ensures |t[id := row]| == |t| + 1
  {
    assert t[id := row].Keys == t.Keys + {id};
  }

  lemma RowsAdded(t: Table, f: File)
    ensures |Upsert(t, f).table| == if Upsert(t, f).verdict.Added? then |t| + 1 else |t|
  {
    var here, same := FindByPath(t, f.path), FindByFingerprint(t, f.fingerprint);
    if same.Some? {
      RowKept(t, same.value, Moved(t[same.value], f));
    } else if here.Some? {
      RowKept(t, here.value, Rewritten(t[here.value], f));
    } else {
      RowAdded(t, NextId(t), RowOf(f));
    }
  }

  /** As long as file k has not been written, the rows at its path are the old ones that were not taken. */
  ghost predicate OldRowsAt(t: Table, files: seq<File>, m: nat, k: nat, mid: Table)
    requires m <= |files| && k < |files|
  {
    && (forall i :: i in mid && mid[i].path == files[k].path <==> StillAt(t, files, m, files[k].path, i))
    && (forall i :: StillAt(t, files, m, files[k].path, i) ==> mid[i] == t[i])
  }

  lemma TakenNext(t: Table, files: seq<File>, m: nat, fingerprint: int)
    requires m < |files|
    ensures TakenBy(t, files, m + 1, fingerprint) <==>
            TakenBy(t, files, m, fingerprint) || (files[m].fingerprint == fingerprint && !SkippedAt(t, files, m))
  {
  }

  /** Writing a file elsewhere takes from a path exactly the row with that content. */
  lemma WrittenElsewhere(t: Table, f: File, path: string)
    requires UniqueFingerprints(t) && f.path != path && !Upsert(t, f).verdict.Skipped?
    ensures var after := Upsert(t, f).table;
            forall i ::
              && (i in after && after[i].path == path <==>
                  i in t && t[i].path == path && t[i].fingerprint != f.fingerprint)
              && (i in after && after[i].path == path ==> after[i] == t[i])
  {
  }

  /** What any step that takes such a row leaves of the old rows at a path. */
  lemma OldRowsStay(t: Table, files: seq<File>, m: nat, k: nat, mid: Table, after: Table)
    requires m < |files| && k < |files| && OldRowsAt(t, files, m, k, mid)
    requires if SkippedAt(t, files, m) then after == mid
             else forall i ::
               && (i in after && after[i].path == files[k].path <==>
                   i in mid && mid[i].path == files[k].path && mid[i].fingerprint != files[m].fingerprint)
               && (i in after && after[i].path == files[k].path ==> after[i] == mid[i])
    ensures OldRowsAt(t, files, m + 1, k, after)
  {
    forall i
      ensures StillAt(t, files, m + 1, files[k].path, i) <==>
              StillAt(t, files, m, files[k].path, i)
              && (SkippedAt(t, files, m) || t[i].fingerprint != files[m].fingerprint)
    {
      if i in t {
        TakenNext(t, files, m, t[i].fingerprint);
      }
    }
  }

  lemma OldRowsNext(t: Table, files: seq<File>, m: nat, k: nat)
    requires UniqueFingerprints(t) && DistinctFiles(files) && m < |files| && k < |files|
    requires OldRowsAt(t, files, m, k, After(t, files[..m])) && (m == k ==> SkippedAt(t, files, k))
    ensures OldRowsAt(t, files, m + 1, k, After(t, files[..m + 1]))
  {
    var mid, f := After(t, files[..m]), files[m];
    ScanNext(t, files, m);
    ScanExtends(t, files[..m]);
    if !SkippedAt(t, files, m) {
      WrittenElsewhere(mid, f, files[k].path);
    } else {
      VerdictMeans(mid, f);
    }
    OldRowsStay(t, files, m, k, mid, Upsert(mid, f).table);
  }

  /** Up to file k's turn, and beyond it if the file is skipped. */
  lemma {:induction false} OldRowsUpTo(t: Table, files: seq<File>, m: nat, k: nat)
    requires UniqueFingerprints(t) && DistinctFiles(files) && m <= |files| && k < |files|
    requires m > k ==> SkippedAt(t, files, k)
    ensures OldRowsAt(t, files, m, k, After(t, files[..m]))
  {
    if m > 0 {
      OldRowsUpTo(t, files, m - 1, k);
      OldRowsNext(t, files, m - 1, k);
    }
  }

  /** A scan skips file k exactly when, of the old rows at its path that no earlier file took, the first one has its
      size and time. */
  lemma SkippedWhen(t: Table, files: seq<File>, k: nat)
    requires UniqueFingerprints(t) && DistinctFiles(files) && k < |files|
    ensures SkippedAt(t, files, k) <==>
            exists i :: FirstStillAt(t, files, k, files[k].path, i) && Shows(t[i], files[k])
  {
    var mid := After(t, files[..k]);
    OldRowsUpTo(t, files, k, k);
    VerdictMeans(mid, files[k]);
    forall i
      ensures LowestAt(mid, files[k].path, i) <==> FirstStillAt(t, files, k, files[k].path, i)
    {
    }
  }

  ghost predicate FirstStillAt(t: Table, files: seq<File>, m: nat, path: string, i: int)
    requires m <= |files|
  {
    StillAt(t, files, m, path, i) && forall j :: StillAt(t, files, m, path, j) ==> i <= j
  }

  ghost predicate Holds(t: Table, id: int, f: File) {
    id in t && Shows(t[id], f) && t[id].fingerprint == f.fingerprint
  }

  /** A row that holds another file, at another path, is left alone. */
  lemma OthersKept(t: Table, id: int, f: File, g: File)
    requires Holds(t, id, f) && g.path != f.path && g.fingerprint != f.fingerprint
    ensures Holds(Upsert(t, g).table, id, f)
  {
  }

  lemma WrittenAtOnce(t: Table, files: seq<File>, k: nat) returns (id: int)
    requires UniqueFingerprints(t) && k < |files| && !SkippedAt(t, files, k)
    ensures Holds(After(t, files[..k + 1]), id, files[k])
  {
    ScanNext(t, files, k);
    ScanExtends(t, files[..k]);
    id := UpsertFiles(After(t, files[..k]), files[k]);
  }

  lemma KeptNext(t: Table, files: seq<File>, m: nat, k: nat, id: int)
    requires DistinctFiles(files) && k < m < |files| && Holds(After(t, files[..m]), id, files[k])
    ensures Holds(After(t, files[..m + 1]), id, files[k])
  {
    ScanNext(t, files, m);
    OthersKept(After(t, files[..m]), id, files[k], files[m]);
  }

  /** A file that was written keeps its row until the end of the scan. */
  lemma WrittenStays(t: Table, files: seq<File>, k: nat) returns (id: int)
    requires UniqueFingerprints(t) && DistinctFiles(files) && k < |files| && !SkippedAt(t, files, k)
    ensures Holds(After(t, files), id, files[k])
  {
    id := WrittenAtOnce(t, files, k);
    var m := k + 1;
    while m < |files|
      invariant k < m <= |files| && Holds(After(t, files[..m]), id, files[k])
    {
      KeptNext(t, files, m, k, id);
      m := m + 1;
    }
    assert files[..m] == files;
  }

  /** After a scan of files with distinct paths and contents file k is shown exactly when it was not skipped, or
      some old row that shows it does not have the content of another file that was not skipped. */
  lemma ShownAfterScan(t: Table, files: seq<File>, k: nat)
    requires UniqueFingerprints(t) && DistinctFiles(files) && k < |files|
    ensures Shown(After(t, files), files[k]) <==>
            || !SkippedAt(t, files, k)
            || exists i :: i in t && Shows(t[i], files[k]) && !TakenBy(t, files, |files|, t[i].fingerprint)
  {
    var n := |files|;
    assert files[..n] == files;
    if !SkippedAt(t, files, k) {
      var id := WrittenStays(t, files, k);
    } else {
      OldRowsUpTo(t, files, n, k);
      var after := After(t, files);
      assert forall i :: i in t && t[i].path == files[k].path && !TakenBy(t, files, n, t[i].fingerprint) ==>
          StillAt(t, files, n, files[k].path, i);
      if i :| i in after && Shows(after[i], files[k]) {
        assert StillAt(t, files, n, files[k].path, i);
      }
    }
  }

  /** So every file is shown if no old row with the path, size and time of one file has the content of another. */
  lemma HonestTableShowsAll(t: Table, files: seq<File>)
    requires UniqueFingerprints(t) && DistinctFiles(files)
    requires forall i, k, j :: (i in t && 0 <= k < |files| && 0 <= j < |files|
               && Shows(t[i], files[k]) && t[i].fingerprint == files[j].fingerprint) ==> j == k
    ensures forall k :: 0 <= k < |files| ==> Shown(After(t, files), files[k])
  {
    forall k | 0 <= k < |files|
      ensures Shown(After(t, files), files[k])
    {
      ShownAfterScan(t, files, k);
      if SkippedAt(t, files, k) {
        SkippedWhen(t, files, k);
        var i :| FirstStillAt(t, files, k, files[k].path, i) && Shows(t[i], files[k]);
        assert !TakenBy(t, files, |files|, t[i].fingerprint);
      }
    }
  }

  /** The known file a is replaced by another of the same size and time, and itself found again as b, later in the
      walk. The scan skips a and moves its row to b, so no row is left for a until the next scan. */
  lemma ReplacedFileLost(t: Table, id: int, a: File, b: File)
    requires UniqueFingerprints(t) && LowestAt(t, a.path, id) && Shows(t[id], a)
    requires forall i :: i in t && t[i].path == a.path ==> i == id
    requires a.path != b.path && a.fingerprint != b.fingerprint == t[id].fingerprint
    requires forall i :: i in t ==> t[i].path != b.path
    ensures !Shown(After(t, [a, b]), a)
  {
    var files := [a, b];
    assert files[..0] == [] && files[..1] == [a];
    assert After(t, [a]) == t by { ScanNext(t, files, 0); VerdictMeans(t, a); }
    VerdictMeans(t, b);
    ShownAfterScan(t, files, 0);
    assert files[1] == b && !SkippedAt(t, files, 1);
  }
}
