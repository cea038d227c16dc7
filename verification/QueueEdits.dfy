/** Removing and moving queue items: the service commands, the client's multi-remove, and whole runs. */
module QueueEdits {
  import opened Common
  import opened Sequences
  import opened SlotTable
  import opened Db

  // ----- QueueRemove ----------------------------------------------------------------------------

  /** The listed index that the number `val` removes: the rank of that position if it is in use, otherwise the
      first item with that track id. */
  function Hit(slots: Slots, q: int, val: int): Option<nat> {
    if Slot(q, val) in slots then Some(CountBelow(slots, q, val)) else FirstIndex(Listing(slots, q), val)
  }

  /** Index i names its own item: it is stored at position i, or position i is free and it is the first item
      with track id i. */
  predicate InPlace(slots: Slots, q: int, i: nat) {
    && i < |Order(slots, q)|
    && (Order(slots, q)[i] == i || (Slot(q, i) !in slots && FirstIndex(Listing(slots, q), i) == Some(i)))
  }

  /** With or without gaps, the number i removes the i-th item exactly when that item is in place. */
  lemma HitsOwnItem(slots: Slots, q: int, i: nat)
    requires i < |Order(slots, q)|
    ensures Hit(slots, q, i) == Some(i) <==> InPlace(slots, q, i)
  {
    OrderEnumerates(slots, q);
    if Slot(q, i) in slots {
      var k := RankOf(slots, q, i);
    } else {
      assert Slot(q, Order(slots, q)[i]) in slots;
    }
  }

  /** Without duplicates, the listing tells which item was removed. */
  lemma RemovalTells(list: seq<int>, i: nat, k: nat)
    requires NoDup(list) && i < |list| && k < |list|
    ensures RemoveAt(list, i) == RemoveAt(list, k) <==> i == k
  {
    if RemoveAt(list, i) == RemoveAt(list, k) {
      var m := if i < k then i else k;
      assert m + 1 < |list| ==> RemoveAt(list, i)[m] == RemoveAt(list, k)[m];
    }
  }

  /** handle(QueueRemove): a number is first a position, then a track id. For a duplicate-free queue the last
      clause says exactly when it removes the item a snapshot lists at that index. */
  method QueueRemove(db: Database, qid: int, val: int) returns (r: Status)
    requires db.Valid()
    modifies db`slots
    ensures db.Valid()
    ensures r == if Hit(old(db.slots), Qid(qid), val).Some? then DONE else Err(NotFound)
    ensures r.Ok? ==>
      var i := Hit(old(db.slots), Qid(qid), val).value;
      && i < |old(db.List(qid))| == |old(Order(db.slots, Qid(qid)))| && db.List(qid) == RemoveAt(old(db.List(qid)), i)
      && Order(db.slots, Qid(qid)) == Closed(old(Order(db.slots, Qid(qid))), i)
    ensures r.Err? ==> db.slots == old(db.slots)
    ensures forall o :: Qid(o) != Qid(qid) ==> db.List(o) == old(db.List(o))
    ensures old(Contiguous(db.slots, Qid(qid))) ==> Contiguous(db.slots, Qid(qid))
    ensures 0 <= val < |old(db.List(qid))| && NoDup(old(db.List(qid))) ==>
      (db.List(qid) == RemoveAt(old(db.List(qid)), val) <==> InPlace(old(db.slots), Qid(qid), val))
  {
    ghost var before, was := db.slots, db.List(qid);
    RemovalExact(before, Qid(qid), val);
    r := db.Remove(qid, val);
    if r.Ok? {
      return;
    }
    var list := db.List(qid);
    var at := FindTrack(list, val);
    if at.None? {
      return;
    }
    OrderEnumerates(db.slots, Qid(qid));
    CountBelowIsRank(db.slots, Qid(qid), at.value);
    var pos := Order(db.slots, Qid(qid))[at.value];
    r := db.Remove(qid, pos);
  }

  lemma RemovalExact(slots: Slots, q: int, val: int)
    ensures Hit(slots, q, val).Some? ==> Hit(slots, q, val).value < |Listing(slots, q)|
    ensures 0 <= val < |Listing(slots, q)| && NoDup(Listing(slots, q)) ==>
      (Hit(slots, q, val).Some?
       && RemoveAt(Listing(slots, q), Hit(slots, q, val).value) == RemoveAt(Listing(slots, q), val)
       <==> InPlace(slots, q, val))
  {
    OrderEnumerates(slots, q);
    if Slot(q, val) in slots {
      var k := RankOf(slots, q, val);
    }
    var list := Listing(slots, q);
    if 0 <= val < |list| && NoDup(list) {
      HitsOwnItem(slots, q, val);
      if Hit(slots, q, val).Some? {
        RemovalTells(list, Hit(slots, q, val).value, val);
      }
    }
  }

  method FindTrack(list: seq<int>, tid: int) returns (r: Option<nat>)
    ensures r == FirstIndex(list, tid)
  {
    for i := 0 to |list|
      invariant tid !in list[..i]
    {
      if list[i] == tid {
        FirstIndexUnique(list, tid, i);
        return Some(i);
      }
      TakeOneMore(list, i);
    }
    assert list[..|list|] == list;
    return None;
  }

  // ----- App::queueRemove -----------------------------------------------------------------------

  /** The entries of the first k items whose index is not selected. */
  function KeepUpTo(list: seq<int>, selected: seq<int>, k: nat): seq<int>
    requires k <= |list|
  {
    if k == 0 then []
    else KeepUpTo(list, selected, k - 1) + (if k - 1 in selected then [] else [list[k - 1]])
  }

  /** The list without the selected indices, in its original order. */
  function Keep(list: seq<int>, selected: seq<int>): seq<int> {
    KeepUpTo(list, selected, |list|)
  }

  ghost predicate StrictlyDescending(ts: seq<int>) {
    forall i, j :: 0 <= i < j < |ts| ==> ts[i] > ts[j]
  }

  lemma {:induction false} KeepAfterRemoval(list: seq<int>, ts: seq<int>, k: nat)
    requires ts != [] && StrictlyDescending(ts) && 0 <= ts[0] < |list| && k < |list|
    ensures k <= ts[0] ==> KeepUpTo(RemoveAt(list, ts[0]), ts[1..], k) == KeepUpTo(list, ts, k)
    ensures k >= ts[0] ==> KeepUpTo(RemoveAt(list, ts[0]), ts[1..], k) == KeepUpTo(list, ts, k + 1)
  {
    var p := ts[0];
    assert ts == [p] + ts[1..];
    assert forall t :: t in ts <==> t == p || t in ts[1..];
    assert forall t :: t in ts[1..] ==> t < p;
    if k > 0 {
      KeepAfterRemoval(list, ts, k - 1);
    }
  }

  /** Removing the largest selected index first leaves the selection of the rest meaning what it meant. */
  lemma RemoveLargestFirst(list: seq<int>, ts: seq<int>)
    requires ts != [] && StrictlyDescending(ts) && 0 <= ts[0] < |list|
    ensures Keep(RemoveAt(list, ts[0]), ts[1..]) == Keep(list, ts)
  {
    KeepAfterRemoval(list, ts, |list| - 1);
  }

  lemma {:induction false} KeepNothingSelected(list: seq<int>, k: nat)
    requires k <= |list|
    ensures KeepUpTo(list, [], k) == list[..k]
  {
    if k > 0 {
      KeepNothingSelected(list, k - 1);
    }
  }

  lemma FirstIndexBefore(list: seq<int>, x: int, i: nat, j: nat)
    requires j < i < |list|
    ensures FirstIndex(RemoveAt(list, i), x) == Some(j) <==> FirstIndex(list, x) == Some(j)
  {
    var less := RemoveAt(list, i);
    assert less[..j] == list[..j] && less[j] == list[j];
    if list[j] == x && x !in list[..j] {
      FirstIndexUnique(list, x, j);
      FirstIndexUnique(less, x, j);
    }
  }

  lemma ClosedBelow(ps: seq<int>, i: nat, j: int)
    requires StrictlyAscending(ps) && i < |ps| && (forall k :: 0 <= k < |ps| ==> ps[k] >= 0) && j < i
    ensures j in Closed(ps, i) <==> j in ps
  {
    AtLeastIndex(ps, i);
    if j in ps {
      var k :| 0 <= k < |ps| && ps[k] == j;
      assert Closed(ps, i)[k] == j;
    }
    if j in Closed(ps, i) {
      var k :| 0 <= k < |Closed(ps, i)| && Closed(ps, i)[k] == j;
      assert ps[if k < i then k else 0] in ps;
    }
  }

  lemma {:induction false} AtLeastIndex(ps: seq<int>, i: nat)
    requires StrictlyAscending(ps) && i < |ps| && ps[0] >= 0
    ensures ps[i] >= i
  {
    if i > 0 {
      AtLeastIndex(ps, i - 1);
    }
  }

  /** A removal at index i leaves every smaller index as much in place as it was. */
  lemma RemovalKeepsInPlace(before: Slots, after: Slots, q: int, i: nat, j: nat)
    requires forall s :: s in before ==> s.position >= 0
    requires j < i < |Order(before, q)| == |Listing(before, q)|
    requires Order(after, q) == Closed(Order(before, q), i) && Listing(after, q) == RemoveAt(Listing(before, q), i)
    ensures InPlace(after, q, j) <==> InPlace(before, q, j)
  {
    OrderEnumerates(before, q);
    OrderEnumerates(after, q);
    var ps := Order(before, q);
    assert forall k :: 0 <= k < |ps| ==> Slot(q, ps[k]) in before;
    ClosedBelow(ps, i, j);
    InUse(before, q, j);
    InUse(after, q, j);
    FirstIndexBefore(Listing(before, q), j, i, j);
  }

  lemma InUse(slots: Slots, q: int, p: int)
    ensures Slot(q, p) in slots <==> p in Order(slots, q)
  {
    OrderEnumerates(slots, q);
  }

  /** What one removal request did: the index it removed, and whether it did so as a position. */
  datatype Request = Request(hit: Option<nat>, byPosition: bool)

  ghost predicate AllAsMeant(trace: seq<Request>, targets: seq<int>)
    requires |trace| <= |targets|
  {
    forall k :: 0 <= k < |trace| ==> targets[k] >= 0 && trace[k].hit == Some(targets[k] as nat)
  }

  ghost predicate AllInPlace(slots: Slots, q: int, targets: seq<int>) {
    forall k :: 0 <= k < |targets| ==> targets[k] >= 0 && InPlace(slots, q, targets[k])
  }

  /** The removal loop of App::queueRemove, each removal sent to the service as a number. Every request removes
      the item it was meant for exactly when all of them were in place at the start. */
  method RemoveDescending(db: Database, qid: int, targets: seq<int>) returns (removed: nat, ghost trace: seq<Request>)
    requires db.Valid()
    requires StrictlyDescending(targets)
    requires forall i :: 0 <= i < |targets| ==> 0 <= targets[i] < |db.List(qid)|
    modifies db`slots
    ensures db.Valid() && |trace| == |targets|
    ensures removed == |old(db.List(qid))| - |db.List(qid)|
    ensures AllAsMeant(trace, targets) <==> AllInPlace(old(db.slots), Qid(qid), targets)
    ensures AllInPlace(old(db.slots), Qid(qid), targets) ==>
      removed == |targets| && db.List(qid) == Keep(old(db.List(qid)), targets)
    ensures old(Contiguous(db.slots, Qid(qid))) ==>
      && Contiguous(db.slots, Qid(qid)) && AllInPlace(old(db.slots), Qid(qid), targets)
      && forall k :: 0 <= k < |trace| ==> trace[k].byPosition
  {
    ghost var before := db.slots;
    var q := Qid(qid);
    removed, trace := 0, [];
    ContiguousInPlace(before, q, targets);
    assert targets[0..] == targets;
    for j := 0 to |targets|
      invariant db.Valid() && |trace| == j
      invariant |db.List(qid)| + removed == |Listing(before, q)|
      invariant SoFar(before, db.slots, q, targets, trace, removed)
    {
      ghost var now := db.slots;
      var r := QueueRemove(db, qid, targets[j]);
      SoFarNext(before, now, db.slots, q, targets, trace, removed);
      trace := trace + [Requested(now, q, targets[j])];
      removed := if r.Ok? then removed + 1 else removed;
    }
    SoFarEnds(before, db.slots, q, targets, trace, removed);
  }

  ghost function Requested(slots: Slots, q: int, val: int): Request {
    Request(Hit(slots, q, val), Slot(q, val) in slots)
  }

  /** One request, as handle(QueueRemove) carries it out. */
  ghost predicate Removed(now: Slots, after: Slots, q: int, val: int) {
    && (Hit(now, q, val).None? ==> after == now)
    && (Hit(now, q, val).Some? ==>
          var i := Hit(now, q, val).value;
          && i < |Listing(now, q)| == |Order(now, q)|
          && Listing(after, q) == RemoveAt(Listing(now, q), i) && Order(after, q) == Closed(Order(now, q), i))
    && (Contiguous(now, q) ==> Contiguous(after, q))
  }

  /** What the removal loop keeps true. */
  ghost predicate SoFar(before: Slots, now: Slots, q: int, targets: seq<int>, trace: seq<Request>, removed: int) {
    && |trace| <= |targets|
    && AsMeantSoFar(before, now, q, targets, trace, removed)
    && (Contiguous(before, q) ==> Contiguous(now, q) && forall k :: 0 <= k < |trace| ==> trace[k].byPosition)
  }

  ghost predicate AsMeantSoFar(before: Slots, now: Slots, q: int, targets: seq<int>, trace: seq<Request>, removed: int)
    requires |trace| <= |targets|
  {
    && (AllAsMeant(trace, targets) <==> AllInPlace(before, q, targets[..|trace|]))
    && (AllAsMeant(trace, targets) ==>
          removed == |trace| && Meant(before, now, q, targets[|trace|..], Keep(Listing(before, q), targets)))
  }

  /** As long as every request did what it was meant to: what is still selected means what it meant. */
  ghost predicate Meant(before: Slots, now: Slots, q: int, todo: seq<int>, goal: seq<int>) {
    && StrictlyDescending(todo)
    && (forall i :: 0 <= i < |todo| ==> 0 <= todo[i] < |Order(now, q)| == |Listing(now, q)|)
    && (forall i :: 0 <= i < |todo| && 0 <= todo[i] ==> (InPlace(now, q, todo[i]) <==> InPlace(before, q, todo[i])))
    && Keep(Listing(now, q), todo) == goal
  }

  lemma MeantNext(before: Slots, now: Slots, after: Slots, q: int, todo: seq<int>, goal: seq<int>)
    requires todo != [] && Meant(before, now, q, todo, goal) && forall s :: s in now ==> s.position >= 0
    requires Order(after, q) == Closed(Order(now, q), todo[0])
    requires Listing(after, q) == RemoveAt(Listing(now, q), todo[0])
    ensures Meant(before, after, q, todo[1..], goal)
  {
    RemoveLargestFirst(Listing(now, q), todo);
    forall i | 0 <= i < |todo| - 1
      ensures InPlace(after, q, todo[1..][i]) <==> InPlace(before, q, todo[1..][i])
    {
      assert todo[i + 1] < todo[0];
      RemovalKeepsInPlace(now, after, q, todo[0], todo[i + 1]);
    }
  }

  lemma SoFarEnds(before: Slots, now: Slots, q: int, targets: seq<int>, trace: seq<Request>, removed: int)
    requires SoFar(before, now, q, targets, trace, removed) && |trace| == |targets|
    ensures AllAsMeant(trace, targets) <==> AllInPlace(before, q, targets)
    ensures AllAsMeant(trace, targets) ==> removed == |targets| && Listing(now, q) == Keep(Listing(before, q), targets)
  {
    assert targets[..|targets|] == targets && targets[|targets|..] == [];
    KeepNothingSelected(Listing(now, q), |Listing(now, q)|);
    assert Listing(now, q)[..|Listing(now, q)|] == Listing(now, q);
  }

  lemma AllInPlacePush(slots: Slots, q: int, targets: seq<int>, j: nat)
    requires j < |targets|
    ensures AllInPlace(slots, q, targets[..j + 1]) <==>
            AllInPlace(slots, q, targets[..j]) && targets[j] >= 0 && InPlace(slots, q, targets[j])
  {
    TakeOneMore(targets, j);
    var more := targets[..j + 1];
    assert more[j] == targets[j] && forall k :: 0 <= k < j ==> more[k] == targets[..j][k];
  }

  lemma AllAsMeantPush(trace: seq<Request>, targets: seq<int>, req: Request)
    requires |trace| < |targets|
    ensures AllAsMeant(trace + [req], targets) <==>
            AllAsMeant(trace, targets) && targets[|trace|] >= 0 && req.hit == Some(targets[|trace|] as nat)
  {
    var more := trace + [req];
    assert more[|trace|] == req && forall k :: 0 <= k < |trace| ==> more[k] == trace[k];
  }

  lemma AsMeantNext(before: Slots, now: Slots, after: Slots, q: int, targets: seq<int>, trace: seq<Request>,
                    removed: int)
    requires |trace| < |targets| && AsMeantSoFar(before, now, q, targets, trace, removed)
    requires Removed(now, after, q, targets[|trace|]) && forall s :: s in now ==> s.position >= 0
    ensures AsMeantSoFar(before, after, q, targets, trace + [Requested(now, q, targets[|trace|])],
                         if Hit(now, q, targets[|trace|]).Some? then removed + 1 else removed)
  {
    var j := |trace|;
    var req := Requested(now, q, targets[j]);
    var todo := targets[j..];
    AllInPlacePush(before, q, targets, j);
    AllAsMeantPush(trace, targets, req);
    assert todo[0] == targets[j] && todo[1..] == targets[j + 1..];
    if AllAsMeant(trace, targets) {
      HitsOwnItem(now, q, todo[0]);
      if req.hit == Some(todo[0] as nat) {
        MeantNext(before, now, after, q, todo, Keep(Listing(before, q), targets));
      }
    }
  }

  lemma SoFarNext(before: Slots, now: Slots, after: Slots, q: int, targets: seq<int>, trace: seq<Request>, removed: int)
    requires |trace| < |targets| && SoFar(before, now, q, targets, trace, removed)
    requires Removed(now, after, q, targets[|trace|]) && forall s :: s in now ==> s.position >= 0
    requires Contiguous(before, q) ==> AllInPlace(before, q, targets)
    ensures SoFar(before, after, q, targets, trace + [Requested(now, q, targets[|trace|])],
                  if Hit(now, q, targets[|trace|]).Some? then removed + 1 else removed)
  {
    AsMeantNext(before, now, after, q, targets, trace, removed);
    if Contiguous(before, q) {
      assert AllAsMeant(trace, targets);
      assert targets[|trace|..][0] == targets[|trace|];
      PositionInUse(now, q, targets[|trace|]);
    }
  }

  lemma ContiguousInPlace(slots: Slots, q: int, targets: seq<int>)
    requires forall i :: 0 <= i < |targets| ==> 0 <= targets[i] < |Listing(slots, q)|
    ensures Contiguous(slots, q) ==> AllInPlace(slots, q, targets)
  {
    OrderEnumerates(slots, q);
  }

  lemma PositionInUse(slots: Slots, q: int, p: int)
    requires Contiguous(slots, q) && 0 <= p < |Listing(slots, q)|
    ensures Slot(q, p) in slots
  {
    OrderEnumerates(slots, q);
    assert Slot(q, Order(slots, q)[p]) in slots;
  }

  /** The files that select nothing: not in the snapshot, or named before. */
  function Unserved(keys: seq<string>, files: seq<string>): seq<string> {
    if files == [] then []
    else
      var before, f := files[..|files| - 1], files[|files| - 1];
      Unserved(keys, before) + (if f in keys && f !in before then [] else [f])
  }

  lemma UnservedNext(keys: seq<string>, files: seq<string>, j: nat)
    requires j < |files|
    ensures Unserved(keys, files[..j + 1])
         == Unserved(keys, files[..j]) + (if files[j] in keys && files[j] !in files[..j] then [] else [files[j]])
  {
    assert files[..j + 1][..j] == files[..j];
  }

  /** Every name but the first of a listed file is reported, and every name of one that is not listed. */
  lemma {:induction false} UnservedCounts(keys: seq<string>, files: seq<string>, f: string)
    ensures multiset(Unserved(keys, files))[f]
         == if f in keys && f in files then multiset(files)[f] - 1 else multiset(files)[f]
  {
    if files != [] {
      var k := |files| - 1;
      UnservedCounts(keys, files[..k], f);
      assert files == files[..k] + [files[k]];
    }
  }

  /** The selection by file: every snapshot index whose key is asked for, once; every file that selects
      nothing is reported. */
  method SelectByFiles(keys: seq<string>, files: seq<string>) returns (targets: seq<int>, missing: seq<string>)
    ensures NoDup(targets)
    ensures forall i :: i in targets <==> 0 <= i < |keys| && keys[i] in files
    ensures missing == Unserved(keys, files)
  {
    targets, missing := [], [];
    var taken := seq(|keys|, i => false);
    for j := 0 to |files|
      invariant NoDup(targets) && |taken| == |keys|
      invariant forall i :: 0 <= i < |keys| ==> (taken[i] <==> i in targets)
      invariant forall i :: i in targets <==> 0 <= i < |keys| && keys[i] in files[..j]
      invariant missing == Unserved(keys, files[..j])
    {
      var found := false;
      UnservedNext(keys, files, j);
      TakeOneMore(files, j);
      for i := 0 to |keys|
        invariant NoDup(targets) && |taken| == |keys|
        invariant forall m :: 0 <= m < |keys| ==> (taken[m] <==> m in targets)
        invariant forall m :: m in targets <==>
                    0 <= m < |keys| && (keys[m] in files[..j] || (m < i && keys[m] == files[j]))
        invariant found <==> files[j] in keys[..i] && files[j] !in files[..j]
      {
        TakeOneMore(keys, i);
        if !taken[i] && keys[i] == files[j] {
          targets := targets + [i];
          taken := taken[i := true];
          found := true;
        }
      }
      assert keys[..|keys|] == keys;
      if !found {
        missing := missing + [files[j]];
      }
    }
    assert files[..|files|] == files;
  }

  function InsertDown(ts: seq<int>, x: int): seq<int> {
    if ts == [] || ts[0] < x then [x] + ts else [ts[0]] + InsertDown(ts[1..], x)
  }

  /** std::sort by descending position. */
  function SortDown(ts: seq<int>): seq<int> {
    if ts == [] then [] else InsertDown(SortDown(ts[1..]), ts[0])
  }

  lemma {:induction false} InsertDownMembers(ts: seq<int>, x: int, t: int)
    ensures t in InsertDown(ts, x) <==> t == x || t in ts
  {
    if ts != [] {
      assert ts == [ts[0]] + ts[1..];
      InsertDownMembers(ts[1..], x, t);
    }
  }

  lemma {:induction false} InsertDownSorts(ts: seq<int>, x: int)
    requires StrictlyDescending(ts) && x !in ts
    ensures StrictlyDescending(InsertDown(ts, x))
  {
    if ts != [] && ts[0] > x {
      var rest := InsertDown(ts[1..], x);
      InsertDownSorts(ts[1..], x);
      forall i | 0 <= i < |rest|
        ensures rest[i] < ts[0]
      {
        InsertDownMembers(ts[1..], x, rest[i]);
      }
    } else {
      assert ts != [] ==> ts[0] in ts;
    }
  }

  lemma {:induction false} SortDownSorts(ts: seq<int>)
    requires NoDup(ts)
    ensures StrictlyDescending(SortDown(ts))
    ensures forall t :: t in SortDown(ts) <==> t in ts
  {
    if ts != [] {
      assert ts == [ts[0]] + ts[1..];
      SortDownSorts(ts[1..]);
      assert ts[0] !in ts[1..];
      InsertDownSorts(SortDown(ts[1..]), ts[0]);
      forall t
        ensures t in SortDown(ts) <==> t in ts
      {
        InsertDownMembers(SortDown(ts[1..]), ts[0], t);
      }
    }
  }

  /** The items whose file was not named, in order. */
  function Others(list: seq<int>, keyOf: int -> string, files: seq<string>): seq<int> {
    if list == [] then []
    else
      var before, t := list[..|list| - 1], list[|list| - 1];
      Others(before, keyOf, files) + (if keyOf(t) in files then [] else [t])
  }

  lemma {:induction false} KeepIsOthers(list: seq<int>, keyOf: int -> string, files: seq<string>, selected: seq<int>,
                                        k: nat)
    requires k <= |list|
    requires forall i :: i in selected <==> 0 <= i < |list| && keyOf(list[i]) in files
    ensures KeepUpTo(list, selected, k) == Others(list[..k], keyOf, files)
  {
    if k > 0 {
      KeepIsOthers(list, keyOf, files, selected, k - 1);
      assert list[..k][..k - 1] == list[..k - 1];
    }
  }

  /** App::queueRemove for files: snapshot, select, sort, remove. Every request removes the item it was meant for
      exactly when every item whose file was named is in place; then what stays is exactly the snapshot without
      those items, in the original order. */
  method RemoveFiles(db: Database, qid: int, keyOf: int -> string, files: seq<string>)
    returns (removed: nat, missing: seq<string>, ghost sorted: seq<int>, ghost trace: seq<Request>)
    requires db.Valid()
    modifies db`slots
    ensures db.Valid()
    ensures removed == |old(db.List(qid))| - |db.List(qid)|
    ensures missing == Unserved(Keys(old(db.List(qid)), keyOf), files)
    ensures StrictlyDescending(sorted) && |trace| == |sorted|
    ensures forall i :: i in sorted <==> 0 <= i < |old(db.List(qid))| && keyOf(old(db.List(qid))[i]) in files
    ensures AllAsMeant(trace, sorted) <==> NamedInPlace(old(db.slots), Qid(qid), keyOf, files)
    ensures NamedInPlace(old(db.slots), Qid(qid), keyOf, files) ==>
      removed == |sorted| && db.List(qid) == Others(old(db.List(qid)), keyOf, files)
    ensures old(Contiguous(db.slots, Qid(qid))) ==>
      Contiguous(db.slots, Qid(qid)) && NamedInPlace(old(db.slots), Qid(qid), keyOf, files)
  {
    var snapshot := db.List(qid);
    var targets;
    targets, missing := SelectByFiles(Keys(snapshot, keyOf), files);
    SortDownSorts(targets);
    var ordered := SortDown(targets);
    assert forall i :: 0 <= i < |ordered| ==> ordered[i] in ordered;
    NamedAreTargets(db.slots, Qid(qid), keyOf, files, ordered);
    removed, trace := RemoveDescending(db, qid, ordered);
    sorted := ordered;
    KeepIsOthers(snapshot, keyOf, files, ordered, |snapshot|);
    assert snapshot[..|snapshot|] == snapshot;
  }

  /** Every listed item whose file is named is in place. */
  ghost predicate NamedInPlace(slots: Slots, q: int, keyOf: int -> string, files: seq<string>) {
    forall i: nat :: i < |Listing(slots, q)| && keyOf(Listing(slots, q)[i]) in files ==> InPlace(slots, q, i)
  }

  lemma NamedAreTargets(slots: Slots, q: int, keyOf: int -> string, files: seq<string>, targets: seq<int>)
    requires forall i :: i in targets <==> 0 <= i < |Listing(slots, q)| && keyOf(Listing(slots, q)[i]) in files
    ensures NamedInPlace(slots, q, keyOf, files) <==> AllInPlace(slots, q, targets)
  {
    if AllInPlace(slots, q, targets) {
      forall i: nat | i < |Listing(slots, q)| && keyOf(Listing(slots, q)[i]) in files
        ensures InPlace(slots, q, i)
      {
        assert i in targets;
      }
    } else {
      assert forall k :: 0 <= k < |targets| ==> targets[k] in targets;
    }
  }

  lemma ContiguousRows(slots: Slots, q: int)
    requires Contiguous(slots, q)
    ensures |Order(slots, q)| == |Listing(slots, q)|
    ensures forall k :: 0 <= k < |Listing(slots, q)| ==>
              Order(slots, q)[k] == k && Slot(q, k) in slots && slots[Slot(q, k)].track == Listing(slots, q)[k]
  {
    OrderEnumerates(slots, q);
    forall k | 0 <= k < |Listing(slots, q)|
      ensures Slot(q, k) in slots && slots[Slot(q, k)].track == Listing(slots, q)[k]
    {
      TracksAtIndex(slots, q, Order(slots, q), k);
    }
  }

  lemma HeadDeleted(slots: Slots, q: int)
    requires Contiguous(slots, q) && Listing(slots, q) != [] && NoDup(Listing(slots, q))
    ensures |Order(slots, q)| == |Listing(slots, q)|
    ensures Enumerates(DropTrack(slots, Listing(slots, q)[0]), q, Order(slots, q)[1..])
  {
    var list, ps := Listing(slots, q), Order(slots, q);
    ContiguousRows(slots, q);
    forall k | 0 <= k < |ps[1..]|
      ensures Slot(q, ps[1..][k]) in DropTrack(slots, list[0])
    {
      assert list[k + 1] != list[0];
    }
    forall p | Slot(q, p) in DropTrack(slots, list[0])
      ensures p in ps[1..]
    {
      InUse(slots, q, p);
      var k :| 0 <= k < |ps| && ps[k] == p;
      assert ps[1..][k - 1] == p;
    }
  }

  /** Gaps do shift the meaning of numbers: when the head track of a contiguous queue is deleted and nothing
      else holds it, every later index of the new listing removes the item before it. */
  lemma AfterHeadDeleted(slots: Slots, q: int, i: nat)
    requires Contiguous(slots, q) && Listing(slots, q) != [] && NoDup(Listing(slots, q))
    requires 0 < i < |Listing(slots, q)| - 1
    ensures var after := DropTrack(slots, Listing(slots, q)[0]);
            && Listing(after, q) == Listing(slots, q)[1..]
            && Hit(after, q, i) == Some(i - 1) && !InPlace(after, q, i)
  {
    var list, ps := Listing(slots, q), Order(slots, q);
    var after := DropTrack(slots, list[0]);
    DropTrackListing(slots, q, list[0]);
    WithoutHead(list);
    HeadDeleted(slots, q);
    OrderUnique(after, q, ps[1..]);
    CountBelowIsRank(after, q, i - 1);
    assert Slot(q, ps[1..][i - 1]) in after;
    HitsOwnItem(after, q, i);
  }

  /** Tracks 8 and 9 at positions 1 and 2: asked for snapshot index 1, which is track 9, the queue loses 8. */
  lemma GapExample()
    ensures var slots := map[Slot(1, 1) := Item(2, 8), Slot(1, 2) := Item(3, 9)];
            && Listing(slots, 1) == [8, 9] && Hit(slots, 1, 1) == Some(0)
            && RemoveAt(Listing(slots, 1), 0) == [9] && RemoveAt(Listing(slots, 1), 1) == [8]
  {
    var slots := map[Slot(1, 1) := Item(2, 8), Slot(1, 2) := Item(3, 9)];
    var ps := [1, 2];
    OrderUnique(slots, 1, ps);
    TracksAtIndex(slots, 1, ps, 0);
    TracksAtIndex(slots, 1, ps, 1);
    assert Listing(slots, 1) == [8, 9];
    CountBelowIsRank(slots, 1, 0);
  }

  lemma {:induction false} WithoutHead(list: seq<int>)
    requires list != [] && NoDup(list)
    ensures Without(list, list[0]) == list[1..]
  {
    if |list| > 1 {
      var k := |list| - 1;
      WithoutHead(list[..k]);
      assert list[..k][1..] + [list[k]] == list[1..];
    }
  }

  function Keys(list: seq<int>, keyOf: int -> string): (keys: seq<string>)
    ensures |keys| == |list| && forall i :: 0 <= i < |list| ==> keys[i] == keyOf(list[i])
  {
    seq(|list|, i requires 0 <= i < |list| => keyOf(list[i]))
  }

  // ----- QueueMove ------------------------------------------------------------------------------

  /** handle(QueueMove): rewrite the whole queue with one id moved. */
  method QueueMove(db: Database, qid: int, from: nat, to: nat, begins: bool, commits: bool) returns (r: Status)
    requires db.Valid()
    modifies db`slots, db`nextId
    ensures db.Valid()
    ensures r.Ok? <==> from < |old(db.List(qid))| && to < |old(db.List(qid))| && begins && commits
    ensures r.Err? ==> r == Err(if from >= |old(db.List(qid))| || to >= |old(db.List(qid))| then InvalidArg
                                else if !begins then Busy else Internal)
    ensures r.Ok? ==> db.List(qid) == Move(old(db.List(qid)), from, to)
    ensures r.Ok? ==> Contiguous(db.slots, Qid(qid)) && multiset(db.List(qid)) == multiset(old(db.List(qid)))
    ensures r.Err? ==> db.slots == old(db.slots)
  {
    var ids := db.List(qid);
    if from >= |ids| || to >= |ids| {
      return Err(InvalidArg);
    }
    var mv := ids[from];
    ids := ids[..from] + ids[from + 1..];
    ids := ids[..to] + [mv] + ids[to..];
    ListedTracksExist(db.slots, Qid(qid), db.tracks);
    MoveKeepsAll(db.List(qid), from, to);
    forall t | t in ids
      ensures t in db.tracks
    {
      assert t in multiset(ids);
      assert t in multiset(db.List(qid));
    }
    r := db.ReplaceAll(qid, ids, begins, commits);
  }

  // ----- whole runs -----------------------------------------------------------------------------

  datatype QueueOp = Append(track: int) | Dequeue | RemovePos(pos: int) | Clear | ReplaceAll(ids: seq<int>)

  /** What an operation does to a list of track ids; an operation the database refuses does nothing. */
  function Effect(list: seq<int>, op: QueueOp, tracks: set<int>): seq<int> {
    match op
    case Append(t) => if t in tracks then list + [t] else list
    case Dequeue => if list == [] then [] else list[1..]
    case RemovePos(p) => if 0 <= p < |list| then RemoveAt(list, p) else list
    case Clear => []
    case ReplaceAll(ids) => if forall t :: t in ids ==> t in tracks then ids else list
  }

  function Effects(list: seq<int>, ops: seq<QueueOp>, tracks: set<int>): seq<int> {
    if ops == [] then list
    else Effect(Effects(list, ops[..|ops| - 1], tracks), ops[|ops| - 1], tracks)
  }

  /** Over every run the table lists exactly the sequence the operations make, at positions 0..n-1. */
  method RunQueue(db: Database, qid: int, ops: seq<QueueOp>)
    requires db.Valid() && Contiguous(db.slots, Qid(qid))
    modifies db`slots, db`nextId
    ensures db.Valid() && Contiguous(db.slots, Qid(qid))
    ensures db.List(qid) == Effects(old(db.List(qid)), ops, db.tracks)
  {
    ghost var first := db.List(qid);
    for k := 0 to |ops|
      invariant db.Valid() && Contiguous(db.slots, Qid(qid))
      invariant db.List(qid) == Effects(first, ops[..k], db.tracks)
    {
      assert ops[..k + 1][..k] == ops[..k];
      DoQueueOp(db, qid, ops[k]);
    }
    assert ops[..|ops|] == ops;
  }

  method DoQueueOp(db: Database, qid: int, op: QueueOp)
    requires db.Valid() && Contiguous(db.slots, Qid(qid))
    modifies db`slots, db`nextId
    ensures db.Valid() && Contiguous(db.slots, Qid(qid))
    ensures db.List(qid) == Effect(old(db.List(qid)), op, db.tracks)
  {
    match op
    case Append(t) =>
      Append1Effect(db.slots, Qid(qid), db.nextId, t);
      var _ := db.Enqueue(qid, t, -1, []);
    case Dequeue => var _ := db.Dequeue(qid);
    case RemovePos(p) =>
      if 0 <= p < |db.List(qid)| {
        PositionInUse(db.slots, Qid(qid), p);
      }
      var _ := db.Remove(qid, p);
    case Clear => db.Clear(qid);
    case ReplaceAll(ids) => var _ := db.ReplaceAll(qid, ids, true, true);
  }
}
