/** The service's queue commands over the database and the engine, and the client's multi-remove. */
module QueueService {
  import opened Common
  import opened Sequences
  import opened SlotTable
  import opened Db
  import PlaybackLaws
  import opened Engine

  // ----- QueueAdd -------------------------------------------------------------------------------

  /** The ids of the request that are neither listed nor repeated. */
  function Wanted(list: seq<int>, request: seq<int>): seq<int> {
    Distinct(request, t => t !in list)
  }

  /** handle(QueueAdd), its batch part: enqueue what is not there yet and tell the engine. */
  method QueueAdd(db: Database, engine: Engine, toAdd: seq<int>, locked: bool, begins: bool, commits: bool)
    returns (r: Status)
    requires engine.db == db && engine.Valid()
    modifies db`slots, db`nextId, db`row, engine`perm, engine`stShuffle, engine`stCursor
    ensures engine.Valid()
    ensures r.Ok? <==> Wanted(old(engine.List()), toAdd) == []
                       || (begins && commits && forall t :: t in Wanted(old(engine.List()), toAdd) ==> t in db.tracks)
    ensures r.Err? ==> BatchFails(Wanted(old(engine.List()), toAdd), db.tracks, begins, commits, r)
    ensures engine.List()
         == if r.Ok? then old(engine.List()) + Wanted(old(engine.List()), toAdd) else old(engine.List())
    ensures engine.QueueState() ==
            if r.Ok? && locked
            then PlayOrder.NoteEnqueued(old(engine.QueueState()), |engine.List()|, |Wanted(old(engine.List()), toAdd)|)
            else old(engine.QueueState())
    ensures old(engine.perm) <= engine.perm
    ensures r.Ok? && old(engine.shuffle && engine.perm != [] && IsPerm(engine.perm, |engine.List()|)) ==>
      (IsPerm(engine.perm, |engine.List()|) <==> locked || Wanted(old(engine.List()), toAdd) == [])
  {
    var wanted := FreshIds(Listing(db.slots, engine.queueId), toAdd);
    if wanted == [] {
      NothingAdded(engine.List());
      return DONE;
    }
    ghost var q, n := engine.QueueState(), |engine.List()|;
    r := AddFresh(db, engine, wanted, locked, begins, commits);
    NoteKeepsFullExactly(q, n, |wanted|, locked);
  }

  lemma NothingAdded(list: seq<int>)
    ensures list + [] == list
  {
  }

  /** The batch itself, and the note to the engine. */
  method AddFresh(db: Database, engine: Engine, wanted: seq<int>, locked: bool, begins: bool, commits: bool)
    returns (r: Status)
    requires engine.db == db && engine.Valid()
    modifies db`slots, db`nextId, db`row, engine`perm, engine`stShuffle, engine`stCursor
    ensures engine.Valid()
    ensures r.Ok? <==> begins && commits && forall t :: t in wanted ==> t in db.tracks
    ensures r.Err? ==> BatchFails(wanted, db.tracks, begins, commits, r)
    ensures engine.List() == if r.Ok? then old(engine.List()) + wanted else old(engine.List())
    ensures engine.QueueState() ==
            if r.Ok? && locked then PlayOrder.NoteEnqueued(old(engine.QueueState()), |engine.List()|, |wanted|)
            else old(engine.QueueState())
  {
    r := db.EnqueueBatch(engine.queueId, wanted, begins, commits);
    if r.Ok? {
      engine.NoteEnqueued(engine.queueId, |wanted|, locked);
    }
  }

  /** The loop that collects the ids to enqueue. */
  method FreshIds(list: seq<int>, toAdd: seq<int>) returns (wanted: seq<int>)
    ensures wanted == Wanted(list, toAdd)
  {
    var have := list;
    wanted := [];
    for k := 0 to |toAdd|
      invariant wanted == Wanted(list, toAdd[..k]) && have == list + wanted
    {
      assert toAdd[..k + 1][..k] == toAdd[..k];
      if toAdd[k] !in have {
        wanted := wanted + [toAdd[k]];
        have := have + [toAdd[k]];
      }
    }
    assert toAdd[..|toAdd|] == toAdd;
  }

  /** An arrangement stays full exactly when the engine hears of the rows added. */
  lemma NoteKeepsFullExactly(q: PlayOrder.Queue, n: nat, added: nat, told: bool)
    ensures var after := if told then PlayOrder.NoteEnqueued(q, n + added, added) else q;
            && q.perm <= after.perm
            && (q.shuffle && q.perm != [] && IsPerm(q.perm, n) ==>
                  (IsPerm(after.perm, n + added) <==> told || added == 0))
  {
    if q.shuffle && q.perm != [] && IsPerm(q.perm, n) {
      PlaybackLaws.NoteKeepsFull(q, n, added);
    }
  }

  /** A duplicate-free queue stays duplicate-free. */
  lemma AddKeepsNoDup(list: seq<int>, request: seq<int>)
    requires NoDup(list)
    ensures NoDup(list + Wanted(list, request))
  {
    DistinctIsFirstOccurrences(request, t => t !in list);
    var wanted := Wanted(list, request);
    forall i, j | 0 <= i < j < |list + wanted|
      ensures (list + wanted)[i] != (list + wanted)[j]
    {
      if i < |list| <= j {
        assert wanted[j - |list|] in wanted && list[i] in list;
      }
    }
  }

  // ----- QueueList ------------------------------------------------------------------------------

  /** The positions in the order they are shown: usable arrangement entries first, then the rest. */
  function Shown(perm: seq<int>, n: nat): seq<int> {
    Usable(perm, n) + Rest(Usable(perm, n), n)
  }

  /** The entries of a possibly stale arrangement that are in range and not repeated. */
  function Usable(perm: seq<int>, n: nat): seq<int> {
    Distinct(perm, p => 0 <= p < n)
  }

  /** The positions below n not in `used`, ascending. */
  function Rest(used: seq<int>, n: nat): seq<int> {
    if n == 0 then []
    else if n - 1 in used then Rest(used, n - 1)
    else Rest(used, n - 1) + [n - 1]
  }

  ghost predicate Ascending(s: seq<int>) {
    forall i, j :: 0 <= i < j < |s| ==> s[i] < s[j]
  }

  lemma {:induction false} RestIsSound(used: seq<int>, n: nat)
    ensures forall p :: p in Rest(used, n) <==> 0 <= p < n && p !in used
    ensures Ascending(Rest(used, n))
  {
    if n > 0 {
      RestIsSound(used, n - 1);
      var most := Rest(used, n - 1);
      assert forall i :: 0 <= i < |most| ==> most[i] in most;
    }
  }

  /** Whatever the arrangement has become, every item is shown exactly once. */
  lemma ShownIsPerm(perm: seq<int>, n: nat)
    ensures IsPerm(Shown(perm, n), n)
  {
    var u := Usable(perm, n);
    var r := Rest(u, n);
    DistinctIsFirstOccurrences(perm, p => 0 <= p < n);
    RestIsSound(u, n);
    var s := u + r;
    forall i | 0 <= i < |s|
      ensures 0 <= s[i] < n
    {
      assert i < |u| ==> s[i] in u;
      assert i >= |u| ==> s[i] in r;
    }
    forall i, j | 0 <= i < j < |s|
      ensures s[i] != s[j]
    {
      if i < |u| <= j {
        assert s[i] in u && s[j] in r;
      }
    }
    Pigeonhole(s, n);
    CoveringIsLong(s, n);
  }

  /** Every position once: those the arrangement names first, as they first occur in it, then the others, ascending. */
  ghost predicate InShownOrder(s: seq<int>, perm: seq<int>, n: nat) {
    IsPerm(s, n) && forall i, j :: 0 <= i < j < n ==> Precedes(perm, s[i], s[j])
  }

  ghost predicate Precedes(perm: seq<int>, a: int, b: int) {
    && (b in perm ==> a in perm && FirstIndex(perm, a).value < FirstIndex(perm, b).value)
    && (a !in perm ==> a < b)
  }

  /** Whatever the arrangement has become, its valid entries come first, in its order. */
  lemma ShownOrder(perm: seq<int>, n: nat)
    ensures InShownOrder(Shown(perm, n), perm, n)
  {
    var u := Usable(perm, n);
    var rest := Rest(u, n);
    var s := u + rest;
    ShownIsPerm(perm, n);
    DistinctIsFirstOccurrences(perm, p => 0 <= p < n);
    RestIsSound(u, n);
    forall i, j | 0 <= i < j < n
      ensures Precedes(perm, s[i], s[j])
    {
      assert if i < |u| then s[i] in u else s[i] in rest && s[i] == rest[i - |u|];
      assert if j < |u| then s[j] in u else s[j] in rest && s[j] == rest[j - |u|];
    }
  }

  /** Only one order of the positions is like that. */
  lemma {:induction false} ShownOrderIsUnique(perm: seq<int>, n: nat, s: seq<int>)
    requires InShownOrder(s, perm, n)
    ensures s == Shown(perm, n)
  {
    ShownOrder(perm, n);
    SameOrder(s, Shown(perm, n), perm, n, n);
  }

  lemma {:induction false} SameOrder(a: seq<int>, b: seq<int>, perm: seq<int>, n: nat, k: nat)
    requires InShownOrder(a, perm, n) && InShownOrder(b, perm, n) && k <= n
    ensures a[..k] == b[..k]
  {
    if k > 0 {
      SameOrder(a, b, perm, n, k - 1);
      if a[k - 1] != b[k - 1] {
        var i := LaterIn(a, b, n, k - 1);
        var j := LaterIn(b, a, n, k - 1);
      }
    }
  }

  /** Where an order goes on differently, it still has what the other one has there. */
  lemma LaterIn(a: seq<int>, b: seq<int>, n: nat, k: nat) returns (i: nat)
    requires IsPerm(a, n) && IsPerm(b, n) && k < n && a[..k] == b[..k] && a[k] != b[k]
    ensures k < i < n && b[i] == a[k]
  {
    assert forall m :: 0 <= m < k ==> a[m] == a[..k][m] && b[m] == b[..k][m];
    PermCovers(b, n, a[k]);
    i := FirstIndex(b, a[k]).value;
  }

  lemma {:induction false} CoveringIsLong(s: seq<int>, n: nat)
    requires forall v :: 0 <= v < n ==> v in s
    ensures |s| >= n
  {
    if n > 0 {
      var k := FirstIndex(s, n - 1).value;
      var t := RemoveAt(s, k);
      forall v | 0 <= v < n - 1
        ensures v in t
      {
        var i := FirstIndex(s, v).value;
        assert if i < k then t[i] == v else t[i - 1] == v;
      }
      CoveringIsLong(t, n - 1);
    }
  }

  /** An intact arrangement is shown as it is. */
  lemma {:induction false} IntactShownAsIs(perm: seq<int>, n: nat)
    requires IsPerm(perm, n)
    ensures Shown(perm, n) == perm
  {
    UsableKeepsAll(perm, n, n);
    assert perm[..n] == perm;
    RestIsSound(perm, n);
    forall p | p in Rest(perm, n)
      ensures false
    {
      PermCovers(perm, n, p);
    }
    assert Rest(perm, n) == [] by {
      if Rest(perm, n) != [] {
        assert Rest(perm, n)[0] in Rest(perm, n);
      }
    }
  }

  lemma {:induction false} UsableKeepsAll(perm: seq<int>, n: nat, k: nat)
    requires IsPerm(perm, n) && k <= n
    ensures Usable(perm[..k], n) == perm[..k]
  {
    if k > 0 {
      UsableKeepsAll(perm, n, k - 1);
      assert perm[..k][..k - 1] == perm[..k - 1];
      assert forall i :: 0 <= i < k - 1 ==> perm[..k - 1][i] == perm[i];
    }
  }

  /** The reordering loops of handle(QueueList) for order "playback". */
  method PlaybackListing(tracks: seq<int>, perm: seq<int>) returns (ordered: seq<int>)
    ensures perm == [] ==> ordered == tracks
    ensures perm != [] ==> Renders(ordered, tracks, Shown(perm, |tracks|))
    ensures perm != [] ==> exists s :: InShownOrder(s, perm, |tracks|) && Renders(ordered, tracks, s)
  {
    if perm == [] {
      return tracks;
    }
    var n := |tracks|;
    ordered := [];
    ghost var shown: seq<int> := [];
    var seen := seq(n, i => false);
    for k := 0 to |perm|
      invariant |seen| == n && shown == Usable(perm[..k], n)
      invariant forall i :: 0 <= i < n ==> (seen[i] <==> i in shown)
      invariant Renders(ordered, tracks, shown)
    {
      assert perm[..k + 1][..k] == perm[..k];
      var p := perm[k];
      if 0 <= p < n && !seen[p] {
        ordered := ordered + [tracks[p]];
        seen := seen[p := true];
        shown := shown + [p];
      }
    }
    assert perm[..|perm|] == perm;
    ghost var used := shown;
    for i := 0 to n
      invariant shown == used + Rest(used, i)
      invariant forall j :: 0 <= j < n ==> (seen[j] <==> j in used)
      invariant Renders(ordered, tracks, shown)
    {
      if !seen[i] {
        ordered := ordered + [tracks[i]];
        shown := shown + [i];
      }
    }
    ShownOrder(perm, n);
  }

  ghost predicate Renders(ordered: seq<int>, tracks: seq<int>, shown: seq<int>) {
    |ordered| == |shown| && forall i :: 0 <= i < |shown| ==> 0 <= shown[i] < |tracks| && ordered[i] == tracks[shown[i]]
  }
}
