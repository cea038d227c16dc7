/** The playback order: which queue position `next` and `prev` ask for, in linear and shuffled mode. */
module PlayOrder {
  import opened Common
  import opened Sequences

  datatype Repeat = Off | All | One

  /** QueueState without the queue id: `perm` arranges queue positions when shuffle is on. */
  datatype Queue = Queue(shuffle: bool, repeat: Repeat, perm: seq<int>, cursor: nat)

  /** A step of the queue and the position it asked the table for, if it got that far. */
  datatype Pick = Pick(queue: Queue, position: Option<int>)

  /** The position the cursor value `i` addresses. */
  function At(q: Queue, i: nat): int
    requires q.shuffle ==> i < |q.perm|
  {
    if q.shuffle then q.perm[i] else i
  }

  /** Consume the entry under the cursor; past the end, repeat the last one or wrap. */
  function Take(q: Queue, len: nat): Pick
    requires len > 0 && (q.shuffle ==> len == |q.perm|)
  {
    if q.cursor < len then Pick(q.(cursor := q.cursor + 1), Some(At(q, q.cursor)))
    else if q.repeat.One? then Pick(q, Some(At(q, len - 1)))
    else Pick(q.(cursor := 1), Some(At(q, 0)))
  }

  /** queueNextLocked over `n` items; `drawn` is the arrangement a shuffle would draw now. */
  function Next(q: Queue, n: nat, drawn: seq<int>): Pick
    requires |drawn| == n
  {
    if n == 0 && !(q.shuffle && q.perm != []) then Pick(q, None)
    else if q.shuffle && q.perm == [] then Take(q.(perm := drawn, cursor := 0), n)
    else Take(q, if q.shuffle then |q.perm| else n)
  }

  /** queuePrevLocked: step back over the entry that was consumed last. */
  function Prev(q: Queue, n: nat): Pick {
    var len := if q.shuffle then |q.perm| else n;
    if len == 0 || q.cursor == 0 then Pick(q, None)
    else
      var back := if q.cursor == 1 then 0 else if q.cursor - 2 < len then q.cursor - 2 else len - 1;
      Pick(q.(cursor := back + 1), Some(At(q, back)))
  }

  /** setShuffleLocked. Turning shuffle on again keeps an arrangement that is already there. */
  function SetShuffle(q: Queue, n: nat, on: bool, drawn: seq<int>): Queue
    requires |drawn| == n
  {
    if q.shuffle == on && q.perm != [] then q
    else q.(shuffle := on, perm := if on then drawn else [], cursor := 0)
  }

  /** noteEnqueued: the last `count` of the `n` positions join an existing arrangement. */
  function NoteEnqueued(q: Queue, n: nat, count: nat): Queue {
    if count == 0 || !q.shuffle || q.perm == [] then q
    else
      var start := if n >= count then n - count else 0;
      q.(perm := q.perm + seq(n - start, i requires 0 <= i => start + i))
  }

  /** What append-only use keeps true of the queue state over `n` items. */
  ghost predicate WellFormed(q: Queue, n: nat) {
    && q.cursor <= n
    && (!q.shuffle ==> q.perm == [])
    && (q.shuffle && q.perm == [] ==> q.cursor == 0)
    && (q.perm != [] ==> IsPerm(q.perm, n))
  }

  /** The order in which the items will be visited. */
  function Visits(q: Queue, n: nat, drawn: seq<int>): seq<int> {
    if !q.shuffle then Identity(n) else if q.perm == [] then drawn else q.perm
  }
}
