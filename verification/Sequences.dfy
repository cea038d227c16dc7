/** Sequence operations the queue, playlist and player models are measured against. */
module Sequences {
  import opened Common

  function RemoveAt<T>(s: seq<T>, i: nat): seq<T>
    requires i < |s|
  {
    s[..i] + s[i + 1..]
  }

  function InsertAt<T>(s: seq<T>, i: nat, x: T): seq<T>
    requires i <= |s|
  {
    s[..i] + [x] + s[i..]
  }

  /** Erase the element at `from`, then insert it so that it ends up at `to`. */
  function Move<T>(s: seq<T>, from: nat, to: nat): seq<T>
    requires from < |s| && to < |s|
  {
    InsertAt(RemoveAt(s, from), to, s[from])
  }

  ghost predicate NoDup<T>(s: seq<T>) {
    forall i, j :: 0 <= i < j < |s| ==> s[i] != s[j]
  }

  /** `p` arranges the positions 0..n-1 in some order. */
  ghost predicate IsPerm(p: seq<int>, n: nat) {
    && |p| == n
    && NoDup(p)
    && forall i :: 0 <= i < n ==> 0 <= p[i] < n
  }

  function Identity(n: nat): seq<int> {
    seq(n, i => i)
  }

  lemma TakeOneMore<T>(s: seq<T>, k: nat)
    requires k < |s|
    ensures s[..k + 1] == s[..k] + [s[k]]
  {
  }

  function FirstIndex<T(==)>(s: seq<T>, x: T): (r: Option<nat>)
    ensures r.Some? <==> x in s
    ensures r.Some? ==> r.value < |s| && s[r.value] == x && x !in s[..r.value]
  {
    if s == [] then None
    else if s[0] == x then Some(0)
    else
      match FirstIndex(s[1..], x)
      case None => None
      case Some(i) =>
        assert s[..i + 1] == [s[0]] + s[1..][..i];
        Some(i + 1)
  }

  lemma FirstIndexUnique<T>(s: seq<T>, x: T, i: nat)
    requires i < |s| && s[i] == x && x !in s[..i]
    ensures FirstIndex(s, x) == Some(i)
  {
    var r := FirstIndex(s, x).value;
    assert forall k :: 0 <= k < i ==> s[k] == s[..i][k];
    assert forall k :: 0 <= k < r ==> s[k] == s[..r][k];
  }

  /** The first occurrences of the values that `keep` accepts, in order. */
  function Distinct(s: seq<int>, keep: int -> bool): seq<int> {
    if s == [] then [] else
      var k := |s| - 1;
      var most := Distinct(s[..k], keep);
      if keep(s[k]) && s[k] !in most then most + [s[k]] else most
  }

  /** Distinct, said outright: its members are the accepted values, none twice, and their order is the
      order of first occurrence. */
  lemma {:induction false} DistinctIsFirstOccurrences(s: seq<int>, keep: int -> bool)
    ensures forall t :: t in Distinct(s, keep) <==> t in s && keep(t)
    ensures NoDup(Distinct(s, keep))
    ensures forall i, j :: 0 <= i < j < |Distinct(s, keep)| ==>
              FirstIndex(s, Distinct(s, keep)[i]).GetOr(0) < FirstIndex(s, Distinct(s, keep)[j]).GetOr(0)
  {
    if s != [] {
      var k := |s| - 1;
      var head, x := s[..k], s[k];
      var most := Distinct(head, keep);
      var all := Distinct(s, keep);
      DistinctIsFirstOccurrences(head, keep);
      assert s == head + [x];
      forall t | t in head
        ensures FirstIndex(s, t) == FirstIndex(head, t) && FirstIndex(head, t).value < k
      {
        var i := FirstIndex(head, t).value;
        assert s[..i] == head[..i];
        FirstIndexUnique(s, t, i);
      }
      if keep(x) && x !in most {
        assert x !in head;
        FirstIndexUnique(s, x, k);
        forall i, j | 0 <= i < j < |all|
          ensures all[i] != all[j]
          ensures FirstIndex(s, all[i]).GetOr(0) < FirstIndex(s, all[j]).GetOr(0)
        {
          assert all[i] in most;
          assert j < |most| ==> all[j] in most;
        }
      }
    }
  }

  lemma RemovedAt<T>(s: seq<T>, i: nat, k: nat)
    requires i < |s| && k + 1 < |s|
    ensures RemoveAt(s, i)[k] == if k < i then s[k] else s[k + 1]
  {
  }

  lemma MoveAt<T>(s: seq<T>, from: nat, to: nat, k: nat)
    requires from < |s| && to < |s| && k < |s|
    ensures |Move(s, from, to)| == |s|
    ensures Move(s, from, to)[k] ==
            if k == to then s[from]
            else if from < to && from <= k < to then s[k + 1]
            else if to < from && to < k <= from then s[k - 1]
            else s[k]
  {
    var r := RemoveAt(s, from);
    if k < to {
      RemovedAt(s, from, k);
    } else if k > to {
      RemovedAt(s, from, k - 1);
    }
  }

  /** A move is undone by the move with its arguments swapped. */
  lemma MoveBack<T>(s: seq<T>, from: nat, to: nat)
    requires from < |s| && to < |s|
    ensures |Move(s, from, to)| == |s|
    ensures Move(Move(s, from, to), to, from) == s
  {
    var r := RemoveAt(s, from);
    assert RemoveAt(Move(s, from, to), to) == r;
    assert InsertAt(r, from, s[from]) == s;
  }

  /** A move loses and gains nothing. */
  lemma MoveKeepsAll<T>(s: seq<T>, from: nat, to: nat)
    requires from < |s| && to < |s|
    ensures multiset(Move(s, from, to)) == multiset(s)
  {
    SplitAround(s, from);
    var m := Move(s, from, to);
    assert RemoveAt(m, to) == RemoveAt(s, from);
    SplitAround(m, to);
  }

  lemma SplitAround<T>(s: seq<T>, i: nat)
    requires i < |s|
    ensures multiset(s) == multiset(RemoveAt(s, i)) + multiset{s[i]}
  {
    assert s == s[..i] + [s[i]] + s[i + 1..];
  }

  /** A duplicate-free sequence of values below n is no longer than n. */
  lemma {:induction false} Pigeonhole(p: seq<int>, n: nat)
    requires NoDup(p) && forall i :: 0 <= i < |p| ==> 0 <= p[i] < n
    ensures |p| <= n
  {
    if p != [] {
      var v := p[0];
      assert 0 <= v < n;
      match FirstIndex(p, n - 1)
      case None => Pigeonhole(p, n - 1);
      case Some(k) =>
        var q := RemoveAt(p, k);
        assert forall i :: 0 <= i < |q| ==> q[i] == if i < k then p[i] else p[i + 1];
        Pigeonhole(q, n - 1);
    }
  }

  /** Every position occurs in an arrangement of the positions. */
  lemma PermCovers(p: seq<int>, n: nat, v: int)
    requires IsPerm(p, n) && 0 <= v < n
    ensures v in p
  {
    if v !in p {
      Pigeonhole(p + [v], n);
    }
  }

  /** The arrangement read from `c` onwards, wrapping round. */
  function Rotate<T>(s: seq<T>, c: nat, k: nat): seq<T>
    requires |s| > 0
  {
    seq(k, i requires 0 <= i => s[(c + i) % |s|])
  }

  lemma ModUnique(a: int, q: int, r: int, n: nat)
    requires 0 <= r < n && a == q * n + r
    ensures a % n == r
  {
    var d := a / n - q;
    assert d * n == r - a % n by {
      assert a == (a / n) * n + a % n;
      assert d * n == (a / n) * n - q * n;
    }
    assert d > 0 ==> d * n >= n;
    assert d < 0 ==> d * n <= -1 * n;
  }

  /** Adding one turn changes nothing. */
  lemma ModTurn(a: nat, n: nat)
    requires n > 0
    ensures (a + n) % n == a % n
  {
    ModUnique(a + n, a / n + 1, a % n, n);
  }

  lemma ModWithinTwo(x: nat, n: nat)
    requires x < n + n
    ensures x % n == if x < n then x else x - n
  {
    if x < n {
      ModUnique(x, 0, x, n);
    } else {
      ModUnique(x, 1, x - n, n);
    }
  }

  /** Reading a whole turn of an arrangement, from anywhere, is again an arrangement. */
  lemma RotateIsPerm(p: seq<int>, n: nat, c: nat)
    requires c < n && IsPerm(p, n)
    ensures IsPerm(Rotate(p, c, n), n)
  {
    var r := Rotate(p, c, n);
    forall i: nat | i < n
      ensures r[i] == p[if c + i < n then c + i else c + i - n]
    {
      ModWithinTwo(c + i, n);
    }
  }

  /** Induction, for a property that is passed on from each number to the next. */
  lemma {:induction false} UpTo(holds: nat -> bool, k: nat)
    requires holds(0) && forall i: nat :: i < k && holds(i) ==> holds(i + 1)
    ensures holds(k)
  {
    if k > 0 {
      UpTo(holds, k - 1);
    }
  }
}
