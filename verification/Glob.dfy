/** Case-insensitive wildcard matching: the greedy loop against the meaning of `*` and `?`. */
module Glob {
  import opened Sequences

  /** std::tolower in the C locale. */
  function Lower(c: char): char {
    if 'A' <= c <= 'Z' then (c as int + 32) as char else c
  }

  /** The same letter of the alphabet, one of them a capital. */
  ghost predicate CaseOf(c: char, d: char) {
    exists k: nat :: k < 26 && LetterAt(c, d, k)
  }

  predicate LetterAt(upper: char, lower: char, k: nat) {
    upper as int == 'A' as int + k && lower as int == 'a' as int + k
  }

  /** Two characters count as the same exactly when they are, or differ in the case of an ASCII letter. */
  lemma LowerFoldsCase(c: char, d: char)
    ensures Lower(c) == Lower(d) <==> c == d || CaseOf(c, d) || CaseOf(d, c)
  {
    if Lower(c) == Lower(d) && c != d {
      if 'A' <= c <= 'Z' {
        assert LetterAt(c, d, c as int - 'A' as int);
      } else {
        assert LetterAt(d, c, d as int - 'A' as int);
      }
    }
  }

  /** `*` stands for any text, `?` for any one character, anything else for itself up to case. */
  ghost predicate Matches(pat: string, name: string)
    decreases |pat| + |name|
  {
    if pat == [] then name == []
    else if pat[0] == '*' then Matches(pat[1..], name) || (name != [] && Matches(pat, name[1..]))
    else name != [] && (pat[0] == '?' || Lower(pat[0]) == Lower(name[0])) && Matches(pat[1..], name[1..])
  }

  predicate AllStars(pat: string) {
    pat == [] || (pat[0] == '*' && AllStars(pat[1..]))
  }

  /** What the loop variables keep true; `star` is -1 until a star has been taken. */
  predicate Reached(pat: string, name: string, px: int, nx: int, star: int, ss: int) {
    && 0 <= px <= |pat| && 0 <= ss <= nx <= |name|
    && -1 <= star && (star >= 0 ==> star < px && pat[star] == '*')
  }

  /** The answer the loop gives from these values of its variables. */
  predicate Answer(pat: string, name: string, px: int, nx: int, star: int, ss: int)
    requires Reached(pat, name, px, nx, star, ss)
    decreases |pat| - star, |name| - ss, |name| - nx
  {
    if nx == |name| then AllStars(pat[px..])
    else if px < |pat| && (pat[px] == '?' || Lower(pat[px]) == Lower(name[nx])) then
      Answer(pat, name, px + 1, nx + 1, star, ss)
    else if px < |pat| && pat[px] == '*' then Answer(pat, name, px + 1, nx, px, nx)
    else star >= 0 && Answer(pat, name, star + 1, ss + 1, star, ss + 1)
  }

  /** wildcardMatch. */
  method WildcardMatch(pat: string, name: string) returns (r: bool)
    ensures r == Answer(pat, name, 0, 0, -1, 0)
    ensures r ==> Matches(pat, name)
    ensures '*' !in name ==> (r <==> Matches(pat, name))
  {
    LoopIsSound(pat, name, 0, 0, -1, 0);
    if '*' !in name {
      WithoutStarsDecides(pat, name);
    }
    var px, nx, star, ss := 0, 0, -1, 0;
    while nx < |name|
      invariant Reached(pat, name, px, nx, star, ss)
      invariant Answer(pat, name, px, nx, star, ss) == Answer(pat, name, 0, 0, -1, 0)
      decreases |pat| - star, |name| - ss, |name| - nx
    {
      if px < |pat| && (pat[px] == '?' || Lower(pat[px]) == Lower(name[nx])) {
        px := px + 1;
        nx := nx + 1;
      } else if px < |pat| && pat[px] == '*' {
        star := px;
        px := px + 1;
        ss := nx;
      } else if star >= 0 {
        px := star + 1;
        ss := ss + 1;
        nx := ss;
      } else {
        return false;
      }
    }
    while px < |pat| && pat[px] == '*'
      invariant 0 <= px <= |pat|
      invariant AllStars(pat[px..]) == Answer(pat, name, 0, 0, -1, 0)
    {
      assert pat[px..][1..] == pat[px + 1..];
      px := px + 1;
    }
    return px == |pat|;
  }

  /** What the loop can still hope for: a match from here, or one with the last star taking more. */
  ghost predicate Hope(pat: string, name: string, px: int, nx: int, star: int, ss: int)
    requires Reached(pat, name, px, nx, star, ss)
  {
    || Matches(pat[px..], name[nx..])
    || (star >= 0 && exists j :: ss < j <= |name| && Matches(pat[star + 1..], name[j..]))
  }

  /** A leading star swallows any prefix. */
  lemma {:induction false} StarSwallows(pat: string, name: string, k: nat)
    requires pat != [] && pat[0] == '*' && k <= |name| && Matches(pat[1..], name[k..])
    ensures Matches(pat, name)
    decreases k
  {
    if k > 0 {
      assert name[1..][k - 1..] == name[k..];
      StarSwallows(pat, name[1..], k - 1);
    } else {
      assert name[0..] == name;
    }
  }

  /** ... and that is all it can do. */
  lemma {:induction false} StarSplits(pat: string, name: string) returns (k: nat)
    requires pat != [] && pat[0] == '*' && Matches(pat, name)
    ensures k <= |name| && Matches(pat[1..], name[k..])
    decreases |name|
  {
    if Matches(pat[1..], name) {
      k := 0;
      assert name[0..] == name;
    } else {
      k := StarSplits(pat, name[1..]);
      assert name[1..][k..] == name[k + 1..];
      k := k + 1;
    }
  }

  lemma {:induction false} EmptyNameNeedsStars(pat: string)
    ensures Matches(pat, []) <==> AllStars(pat)
  {
    if pat != [] {
      EmptyNameNeedsStars(pat[1..]);
    }
  }

  /** Whenever the loop answers yes, the name matches. */
  lemma {:induction false} LoopIsSound(pat: string, name: string, px: int, nx: int, star: int, ss: int)
    requires Reached(pat, name, px, nx, star, ss)
    ensures Answer(pat, name, px, nx, star, ss) ==> Hope(pat, name, px, nx, star, ss)
    ensures star == -1 && px == 0 && nx == 0 && Answer(pat, name, px, nx, star, ss) ==> Matches(pat, name)
    decreases |pat| - star, |name| - ss, |name| - nx
  {
    assert pat[0..] == pat && name[0..] == name;
    if nx == |name| {
      assert name[nx..] == [];
      EmptyNameNeedsStars(pat[px..]);
    } else if px < |pat| && (pat[px] == '?' || Lower(pat[px]) == Lower(name[nx])) {
      LoopIsSound(pat, name, px + 1, nx + 1, star, ss);
      assert pat[px..][1..] == pat[px + 1..] && name[nx..][1..] == name[nx + 1..];
      if Matches(pat[px + 1..], name[nx + 1..]) && pat[px] == '*' {
        StarSwallows(pat[px..], name[nx..], 1);
      }
    } else if px < |pat| && pat[px] == '*' {
      LoopIsSound(pat, name, px + 1, nx, px, nx);
      assert pat[px..][1..] == pat[px + 1..];
      if Hope(pat, name, px + 1, nx, px, nx) {
        var j: int :| nx <= j <= |name| && Matches(pat[px + 1..], name[j..]);
        assert name[nx..][j - nx..] == name[j..];
        StarSwallows(pat[px..], name[nx..], j - nx);
      }
    } else if star >= 0 {
      LoopIsSound(pat, name, star + 1, ss + 1, star, ss + 1);
    }
  }

  ghost predicate StarFree(s: string) {
    forall i :: 0 <= i < |s| ==> s[i] != '*'
  }

  /** A star-free stretch of the pattern uses up exactly its own length. */
  lemma {:induction false} StarFreeStretch(seg: string, rest: string, name: string)
    requires StarFree(seg) && Matches(seg + rest, name)
    ensures |seg| <= |name| && Matches(rest, name[|seg|..])
    decreases |seg|
  {
    if seg == [] {
      assert seg + rest == rest && name[0..] == name;
    } else {
      assert (seg + rest)[1..] == seg[1..] + rest;
      StarFreeStretch(seg[1..], rest, name[1..]);
      assert name[1..][|seg| - 1..] == name[|seg|..];
    }
  }

  /** The stretch since the last star has no star in it and matched as many characters as it is long. */
  ghost predicate Aligned(pat: string, px: int, nx: int, star: int, ss: int)
    requires star >= 0 ==> star < px <= |pat|
  {
    star >= 0 ==> nx - ss == px - star - 1 && StarFree(pat[star + 1..px])
  }

  /** A later choice for the last star shows up as a match of what follows its stretch, further on. */
  lemma LaterChoice(pat: string, name: string, px: int, nx: int, star: int, ss: int, j: int)
    requires Reached(pat, name, px, nx, star, ss) && star >= 0 && Aligned(pat, px, nx, star, ss)
    requires ss < j <= |name| && Matches(pat[star + 1..], name[j..])
    ensures j + (nx - ss) <= |name| && Matches(pat[px..], name[j + (nx - ss)..])
  {
    var seg := pat[star + 1..px];
    assert pat[star + 1..] == seg + pat[px..];
    StarFreeStretch(seg, pat[px..], name[j..]);
    assert name[j..][|seg|..] == name[j + |seg|..];
  }

  lemma HopeAtEnd(pat: string, name: string, px: int, star: int, ss: int)
    requires Reached(pat, name, px, |name|, star, ss) && Aligned(pat, px, |name|, star, ss)
    requires Hope(pat, name, px, |name|, star, ss)
    ensures AllStars(pat[px..])
  {
    assert name[|name|..] == [];
    EmptyNameNeedsStars(pat[px..]);
    if !Matches(pat[px..], []) {
      var j :| ss < j <= |name| && Matches(pat[star + 1..], name[j..]);
      LaterChoice(pat, name, px, |name|, star, ss, j);
    }
  }

  /** A literal step loses no hope: only what comes after the last star, or further on, is left to match. */
  lemma HopeAfterLiteral(pat: string, name: string, px: int, nx: int, star: int, ss: int)
    requires Reached(pat, name, px, nx, star, ss) && Aligned(pat, px, nx, star, ss)
    requires nx < |name| && px < |pat| && pat[px] != '*'
    requires Hope(pat, name, px, nx, star, ss)
    ensures Aligned(pat, px + 1, nx + 1, star, ss) && Hope(pat, name, px + 1, nx + 1, star, ss)
  {
    assert star >= 0 ==> pat[star + 1..px + 1] == pat[star + 1..px] + [pat[px]];
    assert pat[px..][1..] == pat[px + 1..] && name[nx..][1..] == name[nx + 1..];
  }

  /** Taking a star loses no hope: what an earlier star could do, this one can. */
  lemma HopeAfterStar(pat: string, name: string, px: int, nx: int, star: int, ss: int)
    requires Reached(pat, name, px, nx, star, ss) && Aligned(pat, px, nx, star, ss)
    requires nx < |name| && px < |pat| && pat[px] == '*'
    requires Hope(pat, name, px, nx, star, ss)
    ensures Hope(pat, name, px + 1, nx, px, nx)
  {
    assert pat[px..][1..] == pat[px + 1..];
    var from := nx;
    if !Matches(pat[px..], name[nx..]) {
      var j :| ss < j <= |name| && Matches(pat[star + 1..], name[j..]);
      LaterChoice(pat, name, px, nx, star, ss, j);
      from := j + (nx - ss);
    }
    var k := StarSplits(pat[px..], name[from..]);
    assert name[from..][k..] == name[from + k..];
  }

  lemma HopeAfterRetry(pat: string, name: string, px: int, nx: int, star: int, ss: int)
    requires Reached(pat, name, px, nx, star, ss) && nx < |name|
    requires px < |pat| ==> pat[px] != '*' && pat[px] != '?' && Lower(pat[px]) != Lower(name[nx])
    requires Hope(pat, name, px, nx, star, ss)
    ensures star >= 0 && Hope(pat, name, star + 1, ss + 1, star, ss + 1)
  {
    assert !Matches(pat[px..], name[nx..]);
    var j :| ss < j <= |name| && Matches(pat[star + 1..], name[j..]);
    assert j == ss + 1 || ss + 1 < j;
  }

  /** The loop is on its way, and a match is still within its reach. */
  ghost predicate Promising(pat: string, name: string, px: int, nx: int, star: int, ss: int) {
    && Reached(pat, name, px, nx, star, ss)
    && Aligned(pat, px, nx, star, ss)
    && Hope(pat, name, px, nx, star, ss)
  }

  predicate Literal(pat: string, name: string, px: int, nx: int)
    requires 0 <= nx < |name| && 0 <= px
  {
    px < |pat| && (pat[px] == '?' || Lower(pat[px]) == Lower(name[nx]))
  }

  lemma PromisingLiteral(pat: string, name: string, px: int, nx: int, star: int, ss: int)
    requires Promising(pat, name, px, nx, star, ss) && '*' !in name
    requires nx < |name| && Literal(pat, name, px, nx)
    ensures Promising(pat, name, px + 1, nx + 1, star, ss)
  {
    assert name[nx] in name;
    HopeAfterLiteral(pat, name, px, nx, star, ss);
  }

  lemma PromisingStar(pat: string, name: string, px: int, nx: int, star: int, ss: int)
    requires Promising(pat, name, px, nx, star, ss)
    requires nx < |name| && px < |pat| && pat[px] == '*'
    ensures Promising(pat, name, px + 1, nx, px, nx)
  {
    HopeAfterStar(pat, name, px, nx, star, ss);
  }

  lemma PromisingRetry(pat: string, name: string, px: int, nx: int, star: int, ss: int)
    requires Promising(pat, name, px, nx, star, ss)
    requires nx < |name| && !Literal(pat, name, px, nx) && (px < |pat| ==> pat[px] != '*')
    ensures star >= 0 && Promising(pat, name, star + 1, ss + 1, star, ss + 1)
  {
    HopeAfterRetry(pat, name, px, nx, star, ss);
  }

  /** For a name without `*` the loop answers yes whenever there is hope. */
  lemma {:induction false} LoopIsComplete(pat: string, name: string, px: int, nx: int, star: int, ss: int)
    requires Promising(pat, name, px, nx, star, ss) && '*' !in name
    ensures Answer(pat, name, px, nx, star, ss)
    decreases |pat| - star, |name| - ss, |name| - nx
  {
    if nx == |name| {
      HopeAtEnd(pat, name, px, star, ss);
    } else if Literal(pat, name, px, nx) {
      PromisingLiteral(pat, name, px, nx, star, ss);
      LoopIsComplete(pat, name, px + 1, nx + 1, star, ss);
    } else if px < |pat| && pat[px] == '*' {
      PromisingStar(pat, name, px, nx, star, ss);
      LoopIsComplete(pat, name, px + 1, nx, px, nx);
    } else {
      PromisingRetry(pat, name, px, nx, star, ss);
      LoopIsComplete(pat, name, star + 1, ss + 1, star, ss + 1);
    }
  }

  lemma WithoutStarsDecides(pat: string, name: string)
    requires '*' !in name
    ensures Answer(pat, name, 0, 0, -1, 0) <==> Matches(pat, name)
  {
    LoopIsSound(pat, name, 0, 0, -1, 0);
    assert pat[0..] == pat && name[0..] == name;
    if Matches(pat, name) {
      LoopIsComplete(pat, name, 0, 0, -1, 0);
    }
  }

  // ----- names that contain a star ------------------------------------------------------------------

  /** A pattern that starts with the name's own characters walks along them. */
  lemma {:induction false} WalksAlong(pat: string, name: string, k: nat, i: nat)
    requires i <= k <= |pat| && k <= |name| && pat[..k] == name[..k]
    ensures Answer(pat, name, i, i, -1, 0) == Answer(pat, name, k, k, -1, 0)
    decreases k - i
  {
    if i < k {
      assert pat[i] == pat[..k][i] == name[..k][i] == name[i];
      WalksAlong(pat, name, k, i + 1);
    }
  }

  /** Any pattern text matches itself. */
  lemma {:induction false} PrefixMatchesItself(u: string, rest: string, tail: string)
    requires Matches(rest, tail)
    ensures Matches(u + rest, u + tail)
  {
    if u == [] {
      assert u + rest == rest && u + tail == tail;
    } else {
      assert (u + rest)[1..] == u[1..] + rest && (u + tail)[1..] == u[1..] + tail;
      PrefixMatchesItself(u[1..], rest, tail);
      if u[0] == '*' {
        StarSwallows(u + rest, u + tail, 1);
      }
    }
  }

  /** A pattern on which the loop says no although the name matches, for any name with a `*` in it: the
      literal test consumes the pattern's star before it can act as one. */
  lemma StarMatches(tail: string)
    requires tail != [] && tail[0] == '*'
    ensures Matches(StarAndMore(tail), tail)
  {
    var rest := StarAndMore(tail);
    if |tail| > 1 {
      assert rest[1..] == [] && tail[|tail|..] == [];
      StarSwallows(rest, tail, |tail|);
    } else {
      assert rest[1..] == "?" && "?"[1..] == [] && tail == "*" && tail[1..] == [] && tail[0..] == tail;
      StarSwallows(rest, tail, 0);
    }
  }

  /** A pattern for a text that starts with `*`, which needs its own star to act as one. */
  function StarAndMore(tail: string): string {
    if |tail| > 1 then "*" else "*?"
  }

  lemma Refused(name: string) returns (pat: string)
    requires '*' in name
    ensures Matches(pat, name) && !Answer(pat, name, 0, 0, -1, 0)
  {
    var k := FirstIndex(name, '*').value;
    var u, tail := name[..k], name[k..];
    assert name == u + tail && tail[0] == '*';
    pat := u + StarAndMore(tail);
    StarMatches(tail);
    PrefixMatchesItself(u, StarAndMore(tail), tail);
    assert pat[..k] == name[..k];
    WalksAlong(pat, name, k, 0);
    assert pat[k] == '*' == name[k];
    if k + 1 == |name| {
      assert pat[k + 1..] == "?";
    }
  }

  /** The loop decides matching for every pattern exactly on the names that contain no `*`. */
  lemma AgreesExactlyWithoutStars(name: string)
    ensures (forall pat :: Answer(pat, name, 0, 0, -1, 0) <==> Matches(pat, name)) <==> '*' !in name
  {
    if '*' in name {
      var pat := Refused(name);
      assert Answer(pat, name, 0, 0, -1, 0) != Matches(pat, name);
    } else {
      forall pat
        ensures Answer(pat, name, 0, 0, -1, 0) <==> Matches(pat, name)
      {
        WithoutStarsDecides(pat, name);
      }
    }
  }

  // ----- patterns without a star ------------------------------------------------------------------------

  lemma StarFreeTail(s: string)
    requires s != [] && StarFree(s)
    ensures StarFree(s[1..])
  {
    forall i | 0 <= i < |s[1..]|
      ensures s[1..][i] != '*'
    {
      assert s[1..][i] == s[i + 1];
    }
  }

  /** Where no star is left and none was taken, the loop decides. */
  lemma {:induction false} StarFreeDecides(pat: string, name: string, px: nat, nx: nat)
    requires px <= |pat| && nx <= |name| && StarFree(pat[px..])
    ensures Answer(pat, name, px, nx, -1, 0) <==> Matches(pat[px..], name[nx..])
    decreases |name| - nx
  {
    if nx == |name| {
      EmptyNameNeedsStars(pat[px..]);
    } else if px < |pat| {
      assert pat[px..][0] == pat[px];
      assert pat[px..][1..] == pat[px + 1..] && name[nx..][1..] == name[nx + 1..];
      if Literal(pat, name, px, nx) {
        StarFreeTail(pat[px..]);
        StarFreeDecides(pat, name, px + 1, nx + 1);
      }
    }
  }

  lemma LastStar(pat: string) returns (k: nat)
    requires '*' in pat
    ensures k < |pat| && pat[k] == '*' && StarFree(pat[k + 1..])
  {
    k := |pat| - 1;
    while pat[k] != '*'
      invariant k < |pat| && '*' in pat[..k + 1]
      invariant StarFree(pat[k + 1..])
      decreases k
    {
      TakeOneMore(pat, k);
      assert pat[k..] == [pat[k]] + pat[k + 1..];
      k := k - 1;
    }
  }

  /** A name that is refused although it matches, for any pattern with a `*` in it: the pattern itself, with one
      more character for its last star to take. */
  lemma RefusedName(pat: string) returns (name: string)
    requires '*' in pat
    ensures Matches(pat, name) && !Answer(pat, name, 0, 0, -1, 0)
  {
    var k := LastStar(pat);
    var u, v := pat[..k], pat[k + 1..];
    var star, taken := "*" + v, "*x" + v;
    name := u + taken;
    assert pat == u + star;
    assert taken[2..] == v && star[1..] == v && v + [] == v;
    PrefixMatchesItself(v, [], []);
    StarSwallows(star, taken, 2);
    PrefixMatchesItself(u, star, taken);
    assert pat[..k + 1] == name[..k + 1];
    WalksAlong(pat, name, k + 1, 0);
    StarFreeDecides(pat, name, k + 1, k + 1);
    if Matches(v, name[k + 1..]) {
      StarFreeStretch(v, [], name[k + 1..]);
    }
  }

  /** The loop decides matching for every name exactly by the patterns that contain no `*`. */
  lemma DecidesExactlyStarFreePatterns(pat: string)
    ensures (forall name :: Answer(pat, name, 0, 0, -1, 0) <==> Matches(pat, name)) <==> '*' !in pat
  {
    if '*' in pat {
      var name := RefusedName(pat);
      assert Answer(pat, name, 0, 0, -1, 0) != Matches(pat, name);
    } else {
      forall name
        ensures Answer(pat, name, 0, 0, -1, 0) <==> Matches(pat, name)
      {
        assert pat[0..] == pat && name[0..] == name;
        StarFreeDecides(pat, name, 0, 0);
      }
    }
  }
}
