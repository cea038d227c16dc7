/** SQL LIKE with escape character `\`, and the escaping that makes user text literal. */
module Like {
  import Glob

  /** SQLite's LIKE ... ESCAPE '\': `%` any text, `_` any one character, `\c` the character c, and
      everything up to ASCII case. A pattern ending in a lone `\` matches nothing. */
  ghost predicate Matches(p: string, s: string)
    decreases |p| + |s|
  {
    if p == [] then s == []
    else if p[0] == '%' then Matches(p[1..], s) || (s != [] && Matches(p, s[1..]))
    else if p[0] == '\\' then
      |p| > 1 && s != [] && Glob.Lower(p[1]) == Glob.Lower(s[0]) && Matches(p[2..], s[1..])
    else s != [] && (p[0] == '_' || Glob.Lower(p[0]) == Glob.Lower(s[0])) && Matches(p[1..], s[1..])
  }

  function EscapedChar(c: char): string {
    if c == '%' || c == '_' || c == '\\' then ['\\', c] else [c]
  }

  function Escaped(term: string): string {
    if term == [] then [] else EscapedChar(term[0]) + Escaped(term[1..])
  }

  lemma {:induction false} EscapedOneMore(term: string, k: nat)
    requires k < |term|
    ensures Escaped(term[..k + 1]) == Escaped(term[..k]) + EscapedChar(term[k])
  {
    if k > 0 {
      assert term[..k + 1][1..] == term[1..][..k] && term[..k][1..] == term[1..][..k - 1];
      EscapedOneMore(term[1..], k - 1);
    }
  }

  /** escapeLike. */
  method EscapeLike(term: string) returns (result: string)
    ensures result == Escaped(term)
  {
    result := [];
    for k := 0 to |term|
      invariant result == Escaped(term[..k])
    {
      var c := term[k];
      EscapedOneMore(term, k);
      if c == '%' || c == '_' || c == '\\' {
        result := result + ['\\'];
      }
      result := result + [c];
    }
    assert term[..|term|] == term;
  }

  /** The same text up to ASCII case. */
  ghost predicate SameText(a: string, b: string) {
    |a| == |b| && forall i :: 0 <= i < |a| ==> Glob.Lower(a[i]) == Glob.Lower(b[i])
  }

  lemma EscapedCharIsLiteral(c: char, rest: string, s: string)
    ensures Matches(EscapedChar(c) + rest, s) <==>
            s != [] && Glob.Lower(c) == Glob.Lower(s[0]) && Matches(rest, s[1..])
  {
    var p := EscapedChar(c) + rest;
    assert p[|EscapedChar(c)|..] == rest;
  }

  /** An escaped term matches exactly its own text, then the pattern goes on. */
  lemma {:induction false} EscapedIsLiteral(term: string, rest: string, s: string)
    ensures Matches(Escaped(term) + rest, s) <==>
            |term| <= |s| && SameText(term, s[..|term|]) && Matches(rest, s[|term|..])
    decreases |term|
  {
    if term == [] {
      assert Escaped(term) + rest == rest && s[0..] == s;
    } else {
      var tail := Escaped(term[1..]) + rest;
      assert Escaped(term) + rest == EscapedChar(term[0]) + tail;
      EscapedCharIsLiteral(term[0], tail, s);
      if s != [] {
        EscapedIsLiteral(term[1..], rest, s[1..]);
        if |term| <= |s| {
          assert s[1..][|term| - 1..] == s[|term|..];
          assert s[1..][..|term| - 1] == s[..|term|][1..];
          assert SameText(term, s[..|term|]) <==>
                 Glob.Lower(term[0]) == Glob.Lower(s[0]) && SameText(term[1..], s[1..][..|term| - 1]) by {
            SameTextHead(term, s[..|term|]);
          }
        }
      }
    }
  }

  lemma SameTextHead(a: string, b: string)
    requires a != [] && b != []
    ensures SameText(a, b) <==> Glob.Lower(a[0]) == Glob.Lower(b[0]) && SameText(a[1..], b[1..])
  {
    if SameText(a[1..], b[1..]) && Glob.Lower(a[0]) == Glob.Lower(b[0]) {
      assert forall i :: 1 <= i < |a| ==> a[i] == a[1..][i - 1] && b[i] == b[1..][i - 1];
    }
  }

  lemma {:induction false} PercentMatchesAll(s: string)
    ensures Matches("%", s)
    decreases |s|
  {
    if s != [] {
      PercentMatchesAll(s[1..]);
    } else {
      assert "%"[1..] == [];
    }
  }

  /** The term occurs in s at i. */
  ghost predicate OccursAt(term: string, s: string, i: int) {
    0 <= i && i + |term| <= |s| && SameText(term, s[i..i + |term|])
  }

  /** The search pattern `%` + escaped term + `%` matches s exactly when the term occurs in s up to ASCII
      case, whatever wildcards or backslashes either contains. */
  lemma {:induction false} SearchMeansContains(term: string, s: string)
    ensures Matches("%" + Escaped(term) + "%", s) <==> exists i :: OccursAt(term, s, i)
    decreases |s|
  {
    var body := Escaped(term) + "%";
    var p := "%" + Escaped(term) + "%";
    assert p == "%" + body && p[1..] == body;
    EscapedIsLiteral(term, "%", s);
    if |term| <= |s| {
      PercentMatchesAll(s[|term|..]);
    }
    assert Matches(body, s) <==> OccursAt(term, s, 0);
    if s != [] {
      SearchMeansContains(term, s[1..]);
      forall i
        ensures OccursAt(term, s[1..], i) <==> i >= 0 && OccursAt(term, s, i + 1)
      {
        if 0 <= i && i + |term| <= |s| - 1 {
          assert s[1..][i..i + |term|] == s[i + 1..i + 1 + |term|];
        }
      }
      if exists i :: OccursAt(term, s, i) {
        var i :| OccursAt(term, s, i);
        if i > 0 {
          assert OccursAt(term, s[1..], i - 1);
        }
      }
    }
  }
}
