/**
 The text searches of desktop-app/internal/evesde/repository.go: escapeLike, and the LIKE
 operator with the escape character `\` that the escaped text is given to. Two characters
 match if `eq` says so, which stands for the NOCASE collation.
 */
module LikeEscape {

  type Equality = (char, char) -> bool

  const ANY := '%'
  const ONE := '_'
  const ESCAPE := '\\'

  predicate Special(c: char) { c == ANY || c == ONE || c == ESCAPE }

  function EscapeLike(s: string): string {
    if s == [] then [] else (if Special(s[0]) then [ESCAPE, s[0]] else [s[0]]) + EscapeLike(s[1..])
  }

  /** name LIKE pattern ESCAPE '\'; an escape character at the end of the pattern matches nothing. */
  predicate Like(pattern: string, s: string, eq: Equality)
    decreases |pattern| + |s|
  {
    if pattern == [] then s == []
    else if pattern[0] == ANY then Like(pattern[1..], s, eq) || (s != [] && Like(pattern, s[1..], eq))
    else if pattern[0] == ESCAPE then
      |pattern| > 1 && s != [] && eq(pattern[1], s[0]) && Like(pattern[2..], s[1..], eq)
    else s != [] && (pattern[0] == ONE || eq(pattern[0], s[0])) && Like(pattern[1..], s[1..], eq)
  }

  predicate StartsWith(s: string, q: string, eq: Equality) {
    |q| <= |s| && forall k :: 0 <= k < |q| ==> eq(q[k], s[k])
  }

  /** The meaning of the search: the text occurs somewhere in the name. */
  ghost predicate Occurs(q: string, s: string, eq: Equality) {
    exists i :: 0 <= i <= |s| && StartsWith(s[i..], q, eq)
  }

  lemma {:induction false} AnyMatchesAll(s: string, eq: Equality)
    ensures Like([ANY], s, eq)
    decreases |s|
  {
    if s != [] {
      AnyMatchesAll(s[1..], eq);
    }
  }

  /** A wildcard skips any number of characters. */
  lemma {:induction false} AnySkips(rest: string, s: string, eq: Equality)
    ensures Like([ANY] + rest, s, eq) <==> exists i :: 0 <= i <= |s| && Like(rest, s[i..], eq)
    decreases |s|
  {
    assert ([ANY] + rest)[1..] == rest && s[0..] == s;
    if s != [] {
      AnySkips(rest, s[1..], eq);
      if i :| 0 <= i <= |s| - 1 && Like(rest, s[1..][i..], eq) {
        assert s[1..][i..] == s[i + 1..];
      }
      if i :| 0 < i <= |s| && Like(rest, s[i..], eq) {
        assert s[1..][i - 1..] == s[i..];
      }
    }
  }

  /** Escaped text matches itself and nothing else, whatever follows it in the pattern. */
  lemma {:induction false} EscapedIsLiteral(q: string, rest: string, s: string, eq: Equality)
    ensures Like(EscapeLike(q) + rest, s, eq) <==> StartsWith(s, q, eq) && Like(rest, s[|q|..], eq)
    decreases |q|
  {
    if q == [] {
      assert EscapeLike(q) + rest == rest;
    } else if s != [] {
      var p, tail := EscapeLike(q) + rest, EscapeLike(q[1..]) + rest;
      assert p == (if Special(q[0]) then [ESCAPE, q[0]] else [q[0]]) + tail;
      EscapedIsLiteral(q[1..], rest, s[1..], eq);
      assert |q| <= |s| ==> s[1..][|q| - 1..] == s[|q|..];
      assert StartsWith(s, q, eq) <==> eq(q[0], s[0]) && StartsWith(s[1..], q[1..], eq);
    }
  }

  /** The search finds exactly the names in which the text occurs, wildcards in it included. */
  lemma SearchFindsText(q: string, s: string, eq: Equality)
    ensures Like([ANY] + EscapeLike(q) + [ANY], s, eq) <==> Occurs(q, s, eq)
  {
    var rest := EscapeLike(q) + [ANY];
    assert [ANY] + EscapeLike(q) + [ANY] == [ANY] + rest;
    AnySkips(rest, s, eq);
    forall i | 0 <= i <= |s|
      ensures Like(rest, s[i..], eq) <==> StartsWith(s[i..], q, eq)
    {
      EscapedIsLiteral(q, [ANY], s[i..], eq);
      if StartsWith(s[i..], q, eq) {
        AnyMatchesAll(s[i..][|q|..], eq);
      }
    }
  }

  predicate Exactly(a: char, b: char) { a == b }

  /** Without escaping a search for a wildcard character would find any name. */
  lemma UnescapedFindsAll(s: string)
    requires s != []
    ensures Like([ANY] + [ANY] + [ANY], s, Exactly) && Like([ANY] + [ONE] + [ANY], s, Exactly)
    ensures Occurs([ANY], s, Exactly) <==> ANY in s
  {
    AnyMatchesAll(s, Exactly);
    AnyMatchesAll(s[1..], Exactly);
    assert ([ANY] + [ANY] + [ANY])[1..] == [ANY] + [ANY] && ([ANY] + [ANY])[1..] == [ANY];
    assert ([ANY] + [ONE] + [ANY])[1..] == [ONE] + [ANY] && ([ONE] + [ANY])[1..] == [ANY];
    if ANY in s {
      var i :| 0 <= i < |s| && s[i] == ANY;
      assert StartsWith(s[i..], [ANY], Exactly);
    }
    if Occurs([ANY], s, Exactly) {
      var i :| 0 <= i <= |s| && StartsWith(s[i..], [ANY], Exactly);
      assert s[i..][0] == s[i];
    }
  }
}
