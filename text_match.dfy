/**
 * Text comparison as the queries of the events service perform it:
 * PostgreSQL's LIKE / ILIKE pattern match (with '%', '_' and the default
 * escape character '\'), with case folding restricted to ASCII letters.
 */
module TextMatch {

  predicate IsUpper(c: char)
  {
    'A' <= c <= 'Z'
  }

  predicate IsLower(c: char)
  {
    'a' <= c <= 'z'
  }

  predicate IsAsciiLetter(c: char)
  {
    IsUpper(c) || IsLower(c)
  }

  function LowerChar(c: char): (d: char)
    ensures !IsUpper(d)
    ensures IsUpper(c) ==> IsLower(d) && d as int == c as int + 32
    ensures !IsUpper(c) ==> d == c
  {
    if IsUpper(c) then (c as int + 32) as char else c
  }

  /** ASCII lower-casing of a whole text. */
  function LowerAscii(s: string): (r: string)
    ensures |r| == |s|
    ensures forall i :: 0 <= i < |s| ==> r[i] == LowerChar(s[i])
  {
    if s == [] then [] else [LowerChar(s[0])] + LowerAscii(s[1..])
  }

  lemma LowerAsciiConcat(a: string, b: string)
    ensures LowerAscii(a + b) == LowerAscii(a) + LowerAscii(b)
  {
    assert LowerAscii(a + b) == LowerAscii(a) + LowerAscii(b);
  }

  /** The characters LIKE treats specially in a pattern. */
  predicate IsWildcard(c: char)
  {
    c == '%' || c == '_' || c == '\\'
  }

  predicate Literal(w: string)
  {
    forall i :: 0 <= i < |w| ==> !IsWildcard(w[i])
  }

  /**
   * s LIKE p: '%' matches any run of characters, '_' any one character,
   * '\' makes the next pattern character literal; all else matches itself.
   */
  predicate Like(s: string, p: string)
    decreases |s| + |p|
  {
    if p == [] then s == []
    else if p[0] == '%' then Like(s, p[1..]) || (s != [] && Like(s[1..], p))
    else if p[0] == '\\' && |p| >= 2 then s != [] && s[0] == p[1] && Like(s[1..], p[2..])
    else if p[0] == '_' then s != [] && Like(s[1..], p[1..])
    else s != [] && s[0] == p[0] && Like(s[1..], p[1..])
  }

  /** s ILIKE p, with ASCII case folding on both sides. */
  predicate ILike(s: string, p: string)
  {
    Like(LowerAscii(s), LowerAscii(p))
  }

  /** The pattern `%q%` the services build around a search term. */
  function Containing(q: string): (p: string)
    ensures |p| == |q| + 2 && p[0] == '%' && p[|p| - 1] == '%'
  {
    "%" + q + "%"
  }

  ghost predicate OccursAt(w: string, s: string, k: int)
  {
    0 <= k <= |s| - |w| && s[k..k + |w|] == w
  }

  ghost predicate IsSubstring(w: string, s: string)
  {
    exists k :: OccursAt(w, s, k)
  }

  lemma {:induction false} LikeAnything(s: string)
    ensures Like(s, "%")
    decreases |s|
  {
    if s != [] {
      LikeAnything(s[1..]);
    }
  }

  /** A literal word followed by '%' matches exactly the texts that start with the word. */
  lemma {:induction false} LikePrefix(s: string, w: string)
    requires Literal(w)
    ensures Like(s, w + "%") <==> |w| <= |s| && s[..|w|] == w
    decreases |w|
  {
    if w == [] {
      assert w + "%" == "%";
      LikeAnything(s);
    } else {
      assert (w + "%")[1..] == w[1..] + "%";
      assert Literal(w[1..]);
      if s != [] {
        LikePrefix(s[1..], w[1..]);
        if |w| <= |s| && s[..|w|] == w {
          assert s[1..][..|w| - 1] == w[1..];
        }
        if s[0] == w[0] && |w| - 1 <= |s| - 1 && s[1..][..|w| - 1] == w[1..] {
          assert s[..|w|] == [s[0]] + s[1..][..|w| - 1];
        }
      }
    }
  }

  /** A leading '%' lets the rest of the pattern match any suffix. */
  lemma {:induction false} LikeLeadingPercent(s: string, rest: string)
    ensures Like(s, "%" + rest) <==> exists k :: 0 <= k <= |s| && Like(s[k..], rest)
    decreases |s|
  {
    var p := "%" + rest;
    assert p[0] == '%' && p[1..] == rest;
    assert s[0..] == s;
    if s != [] {
      LikeLeadingPercent(s[1..], rest);
      if Like(s[1..], p) {
        var k :| 0 <= k <= |s| - 1 && Like(s[1..][k..], rest);
        assert s[1..][k..] == s[k + 1..];
      }
      if exists k :: 0 <= k <= |s| && Like(s[k..], rest) {
        var k :| 0 <= k <= |s| && Like(s[k..], rest);
        if k > 0 {
          assert s[1..][k - 1..] == s[k..];
          assert 0 <= k - 1 <= |s[1..]| && Like(s[1..][k - 1..], rest);
        }
        assert Like(s, p);
      }
    }
  }

  /** For a term without wildcards, `s LIKE '%w%'` holds exactly when w occurs in s. */
  lemma LikeContaining(s: string, w: string)
    requires Literal(w)
    ensures Like(s, Containing(w)) <==> IsSubstring(w, s)
  {
    assert Containing(w) == "%" + (w + "%");
    LikeLeadingPercent(s, w + "%");
    if IsSubstring(w, s) {
      var k :| OccursAt(w, s, k);
      LikePrefix(s[k..], w);
      assert s[k..][..|w|] == s[k..k + |w|];
    }
    if Like(s, Containing(w)) {
      var k :| 0 <= k <= |s| && Like(s[k..], w + "%");
      LikePrefix(s[k..], w);
      assert s[k..][..|w|] == s[k..k + |w|];
      assert OccursAt(w, s, k);
    }
  }

  /**
   * The filter the services apply: for a search term without LIKE wildcards,
   * `s ILIKE '%q%'` holds exactly when q occurs in s ignoring ASCII case.
   */
  lemma ILikeContaining(s: string, q: string)
    requires Literal(q)
    ensures ILike(s, Containing(q)) <==> IsSubstring(LowerAscii(q), LowerAscii(s))
  {
    LowerAsciiConcat("%" + q, "%");
    LowerAsciiConcat("%", q);
    assert LowerAscii("%") == "%";
    assert LowerAscii(Containing(q)) == Containing(LowerAscii(q));
    LikeContaining(LowerAscii(s), LowerAscii(q));
  }
}
