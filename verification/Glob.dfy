/**
  Wildcard patterns over '*' and '?', matched against a whole path, and the ignore lists built of them.

  '*' also matches '/'. `fold` takes a character to its case-folded form. A path is ignored exactly if
  a pattern matches it or one of the directories above it (`IgnoredIff`).
 */
module Globs {

  type Fold = char -> char

  predicate Matches(p: string, s: string, fold: Fold)
    decreases |p| + |s|
  {
    if p == "" then s == ""
    else if p[0] == '*' then Matches(p[1..], s, fold) || (s != "" && Matches(p, s[1..], fold))
    else s != "" && (p[0] == '?' || fold(p[0]) == fold(s[0])) && Matches(p[1..], s[1..], fold)
  }

  // The first pattern matches what is before position `k` and the second what is behind.
  predicate SplitsAt(p: string, q: string, s: string, fold: Fold, k: nat) {
    k <= |s| && Matches(p, s[..k], fold) && Matches(q, s[k..], fold)
  }

  lemma {:induction false} Joins(p: string, q: string, s: string, t: string, fold: Fold)
    requires Matches(p, s, fold) && Matches(q, t, fold)
    ensures Matches(p + q, s + t, fold)
    decreases |p| + |s|
  {
    if p == "" {
      assert p + q == q && s + t == t;
    } else {
      assert (p + q)[1..] == p[1..] + q;
      if p[0] == '*' && Matches(p[1..], s, fold) {
        Joins(p[1..], q, s, t, fold);
      } else {
        assert (s + t)[1..] == s[1..] + t;
        Joins(if p[0] == '*' then p else p[1..], q, s[1..], t, fold);
      }
    }
  }

  lemma {:induction false} Splits(p: string, q: string, s: string, fold: Fold) returns (k: nat)
    requires Matches(p + q, s, fold)
    ensures SplitsAt(p, q, s, fold, k)
    decreases |p| + |s|
  {
    if p == "" {
      k := 0;
      assert p + q == q && s[0..] == s;
    } else {
      assert (p + q)[1..] == p[1..] + q;
      if p[0] == '*' && Matches(p[1..] + q, s, fold) {
        k := Splits(p[1..], q, s, fold);
      } else {
        k := Splits(if p[0] == '*' then p else p[1..], q, s[1..], fold);
        k := k + 1;
        assert s[..k][1..] == s[1..][..k - 1] && s[k..] == s[1..][k - 1..];
      }
    }
  }

  // A pattern made of two matches a text exactly if the text splits into matches of the two.
  lemma ConcatIff(p: string, q: string, s: string, fold: Fold)
    ensures Matches(p + q, s, fold) <==> exists k: nat :: SplitsAt(p, q, s, fold, k)
  {
    if Matches(p + q, s, fold) {
      var k := Splits(p, q, s, fold);
    }
    if k: nat :| SplitsAt(p, q, s, fold, k) {
      Joins(p, q, s[..k], s[k..], fold);
      assert s[..k] + s[k..] == s;
    }
  }

  lemma {:induction false} StarMatchesAll(s: string, fold: Fold)
    ensures Matches("*", s, fold)
  {
    assert "*"[1..] == "";
    if s != "" {
      StarMatchesAll(s[1..], fold);
    }
  }

  // The other patterns of one character, and the empty one: with these, matching is known for all patterns.
  lemma OneMatches(c: char, s: string, fold: Fold)
    ensures Matches("", s, fold) <==> s == ""
    ensures c != '*' ==> (Matches([c], s, fold) <==> |s| == 1 && (c == '?' || fold(c) == fold(s[0])))
    ensures c == '*' ==> Matches([c], s, fold)
  {
    assert [c][1..] == "";
    if c == '*' {
      StarMatchesAll(s, fold);
      assert [c] == "*";
    }
  }

  // Only '/' folds to what '/' folds to.
  predicate KeepsSlash(fold: Fold) {
    forall c :: fold(c) == fold('/') ==> c == '/'
  }

  lemma SlashStarIff(s: string, fold: Fold)
    requires KeepsSlash(fold)
    ensures Matches("/*", s, fold) <==> s != "" && s[0] == '/'
  {
    assert "/*"[1..] == "*";
    if s != "" {
      StarMatchesAll(s[1..], fold);
    }
  }

  // ---------------------------------------------------------------- ignore lists

  // The filters of one ignored pattern: itself, and everything beneath it if it is a directory.
  function Filters(patterns: seq<string>): seq<string> {
    if patterns == [] then [] else Filters(patterns[..|patterns| - 1]) + Pair(patterns[|patterns| - 1])
  }

  function Pair(pattern: string): seq<string> {
    [pattern, pattern + "/*"]
  }

  predicate Ignored(filters: seq<string>, path: string, fold: Fold) {
    exists i | 0 <= i < |filters| :: Matches(filters[i], path, fold)
  }

  // The whole path, or a directory above it: what is before one of its slashes.
  predicate IsAbove(path: string, k: nat) {
    k <= |path| && (k == |path| || path[k] == '/')
  }

  predicate Above(p: string, path: string, fold: Fold) {
    exists k | 0 <= k <= |path| :: IsAbove(path, k) && Matches(p, path[..k], fold)
  }

  lemma PairIff(p: string, path: string, fold: Fold)
    requires KeepsSlash(fold)
    ensures Matches(p, path, fold) || Matches(p + "/*", path, fold) <==> Above(p, path, fold)
  {
    if Matches(p, path, fold) {
      assert path[..|path|] == path && IsAbove(path, |path|);
    }
    if Matches(p + "/*", path, fold) {
      var k := Splits(p, "/*", path, fold);
      SlashStarIff(path[k..], fold);
      assert IsAbove(path, k);
    }
    if Above(p, path, fold) {
      var k :| 0 <= k <= |path| && IsAbove(path, k) && Matches(p, path[..k], fold);
      if k == |path| {
        assert path[..k] == path;
      } else {
        SlashStarIff(path[k..], fold);
        Joins(p, "/*", path[..k], path[k..], fold);
        assert path[..k] + path[k..] == path;
      }
    }
  }

  // A path is ignored exactly if one of the patterns matches it or a directory above it.
  lemma {:induction false} IgnoredIff(patterns: seq<string>, path: string, fold: Fold)
    requires KeepsSlash(fold)
    ensures Ignored(Filters(patterns), path, fold) <==> exists p | p in patterns :: Above(p, path, fold)
  {
    hide Matches, Above;
    if patterns != [] {
      var init, last := patterns[..|patterns| - 1], patterns[|patterns| - 1];
      IgnoredIff(init, path, fold);
      PairIff(last, path, fold);
      assert forall p :: p in patterns <==> p in init || p == last;
      IgnoredAppend(Filters(init), Pair(last), path, fold);
      assert Ignored(Pair(last), path, fold) <==> Matches(last, path, fold) || Matches(last + "/*", path, fold) by {
        assert Pair(last)[0] == last && Pair(last)[1] == last + "/*";
      }
    }
  }

  lemma IgnoredAppend(a: seq<string>, b: seq<string>, path: string, fold: Fold)
    ensures Ignored(a + b, path, fold) <==> Ignored(a, path, fold) || Ignored(b, path, fold)
  {
    hide Matches;
    if i :| 0 <= i < |a| && Matches(a[i], path, fold) {
      assert Matches((a + b)[i], path, fold);
    }
    if i :| 0 <= i < |b| && Matches(b[i], path, fold) {
      assert Matches((a + b)[|a| + i], path, fold);
    }
  }

  // What matches a pattern or lies in a directory that does: so does everything beneath it.
  lemma PairBeneath(p: string, path: string, rest: string, fold: Fold)
    requires Matches(p, path, fold) || Matches(p + "/*", path, fold)
    ensures Matches(p + "/*", path + "/" + rest, fold)
  {
    var beneath := path + "/" + rest;
    var dir := p + "/";
    assert dir + "*" == p + "/*";
    if Matches(p, path, fold) {
      assert Matches("/", "/", fold);
      Joins(p, "/", path, "/", fold);
      StarMatchesAll(rest, fold);
      Joins(dir, "*", path + "/", rest, fold);
    } else {
      var k := Splits(dir, "*", path, fold);
      StarMatchesAll(beneath[k..], fold);
      Joins(dir, "*", path[..k], beneath[k..], fold);
      assert path[..k] + beneath[k..] == beneath;
    }
  }

  // Everything beneath an ignored path is ignored, whatever the case folding.
  lemma {:induction false} IgnoredBeneath(patterns: seq<string>, path: string, rest: string, fold: Fold)
    requires Ignored(Filters(patterns), path, fold)
    ensures Ignored(Filters(patterns), path + "/" + rest, fold)
  {
    hide Matches;
    var init, last := patterns[..|patterns| - 1], patterns[|patterns| - 1];
    IgnoredAppend(Filters(init), Pair(last), path, fold);
    IgnoredAppend(Filters(init), Pair(last), path + "/" + rest, fold);
    if Ignored(Filters(init), path, fold) {
      IgnoredBeneath(init, path, rest, fold);
    } else {
      PairBeneath(last, path, rest, fold);
      assert Pair(last)[1] == last + "/*";
    }
  }
}
