/** The elements of a list that beat everything before them. */
module Maxima {

  predicate BeatsAll<T>(key: T -> int, x: T, earlier: seq<T>) {
    forall j :: 0 <= j < |earlier| ==> key(earlier[j]) < key(x)
  }

  /** The strict left-to-right maxima of `s` by `key`. */
  function StrictMaxima<T>(key: T -> int, s: seq<T>): seq<T> {
    if s == [] then []
    else
      var front, last := s[..|s| - 1], s[|s| - 1];
      StrictMaxima(key, front) + (if BeatsAll(key, last, front) then [last] else [])
  }

  /** The last maximum is the greatest element. */
  lemma {:induction false} TopIsGreatest<T>(key: T -> int, s: seq<T>)
    ensures StrictMaxima(key, s) == [] <==> s == []
    ensures s != [] ==>
              var top := StrictMaxima(key, s)[|StrictMaxima(key, s)| - 1];
              top in s && forall i :: 0 <= i < |s| ==> key(s[i]) <= key(top)
  {
    if s != [] {
      var front, last := s[..|s| - 1], s[|s| - 1];
      TopIsGreatest(key, front);
      if !BeatsAll(key, last, front) {
        var j :| 0 <= j < |front| && key(last) <= key(front[j]);
        assert StrictMaxima(key, s) == StrictMaxima(key, front);
      }
    }
  }

  /** The last maximum is the first element of the greatest key. */
  lemma {:induction false} TopIsFirst<T>(key: T -> int, s: seq<T>, i: nat)
    requires i < |s| && BeatsAll(key, s[i], s[..i])
    requires forall k :: 0 <= k < |s| ==> key(s[k]) <= key(s[i])
    ensures StrictMaxima(key, s) != [] && StrictMaxima(key, s)[|StrictMaxima(key, s)| - 1] == s[i]
  {
    var front, last := s[..|s| - 1], s[|s| - 1];
    if i < |s| - 1 {
      assert front[..i] == s[..i];
      TopIsFirst(key, front, i);
      assert key(last) <= key(front[i]);
      assert !BeatsAll(key, last, front);
    } else {
      assert s[..i] == front;
    }
  }

  /** A new element joins the maxima exactly when it beats the last of them. */
  lemma MaximaSnoc<T>(key: T -> int, s: seq<T>, x: T)
    ensures var m := StrictMaxima(key, s);
            StrictMaxima(key, s + [x]) == if m == [] || key(m[|m| - 1]) < key(x) then m + [x] else m
  {
    var longer := s + [x];
    assert longer[..|longer| - 1] == s && longer[|longer| - 1] == x;
    assert StrictMaxima(key, longer) == StrictMaxima(key, s) + (if BeatsAll(key, x, s) then [x] else []);
    BeatsTop(key, s, x);
  }

  lemma BeatsTop<T>(key: T -> int, s: seq<T>, x: T)
    ensures var m := StrictMaxima(key, s); BeatsAll(key, x, s) <==> m == [] || key(m[|m| - 1]) < key(x)
  {
    TopIsGreatest(key, s);
    if s != [] {
      var m := StrictMaxima(key, s);
      var j :| 0 <= j < |s| && s[j] == m[|m| - 1];
    }
  }

  /** Different elements of `s` have different keys. */
  ghost predicate DistinctKeys<T>(key: T -> int, s: seq<T>) {
    forall x, y :: x in s && y in s && key(x) == key(y) ==> x == y
  }

  function Top<T>(key: T -> int, s: seq<T>): T
    requires StrictMaxima(key, s) != []
  {
    StrictMaxima(key, s)[|StrictMaxima(key, s)| - 1]
  }

  lemma TopBounds<T>(key: T -> int, s: seq<T>, x: T)
    requires x in s
    ensures StrictMaxima(key, s) != [] && Top(key, s) in s && key(x) <= key(Top(key, s))
  {
    TopIsGreatest(key, s);
    var i :| 0 <= i < |s| && s[i] == x;
  }

  /** Lists with the same elements and distinct keys have the same last maximum. */
  lemma SameTop<T>(key: T -> int, r: seq<T>, s: seq<T>)
    requires r != [] && multiset(r) == multiset(s) && DistinctKeys(key, r)
    ensures StrictMaxima(key, r) != [] && StrictMaxima(key, s) != [] && Top(key, r) == Top(key, s)
  {
    assert r[0] in multiset(s);
    TopBounds(key, r, r[0]);
    TopBounds(key, s, r[0]);
    var x, y := Top(key, r), Top(key, s);
    assert x in multiset(s) && y in multiset(r);
    TopBounds(key, s, x);
    TopBounds(key, r, y);
  }

  lemma SameTops<T>(key: T -> int, r: seq<T>, s: seq<T>)
    requires multiset(r) == multiset(s) && DistinctKeys(key, r)
    ensures r == [] <==> s == []
    ensures r != [] ==> StrictMaxima(key, r) != [] && StrictMaxima(key, s) != [] && Top(key, r) == Top(key, s)
  {
    assert |multiset(r)| == |r| && |multiset(s)| == |s|;
    if r != [] {
      SameTop(key, r, s);
    }
  }

  ghost predicate Ascends<T>(key: T -> int, s: seq<T>) {
    forall i, j :: 0 <= i < j < |s| ==> key(s[i]) < key(s[j])
  }

  lemma AscendsSnoc<T>(key: T -> int, s: seq<T>, x: T)
    requires Ascends(key, s) && forall i :: 0 <= i < |s| ==> key(s[i]) < key(x)
    ensures Ascends(key, s + [x])
  {
    var n := s + [x];
    forall i, j | 0 <= i < j < |n| ensures key(n[i]) < key(n[j]) {
      if j < |s| { assert n[i] == s[i] && n[j] == s[j]; } else { assert n[i] == s[i] && n[j] == x; }
    }
  }

  /** The maxima ascend strictly. */
  lemma {:induction false} MaximaAscend<T>(key: T -> int, s: seq<T>)
    ensures Ascends(key, StrictMaxima(key, s))
  {
    if s != [] {
      var front, last := s[..|s| - 1], s[|s| - 1];
      var m := StrictMaxima(key, front);
      MaximaAscend(key, front);
      MaximaFrom(key, front);
      if BeatsAll(key, last, front) {
        forall i | 0 <= i < |m| ensures key(m[i]) < key(last) {
          assert m[i] in front;
          var j :| 0 <= j < |front| && front[j] == m[i];
        }
        AscendsSnoc(key, m, last);
      } else {
        assert StrictMaxima(key, s) == m;
      }
    }
  }

  lemma {:induction false} MaximaFrom<T>(key: T -> int, s: seq<T>)
    ensures forall i :: 0 <= i < |StrictMaxima(key, s)| ==> StrictMaxima(key, s)[i] in s
  {
    if s != [] {
      MaximaFrom(key, s[..|s| - 1]);
    }
  }
}
