/** Filtering a list while transforming what is kept: the shape of every "collect what
    matches" loop in `load_database`. */
module Lists {
  import opened Wrappers

  /** `[f(x).value for x in s if f(x) is not None]`, built from the front of `s` to its end. */
  function FilterMap<A, B>(s: seq<A>, f: A -> Option<B>): (r: seq<B>)
    ensures |r| <= |s|
  {
    if s == [] then []
    else FilterMap(s[..|s| - 1], f) + (match f(s[|s| - 1]) case Some(y) => [y] case None => [])
  }

  /** Every kept element comes from an element of the input. */
  lemma {:induction false} FilterMapFrom<A, B>(s: seq<A>, f: A -> Option<B>, y: B)
    requires y in FilterMap(s, f)
    ensures exists x :: x in s && f(x) == Some(y)
    decreases |s|
  {
    var n := |s|;
    var init := s[..n - 1];
    if y in FilterMap(init, f) {
      FilterMapFrom(init, f, y);
      var x :| x in init && f(x) == Some(y);
      assert x in s;
    } else {
      assert f(s[n - 1]) == Some(y);
    }
  }

  lemma {:induction false} FilterMapConcat<A, B>(a: seq<A>, b: seq<A>, f: A -> Option<B>)
    ensures FilterMap(a + b, f) == FilterMap(a, f) + FilterMap(b, f)
    decreases |b|
  {
    if b == [] {
      assert a + b == a;
    } else {
      var n := |b|;
      assert (a + b)[..|a + b| - 1] == a + b[..n - 1];
      FilterMapConcat(a, b[..n - 1], f);
    }
  }

  lemma FilterMapSingle<A, B>(x: A, f: A -> Option<B>)
    ensures FilterMap([x], f) == match f(x) case Some(y) => [y] case None => []
  {
    assert [x][..0] == [];
  }

  /** The kept elements do not depend on the order of the input, up to order. */
  lemma {:induction false} FilterMapPermutation<A, B>(s1: seq<A>, s2: seq<A>, f: A -> Option<B>)
    requires multiset(s1) == multiset(s2)
    ensures multiset(FilterMap(s1, f)) == multiset(FilterMap(s2, f))
    decreases |s1|
  {
    if s1 != [] {
      var n := |s1|;
      var x := s1[n - 1];
      assert x in multiset(s2) by {
        assert s1 == s1[..n - 1] + [x];
      }
      var j :| 0 <= j < |s2| && s2[j] == x;
      var rest2 := s2[..j] + s2[j + 1..];
      RemoveAt(s1, n - 1);
      RemoveAt(s2, j);
      assert s1[..n - 1] + s1[n..] == s1[..n - 1];
      FilterMapPermutation(s1[..n - 1], rest2, f);
      FilterMapRemoveAt(s1, n - 1, f);
      FilterMapRemoveAt(s2, j, f);
    }
  }

  /** Taking out the element at `j` takes one copy of it out of the multiset. */
  lemma RemoveAt<A>(s: seq<A>, j: nat)
    requires j < |s|
    ensures multiset(s[..j] + s[j + 1..]) == multiset(s) - multiset{s[j]}
  {
    assert s == s[..j] + [s[j]] + s[j + 1..];
  }

  lemma SplitAt<A>(s: seq<A>, j: nat)
    requires j < |s|
    ensures s == (s[..j] + [s[j]]) + s[j + 1..]
  {
    assert s[j..] == [s[j]] + s[j + 1..];
    assert s == s[..j] + s[j..];
  }

  /** What is kept from `s` is what is kept without its element `j`, plus what that element gives. */
  lemma FilterMapRemoveAt<A, B>(s: seq<A>, j: nat, f: A -> Option<B>)
    requires j < |s|
    ensures multiset(FilterMap(s, f)) == multiset(FilterMap(s[..j] + s[j + 1..], f)) + multiset(FilterMap([s[j]], f))
  {
    var a, x, b := s[..j], s[j], s[j + 1..];
    SplitAt(s, j);
    FilterMapConcat(a + [x], b, f);
    FilterMapConcat(a, [x], f);
    FilterMapConcat(a, b, f);
    var fa, fx, fb := FilterMap(a, f), FilterMap([x], f), FilterMap(b, f);
    assert multiset(fa + fx + fb) == multiset(fa) + multiset(fx) + multiset(fb);
    assert multiset(fa + fb) == multiset(fa) + multiset(fb);
  }

  /** Keeping everything changes nothing. */
  lemma {:induction false} FilterMapKeepsAll<A>(s: seq<A>, f: A -> Option<A>)
    requires forall i :: 0 <= i < |s| ==> f(s[i]) == Some(s[i])
    ensures FilterMap(s, f) == s
    decreases |s|
  {
    if s != [] {
      var init, last := s[..|s| - 1], s[|s| - 1];
      assert s == init + [last];
      assert s[..|s| - 1] == init;
      FilterMapKeepsAll(init, f);
      calc {
        FilterMap(s, f);
        FilterMap(init, f) + (match f(last) case Some(y) => [y] case None => []);
        { assert f(last) == Some(last); }
        init + [last];
      }
    }
  }

  /** Keeping nothing gives the empty list. */
  lemma {:induction false} FilterMapDropsAll<A, B>(s: seq<A>, f: A -> Option<B>)
    requires forall i :: 0 <= i < |s| ==> f(s[i]).None?
    ensures FilterMap(s, f) == []
    decreases |s|
  {
    if s != [] {
      FilterMapDropsAll(s[..|s| - 1], f);
    }
  }

  /** Every element `f` keeps is in the result. */
  lemma {:induction false} FilterMapKeeps<A, B>(s: seq<A>, f: A -> Option<B>, x: A)
    requires x in s && f(x).Some?
    ensures f(x).value in FilterMap(s, f)
    decreases |s|
  {
    var n := |s|;
    if s[n - 1] != x {
      assert x in s[..n - 1] by {
        var i :| 0 <= i < n && s[i] == x;
        assert s[..n - 1][i] == x;
      }
      FilterMapKeeps(s[..n - 1], f, x);
    }
  }

  function Reverse<A>(s: seq<A>): (r: seq<A>)
    ensures |r| == |s|
  {
    seq(|s|, i requires 0 <= i < |s| => s[|s| - 1 - i])
  }

  lemma {:induction false} ReverseMultiset<A>(s: seq<A>)
    ensures multiset(Reverse(s)) == multiset(s)
    decreases |s|
  {
    if s != [] {
      var n := |s|;
      ReverseMultiset(s[1..]);
      assert Reverse(s) == Reverse(s[1..]) + [s[0]];
      assert s == [s[0]] + s[1..];
    }
  }
}
