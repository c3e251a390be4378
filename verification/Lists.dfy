/** Facts about lists of results that do not depend on what the list elements are. */
module Lists {

  /** The results of f on every element, one after another. */
  function FlatMap<A, B>(f: A -> seq<B>, s: seq<A>): seq<B> {
    if s == [] then [] else f(s[0]) + FlatMap(f, s[1..])
  }

  lemma {:induction false} FlatMapSplit<A, B>(f: A -> seq<B>, s: seq<A>, t: seq<A>)
    ensures FlatMap(f, s + t) == FlatMap(f, s) + FlatMap(f, t)
  {
    var all := s + t;
    if s == [] {
      assert all == t;
    } else {
      assert all[0] == s[0] && all[1..] == s[1..] + t;
      FlatMapSplit(f, s[1..], t);
      assert FlatMap(f, all) == f(s[0]) + (FlatMap(f, s[1..]) + FlatMap(f, t));
    }
  }

  lemma FlatMapSnoc<A, B>(f: A -> seq<B>, s: seq<A>, x: A)
    ensures FlatMap(f, [x]) == f(x)
    ensures FlatMap(f, s + [x]) == FlatMap(f, s) + f(x)
  {
    FlatMapSplit(f, s, [x]);
    assert FlatMap(f, [x]) == f(x) + FlatMap(f, [x][1..]);
  }

  /** Every result comes from some element. */
  lemma {:induction false} FlatMapOrigin<A, B>(f: A -> seq<B>, s: seq<A>, b: B) returns (k: nat)
    requires b in FlatMap(f, s)
    ensures k < |s| && b in f(s[k])
  {
    if b in f(s[0]) {
      k := 0;
    } else {
      var j := FlatMapOrigin(f, s[1..], b);
      k := j + 1;
    }
  }

  /** Moving elements from the front of what is left to the end of what is done loses nothing. */
  lemma MoveAcross<T>(done: seq<T>, moved: seq<T>, left: seq<T>)
    ensures (done + moved) + left == done + (moved + left)
    ensures done + [] == done
  {
  }

  /** The index of the last element that satisfies p, or -1. */
  function LastIndex<T>(s: seq<T>, p: T -> bool): (i: int)
    ensures -1 <= i < |s|
    ensures i >= 0 ==> p(s[i])
    ensures forall k | i < k < |s| :: !p(s[k])
  {
    if s == [] then -1 else if p(s[|s| - 1]) then |s| - 1 else LastIndex(s[..|s| - 1], p)
  }

  lemma LastIndexSnoc<T>(s: seq<T>, x: T, p: T -> bool)
    ensures LastIndex(s + [x], p) == if p(x) then |s| else LastIndex(s, p)
  {
    assert (s + [x])[..|s|] == s;
  }

  /** No element occurs twice. */
  predicate Distinct<T(==)>(s: seq<T>) { forall i, j | 0 <= i < j < |s| :: s[i] != s[j] }

  lemma DistinctSnoc<T>(s: seq<T>, x: T)
    ensures Distinct(s + [x]) <==> Distinct(s) && x !in s
  {
    var t := s + [x];
    assert forall i | 0 <= i < |s| :: t[i] == s[i];
    assert t[|s|] == x;
  }

  /** Distinctness in terms that do not mention order. */
  lemma {:induction false} DistinctByCount<T>(s: seq<T>)
    ensures Distinct(s) <==> forall x | x in s :: multiset(s)[x] == 1
  {
    if s != [] {
      var front, last := s[..|s| - 1], s[|s| - 1];
      assert s == front + [last];
      DistinctByCount(front);
      DistinctSnoc(front, last);
      if Distinct(front) && last !in front {
        assert forall x | x in s :: multiset(s)[x] == 1;
      } else if last in front {
        assert multiset(s)[last] == multiset(front)[last] + 1;
      } else {
        var x :| x in front && multiset(front)[x] != 1;
        assert multiset(s)[x] == multiset(front)[x];
        assert x in s;
      }
    }
  }

  /** s and t hold the same elements equally often. */
  ghost predicate Permuted<T>(s: seq<T>, t: seq<T>) { multiset(s) == multiset(t) }

  lemma PermutedDistinct<T>(s: seq<T>, t: seq<T>)
    requires Permuted(s, t)
    ensures Distinct(s) <==> Distinct(t)
  {
    PermutedMembers(s, t);
    DistinctByCount(s);
    DistinctByCount(t);
  }

  lemma PermutedMembers<T>(s: seq<T>, t: seq<T>)
    requires Permuted(s, t)
    ensures |s| == |t| && forall x :: x in s <==> x in t
  {
    assert forall x :: x in s <==> x in multiset(s);
    assert forall x :: x in t <==> x in multiset(t);
    assert |multiset(s)| == |s| && |multiset(t)| == |t|;
  }

  /** Taking an element out of the front of one list and wherever it is in the other. */
  lemma TakeOut<A>(s: seq<A>, t: seq<A>) returns (before: seq<A>, after: seq<A>)
    requires s != [] && Permuted(s, t)
    ensures t == before + [s[0]] + after && Permuted(s[1..], before + after)
  {
    PermutedMembers(s, t);
    assert s[0] in t;
    var k :| 0 <= k < |t| && t[k] == s[0];
    before, after := t[..k], t[k + 1..];
    assert t == before + [s[0]] + after;
    RemovedOne([], s[0], s[1..]);
    RemovedOne(before, s[0], after);
    assert s == [] + [s[0]] + s[1..] && [] + s[1..] == s[1..];
  }

  lemma RemovedOne<A>(before: seq<A>, x: A, after: seq<A>)
    ensures multiset(before + after) == multiset(before + [x] + after) - multiset{x}
  {
  }

  lemma FlatMapAround<A, B>(f: A -> seq<B>, before: seq<A>, x: A, after: seq<A>)
    ensures multiset(FlatMap(f, before + [x] + after)) == multiset(f(x)) + multiset(FlatMap(f, before + after))
  {
    FlatMapSplit(f, before, after);
    FlatMapSplit(f, before + [x], after);
    FlatMapSnoc(f, before, x);
  }

  lemma {:induction false} PermutedFlatMap<A, B>(f: A -> seq<B>, s: seq<A>, t: seq<A>)
    requires Permuted(s, t)
    ensures Permuted(FlatMap(f, s), FlatMap(f, t))
  {
    if s == [] {
      PermutedMembers(s, t);
    } else {
      var before, after := TakeOut(s, t);
      PermutedFlatMap(f, s[1..], before + after);
      FlatMapAround(f, before, s[0], after);
    }
  }

  /** Different elements give different results, as far as they give any. */
  ghost predicate OneEach<A, B>(f: A -> seq<B>, s: seq<A>) {
    forall j, k | 0 <= j < k < |s| && f(s[j]) != [] && f(s[k]) != [] :: f(s[j]) != f(s[k])
  }

  lemma OneEachSnoc<A, B>(f: A -> seq<B>, s: seq<A>, x: A)
    ensures OneEach(f, s + [x])
            <==> OneEach(f, s) && (f(x) != [] ==> forall j | 0 <= j < |s| :: f(s[j]) != f(x))
  {
    var t := s + [x];
    assert t[|s|] == x && forall j | 0 <= j < |s| :: t[j] == s[j];
    if OneEach(f, t) {
      forall j | 0 <= j < |s| && f(x) != []
        ensures f(s[j]) != f(x)
      {
        assert f(t[j]) != [] ==> f(t[j]) != f(t[|s|]);
      }
      forall j, k | 0 <= j < k < |s| && f(s[j]) != [] && f(s[k]) != []
        ensures f(s[j]) != f(s[k])
      {
        assert f(t[j]) != f(t[k]);
      }
    }
  }

  lemma {:induction false} FlatMapMember<A, B>(f: A -> seq<B>, s: seq<A>, x: B)
    requires forall a :: |f(a)| <= 1
    ensures x in FlatMap(f, s) <==> exists k | 0 <= k < |s| :: f(s[k]) == [x]
  {
    if s != [] {
      FlatMapMember(f, s[1..], x);
      if x in FlatMap(f, s) {
        if x in f(s[0]) {
          assert f(s[0]) == [x];
        } else {
          var k :| 0 <= k < |s[1..]| && f(s[1..][k]) == [x];
          assert f(s[k + 1]) == [x];
        }
      }
      if k :| 0 <= k < |s| && f(s[k]) == [x] {
        assert k > 0 ==> f(s[1..][k - 1]) == [x];
      }
    }
  }

  /** Where each element gives at most one result, the results are distinct exactly when different
      elements give different ones. */
  lemma {:induction false} DistinctResults<A, B>(f: A -> seq<B>, s: seq<A>)
    requires forall a :: |f(a)| <= 1
    ensures Distinct(FlatMap(f, s)) <==> OneEach(f, s)
  {
    if s != [] {
      var front, last := s[..|s| - 1], s[|s| - 1];
      assert s == front + [last];
      DistinctResults(f, front);
      FlatMapSnoc(f, front, last);
      OneEachSnoc(f, front, last);
      if f(last) == [] {
        assert FlatMap(f, s) == FlatMap(f, front);
      } else {
        var x := f(last)[0];
        assert f(last) == [x] && FlatMap(f, s) == FlatMap(f, front) + [x];
        DistinctSnoc(FlatMap(f, front), x);
        FlatMapMember(f, front, x);
      }
    }
  }

  lemma SomeByIndex<T>(s: seq<T>, p: T -> bool)
    ensures (exists x | x in s :: p(x)) <==> exists k | 0 <= k < |s| :: p(s[k])
  {
    if x :| x in s && p(x) {
      var k :| 0 <= k < |s| && s[k] == x;
      assert p(s[k]);
    }
    if k :| 0 <= k < |s| && p(s[k]) {
      assert s[k] in s;
    }
  }
}
