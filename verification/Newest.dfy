// Filtering a list, and reading a map of groups out newest first: the map is read in any
// order and sorted by an unstable sort, so any newest-first order can come out.
module Newest {

  function Where<T>(s: seq<T>, p: T -> bool): seq<T> {
    if s == [] then [] else Where(s[..|s| - 1], p) + if p(s[|s| - 1]) then [s[|s| - 1]] else []
  }

  lemma {:induction false} WhereIn<T>(s: seq<T>, p: T -> bool, x: T)
    ensures x in Where(s, p) <==> x in s && p(x)
  {
    if s != [] {
      assert s == s[..|s| - 1] + [s[|s| - 1]];
      WhereIn(s[..|s| - 1], p, x);
    }
  }

  lemma WhereSnoc<T>(s: seq<T>, x: T, p: T -> bool)
    ensures Where(s + [x], p) == Where(s, p) + if p(x) then [x] else []
  {
    assert (s + [x])[..|s|] == s;
  }

  lemma {:induction false} WhereCounts<T>(s: seq<T>, p: T -> bool, x: T)
    ensures multiset(Where(s, p))[x] == if p(x) then multiset(s)[x] else 0
  {
    if s != [] {
      var init, last := s[..|s| - 1], s[|s| - 1];
      assert s == init + [last];
      WhereCounts(init, p, x);
    }
  }

  lemma WhereGrows<T(!new)>(s: seq<T>, p: T -> bool, q: T -> bool)
    requires forall x :: x in s && p(x) ==> q(x)
    ensures multiset(Where(s, p)) <= multiset(Where(s, q))
  {
    forall x ensures multiset(Where(s, p))[x] <= multiset(Where(s, q))[x] {
      WhereCounts(s, p, x);
      WhereCounts(s, q, x);
    }
  }

  lemma {:induction false} WhereSame<T>(s: seq<T>, p: T -> bool, q: T -> bool)
    requires forall i :: 0 <= i < |s| ==> p(s[i]) == q(s[i])
    ensures Where(s, p) == Where(s, q)
  {
    if s != [] { WhereSame(s[..|s| - 1], p, q); }
  }

  lemma {:induction false} WhereAll<T>(s: seq<T>, p: T -> bool, q: T -> bool)
    requires forall x :: x in s ==> p(x) && !q(x)
    ensures Where(s, p) == s && Where(s, q) == []
  {
    if s != [] {
      assert s == s[..|s| - 1] + [s[|s| - 1]];
      WhereAll(s[..|s| - 1], p, q);
    }
  }

  lemma {:induction false} WhereImplied<T(!new)>(s: seq<T>, p: T -> bool, q: T -> bool)
    requires forall x :: q(x) ==> p(x)
    ensures Where(Where(s, p), q) == Where(s, q)
  {
    if s != [] {
      var init, last := s[..|s| - 1], s[|s| - 1];
      WhereImplied(init, p, q);
      WhereSnoc(Where(init, p), last, q);
      assert Where(init, p) + [] == Where(init, p) && (q(last) ==> p(last));
    }
  }

  lemma {:induction false} WhereExcluded<T(!new)>(s: seq<T>, p: T -> bool, q: T -> bool)
    requires forall x :: q(x) ==> !p(x)
    ensures Where(Where(s, p), q) == []
  {
    if s != [] {
      var init, last := s[..|s| - 1], s[|s| - 1];
      WhereExcluded(init, p, q);
      WhereSnoc(Where(init, p), last, q);
      assert Where(init, p) + [] == Where(init, p) && (q(last) ==> !p(last));
    }
  }

  ghost predicate Keyed<G>(groups: map<string, G>, id: G -> string) {
    forall k :: k in groups ==> id(groups[k]) == k
  }

  ghost predicate Has<G>(s: seq<G>, id: G -> string, k: string) {
    exists i :: 0 <= i < |s| && id(s[i]) == k
  }

  ghost predicate Distinct<G>(s: seq<G>, id: G -> string) {
    forall i, j :: 0 <= i < j < |s| ==> id(s[i]) != id(s[j])
  }

  ghost predicate NewestFirst<G>(s: seq<G>, time: G -> int) {
    forall i, j :: 0 <= i < j < |s| ==> time(s[i]) >= time(s[j])
  }

  /** The groups outside rest, newest first; those in rest are no newer. */
  ghost predicate Arranged<G>(groups: map<string, G>, rest: set<string>, s: seq<G>, id: G -> string, time: G -> int) {
    && Distinct(s, id) && NewestFirst(s, time)
    && (forall i :: 0 <= i < |s| ==> id(s[i]) in groups && id(s[i]) !in rest && s[i] == groups[id(s[i])])
    && (forall i, k :: 0 <= i < |s| && k in rest && k in groups ==> time(s[i]) >= time(groups[k]))
    && (forall k :: k in groups && k !in rest ==> Has(s, id, k))
  }

  lemma {:induction false} NewestExists<G>(groups: map<string, G>, ids: set<string>, time: G -> int)
    returns (newest: string)
    requires ids != {} && ids <= groups.Keys
    ensures newest in ids && forall k :: k in ids ==> time(groups[k]) <= time(groups[newest])
    decreases |ids|
  {
    newest :| newest in ids;
    if ids != {newest} {
      var other := NewestExists(groups, ids - {newest}, time);
      if time(groups[other]) > time(groups[newest]) { newest := other; }
    }
  }

  lemma ArrangeStep<G>(groups: map<string, G>, rest: set<string>, s: seq<G>, id: G -> string, time: G -> int, k: string)
    requires Keyed(groups, id) && Arranged(groups, rest, s, id, time) && rest <= groups.Keys && k in rest
    requires forall j :: j in rest ==> time(groups[j]) <= time(groups[k])
    ensures Arranged(groups, rest - {k}, s + [groups[k]], id, time)
  {
    var now := s + [groups[k]];
    forall j | j in groups && j !in rest - {k} ensures Has(now, id, j) {
      if j == k {
        assert id(now[|s|]) == j;
      } else {
        var i :| 0 <= i < |s| && id(s[i]) == j;
        assert id(now[i]) == j;
      }
    }
  }

  method Arrange<G>(groups: map<string, G>, id: G -> string, time: G -> int) returns (s: seq<G>)
    requires Keyed(groups, id)
    ensures Arranged(groups, {}, s, id, time)
  {
    s := [];
    var rest := groups.Keys;
    while rest != {}
      invariant rest <= groups.Keys && Arranged(groups, rest, s, id, time)
      decreases |rest|
    {
      ghost var _ := NewestExists(groups, rest, time);
      var k :| k in rest && forall j :: j in rest ==> time(groups[j]) <= time(groups[k]);
      ArrangeStep(groups, rest, s, id, time, k);
      s := s + [groups[k]];
      rest := rest - {k};
    }
  }
}
