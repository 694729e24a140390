/** The order `sort.Strings` uses, and that a sorted sequence depends only on its elements. */
module Lexicographic {
  import opened Bytes

  predicate Leq(a: Octets, b: Octets) {
    a == [] || (b != [] && (a[0] < b[0] || (a[0] == b[0] && Leq(a[1..], b[1..]))))
  }

  lemma {:induction false} LeqTotal(a: Octets, b: Octets)
    ensures Leq(a, b) || Leq(b, a)
  {
    if a != [] && b != [] && a[0] == b[0] {
      LeqTotal(a[1..], b[1..]);
    }
  }

  lemma {:induction false} LeqAntisymmetric(a: Octets, b: Octets)
    requires Leq(a, b) && Leq(b, a)
    ensures a == b
  {
    if a != [] {
      LeqAntisymmetric(a[1..], b[1..]);
      assert a == [a[0]] + a[1..] && b == [b[0]] + b[1..];
    }
  }

  lemma {:induction false} LeqTransitive(a: Octets, b: Octets, c: Octets)
    requires Leq(a, b) && Leq(b, c)
    ensures Leq(a, c)
  {
    if a != [] && a[0] == b[0] == c[0] {
      LeqTransitive(a[1..], b[1..], c[1..]);
    }
  }

  ghost predicate IsSorted(s: seq<Octets>) {
    forall i, j :: 0 <= i < j < |s| ==> Leq(s[i], s[j])
  }

  function Insert(x: Octets, s: seq<Octets>): (r: seq<Octets>)
    ensures |r| == |s| + 1
    ensures multiset(r) == multiset{x} + multiset(s)
  {
    if s == [] then [x]
    else if Leq(x, s[0]) then [x] + s
    else
      assert s == [s[0]] + s[1..];
      [s[0]] + Insert(x, s[1..])
  }

  lemma {:induction false} InsertSorted(x: Octets, s: seq<Octets>)
    requires IsSorted(s)
    ensures IsSorted(Insert(x, s))
  {
    if s != [] {
      LeqTotal(x, s[0]);
      if Leq(x, s[0]) {
        forall j | 0 <= j < |s| ensures Leq(x, s[j]) {
          if j > 0 {
            LeqTransitive(x, s[0], s[j]);
          }
        }
      } else {
        var tail := Insert(x, s[1..]);
        InsertSorted(x, s[1..]);
        forall j | 0 <= j < |tail| ensures Leq(s[0], tail[j]) {
          assert tail[j] in multiset(tail);
          if tail[j] != x {
            assert tail[j] in s[1..];
          }
        }
      }
    }
  }

  /** `sort.Strings`. */
  function Sort(s: seq<Octets>): (r: seq<Octets>)
    ensures |r| == |s|
    ensures multiset(r) == multiset(s)
  {
    if s == [] then []
    else
      assert s == [s[0]] + s[1..];
      Insert(s[0], Sort(s[1..]))
  }

  lemma {:induction false} SortSorts(s: seq<Octets>)
    ensures IsSorted(Sort(s))
  {
    if s != [] {
      SortSorts(s[1..]);
      InsertSorted(s[0], Sort(s[1..]));
    }
  }

  lemma {:induction false} LeqReflexive(a: Octets)
    ensures Leq(a, a)
  {
    if a != [] {
      LeqReflexive(a[1..]);
    }
  }

  lemma HeadIsLeast(a: seq<Octets>, x: Octets)
    requires IsSorted(a) && a != [] && x in multiset(a)
    ensures Leq(a[0], x)
  {
    var i :| 0 <= i < |a| && a[i] == x;
    LeqReflexive(x);
  }

  lemma TailElements(a: seq<Octets>)
    requires a != []
    ensures multiset(a[1..]) == multiset(a) - multiset{a[0]}
    ensures a[0] in multiset(a)
  {
    assert a == [a[0]] + a[1..];
  }

  /** Two sorted sequences with the same elements are the same sequence. */
  lemma {:induction false} SortedUnique(a: seq<Octets>, b: seq<Octets>)
    requires IsSorted(a) && IsSorted(b) && multiset(a) == multiset(b)
    ensures a == b
  {
    assert |a| == |multiset(a)| == |multiset(b)| == |b|;
    if a != [] {
      TailElements(a);
      TailElements(b);
      HeadIsLeast(a, b[0]);
      HeadIsLeast(b, a[0]);
      LeqAntisymmetric(a[0], b[0]);
      SortedUnique(a[1..], b[1..]);
      assert a == [a[0]] + a[1..] && b == [b[0]] + b[1..];
    }
  }

  /** Sorting forgets the order and nothing else. */
  lemma SortForgetsOrder(a: seq<Octets>, b: seq<Octets>)
    ensures Sort(a) == Sort(b) <==> multiset(a) == multiset(b)
  {
    SortSorts(a);
    SortSorts(b);
    if multiset(a) == multiset(b) {
      SortedUnique(Sort(a), Sort(b));
    }
  }

  // ---------------------------------------------------------------- sorting by a text

  function InsertBy<A>(f: A -> Octets, a: A, s: seq<A>): seq<A> {
    if s == [] then [a] else if Leq(f(a), f(s[0])) then [a] + s else [s[0]] + InsertBy(f, a, s[1..])
  }

  /** The elements in the order of their texts. */
  function SortBy<A>(f: A -> Octets, s: seq<A>): seq<A> {
    if s == [] then [] else InsertBy(f, s[0], SortBy(f, s[1..]))
  }

  lemma {:induction false} MapOfInsertBy<A>(f: A -> Octets, a: A, s: seq<A>)
    ensures Map(f, InsertBy(f, a, s)) == Insert(f(a), Map(f, s))
  {
    MapCons(f, InsertBy(f, a, s));
    if s != [] {
      MapCons(f, s);
      if Leq(f(a), f(s[0])) {
        assert ([a] + s)[1..] == s;
      } else {
        MapOfInsertBy(f, a, s[1..]);
        assert ([s[0]] + InsertBy(f, a, s[1..]))[1..] == InsertBy(f, a, s[1..]);
      }
    }
  }

  /** Sorting the elements by their texts sorts the texts. */
  lemma {:induction false} MapOfSortBy<A>(f: A -> Octets, s: seq<A>)
    ensures Map(f, SortBy(f, s)) == Sort(Map(f, s))
  {
    if s != [] {
      MapCons(f, s);
      MapOfSortBy(f, s[1..]);
      MapOfInsertBy(f, s[0], SortBy(f, s[1..]));
    }
  }

  lemma MultisetOfMapCons<A, B>(g: A -> B, a: A, s: seq<A>)
    ensures multiset(Map(g, [a] + s)) == multiset{g(a)} + multiset(Map(g, s))
  {
    MapCons(g, [a] + s);
    assert ([a] + s)[1..] == s;
  }

  lemma {:induction false} InsertByKeeps<A, B>(f: A -> Octets, g: A -> B, a: A, s: seq<A>)
    ensures multiset(Map(g, InsertBy(f, a, s))) == multiset{g(a)} + multiset(Map(g, s))
  {
    if s == [] {
      assert [a] + s == [a];
      MultisetOfMapCons(g, a, s);
    } else if Leq(f(a), f(s[0])) {
      MultisetOfMapCons(g, a, s);
    } else {
      InsertByKeeps(f, g, a, s[1..]);
      MultisetOfMapCons(g, s[0], InsertBy(f, a, s[1..]));
      MultisetOfMapCons(g, s[0], s[1..]);
      assert s == [s[0]] + s[1..];
    }
  }

  /** Sorting changes no property that can be counted. */
  lemma {:induction false} SortByKeeps<A, B>(f: A -> Octets, g: A -> B, s: seq<A>)
    ensures |SortBy(f, s)| == |s|
    ensures multiset(Map(g, SortBy(f, s))) == multiset(Map(g, s))
  {
    if s != [] {
      SortByKeeps(f, g, s[1..]);
      InsertByKeeps(f, g, s[0], SortBy(f, s[1..]));
      MultisetOfMapCons(g, s[0], s[1..]);
      assert s == [s[0]] + s[1..];
    }
    assert |multiset(Map(g, SortBy(f, s)))| == |multiset(Map(g, s))|;
  }

  // ---------------------------------------------------------------- counting through an injection

  ghost predicate InjectiveOn<A(!new), B>(f: A -> B, p: A -> bool) {
    forall x, y :: p(x) && p(y) && f(x) == f(y) ==> x == y
  }

  lemma {:induction false} CountThrough<A(!new), B>(f: A -> B, p: A -> bool, s: seq<A>, x: A)
    requires InjectiveOn(f, p) && p(x) && forall i :: 0 <= i < |s| ==> p(s[i])
    ensures multiset(Map(f, s))[f(x)] == multiset(s)[x]
  {
    if s != [] {
      CountThrough(f, p, s[1..], x);
      assert s == [s[0]] + s[1..];
      MultisetOfMapCons(f, s[0], s[1..]);
    }
  }

  /** Through an injection two sequences have the same images exactly when they have the same
      elements. */
  lemma SameThrough<A(!new), B>(f: A -> B, p: A -> bool, s: seq<A>, t: seq<A>)
    requires InjectiveOn(f, p)
    requires (forall i :: 0 <= i < |s| ==> p(s[i])) && (forall i :: 0 <= i < |t| ==> p(t[i]))
    ensures multiset(Map(f, s)) == multiset(Map(f, t)) <==> multiset(s) == multiset(t)
  {
    var ms, mt := multiset(Map(f, s)), multiset(Map(f, t));
    if ms == mt {
      forall x | x in multiset(s) || x in multiset(t) ensures multiset(s)[x] == multiset(t)[x] {
        assert x in s || x in t;
        CountThrough(f, p, s, x);
        CountThrough(f, p, t, x);
      }
      SameCounts(multiset(s), multiset(t));
    }
    if multiset(s) == multiset(t) {
      forall y | y in ms || y in mt ensures ms[y] == mt[y] {
        var x := Preimage(f, s, t, y);
        CountThrough(f, p, s, x);
        CountThrough(f, p, t, x);
      }
      SameCounts(ms, mt);
    }
  }

  lemma SameCounts<A>(a: multiset<A>, b: multiset<A>)
    requires forall x :: x in a || x in b ==> a[x] == b[x]
    ensures a == b
  {
  }

  lemma Preimage<A, B>(f: A -> B, s: seq<A>, t: seq<A>, y: B) returns (x: A)
    requires y in multiset(Map(f, s)) || y in multiset(Map(f, t))
    ensures (x in s || x in t) && f(x) == y
  {
    if y in multiset(Map(f, s)) {
      assert y in Map(f, s);
      var i :| 0 <= i < |s| && Map(f, s)[i] == y;
      x := s[i];
    } else {
      assert y in Map(f, t);
      var i :| 0 <= i < |t| && Map(f, t)[i] == y;
      x := t[i];
    }
  }
}
