/**
 Ordering: the string comparison and the stable sort every engine relies on for
 determinism, with the two facts the determinism arguments rest on: a sort keeps
 the elements, and a strictly increasing sequence is determined by its elements.
 */
module Ordering {

  datatype Option<+T> = None | Some(value: T)

  /** Lexicographic comparison of strings, as `<` on them. */
  predicate StringLess(a: string, b: string) {
    b != [] && (a == [] || a[0] < b[0] || (a[0] == b[0] && StringLess(a[1..], b[1..])))
  }

  /** A comparison `sort.Slice` can be given: asymmetric, with transitive ties. */
  ghost predicate StrictWeakOrder<T(!new)>(less: (T, T) -> bool) {
    && (forall a, b :: less(a, b) ==> !less(b, a))
    && (forall a, b, c :: less(a, c) ==> less(a, b) || less(b, c))
  }

  /** A comparison without ties between different values. */
  ghost predicate TotalOrder<T(!new)>(less: (T, T) -> bool) {
    && StrictWeakOrder(less)
    && (forall a, b :: a != b ==> less(a, b) || less(b, a))
  }

  /** Pairwise strictly increasing. */
  ghost predicate Increasing<T>(s: seq<T>, less: (T, T) -> bool) {
    forall i, j | 0 <= i < j < |s| :: less(s[i], s[j])
  }

  /** Different positions hold values the comparison tells apart. */
  ghost predicate Separated<T>(s: seq<T>, less: (T, T) -> bool) {
    forall i, j | 0 <= i < j < |s| :: less(s[i], s[j]) || less(s[j], s[i])
  }

  ghost predicate NoDup<T>(s: seq<T>) {
    forall i, j | 0 <= i < j < |s| :: s[i] != s[j]
  }

  lemma TakeNext<T>(s: seq<T>, k: nat)
    requires k < |s|
    ensures s[..k] + [s[k]] == s[..k + 1]
  {
  }

  lemma TakeDrop<T>(s: seq<T>, k: nat)
    requires k <= |s|
    ensures s == s[..k] + s[k..]
  {
  }

  lemma NoDupAppend<T>(s: seq<T>, x: T)
    requires NoDup(s) && x !in s
    ensures NoDup(s + [x])
  {
  }

  lemma {:induction false} StringLessAsymmetric(a: string, b: string)
    ensures StringLess(a, b) ==> !StringLess(b, a)
  {
    if a != [] && b != [] { StringLessAsymmetric(a[1..], b[1..]); }
  }

  lemma {:induction false} StringLessSplits(a: string, b: string, c: string)
    requires StringLess(a, c)
    ensures StringLess(a, b) || StringLess(b, c)
  {
    if a != [] && b != [] && c != [] && a[0] == b[0] == c[0] {
      StringLessSplits(a[1..], b[1..], c[1..]);
    }
  }

  lemma {:induction false} StringLessConnected(a: string, b: string)
    requires a != b
    ensures StringLess(a, b) || StringLess(b, a)
  {
    if a != [] && b != [] && a[0] == b[0] {
      assert a == [a[0]] + a[1..] && b == [b[0]] + b[1..];
      StringLessConnected(a[1..], b[1..]);
    }
  }

  lemma StringLessIsTotal()
    ensures TotalOrder(StringLess)
  {
    forall a, b ensures StringLess(a, b) ==> !StringLess(b, a) { StringLessAsymmetric(a, b); }
    forall a, b, c | StringLess(a, c) ensures StringLess(a, b) || StringLess(b, c) { StringLessSplits(a, b, c); }
    forall a, b | a != b ensures StringLess(a, b) || StringLess(b, a) { StringLessConnected(a, b); }
  }

  /** A common prefix does not take part in the comparison. */
  lemma {:induction false} StringLessPrefix(p: string, a: string, b: string)
    ensures StringLess(p + a, p + b) == StringLess(a, b)
  {
    if p == [] {
      assert p + a == a && p + b == b;
    } else {
      assert (p + a)[1..] == p[1..] + a && (p + b)[1..] == p[1..] + b;
      StringLessPrefix(p[1..], a, b);
    }
  }

  /** Insertion keeping earlier elements before later equal ones. */
  function Insert<T>(x: T, s: seq<T>, less: (T, T) -> bool): seq<T> {
    if s != [] && less(s[0], x) then [s[0]] + Insert(x, s[1..], less) else [x] + s
  }

  /** The stable sort; what `sort.SliceStable` returns for `less`. */
  function SortBy<T>(s: seq<T>, less: (T, T) -> bool): seq<T> {
    if s == [] then [] else Insert(s[0], SortBy(s[1..], less), less)
  }

  lemma {:induction false} InsertElements<T>(x: T, s: seq<T>, less: (T, T) -> bool)
    ensures multiset(Insert(x, s, less)) == multiset(s) + multiset{x}
  {
    if s != [] && less(s[0], x) {
      InsertElements(x, s[1..], less);
      assert s == [s[0]] + s[1..];
    }
  }

  lemma {:induction false} SortMultiset<T>(s: seq<T>, less: (T, T) -> bool)
    ensures multiset(SortBy(s, less)) == multiset(s)
  {
    if s != [] {
      SortMultiset(s[1..], less);
      InsertElements(s[0], SortBy(s[1..], less), less);
      assert s == [s[0]] + s[1..];
    }
  }

  lemma SortElements<T>(s: seq<T>, less: (T, T) -> bool)
    ensures |SortBy(s, less)| == |s|
    ensures forall x :: x in SortBy(s, less) <==> x in s
  {
    var t := SortBy(s, less);
    SortMultiset(s, less);
    assert |multiset(t)| == |t| && |multiset(s)| == |s|;
    forall x ensures x in t <==> x in s {
      assert x in t <==> x in multiset(t);
      assert x in s <==> x in multiset(s);
    }
  }

  lemma {:induction false} InsertIncreasing<T(!new)>(x: T, s: seq<T>, less: (T, T) -> bool)
    requires StrictWeakOrder(less)
    requires Increasing(s, less)
    requires forall y | y in s :: less(x, y) || less(y, x)
    ensures Increasing(Insert(x, s, less), less)
  {
    if s != [] && less(s[0], x) {
      var rest := Insert(x, s[1..], less);
      InsertIncreasing(x, s[1..], less);
      InsertElements(x, s[1..], less);
      forall j | 0 <= j < |rest| ensures less(s[0], rest[j]) {
        assert rest[j] in multiset(rest);
        assert rest[j] == x || rest[j] in s[1..];
      }
    } else if s != [] {
      forall j | 0 <= j < |s| ensures less(x, s[j]) {
        assert less(x, s[0]);
        assert j > 0 ==> less(s[0], s[j]);
      }
    }
  }

  /** Sorting values the comparison tells apart gives a strictly increasing sequence. */
  lemma {:induction false} SortIncreasing<T(!new)>(s: seq<T>, less: (T, T) -> bool)
    requires StrictWeakOrder(less)
    requires Separated(s, less)
    ensures Increasing(SortBy(s, less), less)
  {
    if s != [] {
      SortIncreasing(s[1..], less);
      SortElements(s[1..], less);
      InsertIncreasing(s[0], SortBy(s[1..], less), less);
    }
  }

  /** A strictly increasing sequence is determined by the values in it. */
  lemma {:induction false} IncreasingUnique<T(!new)>(s: seq<T>, t: seq<T>, less: (T, T) -> bool)
    requires StrictWeakOrder(less)
    requires Increasing(s, less) && Increasing(t, less)
    requires forall x :: x in s <==> x in t
    ensures s == t
  {
    assert s == [] ==> t == [] by { assert t == [] || t[0] in t; }
    if s != [] {
      assert s[0] in t;
      assert t[0] in s;
      assert s[0] == t[0];
      forall x ensures x in s[1..] <==> x in t[1..] {
        assert s == [s[0]] + s[1..] && t == [t[0]] + t[1..];
        if x in s[1..] { assert less(s[0], x); assert x in t; }
        if x in t[1..] { assert less(t[0], x); assert x in s; }
      }
      IncreasingUnique(s[1..], t[1..], less);
      assert s == [s[0]] + s[1..] && t == [t[0]] + t[1..];
    }
  }

  /** Two lists of the same separated values sort to the same sequence. */
  lemma SortCanonical<T(!new)>(s: seq<T>, t: seq<T>, less: (T, T) -> bool)
    requires StrictWeakOrder(less)
    requires Separated(s, less) && Separated(t, less)
    requires forall x :: x in s <==> x in t
    ensures SortBy(s, less) == SortBy(t, less)
  {
    SortIncreasing(s, less);
    SortIncreasing(t, less);
    SortElements(s, less);
    SortElements(t, less);
    IncreasingUnique(SortBy(s, less), SortBy(t, less), less);
  }

  lemma {:induction false} LeastExists<T(!new)>(s: set<T>, less: (T, T) -> bool) returns (m: T)
    requires s != {}
    requires TotalOrder(less)
    ensures m in s && forall x | x in s && x != m :: less(m, x)
  {
    var x :| x in s;
    if s == {x} {
      m := x;
    } else {
      var rest := LeastExists(s - {x}, less);
      m := if less(x, rest) then x else rest;
      forall y | y in s && y != m ensures less(m, y) {
        if m == x { assert y == rest || less(rest, y); }
      }
    }
  }

  ghost predicate IsLeast<T(!new)>(m: T, s: set<T>, less: (T, T) -> bool) {
    m in s && forall x | x in s && x != m :: less(m, x)
  }

  /** The elements of a finite set in increasing order: a sorted map iteration. */
  ghost function SortedSet<T(!new)>(s: set<T>, less: (T, T) -> bool): (r: seq<T>)
    requires TotalOrder(less)
    ensures Increasing(r, less)
    ensures forall x :: x in r <==> x in s
  {
    if s == {} then [] else
      assert exists m :: IsLeast(m, s, less) by { var m := LeastExists(s, less); assert IsLeast(m, s, less); }
      var m :| IsLeast(m, s, less);
      var rest := SortedSet(s - {m}, less);
      assert forall i | 0 <= i < |rest| :: rest[i] in rest;
      [m] + rest
  }

  /** Listing a set in any order and sorting the list gives its one sorted sequence. */
  lemma SortedSetBySort<T(!new)>(found: seq<T>, s: set<T>, less: (T, T) -> bool)
    requires TotalOrder(less)
    requires forall x :: x in found <==> x in s
    requires NoDup(found)
    ensures SortBy(found, less) == SortedSet(s, less)
  {
    SortIncreasing(found, less);
    SortElements(found, less);
    IncreasingUnique(SortBy(found, less), SortedSet(s, less), less);
  }

  /** A list already in strict order is its own sorted form. */
  lemma SortOfIncreasing<T(!new)>(s: seq<T>, less: (T, T) -> bool)
    requires StrictWeakOrder(less) && Increasing(s, less)
    ensures SortBy(s, less) == s
  {
    SortIncreasing(s, less);
    SortElements(s, less);
    IncreasingUnique(SortBy(s, less), s, less);
  }

  // ---- Filters, first occurrences, permutations -------------------------

  /** The elements that satisfy `p`, in order. */
  function Keep<T>(s: seq<T>, p: T -> bool): seq<T> {
    if s == [] then [] else Keep(s[..|s| - 1], p) + if p(s[|s| - 1]) then [s[|s| - 1]] else []
  }

  lemma {:induction false} KeepElements<T>(s: seq<T>, p: T -> bool)
    ensures forall x :: x in Keep(s, p) <==> x in s && p(x)
  {
    if s != [] {
      KeepElements(s[..|s| - 1], p);
      assert s == s[..|s| - 1] + [s[|s| - 1]];
    }
  }

  lemma KeepOneMore<T>(s: seq<T>, x: T, p: T -> bool)
    ensures Keep(s + [x], p) == Keep(s, p) + if p(x) then [x] else []
  {
    assert (s + [x])[..|s|] == s;
  }

  /** The values of a list, each at its first occurrence. */
  function Distinct<T(==)>(s: seq<T>): seq<T> {
    if s == [] then [] else
      Distinct(s[..|s| - 1]) + if s[|s| - 1] in Distinct(s[..|s| - 1]) then [] else [s[|s| - 1]]
  }

  lemma {:induction false} DistinctElements<T>(s: seq<T>)
    ensures NoDup(Distinct(s))
    ensures forall x :: x in Distinct(s) <==> x in s
  {
    if s != [] {
      var rest, x := s[..|s| - 1], s[|s| - 1];
      DistinctElements(rest);
      assert s == rest + [x];
      if x !in Distinct(rest) { NoDupAppend(Distinct(rest), x); }
    }
  }

  lemma Around<T>(a: seq<T>, x: T, b: seq<T>)
    ensures multiset(a + [x] + b) - multiset{x} == multiset(a + b)
  {
    assert multiset(a + [x] + b) == multiset(a) + multiset{x} + multiset(b);
    assert multiset(a + b) == multiset(a) + multiset(b);
  }

  /** A rearrangement has the last element somewhere, and the rest around it. */
  lemma PermutationSplit<T>(s: seq<T>, t: seq<T>) returns (rest: seq<T>, x: T, a: seq<T>, b: seq<T>)
    requires s != [] && multiset(s) == multiset(t)
    ensures s == rest + [x] && t == a + [x] + b && multiset(rest) == multiset(a + b)
  {
    rest, x := s[..|s| - 1], s[|s| - 1];
    assert s == rest + [x];
    assert x in multiset(s) && x in t;
    var i :| 0 <= i < |t| && t[i] == x;
    a, b := t[..i], t[i + 1..];
    assert t == a + [x] + b;
    Around(a, x, b);
    assert multiset(rest) == multiset(s) - multiset{x};
  }

  lemma {:induction false} KeepAppend<T>(a: seq<T>, b: seq<T>, p: T -> bool)
    ensures Keep(a + b, p) == Keep(a, p) + Keep(b, p)
  {
    if b == [] {
      assert a + b == a;
    } else {
      assert (a + b)[..|a + b| - 1] == a + b[..|b| - 1];
      KeepAppend(a, b[..|b| - 1], p);
    }
  }

  lemma KeepAround<T>(a: seq<T>, x: T, b: seq<T>, p: T -> bool)
    ensures multiset(Keep(a + [x] + b, p)) == multiset(Keep(a + b, p)) + multiset(Keep([x], p))
  {
    KeepAppend(a, b, p);
    KeepAppend(a + [x], b, p);
    KeepAppend(a, [x], p);
    assert multiset(Keep(a, p) + Keep(b, p)) == multiset(Keep(a, p)) + multiset(Keep(b, p));
  }

  lemma {:induction false} KeepPermutation<T>(s: seq<T>, t: seq<T>, p: T -> bool)
    requires multiset(s) == multiset(t)
    ensures multiset(Keep(s, p)) == multiset(Keep(t, p))
    decreases |s|
  {
    if s == [] {
      assert |multiset(s)| == 0 && |multiset(t)| == |t|;
    } else {
      var rest, x, a, b := PermutationSplit(s, t);
      KeepPermutation(rest, a + b, p);
      KeepAround(a, x, b, p);
      KeepAppend(rest, [x], p);
    }
  }

  lemma SameMembership<T>(s: seq<T>, t: seq<T>)
    requires multiset(s) == multiset(t)
    ensures forall x :: x in s <==> x in t
  {
    forall x ensures x in s <==> x in t {
      assert x in s <==> x in multiset(s);
      assert x in t <==> x in multiset(t);
    }
  }

  lemma SubsetSize<T>(a: set<T>, b: set<T>)
    requires a <= b
    ensures |a| <= |b|
  {
    assert b == a + (b - a);
    assert |b| == |a| + |b - a|;
  }
}
