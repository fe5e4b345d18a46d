// Strict orders, sorting and removing duplicates, as the Plan's encoder and decoder use them.
module Ordering {
  ghost predicate Strict<T(!new)>(less: (T, T) -> bool) {
    && (forall a :: !less(a, a))
    && (forall a, b, c :: less(a, b) && less(b, c) ==> less(a, c))
  }

  // Elements that are not ordered either way are of equal rank.
  ghost predicate Weak<T(!new)>(less: (T, T) -> bool) {
    Strict(less) && forall a, b, c :: less(a, c) ==> less(a, b) || less(b, c)
  }

  ghost predicate Total<T(!new)>(less: (T, T) -> bool) {
    Strict(less) && forall a, b :: a == b || less(a, b) || less(b, a)
  }

  // ---- Lexicographic order ----

  predicate LexLess<T(==)>(less: (T, T) -> bool, a: seq<T>, b: seq<T>)
    decreases |a|
  {
    if b == [] then false
    else if a == [] then true
    else if a[0] == b[0] then LexLess(less, a[1..], b[1..])
    else less(a[0], b[0])
  }

  lemma {:induction false} LexIrreflexive<T(!new)>(less: (T, T) -> bool, a: seq<T>)
    ensures !LexLess(less, a, a)
    decreases |a|
  {
    if a != [] {
      LexIrreflexive(less, a[1..]);
    }
  }

  lemma {:induction false} LexTransitive<T(!new)>(less: (T, T) -> bool, a: seq<T>, b: seq<T>, c: seq<T>)
    requires Total(less) && LexLess(less, a, b) && LexLess(less, b, c)
    ensures LexLess(less, a, c)
    decreases |a|
  {
    if a != [] && a[0] == b[0] == c[0] {
      LexTransitive(less, a[1..], b[1..], c[1..]);
    }
  }

  lemma {:induction false} LexTotal<T(!new)>(less: (T, T) -> bool, a: seq<T>, b: seq<T>)
    requires Total(less)
    ensures a == b || LexLess(less, a, b) || LexLess(less, b, a)
    decreases |a|
  {
    if a != [] && b != [] && a[0] == b[0] {
      LexTotal(less, a[1..], b[1..]);
      assert a == [a[0]] + a[1..] && b == [b[0]] + b[1..];
    }
  }

  function Lex<T(==)>(less: (T, T) -> bool): (seq<T>, seq<T>) -> bool {
    (a, b) => LexLess(less, a, b)
  }

  lemma LexIsTotal<T(!new)>(less: (T, T) -> bool)
    requires Total(less)
    ensures Total(Lex(less))
  {
    var lex := Lex(less);
    forall a ensures !lex(a, a) {
      LexIrreflexive(less, a);
    }
    forall a, b, c | lex(a, b) && lex(b, c) ensures lex(a, c) {
      LexTransitive(less, a, b, c);
    }
    forall a, b ensures a == b || lex(a, b) || lex(b, a) {
      LexTotal(less, a, b);
    }
  }

  // ---- Sorting ----

  // Before the first element that is not smaller, so elements of equal rank keep their order.
  function Insert<T>(less: (T, T) -> bool, x: T, s: seq<T>): (r: seq<T>)
    decreases |s|
  {
    if s == [] || !less(s[0], x) then [x] + s else [s[0]] + Insert(less, x, s[1..])
  }

  function Sort<T>(less: (T, T) -> bool, s: seq<T>): seq<T> {
    if s == [] then [] else Insert(less, s[0], Sort(less, s[1..]))
  }

  function Dedup<T(==)>(s: seq<T>): seq<T> {
    if |s| < 2 then s
    else if s[0] == s[1] then Dedup(s[1..])
    else [s[0]] + Dedup(s[1..])
  }

  lemma SortOne<T>(less: (T, T) -> bool, x: T)
    ensures Sort(less, [x]) == [x]
  {
    assert [x][1..] == [];
    assert Sort(less, [x][1..]) == [];
  }

  lemma {:induction false} InsertPermutes<T>(less: (T, T) -> bool, x: T, s: seq<T>)
    ensures multiset(Insert(less, x, s)) == multiset{x} + multiset(s)
    decreases |s|
  {
    if s != [] && less(s[0], x) {
      InsertPermutes(less, x, s[1..]);
      assert s == [s[0]] + s[1..];
    }
  }

  lemma {:induction false} SortPermutes<T>(less: (T, T) -> bool, s: seq<T>)
    ensures multiset(Sort(less, s)) == multiset(s) && |Sort(less, s)| == |s|
    decreases |s|
  {
    if s != [] {
      SortPermutes(less, s[1..]);
      InsertPermutes(less, s[0], Sort(less, s[1..]));
      assert s == [s[0]] + s[1..];
      assert |multiset(Sort(less, s))| == |multiset(s)|;
    }
  }

  // Ascending: no element is followed by a smaller one.
  ghost predicate Ascending<T>(less: (T, T) -> bool, s: seq<T>) {
    forall i, j | 0 <= i < j < |s| :: !less(s[j], s[i])
  }

  ghost predicate Increasing<T>(less: (T, T) -> bool, s: seq<T>) {
    forall i, j | 0 <= i < j < |s| :: less(s[i], s[j])
  }

  lemma {:induction false} InsertKeepsAscending<T(!new)>(less: (T, T) -> bool, x: T, s: seq<T>)
    requires Weak(less) && Ascending(less, s)
    ensures Ascending(less, Insert(less, x, s))
    decreases |s|
  {
    var r := Insert(less, x, s);
    if s != [] && less(s[0], x) {
      InsertKeepsAscending(less, x, s[1..]);
      var rest := Insert(less, x, s[1..]);
      InsertPermutes(less, x, s[1..]);
      forall k | 0 <= k < |rest| ensures !less(rest[k], s[0]) {
        assert rest[k] in multiset(rest);
        assert rest[k] == x || rest[k] in s[1..];
      }
    } else if s != [] {
      forall k | 0 <= k < |s| ensures !less(s[k], x) {
        assert k == 0 || !less(s[k], s[0]);
      }
    }
  }

  lemma {:induction false} SortSorts<T(!new)>(less: (T, T) -> bool, s: seq<T>)
    requires Weak(less)
    ensures Ascending(less, Sort(less, s))
    decreases |s|
  {
    if s != [] {
      SortSorts(less, s[1..]);
      InsertKeepsAscending(less, s[0], Sort(less, s[1..]));
    }
  }

  // ---- Canonical sequences ----

  lemma EmptyOrNot<T>(s: seq<T>)
    ensures s == [] || exists x :: x in s
  {
    if s != [] {
      assert s[0] in s;
    }
  }

  // An increasing sequence is settled by its elements.
  lemma {:induction false} IncreasingIsUnique<T(!new)>(less: (T, T) -> bool, a: seq<T>, b: seq<T>)
    requires Strict(less) && Increasing(less, a) && Increasing(less, b)
    requires forall x :: x in a <==> x in b
    ensures a == b
    decreases |a|
  {
    if a == [] {
      EmptyOrNot(b);
    } else {
      assert a[0] in b && b != [];
      assert b[0] in a;
      assert a[0] == b[0];
      forall x ensures x in a[1..] <==> x in b[1..] {
        if x in a[1..] {
          assert x in b && less(a[0], x);
        }
        if x in b[1..] {
          assert x in a && less(b[0], x);
        }
      }
      IncreasingIsUnique(less, a[1..], b[1..]);
      assert a == [a[0]] + a[1..] && b == [b[0]] + b[1..];
    }
  }

  lemma SameElements<T>(a: seq<T>, b: seq<T>)
    requires multiset(a) == multiset(b)
    ensures forall x :: x in a <==> x in b
  {
    forall x ensures x in a <==> x in b {
      assert x in a <==> x in multiset(a);
    }
  }

  ghost predicate NoDuplicates<T>(s: seq<T>) {
    forall i, j | 0 <= i < j < |s| :: s[i] != s[j]
  }

  lemma {:induction false} AtMostOnce<T>(s: seq<T>, x: T)
    requires NoDuplicates(s)
    ensures multiset(s)[x] <= 1
    decreases |s|
  {
    if s != [] {
      AtMostOnce(s[1..], x);
      assert s == [s[0]] + s[1..];
    }
  }

  lemma TwiceThere<T>(s: seq<T>, i: nat, j: nat)
    requires i < j < |s| && s[i] == s[j]
    ensures multiset(s)[s[i]] >= 2
  {
    assert s == s[..i] + [s[i]] + s[i + 1..j] + [s[j]] + s[j + 1..];
  }

  lemma PermutedNoDuplicates<T>(a: seq<T>, b: seq<T>)
    requires multiset(a) == multiset(b) && NoDuplicates(a)
    ensures NoDuplicates(b)
  {
    forall i, j | 0 <= i < j < |b| ensures b[i] != b[j] {
      AtMostOnce(a, b[i]);
      if b[i] == b[j] {
        TwiceThere(b, i, j);
      }
    }
  }

  ghost predicate Comparable<T(!new)>(less: (T, T) -> bool, s: seq<T>) {
    forall i, j | 0 <= i < j < |s| :: less(s[i], s[j]) || less(s[j], s[i])
  }

  lemma {:induction false} InsertIncreases<T(!new)>(less: (T, T) -> bool, x: T, s: seq<T>)
    requires Strict(less) && Increasing(less, s)
    requires forall k | 0 <= k < |s| :: less(x, s[k]) || less(s[k], x)
    ensures Increasing(less, Insert(less, x, s))
    decreases |s|
  {
    if s != [] && less(s[0], x) {
      InsertIncreases(less, x, s[1..]);
      var rest := Insert(less, x, s[1..]);
      InsertPermutes(less, x, s[1..]);
      forall k | 0 <= k < |rest| ensures less(s[0], rest[k]) {
        assert rest[k] in multiset(rest);
        assert rest[k] == x || rest[k] in s[1..];
      }
    }
  }

  // Sorting elements that are pairwise comparable puts them in increasing order.
  lemma {:induction false} SortIncreases<T(!new)>(less: (T, T) -> bool, s: seq<T>)
    requires Strict(less) && Comparable(less, s)
    ensures Increasing(less, Sort(less, s))
    decreases |s|
  {
    if s != [] {
      SortIncreases(less, s[1..]);
      SortPermutes(less, s[1..]);
      SameElements(Sort(less, s[1..]), s[1..]);
      var rest := Sort(less, s[1..]);
      forall k | 0 <= k < |rest| ensures less(s[0], rest[k]) || less(rest[k], s[0]) {
        assert rest[k] in s[1..];
        var j :| 1 <= j < |s| && s[j] == rest[k];
      }
      InsertIncreases(less, s[0], rest);
    }
  }

  lemma {:induction false} SortOfIncreasing<T(!new)>(less: (T, T) -> bool, s: seq<T>)
    requires Strict(less) && Increasing(less, s)
    ensures Sort(less, s) == s
    decreases |s|
  {
    if s != [] {
      SortOfIncreasing(less, s[1..]);
    }
  }

  function Canonical<T(==)>(less: (T, T) -> bool, s: seq<T>): seq<T> {
    Dedup(Sort(less, s))
  }

  lemma {:induction false} DedupKeepsElements<T(!new)>(s: seq<T>)
    ensures forall x :: x in Dedup(s) <==> x in s
    decreases |s|
  {
    if |s| >= 2 {
      DedupKeepsElements(s[1..]);
      assert s == [s[0]] + s[1..];
    }
  }

  lemma {:induction false} DedupIncreases<T(!new)>(less: (T, T) -> bool, s: seq<T>)
    requires Total(less) && Ascending(less, s)
    ensures Increasing(less, Dedup(s))
    decreases |s|
  {
    if |s| >= 2 {
      DedupIncreases(less, s[1..]);
      DedupKeepsElements(s[1..]);
      if s[0] != s[1] {
        var rest := Dedup(s[1..]);
        forall k | 0 <= k < |rest| ensures less(s[0], rest[k]) {
          assert rest[k] in s[1..];
          var j :| 1 <= j < |s| && s[j] == rest[k];
          assert less(s[0], s[1]) && (j == 1 || !less(s[j], s[1]));
        }
      }
    }
  }

  // Sorting and removing duplicates gives the one increasing sequence of the same elements.
  lemma CanonicalIsIncreasing<T(!new)>(less: (T, T) -> bool, s: seq<T>)
    requires Total(less)
    ensures Increasing(less, Canonical(less, s)) && forall x :: x in Canonical(less, s) <==> x in s
  {
    SortSorts(less, s);
    SortPermutes(less, s);
    SameElements(Sort(less, s), s);
    DedupIncreases(less, Sort(less, s));
    DedupKeepsElements(Sort(less, s));
  }

  lemma {:induction false} DedupOfIncreasing<T(!new)>(less: (T, T) -> bool, s: seq<T>)
    requires Strict(less) && Increasing(less, s)
    ensures Dedup(s) == s
    decreases |s|
  {
    if |s| >= 2 {
      DedupOfIncreasing(less, s[1..]);
      assert s == [s[0]] + s[1..];
    }
  }
}
