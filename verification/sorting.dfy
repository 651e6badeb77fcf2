/** A stable sort by a comparator, the shape of JavaScript's `Array.prototype.sort`
    (stable since ES2019) and of the deterministic orderings the backend asks of
    its queries.  `le(a, b)` holds when `a` may come before `b`. */
module Sorting {

  ghost predicate TotalPreorder<T(!new)>(le: (T, T) -> bool) {
    (forall a, b :: le(a, b) || le(b, a)) &&
    (forall a, b, c :: le(a, b) && le(b, c) ==> le(a, c))
  }

  ghost predicate SortedBy<T>(le: (T, T) -> bool, s: seq<T>) {
    forall i, j :: 0 <= i < j < |s| ==> le(s[i], s[j])
  }

  /** `a` and `b` compare equal: a stable sort keeps their input order. */
  predicate Equivalent<T>(le: (T, T) -> bool, a: T, b: T) {
    le(a, b) && le(b, a)
  }

  /** The elements of `s` that compare equal to `c`, in their order in `s`. */
  function EquivalenceClass<T>(le: (T, T) -> bool, s: seq<T>, c: T): seq<T> {
    if s == [] then []
    else (if Equivalent(le, s[0], c) then [s[0]] else []) + EquivalenceClass(le, s[1..], c)
  }

  /** Place `x` in front of the first element it may precede. */
  function Insert<T>(le: (T, T) -> bool, x: T, s: seq<T>): seq<T> {
    if s == [] || le(x, s[0]) then [x] + s else [s[0]] + Insert(le, x, s[1..])
  }

  function SortBy<T>(le: (T, T) -> bool, s: seq<T>): seq<T> {
    if s == [] then [] else Insert(le, s[0], SortBy(le, s[1..]))
  }

  lemma {:induction false} InsertPermutes<T>(le: (T, T) -> bool, x: T, s: seq<T>)
    ensures multiset(Insert(le, x, s)) == multiset(s) + multiset{x}
  {
    if s != [] && !le(x, s[0]) {
      InsertPermutes(le, x, s[1..]);
      assert s == [s[0]] + s[1..];
    }
  }

  lemma {:induction false} InsertSorted<T(!new)>(le: (T, T) -> bool, x: T, s: seq<T>)
    requires TotalPreorder(le)
    requires SortedBy(le, s)
    ensures SortedBy(le, Insert(le, x, s))
  {
    if s != [] && !le(x, s[0]) {
      var rest := Insert(le, x, s[1..]);
      InsertSorted(le, x, s[1..]);
      InsertPermutes(le, x, s[1..]);
      assert le(s[0], x);
      forall k | 0 <= k < |rest| ensures le(s[0], rest[k]) {
        assert rest[k] in multiset(rest);
        assert rest[k] in multiset(s[1..]) || rest[k] == x;
        if rest[k] != x {
          var m :| 0 <= m < |s[1..]| && s[1..][m] == rest[k];
          assert s[1 + m] == rest[k];
        }
      }
      var r := [s[0]] + rest;
      forall i, j | 0 <= i < j < |r| ensures le(r[i], r[j]) {
        if i == 0 {
          assert r[j] == rest[j - 1];
        } else {
          assert r[i] == rest[i - 1] && r[j] == rest[j - 1];
        }
      }
    }
  }

  lemma {:induction false} InsertClass<T(!new)>(le: (T, T) -> bool, x: T, s: seq<T>, c: T)
    requires TotalPreorder(le)
    ensures EquivalenceClass(le, Insert(le, x, s), c)
         == (if Equivalent(le, x, c) then [x] else []) + EquivalenceClass(le, s, c)
  {
    if s == [] || le(x, s[0]) {
      assert Insert(le, x, s) == [x] + s;
      assert ([x] + s)[1..] == s;
    } else {
      InsertClass(le, x, s[1..], c);
      var ins := Insert(le, x, s);
      assert ins == [s[0]] + Insert(le, x, s[1..]);
      assert ins[1..] == Insert(le, x, s[1..]);
      var restClass := EquivalenceClass(le, s[1..], c);
      assert EquivalenceClass(le, s, c)
          == (if Equivalent(le, s[0], c) then [s[0]] else []) + restClass;
      if Equivalent(le, x, c) {
        var head := s[0];
        assert le(c, head) ==> le(x, head);
        assert !Equivalent(le, head, c);
        assert EquivalenceClass(le, ins, c) == [x] + restClass;
      } else {
        assert EquivalenceClass(le, ins, c)
            == (if Equivalent(le, s[0], c) then [s[0]] else []) + restClass;
      }
    }
  }

  /** Sorting yields a sorted permutation in which equal elements keep their order. */
  lemma {:induction false} SortByCorrect<T(!new)>(le: (T, T) -> bool, s: seq<T>)
    requires TotalPreorder(le)
    ensures SortedBy(le, SortBy(le, s))
    ensures multiset(SortBy(le, s)) == multiset(s)
    ensures |SortBy(le, s)| == |s|
    ensures forall c :: EquivalenceClass(le, SortBy(le, s), c) == EquivalenceClass(le, s, c)
  {
    if s != [] {
      SortByCorrect(le, s[1..]);
      InsertSorted(le, s[0], SortBy(le, s[1..]));
      InsertPermutes(le, s[0], SortBy(le, s[1..]));
      assert s == [s[0]] + s[1..];
      forall c ensures EquivalenceClass(le, SortBy(le, s), c) == EquivalenceClass(le, s, c) {
        InsertClass(le, s[0], SortBy(le, s[1..]), c);
      }
      assert |multiset(SortBy(le, s))| == |multiset(s)|;
    }
  }
}
