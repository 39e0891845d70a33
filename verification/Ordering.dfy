/** Sorting by tuple keys, as Python compares them. */
module Ordering {

  /** Tuple comparison: the first difference decides. */
  predicate Less(a: seq<real>, b: seq<real>) {
    if a == [] || b == [] then a == [] && b != []
    else a[0] < b[0] || (a[0] == b[0] && Less(a[1..], b[1..]))
  }

  lemma LessStep(x: real, xs: seq<real>, y: real, ys: seq<real>)
    ensures Less([x] + xs, [y] + ys) <==> x < y || (x == y && Less(xs, ys))
  {
    assert ([x] + xs)[1..] == xs && ([y] + ys)[1..] == ys;
  }

  lemma {:induction false} LessTransitive(a: seq<real>, b: seq<real>, c: seq<real>)
    requires Less(a, b) && Less(b, c)
    ensures Less(a, c)
  {
    if a != [] && a[0] == b[0] && b[0] == c[0] {
      LessTransitive(a[1..], b[1..], c[1..]);
    }
  }

  /** Exactly one of less, equal and greater holds. */
  lemma {:induction false} LessTotal(a: seq<real>, b: seq<real>)
    ensures a != b ==> (Less(a, b) <==> !Less(b, a))
    ensures a == b ==> !Less(a, b)
  {
    if a != [] && b != [] {
      LessTotal(a[1..], b[1..]);
      assert a == [a[0]] + a[1..] && b == [b[0]] + b[1..];
    }
  }

  ghost predicate Sorted<T>(s: seq<T>, key: T -> seq<real>) {
    forall i, j :: 0 <= i < j < |s| ==> Less(key(s[i]), key(s[j]))
  }

  ghost predicate DistinctKeys<T>(s: seq<T>, key: T -> seq<real>) {
    forall i, j :: 0 <= i < j < |s| ==> key(s[i]) != key(s[j])
  }

  ghost predicate SameElements<T(!new)>(a: seq<T>, b: seq<T>) {
    forall x :: x in a <==> x in b
  }

  function Insert<T>(x: T, s: seq<T>, key: T -> seq<real>): (r: seq<T>)
    ensures |r| == |s| + 1
  {
    if s == [] || Less(key(x), key(s[0])) then [x] + s else [s[0]] + Insert(x, s[1..], key)
  }

  /** What `list.sort` leaves behind. */
  function Sort<T>(s: seq<T>, key: T -> seq<real>): (r: seq<T>)
    ensures |r| == |s|
  {
    if s == [] then [] else Insert(s[0], Sort(s[1..], key), key)
  }

  lemma {:induction false} InsertElements<T>(x: T, s: seq<T>, key: T -> seq<real>)
    ensures forall y :: y in Insert(x, s, key) <==> y == x || y in s
  {
    if s != [] && !Less(key(x), key(s[0])) {
      InsertElements(x, s[1..], key);
      assert s == [s[0]] + s[1..];
    }
  }

  lemma EmptyOrInhabited<T(!new)>(s: seq<T>)
    ensures s == [] || exists x :: x in s
  {
    if s != [] {
      assert s[0] in s;
    }
  }

  lemma TailIsAbove<T(!new)>(s: seq<T>, key: T -> seq<real>)
    requires Sorted(s, key) && s != []
    ensures forall y :: y in s[1..] ==> Less(key(s[0]), key(y))
  {
    forall y | y in s[1..] ensures Less(key(s[0]), key(y)) {
      var i :| 0 <= i < |s[1..]| && s[1..][i] == y;
      assert s[i + 1] == y;
    }
  }

  lemma {:induction false} InsertSorted<T(!new)>(x: T, s: seq<T>, key: T -> seq<real>)
    requires Sorted(s, key) && forall y :: y in s ==> key(y) != key(x)
    ensures Sorted(Insert(x, s, key), key)
  {
    if s == [] {
    } else if Less(key(x), key(s[0])) {
      forall j | 0 <= j < |s| ensures Less(key(x), key(s[j])) {
        if j > 0 {
          LessTransitive(key(x), key(s[0]), key(s[j]));
        }
      }
    } else {
      LessTotal(key(x), key(s[0]));
      InsertSorted(x, s[1..], key);
      InsertElements(x, s[1..], key);
      TailIsAbove(s, key);
      var rest := Insert(x, s[1..], key);
      forall j | 0 <= j < |rest| ensures Less(key(s[0]), key(rest[j])) {
        assert rest[j] in rest;
      }
    }
  }

  lemma {:induction false} SortElements<T(!new)>(s: seq<T>, key: T -> seq<real>)
    ensures SameElements(Sort(s, key), s)
  {
    if s != [] {
      SortElements(s[1..], key);
      InsertElements(s[0], Sort(s[1..], key), key);
      assert s == [s[0]] + s[1..];
    }
  }

  lemma {:induction false} SortSorted<T(!new)>(s: seq<T>, key: T -> seq<real>)
    requires DistinctKeys(s, key)
    ensures Sorted(Sort(s, key), key)
  {
    if s != [] {
      SortSorted(s[1..], key);
      SortElements(s[1..], key);
      forall y | y in Sort(s[1..], key) ensures key(y) != key(s[0]) {
        var i :| 0 <= i < |s[1..]| && s[1..][i] == y;
        assert s[i + 1] == y;
      }
      InsertSorted(s[0], Sort(s[1..], key), key);
    }
  }

  lemma HeadIsLeast<T>(a: seq<T>, x: T, key: T -> seq<real>)
    requires Sorted(a, key) && x in a
    ensures x == a[0] || Less(key(a[0]), key(x))
  {
  }

  lemma TailElements<T>(a: seq<T>, key: T -> seq<real>)
    requires Sorted(a, key) && a != []
    ensures Sorted(a[1..], key) && forall x :: x in a[1..] <==> x in a && x != a[0]
  {
    assert a == [a[0]] + a[1..];
    forall x | x in a[1..] ensures x != a[0] {
      LessTotal(key(a[0]), key(x));
    }
  }

  /** A set has only one strictly sorted arrangement. */
  lemma {:induction false} SortedIsUnique<T(!new)>(a: seq<T>, b: seq<T>, key: T -> seq<real>)
    requires Sorted(a, key) && Sorted(b, key) && SameElements(a, b)
    ensures a == b
  {
    if a == [] {
      EmptyOrInhabited(b);
    } else {
      assert a[0] in b;
      assert b[0] in a;
      HeadIsLeast(a, b[0], key);
      HeadIsLeast(b, a[0], key);
      LessTotal(key(a[0]), key(b[0]));
      TailElements(a, key);
      TailElements(b, key);
      SortedIsUnique(a[1..], b[1..], key);
      assert a == [a[0]] + a[1..] && b == [b[0]] + b[1..];
    }
  }
}
