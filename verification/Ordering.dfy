/** Sorting by tuple keys, as Python's sorted and list.sort do it.

    Every sort key in the Spark plugin is a tuple of integers, possibly ending in a string.  Python
    compares tuples and strings lexicographically, so one key type covers them all: a sequence of
    integers, in which a string contributes the code points of its characters. */
module Ordering {

  type Key = seq<int>

  /** Python's `<` on tuples. */
  predicate Less(a: Key, b: Key) {
    b != [] && (a == [] || a[0] < b[0] || (a[0] == b[0] && Less(a[1..], b[1..])))
  }

  predicate AtMost(a: Key, b: Key) {
    !Less(b, a)
  }

  /** The code points of a string, for keys that end in one. */
  function CodePoints(s: string): (k: Key)
    ensures |k| == |s|
    ensures forall i :: 0 <= i < |s| ==> k[i] == s[i] as int
  {
    seq(|s|, i requires 0 <= i < |s| => s[i] as int)
  }

  lemma CodePointsIdentify(a: string, b: string)
    requires CodePoints(a) == CodePoints(b)
    ensures a == b
  {
    forall i | 0 <= i < |a| ensures a[i] == b[i] {
      assert CodePoints(a)[i] == CodePoints(b)[i];
      assert (a[i] as int) as char == (b[i] as int) as char;
    }
  }

  lemma {:induction false} LessTotal(a: Key, b: Key)
    ensures a == b || Less(a, b) || Less(b, a)
    ensures !(Less(a, b) && Less(b, a))
    ensures a == b ==> !Less(a, b)
  {
    if a != [] && b != [] && a[0] == b[0] {
      LessTotal(a[1..], b[1..]);
      assert a == [a[0]] + a[1..];
      assert b == [b[0]] + b[1..];
    }
  }

  lemma {:induction false} LessTransitive(a: Key, b: Key, c: Key)
    requires Less(a, b) && Less(b, c)
    ensures Less(a, c)
  {
    if a != [] && b != [] && a[0] == b[0] == c[0] {
      LessTransitive(a[1..], b[1..], c[1..]);
    }
  }

  lemma AtMostTransitive(a: Key, b: Key, c: Key)
    requires AtMost(a, b) && AtMost(b, c)
    ensures AtMost(a, c)
  {
    LessTotal(a, b);
    LessTotal(b, c);
    LessTotal(a, c);
    if Less(a, b) && Less(b, c) {
      LessTransitive(a, b, c);
    }
  }

  ghost predicate SortedBy<T>(key: T -> Key, xs: seq<T>) {
    forall i, j :: 0 <= i < j < |xs| ==> AtMost(key(xs[i]), key(xs[j]))
  }

  /** Inserts after every element whose key is not greater, as a stable sort must. */
  function Insert<T>(key: T -> Key, x: T, xs: seq<T>): (r: seq<T>)
    ensures |r| == |xs| + 1
  {
    if xs == [] then [x]
    else if Less(key(x), key(xs[|xs| - 1])) then Insert(key, x, xs[..|xs| - 1]) + [xs[|xs| - 1]]
    else xs + [x]
  }

  function Sort<T>(key: T -> Key, xs: seq<T>): (r: seq<T>)
    ensures |r| == |xs|
  {
    if xs == [] then [] else Insert(key, xs[|xs| - 1], Sort(key, xs[..|xs| - 1]))
  }

  function Take<T>(n: nat, xs: seq<T>): (r: seq<T>)
    ensures |r| == if |xs| < n then |xs| else n
    ensures r <= xs
  {
    if |xs| <= n then xs else xs[..n]
  }

  lemma {:induction false} InsertElements<T>(key: T -> Key, x: T, xs: seq<T>)
    ensures multiset(Insert(key, x, xs)) == multiset(xs) + multiset{x}
  {
    if xs != [] {
      InsertElements(key, x, xs[..|xs| - 1]);
      assert xs == xs[..|xs| - 1] + [xs[|xs| - 1]];
    }
  }

  lemma SortedAppend<T>(key: T -> Key, xs: seq<T>, x: T)
    requires SortedBy(key, xs) && forall i :: 0 <= i < |xs| ==> AtMost(key(xs[i]), key(x))
    ensures SortedBy(key, xs + [x])
  {
  }

  lemma {:induction false} InsertSorted<T>(key: T -> Key, x: T, xs: seq<T>)
    requires SortedBy(key, xs)
    ensures SortedBy(key, Insert(key, x, xs))
    ensures multiset(Insert(key, x, xs)) == multiset(xs) + multiset{x}
  {
    InsertElements(key, x, xs);
    if xs != [] {
      var rest, last := xs[..|xs| - 1], xs[|xs| - 1];
      LessTotal(key(x), key(last));
      LessTotal(key(last), key(last));
      if Less(key(x), key(last)) {
        InsertSorted(key, x, rest);
        var r := Insert(key, x, rest);
        forall i | 0 <= i < |r| ensures AtMost(key(r[i]), key(last)) {
          assert r[i] in multiset(r);
          assert r[i] == x || r[i] in rest;
        }
        SortedAppend(key, r, last);
      } else {
        forall i | 0 <= i < |xs| ensures AtMost(key(xs[i]), key(x)) {
          AtMostTransitive(key(xs[i]), key(last), key(x));
        }
        SortedAppend(key, xs, x);
      }
    }
  }

  lemma {:induction false} SortSorted<T>(key: T -> Key, xs: seq<T>)
    ensures SortedBy(key, Sort(key, xs))
    ensures multiset(Sort(key, xs)) == multiset(xs)
  {
    if xs != [] {
      SortSorted(key, xs[..|xs| - 1]);
      InsertSorted(key, xs[|xs| - 1], Sort(key, xs[..|xs| - 1]));
      assert xs == xs[..|xs| - 1] + [xs[|xs| - 1]];
    }
  }

  lemma SortAppend<T>(key: T -> Key, xs: seq<T>, x: T)
    ensures Sort(key, xs + [x]) == Insert(key, x, Sort(key, xs))
  {
    assert (xs + [x])[..|xs|] == xs;
  }

  lemma SortedHead<T>(key: T -> Key, a: seq<T>, x: T)
    requires SortedBy(key, a) && x in a
    ensures AtMost(key(a[0]), key(x))
  {
    var i :| 0 <= i < |a| && a[i] == x;
    LessTotal(key(x), key(x));
  }

  /** A sorted arrangement with distinct keys is unique, whichever algorithm found it. */
  lemma {:induction false} SortedUnique<T>(key: T -> Key, a: seq<T>, b: seq<T>)
    requires SortedBy(key, a) && SortedBy(key, b) && multiset(a) == multiset(b)
    requires forall x, y :: x in a && y in a && key(x) == key(y) ==> x == y
    ensures a == b
  {
    assert |multiset(a)| == |a| && |multiset(b)| == |b|;
    if a != [] {
      assert a[0] in multiset(b) && b[0] in multiset(a);
      SortedHead(key, a, b[0]);
      SortedHead(key, b, a[0]);
      LessTotal(key(a[0]), key(b[0]));
      assert a[0] == b[0];
      assert a == [a[0]] + a[1..] && b == [b[0]] + b[1..];
      assert multiset(a[1..]) == multiset(a) - multiset{a[0]};
      assert multiset(b[1..]) == multiset(b) - multiset{b[0]};
      SortedUnique(key, a[1..], b[1..]);
    }
  }

  /** The kept prefix of a bounded buffer is all that matters for the next insertion. */
  lemma {:induction false} TakeInsert<T>(key: T -> Key, k: nat, x: T, xs: seq<T>)
    requires SortedBy(key, xs)
    ensures Take(k, Insert(key, x, xs)) == Take(k, Insert(key, x, Take(k, xs)))
  {
    if |xs| > k {
      var rest, last := xs[..|xs| - 1], xs[|xs| - 1];
      assert xs == rest + [last];
      assert Take(k, xs) == Take(k, rest);
      TakeInsert(key, k, x, rest);
      if Less(key(x), key(last)) {
        assert Take(k, Insert(key, x, xs)) == Take(k, Insert(key, x, rest));
      } else if k > 0 {
        assert Take(k, Insert(key, x, xs)) == Take(k, xs);
        assert AtMost(key(Take(k, xs)[k - 1]), key(last));
        AtMostTransitive(key(Take(k, xs)[k - 1]), key(last), key(x));
        assert Insert(key, x, Take(k, xs)) == Take(k, xs) + [x];
      }
    }
  }

  lemma OccursTwice<T>(s: seq<T>, i: nat, j: nat)
    requires i < j < |s| && s[i] == s[j]
    ensures multiset(s)[s[i]] >= 2
  {
    assert s == s[..j] + ([s[j]] + s[j + 1..]);
    assert s[i] in multiset(s[..j]) by {
      assert s[..j][i] == s[i];
    }
  }
}
