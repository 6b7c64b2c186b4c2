/** `collections.Counter` as the inspection code uses it: insertion-ordered counts of names. */
module Counters {
  import opened Ordering

  datatype Count = Count(name: string, n: nat)

  type Counter = seq<Count>

  /** `counter[name] += 1` */
  function Bump(c: Counter, name: string): Counter {
    if c == [] then [Count(name, 1)]
    else if c[0].name == name then [Count(name, c[0].n + 1)] + c[1..]
    else [c[0]] + Bump(c[1..], name)
  }

  function CounterOf(names: seq<string>): Counter {
    if names == [] then [] else Bump(CounterOf(names[..|names| - 1]), names[|names| - 1])
  }

  /** `sum(counter.values())` */
  function SumOf(c: Counter): nat {
    if c == [] then 0 else c[0].n + SumOf(c[1..])
  }

  function CountFor(c: Counter, name: string): nat {
    if c == [] then 0 else if c[0].name == name then c[0].n else CountFor(c[1..], name)
  }

  ghost predicate Distinct(c: Counter) {
    forall i, j :: 0 <= i < j < |c| ==> c[i].name != c[j].name
  }

  lemma {:induction false} BumpFacts(c: Counter, name: string)
    ensures SumOf(Bump(c, name)) == SumOf(c) + 1
    ensures forall other :: CountFor(Bump(c, name), other) == CountFor(c, other) + if other == name then 1 else 0
    ensures |c| <= |Bump(c, name)| <= |c| + 1
    ensures forall i :: 0 <= i < |Bump(c, name)| ==>
      Bump(c, name)[i].n > 0 || (i < |c| && Bump(c, name)[i] == c[i])
    ensures forall i :: 0 <= i < |Bump(c, name)| ==>
      Bump(c, name)[i].name == if i < |c| then c[i].name else name
    ensures (exists i :: 0 <= i < |c| && c[i].name == name) ==> |Bump(c, name)| == |c|
  {
    if c != [] && c[0].name != name {
      BumpFacts(c[1..], name);
    }
  }

  lemma {:induction false} CountAt(c: Counter, i: nat)
    requires Distinct(c) && i < |c|
    ensures CountFor(c, c[i].name) == c[i].n
  {
    if i > 0 {
      CountAt(c[1..], i - 1);
    }
  }

  /** The counter holds each name once, with its multiplicity, and its counts add up. */
  lemma {:induction false} CountsAreMultiplicities(names: seq<string>)
    ensures Distinct(CounterOf(names)) && SumOf(CounterOf(names)) == |names|
    ensures forall name :: CountFor(CounterOf(names), name) == multiset(names)[name]
    ensures forall i :: 0 <= i < |CounterOf(names)| ==> CounterOf(names)[i].n > 0
  {
    if names != [] {
      var before, name := names[..|names| - 1], names[|names| - 1];
      CountsAreMultiplicities(before);
      BumpFacts(CounterOf(before), name);
      assert names == before + [name];
      assert multiset(names) == multiset(before) + multiset{name};
    }
  }

  /** The order of the published lists: count descending, then name. */
  function ByCount(): Count -> Key {
    (c: Count) => [-(c.n as int)] + CodePoints(c.name)
  }

  /** `_reason_counts`: the 32 most frequent names. */
  function MostFrequent(c: Counter): seq<Count> {
    Take(32, Sort(ByCount(), c))
  }

  /** Of the counted names 32 are published, or all if there are no more, each with its count. */
  lemma MostFrequentAreCounts(names: seq<string>)
    ensures var c := CounterOf(names);
            && |MostFrequent(c)| == (if |c| <= 32 then |c| else 32)
            && (forall x :: x in MostFrequent(c) ==> x in c && x.n == multiset(names)[x.name])
            && forall name :: name in names <==> exists x :: x in c && x.name == name
  {
    var c := CounterOf(names);
    SortSorted(ByCount(), c);
    CountsAreMultiplicities(names);
    forall x | x in MostFrequent(c) ensures x in c && x.n == multiset(names)[x.name] {
      assert x in multiset(Sort(ByCount(), c));
      var i :| 0 <= i < |c| && c[i] == x;
      CountAt(c, i);
    }
    forall name ensures name in names <==> exists x :: x in c && x.name == name {
      if x :| x in c && x.name == name {
        var i :| 0 <= i < |c| && c[i] == x;
        CountAt(c, i);
        assert name in multiset(names);
      }
      if name in names {
        assert name in multiset(names);
        CountedIsPresent(c, name);
      }
    }
  }

  lemma {:induction false} CountedIsPresent(c: Counter, name: string)
    requires CountFor(c, name) > 0
    ensures exists x :: x in c && x.name == name
  {
    if c[0].name == name {
      assert c[0] in c;
    } else {
      CountedIsPresent(c[1..], name);
      var x :| x in c[1..] && x.name == name;
      assert x in c;
    }
  }

  /** A published count is at least every omitted one, and ties are cut by name. */
  lemma MostFrequentComeFirst(names: seq<string>, x: Count, i: nat)
    requires x in CounterOf(names) && x !in MostFrequent(CounterOf(names))
    requires i < |MostFrequent(CounterOf(names))|
    ensures var p := MostFrequent(CounterOf(names))[i];
            p.n > x.n || (p.n == x.n && Less(CodePoints(p.name), CodePoints(x.name)))
  {
    var c := CounterOf(names);
    var sorted := Sort(ByCount(), c);
    SortSorted(ByCount(), c);
    var p := sorted[i];
    assert x in multiset(sorted) && p in multiset(c);
    var j :| 0 <= j < |sorted| && sorted[j] == x;
    assert j >= |MostFrequent(c)|;
    assert AtMost(ByCount()(p), ByCount()(x));
    CountsAreMultiplicities(names);
    var k, l := ByCount()(p), ByCount()(x);
    assert k[1..] == CodePoints(p.name) && l[1..] == CodePoints(x.name);
    LessTotal(k, l);
    if k == l {
      CodePointsIdentify(p.name, x.name);
    }
  }
}
