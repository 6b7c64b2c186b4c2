/** Splitting strings at a separator, as `str.split` does it. */
module Strings {

  /** `s.split(sep)` */
  function Split(s: string, sep: char): (r: seq<string>)
    ensures r != []
  {
    if s == [] then [""]
    else if s[0] == sep then [""] + Split(s[1..], sep)
    else Prepend(s[0], Split(s[1..], sep))
  }

  function Prepend(c: char, parts: seq<string>): (r: seq<string>)
    requires parts != []
    ensures r != []
  {
    [[c] + parts[0]] + parts[1..]
  }

  lemma PrependAppend(c: char, a: seq<string>, b: seq<string>)
    requires a != []
    ensures Prepend(c, a + b) == Prepend(c, a) + b
    ensures [""] + (a + b) == [""] + a + b
  {
    assert (a + b)[1..] == a[1..] + b;
  }

  /** A separator between two strings separates their parts. */
  lemma {:induction false} SplitBetween(a: string, b: string, sep: char)
    ensures Split(a + [sep] + b, sep) == Split(a, sep) + Split(b, sep)
  {
    var s := a + [sep] + b;
    if a == [] {
      assert s == [sep] + b;
      assert s[1..] == b;
    } else {
      SplitBetween(a[1..], b, sep);
      assert s[1..] == a[1..] + [sep] + b;
      PrependAppend(a[0], Split(a[1..], sep), Split(b, sep));
    }
  }

  lemma {:induction false} SplitWithout(s: string, sep: char)
    requires sep !in s
    ensures Split(s, sep) == [s]
  {
    if s != [] {
      SplitWithout(s[1..], sep);
      assert [s[0]] + s[1..] == s;
    }
  }

  lemma {:induction false} PartsHoldNoSeparator(s: string, sep: char)
    ensures forall i :: 0 <= i < |Split(s, sep)| ==> sep !in Split(s, sep)[i]
  {
    if s != [] {
      PartsHoldNoSeparator(s[1..], sep);
    }
  }

  function JoinWith(parts: seq<string>, sep: char): string {
    if parts == [] then "" else if |parts| == 1 then parts[0] else parts[0] + [sep] + JoinWith(parts[1..], sep)
  }

  lemma JoinPrepend(c: char, parts: seq<string>, sep: char)
    requires parts != []
    ensures JoinWith(Prepend(c, parts), sep) == [c] + JoinWith(parts, sep)
  {
    var longer := Prepend(c, parts);
    assert longer[1..] == parts[1..] && longer[0] == [c] + parts[0];
    if |parts| > 1 {
      assert [c] + parts[0] + [sep] + JoinWith(parts[1..], sep) == [c] + (parts[0] + [sep] + JoinWith(parts[1..], sep));
    }
  }

  /** Joining the parts gives the string back. */
  lemma {:induction false} SplitJoins(s: string, sep: char)
    ensures JoinWith(Split(s, sep), sep) == s
  {
    if s != [] {
      SplitJoins(s[1..], sep);
      var rest := Split(s[1..], sep);
      if s[0] == sep {
        assert ([""] + rest)[1..] == rest;
        assert JoinWith([""] + rest, sep) == "" + [sep] + JoinWith(rest, sep);
      } else {
        JoinPrepend(s[0], rest, sep);
      }
      assert s == [s[0]] + s[1..];
    }
  }

  /** A string has its parts to itself. */
  lemma SplitIdentifies(a: string, b: string, sep: char)
    requires Split(a, sep) == Split(b, sep)
    ensures a == b
  {
    SplitJoins(a, sep);
    SplitJoins(b, sep);
  }
}
