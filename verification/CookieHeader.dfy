/** The quote-aware splitter of Cookie headers. */
module CookieHeader {
  import opened Wrappers

  /** Where the scan stands: outside quotes, inside, or behind a backslash inside. */
  datatype Mode = Plain | Quoted | Escaped

  function Next(m: Mode, c: char): Mode {
    match m
    case Escaped => Quoted
    case Quoted => if c == '\\' then Escaped else if c == '"' then Plain else Quoted
    case Plain => if c == '"' then Quoted else Plain
  }

  /** The mode after a text that starts outside quotes. */
  function ModeAfter(s: string): Mode {
    if s == [] then Plain else Next(ModeAfter(s[..|s| - 1]), s[|s| - 1])
  }

  predicate Separates(s: string, i: nat)
    requires i < |s|
  {
    s[i] == ';' && ModeAfter(s[..i]) == Plain
  }

  predicate NoSeparator(s: string) {
    forall i :: 0 <= i < |s| ==> !Separates(s, i)
  }

  /** Balanced quotes and no separator. */
  predicate Segment(s: string) {
    ModeAfter(s) == Plain && NoSeparator(s)
  }

  lemma NoSeparatorAppend(s: string, c: char)
    requires NoSeparator(s) && !(c == ';' && ModeAfter(s) == Plain)
    ensures NoSeparator(s + [c])
  {
    var t := s + [c];
    forall i | 0 <= i < |t| ensures !Separates(t, i) {
      assert t[..i] == s[..i];
      assert i < |s| ==> !Separates(s, i);
    }
  }

  function Join(segments: seq<string>): string
    requires segments != []
  {
    if |segments| == 1 then segments[0] else segments[0] + ";" + Join(segments[1..])
  }

  predicate AllSegments(segments: seq<string>) {
    forall i :: 0 <= i < |segments| ==> Segment(segments[i])
  }

  lemma {:induction false} ModeAppend(a: string, b: string)
    requires ModeAfter(a) == Plain
    ensures ModeAfter(a + b) == ModeAfter(b)
  {
    if b == [] {
      assert a + b == a;
    } else {
      assert (a + b)[..|a + b| - 1] == a + b[..|b| - 1];
      ModeAppend(a, b[..|b| - 1]);
    }
  }

  lemma {:induction false} JoinAppend(segments: seq<string>, last: string)
    requires segments != []
    ensures Join(segments + [last]) == Join(segments) + ";" + last
  {
    assert (segments + [last])[1..] == segments[1..] + [last];
    if |segments| > 1 {
      JoinAppend(segments[1..], last);
    }
  }

  /** The segments found so far, and where the next one starts. */
  predicate Cut(header: string, segments: seq<string>, start: nat) {
    && start <= |header| && AllSegments(segments) && ModeAfter(header[..start]) == Plain
    && if segments == [] then start == 0 else Join(segments) + ";" == header[..start]
  }

  lemma CutStep(header: string, segments: seq<string>, start: nat, index: nat)
    requires Cut(header, segments, start) && start <= index < |header|
    requires header[index] == ';' && Segment(header[start..index])
    ensures Cut(header, segments + [header[start..index]], index + 1)
  {
    var open := header[start..index];
    assert header[..index + 1] == header[..start] + open + ";";
    ModeAppend(header[..start], open);
    ModeAppend(header[..start] + open, ";");
    assert ";"[..0] == "";
    if segments == [] {
      assert segments + [open] == [open];
      assert header[..start] == [];
    } else {
      JoinAppend(segments, open);
    }
  }

  lemma CutEnds(header: string, segments: seq<string>, start: nat)
    requires Cut(header, segments, start)
    ensures ModeAfter(header) == ModeAfter(header[start..])
    ensures Join(segments + [header[start..]]) == header
  {
    assert header == header[..start] + header[start..];
    ModeAppend(header[..start], header[start..]);
    if segments == [] {
      assert segments + [header[start..]] == [header[start..]];
    } else {
      JoinAppend(segments, header[start..]);
    }
  }

  lemma ModeStep(s: string, c: char)
    ensures ModeAfter(s + [c]) == Next(ModeAfter(s), c)
    ensures NoSeparator(s) && !(c == ';' && ModeAfter(s) == Plain) ==> NoSeparator(s + [c])
  {
    assert (s + [c])[..|s|] == s;
    if NoSeparator(s) && !(c == ';' && ModeAfter(s) == Plain) {
      NoSeparatorAppend(s, c);
    }
  }

  function ModeOf(quoted: bool, escaped: bool): Mode {
    if escaped then Escaped else if quoted then Quoted else Plain
  }

  /** The first loop of `_cookie_values`; `None` is the ValueError. */
  method SplitHeader(header: string) returns (r: Option<seq<string>>)
    ensures r.Some? <==> ModeAfter(header) == Plain
    ensures r.Some? ==> r.value != [] && AllSegments(r.value) && Join(r.value) == header
  {
    var segments, start, quoted, escaped, index := [], 0, false, false, 0;
    ghost var open := "";
    while index < |header|
      invariant 0 <= start <= index <= |header| && open == header[start..index]
      invariant Cut(header, segments, start)
      invariant NoSeparator(open) && ModeAfter(open) == ModeOf(quoted, escaped)
      invariant escaped ==> quoted
    {
      var character := header[index];
      ModeStep(open, character);
      ghost var longer := open + [character];
      assert longer == header[start..index + 1];
      if escaped {
        escaped := false;
        open := longer;
      } else if quoted && character == '\\' {
        escaped := true;
        open := longer;
      } else if character == '"' {
        quoted := !quoted;
        open := longer;
      } else if character == ';' && !quoted {
        CutStep(header, segments, start, index);
        segments := segments + [header[start..index]];
        start := index + 1;
        open := "";
      } else {
        open := longer;
      }
      index := index + 1;
    }
    CutEnds(header, segments, start);
    assert open == header[start..];
    if quoted || escaped {
      return None;
    }
    LastSegment(segments, open);
    return Some(segments + [header[start..]]);
  }

  lemma LastSegment(segments: seq<string>, last: string)
    requires AllSegments(segments) && Segment(last)
    ensures AllSegments(segments + [last])
  {
  }

  /** A separator cannot fall inside a segment. */
  lemma SegmentEndsFirst(a: string, x: string, b: string, y: string)
    requires ModeAfter(a) == Plain && NoSeparator(b) && a + x == b + y
    requires x == "" || x[0] == ';'
    ensures |b| <= |a|
  {
    var s := a + x;
    assert s == b + y;
    assert |a| < |b| ==> s[|a|] == x[0] && s[|a|] == b[|a|];
    assert |a| < |b| ==> s[..|a|] == a && s[..|a|] == b[..|a|];
    assert |a| < |b| ==> Separates(b, |a|);
  }

  lemma FirstSegments(a: string, x: string, b: string, y: string)
    requires Segment(a) && Segment(b) && a + x == b + y
    requires (x == "" || x[0] == ';') && (y == "" || y[0] == ';')
    ensures a == b
  {
    SegmentEndsFirst(a, x, b, y);
    SegmentEndsFirst(b, y, a, x);
    assert (a + x)[..|a|] == a && (b + y)[..|b|] == b;
  }

  /** Splitting inverts joining: a header has only one splitting into segments. */
  lemma {:induction false} SplittingIsUnique(a: seq<string>, b: seq<string>)
    requires a != [] && b != [] && AllSegments(a) && AllSegments(b) && Join(a) == Join(b)
    ensures a == b
  {
    var x := if |a| == 1 then "" else ";" + Join(a[1..]);
    var y := if |b| == 1 then "" else ";" + Join(b[1..]);
    assert Join(a) == a[0] + x && Join(b) == b[0] + y;
    FirstSegments(a[0], x, b[0], y);
    assert x == Join(a)[|a[0]|..] && y == Join(b)[|b[0]|..];
    if |a| > 1 && |b| > 1 {
      assert Join(a[1..]) == x[1..] && Join(b[1..]) == y[1..];
      SplittingIsUnique(a[1..], b[1..]);
    }
    assert a == [a[0]] + a[1..] && b == [b[0]] + b[1..];
  }

  /** A join of segments is always accepted, so segments split back to themselves. */
  lemma {:induction false} JoinedSegmentsAreBalanced(segments: seq<string>)
    requires segments != [] && AllSegments(segments)
    ensures ModeAfter(Join(segments)) == Plain
  {
    if |segments| > 1 {
      JoinedSegmentsAreBalanced(segments[1..]);
      assert segments[0] + ";" + Join(segments[1..]) == segments[0] + (";" + Join(segments[1..]));
      ModeAppend(segments[0], ";" + Join(segments[1..]));
      assert ";"[..0] == "";
      ModeAppend(";", Join(segments[1..]));
    }
  }
}
