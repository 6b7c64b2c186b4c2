/** Trimming an executor log to its last whole lines. */
module LogTail {
  import opened Utf8
  import opened Wrappers

  const OUTPUT_LIMIT: nat := 1024 * 1024

  /** The boundaries `str.splitlines` knows, as code points. */
  predicate IsBreak(c: int) {
    0x0A <= c <= 0x0D || 0x1C <= c <= 0x1E || c == 0x85 || c == 0x2028 || c == 0x2029
  }

  /** The length of the first line with its end; a carriage return and the line feed after it end
      one line together. */
  function FirstLine(s: Text): (n: nat)
    requires s != []
    ensures 1 <= n <= |s|
  {
    if s[0] == 0x0D && |s| > 1 && s[1] == 0x0A then 2
    else if IsBreak(s[0]) || |s| == 1 then 1
    else 1 + FirstLine(s[1..])
  }

  /** `text.splitlines(keepends=True)` */
  function SplitLines(s: Text): seq<Text> {
    if s == [] then [] else [s[..FirstLine(s)]] + SplitLines(s[FirstLine(s)..])
  }

  function Join(lines: seq<Text>): Text {
    if lines == [] then [] else lines[0] + Join(lines[1..])
  }

  function Reversed(lines: seq<Text>): (r: seq<Text>)
    ensures |r| == |lines|
    ensures forall i :: 0 <= i < |r| ==> r[i] == lines[|lines| - 1 - i]
  {
    seq(|lines|, i requires 0 <= i < |lines| => lines[|lines| - 1 - i])
  }

  lemma {:induction false} SplitJoin(s: Text)
    ensures Join(SplitLines(s)) == s
  {
    if s != [] {
      SplitJoin(s[FirstLine(s)..]);
      assert SplitLines(s)[1..] == SplitLines(s[FirstLine(s)..]);
    }
  }

  /** The lines of a text that starts at a line boundary are the remaining lines. */
  lemma {:induction false} SplitSuffix(s: Text, k: nat)
    requires k <= |SplitLines(s)|
    ensures SplitLines(Join(SplitLines(s)[k..])) == SplitLines(s)[k..]
  {
    if k == 0 {
      SplitJoin(s);
    } else {
      SplitSuffix(s[FirstLine(s)..], k - 1);
      assert SplitLines(s)[k..] == SplitLines(s[FirstLine(s)..])[k - 1..];
    }
  }

  lemma {:induction false} JoinEncodable(s: Text, k: nat)
    requires Encodable(s) && k <= |SplitLines(s)|
    ensures Encodable(Join(SplitLines(s)[k..]))
    ensures forall i :: 0 <= i < |SplitLines(s)| ==> Encodable(SplitLines(s)[i])
  {
    if s != [] {
      var rest := s[FirstLine(s)..];
      JoinEncodable(rest, if k == 0 then 0 else k - 1);
      if k == 0 {
        SplitJoin(s);
      } else {
        assert SplitLines(s)[k..] == SplitLines(rest)[k - 1..];
      }
    }
  }

  /** The UTF-8 size of the text from line `k` on. */
  function SizeFrom(s: Text, k: nat): (n: nat)
    requires Encodable(s) && k <= |SplitLines(s)|
  {
    JoinEncodable(s, k);
    |Encode(Join(SplitLines(s)[k..]))|
  }

  /** The first line of the longest suffix of whole lines within the limit. */
  ghost predicate IsStart(s: Text, limit: nat, k: nat)
    requires Encodable(s)
  {
    && k <= |SplitLines(s)|
    && SizeFrom(s, k) <= limit
    && forall j :: 0 <= j < k ==> limit < SizeFrom(s, j)
  }

  /** The longest suffix of whole lines within the limit: the whole text when that fits. */
  ghost predicate IsTail(s: Text, limit: nat, r: Text)
    requires Encodable(s)
  {
    exists k: nat :: IsStart(s, limit, k) && r == Join(SplitLines(s)[k..])
  }

  lemma SizeStep(s: Text, k: nat)
    requires Encodable(s) && k < |SplitLines(s)|
    ensures Encodable(SplitLines(s)[k])
    ensures SizeFrom(s, k) == |Encode(SplitLines(s)[k])| + SizeFrom(s, k + 1)
  {
    var lines := SplitLines(s);
    JoinEncodable(s, k);
    JoinEncodable(s, k + 1);
    assert lines[k..] == [lines[k]] + lines[k + 1..];
    EncodeAppend(lines[k], Join(lines[k + 1..]));
  }

  lemma {:induction false} SizesDecrease(s: Text, j: nat, k: nat)
    requires Encodable(s) && j <= k <= |SplitLines(s)|
    ensures SizeFrom(s, k) <= SizeFrom(s, j)
    decreases k - j
  {
    if j < k {
      SizeStep(s, j);
      SizesDecrease(s, j + 1, k);
    }
  }

  /** `_tail_lines`; `None` is the UnicodeEncodeError of a lone surrogate. */
  method TailLines(text: Text, limit: nat) returns (r: Option<Text>)
    ensures r.None? <==> !Encodable(text)
    ensures r.Some? ==> IsTail(text, limit, r.value)
  {
    if !Encodable(text) {
      return None;
    }
    SplitJoin(text);
    var lines := SplitLines(text);
    if |Encode(text)| <= limit {
      FittingTextIsItsTail(text, limit);
      return Some(text);
    }
    var size, kept, i := 0, [], |lines|;
    assert lines[0..] == lines;
    while i > 0
      invariant 0 <= i <= |lines|
      invariant Reversed(kept) == lines[i..]
      invariant size == SizeFrom(text, i) <= limit
      decreases i
    {
      SizeStep(text, i - 1);
      size := size + |Encode(lines[i - 1])|;
      if size > limit {
        break;
      }
      KeepLine(lines, kept, i - 1);
      kept := kept + [lines[i - 1]];
      i := i - 1;
    }
    StartFound(text, limit, i);
    return Some(Join(Reversed(kept)));
  }

  lemma KeepLine(lines: seq<Text>, kept: seq<Text>, i: nat)
    requires i < |lines| && Reversed(kept) == lines[i + 1..]
    ensures Reversed(kept + [lines[i]]) == lines[i..]
  {
  }

  /** The tail starts where one line more would not fit. */
  lemma StartFound(s: Text, limit: nat, i: nat)
    requires Encodable(s) && i <= |SplitLines(s)| && SizeFrom(s, i) <= limit
    requires i > 0 ==> limit < SizeFrom(s, i - 1)
    ensures IsStart(s, limit, i)
  {
    forall j | 0 <= j < i ensures limit < SizeFrom(s, j) {
      SizesDecrease(s, j, i - 1);
    }
  }

  lemma StartIsUnique(s: Text, limit: nat, j: nat, k: nat)
    requires Encodable(s) && IsStart(s, limit, j) && IsStart(s, limit, k)
    ensures j == k
  {
  }

  /** There is one such suffix. */
  lemma TailIsUnique(s: Text, limit: nat, r: Text, r': Text)
    requires Encodable(s) && IsTail(s, limit, r) && IsTail(s, limit, r')
    ensures r == r'
  {
    var j: nat :| IsStart(s, limit, j) && r == Join(SplitLines(s)[j..]);
    var k: nat :| IsStart(s, limit, k) && r' == Join(SplitLines(s)[k..]);
    StartIsUnique(s, limit, j, k);
  }

  lemma SizeOfSuffix(s: Text, j: nat, k: nat)
    requires Encodable(s) && j + k <= |SplitLines(s)|
    ensures Encodable(Join(SplitLines(s)[j..]))
    ensures k <= |SplitLines(Join(SplitLines(s)[j..]))|
    ensures SizeFrom(Join(SplitLines(s)[j..]), k) == SizeFrom(s, j + k)
  {
    JoinEncodable(s, j);
    SplitSuffix(s, j);
    assert SplitLines(s)[j..][k..] == SplitLines(s)[j + k..];
  }

  lemma StartsCompose(s: Text, l1: nat, l2: nat, j: nat, k: nat)
    requires Encodable(s) && l2 <= l1 && IsStart(s, l1, j)
    requires Encodable(Join(SplitLines(s)[j..])) && IsStart(Join(SplitLines(s)[j..]), l2, k)
    ensures IsStart(s, l2, j + k) && SplitLines(Join(SplitLines(s)[j..]))[k..] == SplitLines(s)[j + k..]
  {
    SplitSuffix(s, j);
    SizeOfSuffix(s, j, k);
    forall i | 0 <= i < j + k ensures l2 < SizeFrom(s, i) {
      if i >= j {
        SizeOfSuffix(s, j, i - j);
      }
    }
  }

  /** Trimming to one limit and then to a smaller or equal one is trimming to the last one. */
  lemma TrimmingComposes(s: Text, l1: nat, l2: nat, r1: Text, r2: Text)
    requires Encodable(s) && Encodable(r1) && l2 <= l1
    requires IsTail(s, l1, r1) && IsTail(r1, l2, r2)
    ensures IsTail(s, l2, r2)
  {
    var j: nat :| IsStart(s, l1, j) && r1 == Join(SplitLines(s)[j..]);
    var k: nat :| IsStart(r1, l2, k) && r2 == Join(SplitLines(r1)[k..]);
    StartsCompose(s, l1, l2, j, k);
  }

  /** A tail has a tail of its own, so trimming twice to one limit changes nothing more. */
  lemma TrimmingIsIdempotent(s: Text, limit: nat, r: Text)
    requires Encodable(s) && IsTail(s, limit, r)
    ensures Encodable(r) && IsTail(r, limit, r)
  {
    var k: nat :| IsStart(s, limit, k) && r == Join(SplitLines(s)[k..]);
    JoinEncodable(s, k);
    FittingTextIsItsTail(r, limit);
  }

  lemma FittingTextIsItsTail(s: Text, limit: nat)
    requires Encodable(s) && |Encode(s)| <= limit
    ensures IsTail(s, limit, s)
  {
    SplitJoin(s);
    assert SplitLines(s)[0..] == SplitLines(s);
    assert IsStart(s, limit, 0);
  }

  datatype Coverage = Tail | Complete | Unknown
  datatype Content = Content(text: Text, coverage: Coverage, outputTrimmed: bool)

  /** `_bounded_content`: the published text fits one mebibyte, and says so when it was cut. */
  method BoundedContent(content: Content) returns (r: Option<Content>)
    ensures r.None? <==> !Encodable(content.text)
    ensures r.Some? ==>
      && IsTail(content.text, 1024 * 1024, r.value.text)
      && r.value.outputTrimmed == (content.outputTrimmed || r.value.text != content.text)
      && r.value.coverage == if r.value.text != content.text then Tail else content.coverage
  {
    var text := TailLines(content.text, OUTPUT_LIMIT);
    if text.None? {
      return None;
    }
    var trimmed := |Encode(content.text)| > OUTPUT_LIMIT;
    if !trimmed {
      FittingTextIsItsTail(content.text, OUTPUT_LIMIT);
      TailIsUnique(content.text, OUTPUT_LIMIT, text.value, content.text);
    }
    return Some(Content(text.value, if trimmed then Tail else content.coverage, trimmed || content.outputTrimmed));
  }

  // ---------------------------------------------------------------------------------------------
  // What a line is

  const LINE_ENDS: set<int> := {0x0A, 0x0B, 0x0C, 0x0D, 0x1C, 0x1D, 0x1E, 0x85, 0x2028, 0x2029}

  /** The line holds a line end nowhere but at its end, where a carriage return and a line feed count
      as one. */
  predicate LineShape(line: Text) {
    && line != []
    && forall j :: 0 <= j < |line| - 1 && line[j] in LINE_ENDS ==> j == |line| - 2 && line[j] == 0x0D && line[j + 1] == 0x0A
  }

  /** The line ends here, so that the rest begins a new one. */
  predicate EndsBefore(line: Text, rest: Text)
    requires line != []
  {
    line[|line| - 1] in LINE_ENDS && !(line[|line| - 1] == 0x0D && rest != [] && rest[0] == 0x0A)
  }

  /** Lines one after the other; only the last may lack a line end. */
  predicate LinesShape(lines: seq<Text>) {
    lines != [] ==>
      LineShape(lines[0]) && LinesShape(lines[1..]) && (lines[1..] != [] ==> EndsBefore(lines[0], Join(lines[1..])))
  }

  lemma BreaksMean(c: int)
    ensures IsBreak(c) <==> c in LINE_ENDS
  {
  }

  lemma {:induction false} FirstLineShape(s: Text)
    requires s != []
    ensures var n := FirstLine(s); LineShape(s[..n]) && (n < |s| ==> EndsBefore(s[..n], s[n..]))
  {
    BreaksMean(s[0]);
    if !(s[0] == 0x0D && |s| > 1 && s[1] == 0x0A) && !(IsBreak(s[0]) || |s| == 1) {
      FirstLineShape(s[1..]);
      var n := FirstLine(s[1..]);
      assert s[..n + 1] == [s[0]] + s[1..][..n] && s[n + 1..] == s[1..][n..];
    }
  }

  lemma {:induction false} FirstLineIs(line: Text, rest: Text)
    requires LineShape(line) && (rest != [] ==> EndsBefore(line, rest))
    ensures FirstLine(line + rest) == |line|
  {
    var s := line + rest;
    BreaksMean(s[0]);
    if |line| > 1 && line[0] !in LINE_ENDS {
      assert s[1..] == line[1..] + rest;
      FirstLineIs(line[1..], rest);
    }
  }

  lemma {:induction false} SplitHasShape(s: Text)
    ensures Join(SplitLines(s)) == s && LinesShape(SplitLines(s))
  {
    SplitJoin(s);
    if s != [] {
      var n := FirstLine(s);
      FirstLineShape(s);
      SplitHasShape(s[n..]);
      assert SplitLines(s)[1..] == SplitLines(s[n..]);
    }
  }

  lemma JoinNonEmpty(lines: seq<Text>)
    requires LinesShape(lines)
    ensures Join(lines) == [] <==> lines == []
  {
    if lines != [] {
      assert |Join(lines)| >= |lines[0]| > 0;
    }
  }

  lemma {:induction false} ShapedLinesSplit(lines: seq<Text>)
    requires LinesShape(lines)
    ensures SplitLines(Join(lines)) == lines
  {
    if lines != [] {
      var rest := Join(lines[1..]);
      JoinNonEmpty(lines[1..]);
      FirstLineIs(lines[0], rest);
      ShapedLinesSplit(lines[1..]);
      assert (lines[0] + rest)[..|lines[0]|] == lines[0] && (lines[0] + rest)[|lines[0]|..] == rest;
    }
  }

  /** The lines of a text are the only lines that make it up. */
  lemma LinesMean(s: Text, lines: seq<Text>)
    ensures SplitLines(s) == lines <==> Join(lines) == s && LinesShape(lines)
  {
    SplitHasShape(s);
    if LinesShape(lines) {
      ShapedLinesSplit(lines);
    }
  }
}
