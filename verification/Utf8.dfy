/** UTF-8 (section 3 of RFC 3629) and truncation to a byte budget. */
module Utf8 {
  import opened Wrappers

  /** A Python string: code points, surrogates included. */
  type Text = seq<int>
  type Bytes = seq<int>

  predicate IsScalar(c: int) {
    0 <= c < 0xD800 || 0xE000 <= c < 0x11_0000
  }

  predicate Encodable(s: Text) {
    forall i :: 0 <= i < |s| ==> IsScalar(s[i])
  }

  function EncodeChar(c: int): (b: Bytes)
    requires IsScalar(c)
    ensures 1 <= |b| <= 4
  {
    if c < 0x80 then [c]
    else if c < 0x800 then [0xC0 + c / 0x40, 0x80 + c % 0x40]
    else if c < 0x1_0000 then [0xE0 + c / 0x1000, 0x80 + c / 0x40 % 0x40, 0x80 + c % 0x40]
    else [0xF0 + c / 0x4_0000, 0x80 + c / 0x1000 % 0x40, 0x80 + c / 0x40 % 0x40, 0x80 + c % 0x40]
  }

  function Encode(s: Text): (b: Bytes)
    requires Encodable(s)
    ensures |s| <= |b|
  {
    if s == [] then [] else EncodeChar(s[0]) + Encode(s[1..])
  }

  predicate Continuation(b: int) {
    0x80 <= b < 0xC0
  }

  /** The well-formed sequence at the head of the input, if there is one: its code point and its
      length.  Overlong forms, surrogates and values past U+10FFFF are not well formed. */
  function DecodeHead(b: Bytes): (r: Option<(int, nat)>)
    ensures r.Some? ==> 1 <= r.value.1 <= |b|
  {
    if b == [] then None
    else if 0 <= b[0] < 0x80 then Some((b[0], 1))
    else if |b| >= 2 && 0xC2 <= b[0] < 0xE0 && Continuation(b[1]) then
      Some(((b[0] - 0xC0) * 0x40 + (b[1] - 0x80), 2))
    else if |b| >= 3 && 0xE0 <= b[0] < 0xF0 && Continuation(b[1]) && Continuation(b[2])
            && (b[0] == 0xE0 ==> b[1] >= 0xA0) && (b[0] == 0xED ==> b[1] < 0xA0) then
      Some(((b[0] - 0xE0) * 0x1000 + (b[1] - 0x80) * 0x40 + (b[2] - 0x80), 3))
    else if |b| >= 4 && 0xF0 <= b[0] < 0xF5 && Continuation(b[1]) && Continuation(b[2]) && Continuation(b[3])
            && (b[0] == 0xF0 ==> b[1] >= 0x90) && (b[0] == 0xF4 ==> b[1] < 0x90) then
      Some(((b[0] - 0xF0) * 0x4_0000 + (b[1] - 0x80) * 0x1000 + (b[2] - 0x80) * 0x40 + (b[3] - 0x80), 4))
    else None
  }

  /** `bytes.decode("utf-8", errors="ignore")`.  Dropping a malformed sequence one byte at a time
      drops the same bytes, because the bytes that follow its first are continuation bytes, which
      start no sequence. */
  function DecodeIgnoringErrors(b: Bytes): Text {
    if b == [] then []
    else match DecodeHead(b)
      case Some((c, n)) => [c] + DecodeIgnoringErrors(b[n..])
      case None => DecodeIgnoringErrors(b[1..])
  }

  /** `truncate_utf8`; `None` is the UnicodeEncodeError of a lone surrogate. */
  function Truncate(value: Text, maxBytes: nat): Option<(Text, bool)> {
    if !Encodable(value) then None
    else
      var encoded := Encode(value);
      if |encoded| <= maxBytes then Some((value, false))
      else Some((DecodeIgnoringErrors(encoded[..maxBytes]), true))
  }

  lemma HeadDecodes(c: int, rest: Bytes)
    requires IsScalar(c)
    ensures DecodeHead(EncodeChar(c) + rest) == Some((c, |EncodeChar(c)|))
  {
    var b := EncodeChar(c) + rest;
    assert forall i :: 0 <= i < |EncodeChar(c)| ==> b[i] == EncodeChar(c)[i];
    if c < 0x80 {
    } else if c < 0x800 {
      assert c == c / 0x40 * 0x40 + c % 0x40;
    } else if c < 0x1_0000 {
      assert c / 0x40 == c / 0x1000 * 0x40 + c / 0x40 % 0x40;
      assert c == c / 0x40 * 0x40 + c % 0x40;
    } else {
      assert c / 0x1000 == c / 0x4_0000 * 0x40 + c / 0x1000 % 0x40;
      assert c / 0x40 == c / 0x1000 * 0x40 + c / 0x40 % 0x40;
      assert c == c / 0x40 * 0x40 + c % 0x40;
    }
  }

  lemma Regroup(x: int, y: int)
    requires 0 <= x < 0x40 && 0 <= y
    ensures (y * 0x40 + x) / 0x40 == y && (y * 0x40 + x) % 0x40 == x
  {
  }

  lemma TwoBytes(b: Bytes)
    requires |b| >= 2 && 0xC2 <= b[0] < 0xE0 && Continuation(b[1])
    ensures DecodeHead(b).Some? && IsScalar(DecodeHead(b).value.0) && EncodeChar(DecodeHead(b).value.0) == b[..2]
  {
    Regroup(b[1] - 0x80, b[0] - 0xC0);
  }

  lemma ThreeBytes(b: Bytes)
    requires |b| >= 3 && 0xE0 <= b[0] < 0xF0 && DecodeHead(b).Some?
    ensures IsScalar(DecodeHead(b).value.0) && EncodeChar(DecodeHead(b).value.0) == b[..3]
  {
    var high, mid, low := b[0] - 0xE0, b[1] - 0x80, b[2] - 0x80;
    Regroup(low, high * 0x40 + mid);
    Regroup(mid, high);
  }

  lemma FourBytes(b: Bytes)
    requires |b| >= 4 && 0xF0 <= b[0] < 0xF5 && DecodeHead(b).Some?
    ensures IsScalar(DecodeHead(b).value.0) && EncodeChar(DecodeHead(b).value.0) == b[..4]
  {
    var top, high, mid, low := b[0] - 0xF0, b[1] - 0x80, b[2] - 0x80, b[3] - 0x80;
    Regroup(low, (top * 0x40 + high) * 0x40 + mid);
    Regroup(mid, top * 0x40 + high);
    Regroup(high, top);
  }

  /** The decoder takes exactly the encodings of scalar values: no overlong form, no surrogate and
      nothing past U+10FFFF. */
  lemma HeadIsExact(b: Bytes, c: int, n: nat)
    ensures DecodeHead(b) == Some((c, n)) <==> IsScalar(c) && n == |EncodeChar(c)| && EncodeChar(c) <= b
  {
    if DecodeHead(b) == Some((c, n)) {
      if b[0] < 0x80 {
        assert EncodeChar(c) == b[..1];
      } else if b[0] < 0xE0 {
        TwoBytes(b);
      } else if b[0] < 0xF0 {
        ThreeBytes(b);
      } else {
        FourBytes(b);
      }
    }
    if IsScalar(c) && EncodeChar(c) <= b {
      HeadDecodes(c, b[|EncodeChar(c)|..]);
      assert EncodeChar(c) + b[|EncodeChar(c)|..] == b;
    }
  }

  /** A sequence cut short decodes to nothing. */
  lemma CutCharVanishes(c: int, n: nat)
    requires IsScalar(c) && n < |EncodeChar(c)|
    ensures DecodeIgnoringErrors(EncodeChar(c)[..n]) == []
  {
    var b := EncodeChar(c);
    if n > 0 {
      assert DecodeHead(b[..n]) == None;
      assert b[..n][1..] == b[1..n];
      ContinuationsVanish(b[1..n]);
    }
  }

  lemma {:induction false} ContinuationsVanish(b: Bytes)
    requires forall i :: 0 <= i < |b| ==> Continuation(b[i])
    ensures DecodeIgnoringErrors(b) == []
  {
    if b != [] {
      assert Continuation(b[0]);
      ContinuationsVanish(b[1..]);
    }
  }

  /** Decoding inverts encoding. */
  lemma {:induction false} DecodeInvertsEncode(s: Text)
    requires Encodable(s)
    ensures DecodeIgnoringErrors(Encode(s)) == s
  {
    if s != [] {
      HeadDecodes(s[0], Encode(s[1..]));
      assert Encode(s)[|EncodeChar(s[0])|..] == Encode(s[1..]);
      DecodeInvertsEncode(s[1..]);
    }
  }

  lemma CutBehindHead(s: Text, n: nat)
    requires s != [] && Encodable(s) && |EncodeChar(s[0])| <= n <= |Encode(s)|
    ensures DecodeIgnoringErrors(Encode(s)[..n]) ==
            [s[0]] + DecodeIgnoringErrors(Encode(s[1..])[..n - |EncodeChar(s[0])|])
  {
    var head, rest := EncodeChar(s[0]), Encode(s[1..])[..n - |EncodeChar(s[0])|];
    assert Encode(s)[..n] == head + rest;
    HeadDecodes(s[0], rest);
    assert (head + rest)[|head|..] == rest;
  }

  lemma EncodePrefix(s: Text, k: nat)
    requires Encodable(s) && k < |s|
    ensures |Encode(s[..k + 1])| == |EncodeChar(s[0])| + |Encode(s[1..][..k])|
  {
    assert s[..k + 1][0] == s[0] && s[..k + 1][1..] == s[1..][..k];
  }

  /** A byte cut of an encoding decodes to the longest prefix whose encoding survived the cut. */
  lemma {:induction false} CutDecodesToPrefix(s: Text, n: nat) returns (k: nat)
    requires Encodable(s) && n <= |Encode(s)|
    ensures k <= |s| && DecodeIgnoringErrors(Encode(s)[..n]) == s[..k]
    ensures |Encode(s[..k])| <= n && (k < |s| ==> n < |Encode(s[..k + 1])|)
  {
    if s == [] {
      k := 0;
    } else {
      var head, rest := EncodeChar(s[0]), Encode(s[1..]);
      if n < |head| {
        k := 0;
        assert Encode(s)[..n] == head[..n];
        CutCharVanishes(s[0], n);
        assert s[..1][0] == s[0] && s[..1][1..] == [];
      } else {
        k := CutDecodesToPrefix(s[1..], n - |head|);
        CutBehindHead(s, n);
        EncodePrefix(s, k);
        if k < |s| - 1 {
          EncodePrefix(s, k + 1);
        }
        assert [s[0]] + s[1..][..k] == s[..k + 1];
        k := k + 1;
      }
    }
  }

  lemma {:induction false} EncodeAppend(a: Text, b: Text)
    requires Encodable(a) && Encodable(b)
    ensures Encode(a + b) == Encode(a) + Encode(b)
  {
    if a == [] {
      assert a + b == b;
    } else {
      EncodeAppend(a[1..], b);
      assert (a + b)[0] == a[0] && (a + b)[1..] == a[1..] + b;
      var head, x, y := EncodeChar(a[0]), Encode(a[1..]), Encode(b);
      assert head + (x + y) == (head + x) + y;
    }
  }

  /** The result is the longest prefix whose encoding fits the budget, and the flag says whether
      anything was cut.  It fails exactly on strings that have no UTF-8 encoding. */
  lemma TruncateKeepsLongestPrefix(value: Text, maxBytes: nat)
    ensures Truncate(value, maxBytes).None? <==> !Encodable(value)
    ensures Truncate(value, maxBytes).Some? ==>
      var (r, cut) := Truncate(value, maxBytes).value;
      && r <= value && |Encode(r)| <= maxBytes
      && (cut <==> r != value)
      && forall k :: |r| < k <= |value| ==> maxBytes < |Encode(value[..k])|
  {
    if Encodable(value) {
      var (r, cut) := Truncate(value, maxBytes).value;
      if cut {
        var k := CutDecodesToPrefix(value, maxBytes);
        assert r == value[..k];
        assert value[..|value|] == value;
        forall m | k < m <= |value| ensures maxBytes < |Encode(value[..m])| {
          assert value[..m] == value[..k + 1] + value[k + 1..m];
          EncodeAppend(value[..k + 1], value[k + 1..m]);
        }
      }
    }
  }
}
