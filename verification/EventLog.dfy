/** The event-log archive processor and the verified reader of what it writes. */
module EventLog {
  import opened Ordering
  import opened SparkEvents
  import opened Wrappers

  type Bytes = seq<int>

  const NEWLINE: int := 10
  const MAX_MEMBERS: nat := 16
  const LOG_START := "SparkListenerLogStart"
  const APPLICATION_START := "SparkListenerApplicationStart"
  const APPLICATION_END := "SparkListenerApplicationEnd"

  /** What the processor and the reader take from JSON, UTF-8, SHA-256 and redaction.  `parse` and
      `reparse` are the writer's and the reader's decoders, `print` is the encoder without the line
      end; `None` stands for a ValueError or UnicodeError. */
  datatype Codec = Codec(
    parse: Bytes -> Option<Json>,
    reparse: Bytes -> Option<Json>,
    print_: Event -> Option<Bytes>,
    redact: Event -> Event,
    leaks: Bytes -> bool,
    digest: Bytes -> string)

  /** An encoded event is one line, and decoding the line gives the event back. */
  ghost predicate Lawful(c: Codec) {
    forall e :: c.print_(e).Some? ==>
      NEWLINE !in c.print_(e).value && c.reparse(c.print_(e).value + [NEWLINE]) == Some(JObject(e))
  }

  // ---------------------------------------------------------------------------------------------
  // Lines

  /** The length of the first line, with its newline if it has one. */
  function FirstLine(b: Bytes): (n: nat)
    requires b != []
    ensures 1 <= n <= |b|
  {
    if b[0] == NEWLINE || |b| == 1 then 1 else 1 + FirstLine(b[1..])
  }

  function Lines(b: Bytes): seq<Bytes> {
    if b == [] then [] else [b[..FirstLine(b)]] + Lines(b[FirstLine(b)..])
  }

  function Concat(lines: seq<Bytes>): Bytes {
    if lines == [] then [] else lines[0] + Concat(lines[1..])
  }

  /** `stream.readline(limit)` on the unread rest of a file. */
  function ReadLine(rest: Bytes, limit: nat): (raw: Bytes)
    ensures raw <= rest
    ensures |raw| <= limit
  {
    if rest == [] then [] else if FirstLine(rest) <= limit then rest[..FirstLine(rest)] else rest[..limit]
  }

  predicate IsLine(b: Bytes) {
    b != [] && b[|b| - 1] == NEWLINE && NEWLINE !in b[..|b| - 1]
  }

  lemma {:induction false} FirstLineOf(line: Bytes, rest: Bytes)
    requires IsLine(line)
    ensures FirstLine(line + rest) == |line|
  {
    if |line| > 1 {
      assert line[0] in line[..|line| - 1];
      assert (line + rest)[1..] == line[1..] + rest;
      assert line[1..][..|line| - 2] == line[..|line| - 1][1..];
      FirstLineOf(line[1..], rest);
    }
  }

  /** Lines that each end in their only newline survive concatenation. */
  lemma {:induction false} LinesOfConcat(lines: seq<Bytes>)
    requires forall i :: 0 <= i < |lines| ==> IsLine(lines[i])
    ensures Lines(Concat(lines)) == lines
  {
    if lines != [] {
      var rest := Concat(lines[1..]);
      FirstLineOf(lines[0], rest);
      LinesOfConcat(lines[1..]);
      assert (lines[0] + rest)[..|lines[0]|] == lines[0] && (lines[0] + rest)[|lines[0]|..] == rest;
    }
  }

  lemma {:induction false} ConcatAppend(a: seq<Bytes>, x: Bytes)
    ensures Concat(a + [x]) == Concat(a) + x
  {
    if a != [] {
      ConcatAppend(a[1..], x);
      assert (a + [x])[1..] == a[1..] + [x];
    }
  }

  // ---------------------------------------------------------------------------------------------
  // Writing one member

  datatype Request = Request(applicationId: string, attemptId: Option<string>)

  datatype Member = Member(name: string, safe: bool, content: Bytes)

  /** `SparkEventLogFile`, with the index of the member in place of the path. */
  datatype File = File(
    index: nat,
    attemptId: Option<string>,
    version: string,
    size: nat,
    digest: string,
    sourceDigest: string,
    count: nat,
    endSeen: bool)

  datatype Stored = Stored(file: File, contents: Bytes)

  /** The loop variables of one member. */
  datatype Scan = Scan(
    version: Option<string>,
    identity: Option<Option<string>>,
    endSeen: bool,
    output: Bytes,
    count: nat)

  const NEW_SCAN := Scan(None, None, false, [], 0)

  predicate VersionText(s: string) {
    1 <= |s| <= 128 && forall i :: 0 <= i < |s| ==>
      'A' <= s[i] <= 'Z' || 'a' <= s[i] <= 'z' || '0' <= s[i] <= '9' || s[i] == '.' || s[i] == '_' || s[i] == '-'
  }

  /** A valid "App Attempt ID": absent, null, or identifier text. */
  function AttemptOf(j: Json): Option<Option<string>> {
    if j.JNull? then Some(None)
    else if j.JString? && IdentifierText(j.text, 128) then Some(Some(j.text))
    else None
  }

  predicate NamedEvent(j: Json) {
    j.JObject? && Get(j.fields, "Event").JString? && PlainText(Get(j.fields, "Event").text, 512)
  }

  /** The version after an event, if the event's own version is acceptable. */
  function NextVersion(version: Option<string>, e: Event): Option<Option<string>> {
    if Name(e) != LOG_START then Some(version)
    else
      var observed := Get(e, "Spark Version");
      if observed.JString? && VersionText(observed.text) && (version.None? || version.value == observed.text)
      then Some(Some(observed.text))
      else None
  }

  function NextIdentity(req: Request, identity: Option<Option<string>>, e: Event): Option<Option<Option<string>>> {
    if Name(e) != APPLICATION_START then Some(identity)
    else
      var attempt := AttemptOf(Get(e, "App Attempt ID"));
      if Get(e, "App ID") == JString(req.applicationId) && attempt.Some?
         && (req.attemptId.None? || attempt.value == req.attemptId)
         && (identity.None? || identity == attempt)
      then Some(attempt)
      else None
  }

  /** The redacted event as one output line. */
  function EncodeEvent(c: Codec, e: Event): Option<Bytes> {
    var printed := c.print_(c.redact(e));
    if printed.None? || c.leaks(printed.value + [NEWLINE]) then None else Some(printed.value + [NEWLINE])
  }

  /** One round of the line loop, budgets aside. */
  function StepLine(c: Codec, req: Request, st: Scan, raw: Bytes): Option<Scan> {
    var parsed := c.parse(raw);
    if parsed.None? || !NamedEvent(parsed.value) then None
    else
      var e := parsed.value.fields;
      var version, identity, encoded := NextVersion(st.version, e), NextIdentity(req, st.identity, e), EncodeEvent(c, e);
      if version.None? || identity.None? || encoded.None? then None
      else
        Some(Scan(version.value, identity.value, st.endSeen || Name(e) == APPLICATION_END,
                  st.output + encoded.value, st.count + 1))
  }

  function ScanLines(c: Codec, req: Request, lines: seq<Bytes>): Option<Scan> {
    if lines == [] then Some(NEW_SCAN)
    else match ScanLines(c, req, lines[..|lines| - 1])
      case None => None
      case Some(st) => StepLine(c, req, st, lines[|lines| - 1])
  }

  /** The checks behind the line loop. */
  function Seal(c: Codec, req: Request, m: Member, index: nat, st: Scan): Option<Stored> {
    if st.identity.None? || st.version.None? then None
    else
      var expected := req.applicationId + if st.identity.value.Some? then "_" + st.identity.value.value else "";
      if m.name != expected && m.name != expected + ".inprogress" then None
      else
        Some(Stored(File(index, st.identity.value, st.version.value, |st.output|, c.digest(st.output),
                         c.digest(m.content), st.count, st.endSeen), st.output))
  }

  /** What one member becomes, budgets and other members aside. */
  function StoreMember(c: Codec, req: Request, m: Member, index: nat): Option<Stored> {
    if !m.safe then None
    else match ScanLines(c, req, Lines(m.content))
      case None => None
      case Some(st) => Seal(c, req, m, index, st)
  }

  lemma {:induction false} ScanPrefix(c: Codec, req: Request, lines: seq<Bytes>, n: nat)
    requires n <= |lines|
    ensures ScanLines(c, req, lines).Some? ==>
      && ScanLines(c, req, lines[..n]).Some?
      && |ScanLines(c, req, lines[..n]).value.output| <= |ScanLines(c, req, lines).value.output|
  {
    if n < |lines| {
      assert lines[..|lines| - 1][..n] == lines[..n];
      ScanPrefix(c, req, lines[..|lines| - 1], n);
    } else {
      assert lines[..n] == lines;
    }
  }

  /** The line loop over one member: the bytes left in each budget go in, the result says whether
      the member fits both and scans. */
  method ScanMember(c: Codec, req: Request, content: Bytes, sourceLeft: nat, outputLeft: nat) returns (r: Option<Scan>)
    ensures r == match ScanLines(c, req, Lines(content))
                 case None => None
                 case Some(st) => if |content| <= sourceLeft && |st.output| <= outputLeft then Some(st) else None
  {
    var st, rest, read := NEW_SCAN, content, 0;
    ghost var lines, done := Lines(content), 0;
    assert lines[..0] == [] && lines[0..] == lines;
    while true
      invariant done <= |lines| && Lines(rest) == lines[done..]
      invariant read <= sourceLeft && read + |rest| == |content|
      invariant ScanLines(c, req, lines[..done]) == Some(st) && |st.output| <= outputLeft
      decreases |rest|
    {
      var raw := ReadLine(rest, sourceLeft - read + 1);
      if raw == [] {
        assert lines[..done] == lines;
        return Some(st);
      }
      read := read + |raw|;
      if read > sourceLeft {
        return None;
      }
      rest := rest[|raw|..];
      assert lines[done] == raw && Lines(rest) == lines[done + 1..];
      var next := StepLine(c, req, st, raw);
      done := done + 1;
      ScanGrows(c, req, lines, done, next);
      if next.None? || |next.value.output| > outputLeft {
        return None;
      }
      st := next.value;
    }
  }

  /** The scan of a longer prefix, and what it says about the whole. */
  lemma ScanGrows(c: Codec, req: Request, lines: seq<Bytes>, n: nat, next: Option<Scan>)
    requires 0 < n <= |lines| && ScanLines(c, req, lines[..n - 1]).Some?
    requires next == StepLine(c, req, ScanLines(c, req, lines[..n - 1]).value, lines[n - 1])
    ensures ScanLines(c, req, lines[..n]) == next
    ensures ScanLines(c, req, lines).Some? ==>
      next.Some? && |next.value.output| <= |ScanLines(c, req, lines).value.output|
  {
    assert lines[..n][..n - 1] == lines[..n - 1];
    ScanPrefix(c, req, lines, n);
  }

  // ---------------------------------------------------------------------------------------------
  // The whole archive

  function SourceSize(members: seq<Member>): nat {
    if members == [] then 0 else SourceSize(members[..|members| - 1]) + |members[|members| - 1].content|
  }

  function OutputSize(stored: seq<Stored>): nat {
    if stored == [] then 0 else OutputSize(stored[..|stored| - 1]) + |stored[|stored| - 1].contents|
  }

  /** The members so far, in archive order, if each can be stored and no attempt occurs twice. */
  function StoreAll(c: Codec, req: Request, members: seq<Member>): Option<seq<Stored>> {
    if members == [] then Some([])
    else
      Extend(StoreAll(c, req, members[..|members| - 1]), StoreMember(c, req, members[|members| - 1], |members|))
  }

  function Extend(before: Option<seq<Stored>>, last: Option<Stored>): Option<seq<Stored>> {
    if before.None? || last.None? || HasAttempt(before.value, last.value.file.attemptId) then None
    else Some(before.value + [last.value])
  }

  lemma ExtendFacts(before: Option<seq<Stored>>, last: Option<Stored>)
    requires Extend(before, last).Some?
    ensures before.Some? && last.Some? && Extend(before, last).value == before.value + [last.value]
    ensures forall j :: 0 <= j < |before.value| ==> before.value[j].file.attemptId != last.value.file.attemptId
    ensures OutputSize(before.value + [last.value]) == OutputSize(before.value) + |last.value.contents|
  {
    assert (before.value + [last.value])[..|before.value|] == before.value;
  }

  predicate HasAttempt(stored: seq<Stored>, attempt: Option<string>) {
    exists i :: 0 <= i < |stored| && stored[i].file.attemptId == attempt
  }

  predicate DistinctNames(members: seq<Member>) {
    forall i, j :: 0 <= i < j < |members| ==> members[i].name != members[j].name
  }

  /** The attempt without an ID first, then by ID. */
  function ByAttempt(): Stored -> Key {
    (s: Stored) => match s.file.attemptId case None => [0] case Some(id) => [1] + CodePoints(id)
  }

  lemma {:induction false} StorePrefix(c: Codec, req: Request, members: seq<Member>, n: nat)
    requires n <= |members|
    ensures SourceSize(members[..n]) <= SourceSize(members)
    ensures StoreAll(c, req, members).Some? ==>
      && StoreAll(c, req, members[..n]).Some?
      && OutputSize(StoreAll(c, req, members[..n]).value) <= OutputSize(StoreAll(c, req, members).value)
  {
    if n < |members| {
      assert members[..|members| - 1][..n] == members[..n];
      StorePrefix(c, req, members[..|members| - 1], n);
    } else {
      assert members[..n] == members;
    }
  }

  /** One round of the member loop, within what the budgets leave. */
  method StoreWithin(c: Codec, req: Request, m: Member, index: nat, sourceLeft: nat, outputLeft: nat)
    returns (r: Option<Stored>)
    ensures r == match StoreMember(c, req, m, index)
                 case None => None
                 case Some(s) => if |m.content| <= sourceLeft && |s.contents| <= outputLeft then Some(s) else None
  {
    if !m.safe {
      return None;
    }
    var scan := ScanMember(c, req, m.content, sourceLeft, outputLeft);
    if scan.None? {
      return None;
    }
    return Seal(c, req, m, index, scan.value);
  }

  /** Everything the archive's members become, if both totals fit the budget. */
  function StoreFitting(c: Codec, req: Request, members: seq<Member>, maxBytes: nat): Option<seq<Stored>> {
    var stored := StoreAll(c, req, members);
    if stored.None? || SourceSize(members) > maxBytes || OutputSize(stored.value) > maxBytes then None else stored
  }

  lemma FittingPrefix(c: Codec, req: Request, members: seq<Member>, n: nat, maxBytes: nat)
    requires n <= |members|
    ensures StoreFitting(c, req, members[..n], maxBytes).None? ==> StoreFitting(c, req, members, maxBytes).None?
  {
    StorePrefix(c, req, members, n);
  }

  lemma StoreStep(c: Codec, req: Request, members: seq<Member>, i: nat)
    requires i < |members|
    ensures StoreAll(c, req, members[..i + 1]) ==
            Extend(StoreAll(c, req, members[..i]), StoreMember(c, req, members[i], i + 1))
    ensures SourceSize(members[..i + 1]) == SourceSize(members[..i]) + |members[i].content|
  {
    assert members[..i + 1][..i] == members[..i];
  }

  /** One more member, for all that can be made of it. */
  lemma ExtendFits(before: seq<Stored>, last: Option<Stored>, source: nat, maxBytes: nat)
    requires OutputSize(before) <= maxBytes
    ensures var after := Extend(Some(before), last);
            if last.Some? && source <= maxBytes && OutputSize(before) + |last.value.contents| <= maxBytes
               && !HasAttempt(before, last.value.file.attemptId)
            then after == Some(before + [last.value]) && OutputSize(after.value) == OutputSize(before) + |last.value.contents|
                 && OutputSize(after.value) <= maxBytes
            else after.None? || source > maxBytes || OutputSize(after.value) > maxBytes
  {
    if Extend(Some(before), last).Some? {
      ExtendFacts(Some(before), last);
    }
  }

  /** How one round of the member loop ends. */
  lemma FittingStep(c: Codec, req: Request, members: seq<Member>, i: nat, maxBytes: nat, stored: seq<Stored>)
    requires i < |members| && StoreFitting(c, req, members[..i], maxBytes) == Some(stored)
    ensures var m, next := members[i], StoreMember(c, req, members[i], i + 1);
            if next.Some? && SourceSize(members[..i]) + |m.content| <= maxBytes
               && OutputSize(stored) + |next.value.contents| <= maxBytes
               && !HasAttempt(stored, next.value.file.attemptId)
            then StoreFitting(c, req, members[..i + 1], maxBytes) == Some(stored + [next.value])
                 && SourceSize(members[..i + 1]) == SourceSize(members[..i]) + |m.content|
                 && OutputSize(stored + [next.value]) == OutputSize(stored) + |next.value.contents|
            else StoreFitting(c, req, members, maxBytes).None?
  {
    StoreStep(c, req, members, i);
    FittingPrefix(c, req, members, i + 1, maxBytes);
    ExtendFits(stored, StoreMember(c, req, members[i], i + 1), SourceSize(members[..i + 1]), maxBytes);
  }

  /** One round of the member loop: `None` when the archive fails here. */
  method StoreNext(c: Codec, req: Request, members: seq<Member>, i: nat, maxBytes: nat, stored: seq<Stored>,
                   totalSource: nat, totalOutput: nat)
    returns (r: Option<Stored>)
    requires i < |members| && StoreFitting(c, req, members[..i], maxBytes) == Some(stored)
    requires totalSource == SourceSize(members[..i]) && totalOutput == OutputSize(stored)
    ensures r.None? ==> StoreFitting(c, req, members, maxBytes).None?
    ensures r.Some? ==> StoreFitting(c, req, members[..i + 1], maxBytes) == Some(stored + [r.value])
    ensures r.Some? ==> SourceSize(members[..i + 1]) == totalSource + |members[i].content|
    ensures r.Some? ==> OutputSize(stored + [r.value]) == totalOutput + |r.value.contents|
  {
    FittingStep(c, req, members, i, maxBytes, stored);
    r := StoreWithin(c, req, members[i], i + 1, maxBytes - totalSource, maxBytes - totalOutput);
    if r.Some? && HasAttempt(stored, r.value.file.attemptId) {
      return None;
    }
  }

  /** The member loop. */
  method StoreMembers(c: Codec, req: Request, members: seq<Member>, maxBytes: nat) returns (r: Option<seq<Stored>>)
    ensures r == StoreFitting(c, req, members, maxBytes)
  {
    var stored, totalSource, totalOutput, i := [], 0, 0, 0;
    while i < |members|
      invariant i <= |members|
      invariant StoreFitting(c, req, members[..i], maxBytes) == Some(stored)
      invariant totalSource == SourceSize(members[..i]) && totalOutput == OutputSize(stored)
    {
      var next := StoreNext(c, req, members, i, maxBytes, stored, totalSource, totalOutput);
      if next.None? {
        return None;
      }
      totalSource := totalSource + |members[i].content|;
      totalOutput := totalOutput + |next.value.contents|;
      stored := stored + [next.value];
      i := i + 1;
    }
    assert members[..i] == members;
    return Some(stored);
  }

  /** What `process_archive` returns.  `leaksFile` says that a file's metadata holds a secret. */
  function Processed(c: Codec, req: Request, members: seq<Member>, maxBytes: nat, leaksFile: File -> bool): Option<seq<Stored>> {
    if !(1 <= |members| <= MAX_MEMBERS && DistinctNames(members)) then None
    else match StoreFitting(c, req, members, maxBytes)
      case None => None
      case Some(stored) =>
        if req.attemptId.Some? && |stored| != 1 then None
        else if exists i :: 0 <= i < |stored| && leaksFile(stored[i].file) then None
        else Some(Sort(ByAttempt(), stored))
  }

  // ---------------------------------------------------------------------------------------------
  // The verified reader

  /** What the reader makes of one line: a named event that agrees with the file's metadata. */
  function ReadEvent(c: Codec, applicationId: string, f: File, raw: Bytes): Option<Event> {
    var parsed := c.reparse(raw);
    if parsed.None? || !NamedEvent(parsed.value) then None
    else
      var e := parsed.value.fields;
      if Name(e) == LOG_START && Get(e, "Spark Version") != JString(f.version) then None
      else if Name(e) == APPLICATION_START &&
              (Get(e, "App ID") != JString(applicationId) || Get(e, "App Attempt ID") != AttemptJson(f.attemptId)) then None
      else Some(e)
  }

  /** `event.get("App Attempt ID") != selected.attempt_id`: an absent field equals no attempt. */
  function AttemptJson(attempt: Option<string>): Json {
    if attempt.Some? then JString(attempt.value) else JNull
  }

  predicate Contains(events: seq<Event>, name: string) {
    exists i :: 0 <= i < |events| && Name(events[i]) == name
  }

  /** The reader's verdict on a file: every line reads, and the end-of-file checks hold. */
  ghost predicate Verified(c: Codec, applicationId: string, f: File, contents: Bytes, maxBytes: nat, events: seq<Event>) {
    var lines := Lines(contents);
    && |contents| == f.size && f.size <= maxBytes && |lines| == f.count && c.digest(contents) == f.digest
    && |events| == |lines|
    && (forall i :: 0 <= i < |lines| ==> ReadEvent(c, applicationId, f, lines[i]) == Some(events[i]))
    && Contains(events, APPLICATION_START) && Contains(events, LOG_START)
    && f.endSeen == Contains(events, APPLICATION_END)
  }

  lemma ReadingIsUnique(c: Codec, applicationId: string, f: File, lines: seq<Bytes>, a: seq<Event>, b: seq<Event>)
    requires |a| == |b| == |lines|
    requires forall i :: 0 <= i < |lines| ==> ReadEvent(c, applicationId, f, lines[i]) == Some(a[i])
    requires forall i :: 0 <= i < |lines| ==> ReadEvent(c, applicationId, f, lines[i]) == Some(b[i])
    ensures a == b
  {
    forall i | 0 <= i < |lines| ensures a[i] == b[i] {
      assert Some(a[i]) == Some(b[i]);
    }
  }

  lemma ContainsAppend(events: seq<Event>, e: Event, name: string)
    ensures Contains(events + [e], name) == (Contains(events, name) || Name(e) == name)
  {
    var all := events + [e];
    if Contains(events, name) {
      var i :| 0 <= i < |events| && Name(events[i]) == name;
      assert Name(all[i]) == name;
    }
    if Name(e) == name {
      assert Name(all[|events|]) == name;
    }
  }

  /** `VerifiedEventLogReader.read` behind the manifest checks; the result is what the visitor saw
      with the lines 1, 2, ..., and `None` is an error. */
  method ReadVerified(c: Codec, applicationId: string, f: File, contents: Bytes, maxBytes: nat) returns (r: Option<seq<Event>>)
    ensures r.Some? ==> Verified(c, applicationId, f, contents, maxBytes, r.value)
    ensures r.None? ==> forall events :: !Verified(c, applicationId, f, contents, maxBytes, events)
  {
    if |contents| != f.size || |contents| > maxBytes {
      return None;
    }
    var rest, size, count, version, start, end := contents, 0, 0, false, false, false;
    var visited := [];
    ghost var lines := Lines(contents);
    assert lines[0..] == lines;
    while true
      invariant count == |visited| <= |lines| && count <= f.count && Lines(rest) == lines[count..]
      invariant size + |rest| == |contents|
      invariant forall i :: 0 <= i < count ==> ReadEvent(c, applicationId, f, lines[i]) == Some(visited[i])
      invariant version == Contains(visited, LOG_START)
      invariant start == Contains(visited, APPLICATION_START)
      invariant end == Contains(visited, APPLICATION_END)
      decreases |rest|
    {
      var raw := ReadLine(rest, maxBytes - size + 1);
      if raw == [] {
        break;
      }
      size, count := size + |raw|, count + 1;
      if size > maxBytes || count > f.count {
        return None;
      }
      assert lines[count - 1] == raw && Lines(rest[|raw|..]) == lines[count..];
      rest := rest[|raw|..];
      var event := ReadEvent(c, applicationId, f, raw);
      if event.None? {
        return None;
      }
      var name := Name(event.value);
      version := version || name == LOG_START;
      start := start || name == APPLICATION_START;
      end := end || name == APPLICATION_END;
      ContainsAppend(visited, event.value, LOG_START);
      ContainsAppend(visited, event.value, APPLICATION_START);
      ContainsAppend(visited, event.value, APPLICATION_END);
      visited := visited + [event.value];
    }
    assert lines[count..] == [];
    if size != f.size || count != f.count || c.digest(contents) != f.digest || !start || !version || end != f.endSeen {
      forall events ensures !Verified(c, applicationId, f, contents, maxBytes, events) {
        if Verified(c, applicationId, f, contents, maxBytes, events) {
          ReadingIsUnique(c, applicationId, f, lines, events, visited);
        }
      }
      return None;
    }
    return Some(visited);
  }

  // ---------------------------------------------------------------------------------------------
  // Round trip

  /** The events of a source file. */
  function SourceEvents(c: Codec, lines: seq<Bytes>): (r: seq<Event>)
    ensures |r| == |lines|
    ensures forall i :: 0 <= i < |r| && c.parse(lines[i]).Some? ==> r[i] == AsObject(c.parse(lines[i]).value)
  {
    seq(|lines|, i requires 0 <= i < |lines| =>
      if c.parse(lines[i]).Some? then AsObject(c.parse(lines[i]).value) else map[])
  }

  function Redacted(c: Codec, events: seq<Event>): (r: seq<Event>)
    ensures |r| == |events|
    ensures forall i :: 0 <= i < |r| ==> r[i] == c.redact(events[i])
  {
    seq(|events|, i requires 0 <= i < |events| => c.redact(events[i]))
  }

  /** The output lines: redacted events that print, each with its line end. */
  ghost predicate Prints(c: Codec, events: seq<Event>, output: seq<Bytes>) {
    && |output| == |events|
    && forall i :: 0 <= i < |events| ==> EncodeEvent(c, events[i]) == Some(output[i])
  }

  /** The recorded version is that of every log start, of which there is one. */
  ghost predicate VersionWitnessed(version: Option<string>, events: seq<Event>) {
    && (version.Some? <==> Contains(events, LOG_START))
    && forall i :: 0 <= i < |events| && Name(events[i]) == LOG_START ==>
         version.Some? && Get(events[i], "Spark Version") == JString(version.value)
  }

  predicate IsStart(e: Event, applicationId: string, attempt: Option<string>) {
    Get(e, "App ID") == JString(applicationId) && Get(e, "App Attempt ID") == AttemptJson(attempt)
  }

  /** The recorded identity is that of every application start, of which there is one. */
  ghost predicate IdentityWitnessed(req: Request, identity: Option<Option<string>>, events: seq<Event>) {
    && (identity.Some? <==> Contains(events, APPLICATION_START))
    && (forall i :: 0 <= i < |events| && Name(events[i]) == APPLICATION_START ==>
          identity.Some? && IsStart(events[i], req.applicationId, identity.value))
    && (identity.Some? && req.attemptId.Some? ==> identity.value == req.attemptId)
  }

  /** What the writer has established about the events of a file. */
  ghost predicate Witnessed(req: Request, st: Scan, events: seq<Event>) {
    && st.count == |events|
    && VersionWitnessed(st.version, events)
    && IdentityWitnessed(req, st.identity, events)
    && st.endSeen == Contains(events, APPLICATION_END)
    && forall i :: 0 <= i < |events| ==> NamedEvent(JObject(events[i]))
  }

  lemma VersionStep(version: Option<string>, events: seq<Event>, e: Event)
    requires VersionWitnessed(version, events) && NextVersion(version, e).Some?
    ensures VersionWitnessed(NextVersion(version, e).value, events + [e])
  {
    ContainsAppend(events, e, LOG_START);
  }

  lemma IdentityStep(req: Request, identity: Option<Option<string>>, events: seq<Event>, e: Event)
    requires IdentityWitnessed(req, identity, events) && NextIdentity(req, identity, e).Some?
    ensures IdentityWitnessed(req, NextIdentity(req, identity, e).value, events + [e])
  {
    ContainsAppend(events, e, APPLICATION_START);
  }

  /** What an accepted line adds. */
  lemma StepFacts(c: Codec, req: Request, st: Scan, raw: Bytes) returns (e: Event)
    requires StepLine(c, req, st, raw).Some?
    ensures c.parse(raw) == Some(JObject(e)) && NamedEvent(JObject(e))
    ensures NextVersion(st.version, e).Some? && NextIdentity(req, st.identity, e).Some? && EncodeEvent(c, e).Some?
    ensures StepLine(c, req, st, raw).value ==
      Scan(NextVersion(st.version, e).value, NextIdentity(req, st.identity, e).value,
           st.endSeen || Name(e) == APPLICATION_END, st.output + EncodeEvent(c, e).value, st.count + 1)
  {
    e := c.parse(raw).value.fields;
  }

  lemma WitnessStep(req: Request, st: Scan, events: seq<Event>, e: Event, output: Bytes)
    requires Witnessed(req, st, events) && NamedEvent(JObject(e))
    requires NextVersion(st.version, e).Some? && NextIdentity(req, st.identity, e).Some?
    ensures Witnessed(req, Scan(NextVersion(st.version, e).value, NextIdentity(req, st.identity, e).value,
                                st.endSeen || Name(e) == APPLICATION_END, output, st.count + 1), events + [e])
  {
    VersionStep(st.version, events, e);
    IdentityStep(req, st.identity, events, e);
    ContainsAppend(events, e, APPLICATION_END);
  }

  lemma {:induction false} ScanFacts(c: Codec, req: Request, lines: seq<Bytes>) returns (output: seq<Bytes>)
    requires ScanLines(c, req, lines).Some?
    ensures var st, events := ScanLines(c, req, lines).value, SourceEvents(c, lines);
            Witnessed(req, st, events) && Prints(c, events, output) && st.output == Concat(output)
  {
    if lines == [] {
      output := [];
    } else {
      var before, raw := lines[..|lines| - 1], lines[|lines| - 1];
      var done := ScanFacts(c, req, before);
      var st := ScanLines(c, req, before).value;
      var e := StepFacts(c, req, st, raw);
      var encoded := EncodeEvent(c, e).value;
      WitnessStep(req, st, SourceEvents(c, before), e, st.output + encoded);
      assert SourceEvents(c, lines) == SourceEvents(c, before) + [e];
      ConcatAppend(done, encoded);
      output := done + [encoded];
      PrintsAppend(c, SourceEvents(c, before), done, e, encoded);
    }
  }

  lemma PrintsAppend(c: Codec, events: seq<Event>, output: seq<Bytes>, e: Event, line: Bytes)
    requires Prints(c, events, output) && EncodeEvent(c, e) == Some(line)
    ensures Prints(c, events + [e], output + [line])
  {
  }

  /** One event agrees with the metadata the writer recorded. */
  predicate Agrees(applicationId: string, f: File, e: Event) {
    && NamedEvent(JObject(e))
    && (Name(e) == LOG_START ==> Get(e, "Spark Version") == JString(f.version))
    && (Name(e) == APPLICATION_START ==> IsStart(e, applicationId, f.attemptId))
  }

  /** The events agree with the metadata, also in what they contain. */
  ghost predicate StillConsistent(applicationId: string, f: File, events: seq<Event>) {
    && (forall i :: 0 <= i < |events| ==> Agrees(applicationId, f, events[i]))
    && Contains(events, APPLICATION_START) && Contains(events, LOG_START)
    && f.endSeen == Contains(events, APPLICATION_END)
  }

  lemma ReadEventAgrees(c: Codec, applicationId: string, f: File, raw: Bytes, e: Event)
    requires c.reparse(raw) == Some(JObject(e))
    ensures ReadEvent(c, applicationId, f, raw) == if Agrees(applicationId, f, e) then Some(e) else None
  {
  }

  lemma PrintedLines(c: Codec, events: seq<Event>, output: seq<Bytes>)
    requires Lawful(c) && Prints(c, events, output)
    ensures Lines(Concat(output)) == output
    ensures forall i :: 0 <= i < |events| ==> c.reparse(output[i]) == Some(JObject(Redacted(c, events)[i]))
  {
    forall i | 0 <= i < |output| ensures IsLine(output[i]) && c.reparse(output[i]) == Some(JObject(c.redact(events[i]))) {
      assert EncodeEvent(c, events[i]) == Some(output[i]);
      var printed := c.print_(c.redact(events[i]));
      assert output[i][..|output[i]| - 1] == printed.value;
    }
    LinesOfConcat(output);
  }

  /** The parts of a stored member. */
  lemma StoredParts(c: Codec, req: Request, m: Member, index: nat) returns (st: Scan, output: seq<Bytes>)
    requires StoreMember(c, req, m, index).Some?
    ensures var s, events := StoreMember(c, req, m, index).value, SourceEvents(c, Lines(m.content));
            && Witnessed(req, st, events) && Prints(c, events, output)
            && st.version == Some(s.file.version) && st.identity == Some(s.file.attemptId)
            && s.contents == Concat(output) && s.file.size == |s.contents| && s.file.digest == c.digest(s.contents)
            && s.file.count == |events| && s.file.endSeen == st.endSeen && s.file.index == index
  {
    output := ScanFacts(c, req, Lines(m.content));
    st := ScanLines(c, req, Lines(m.content)).value;
  }

  /** The reader accepts a written file exactly when redaction left its events consistent with
      the recorded metadata, and then its visitor sees the redacted events in order. */
  lemma ReaderAcceptsConsistentFiles(c: Codec, req: Request, m: Member, index: nat, maxBytes: nat)
    requires Lawful(c) && StoreMember(c, req, m, index).Some?
    requires |StoreMember(c, req, m, index).value.contents| <= maxBytes
    ensures var s, events := StoreMember(c, req, m, index).value, Redacted(c, SourceEvents(c, Lines(m.content)));
            && (StillConsistent(req.applicationId, s.file, events) <==>
                Verified(c, req.applicationId, s.file, s.contents, maxBytes, events))
            && forall seen :: Verified(c, req.applicationId, s.file, s.contents, maxBytes, seen) ==> seen == events
  {
    var st, output := StoredParts(c, req, m, index);
    var s, source := StoreMember(c, req, m, index).value, SourceEvents(c, Lines(m.content));
    PrintedLines(c, source, output);
    LinesVerify(c, req.applicationId, s.file, s.contents, maxBytes, output, Redacted(c, source));
  }

  lemma LinesVerify(c: Codec, applicationId: string, f: File, contents: Bytes, maxBytes: nat,
                    output: seq<Bytes>, events: seq<Event>)
    requires Lines(contents) == output && |output| == |events|
    requires forall i :: 0 <= i < |events| ==> c.reparse(output[i]) == Some(JObject(events[i]))
    requires |contents| == f.size <= maxBytes && |output| == f.count && c.digest(contents) == f.digest
    ensures StillConsistent(applicationId, f, events) <==> Verified(c, applicationId, f, contents, maxBytes, events)
    ensures forall seen :: Verified(c, applicationId, f, contents, maxBytes, seen) ==> seen == events
  {
    LinesRead(c, applicationId, f, output, events);
    forall seen | Verified(c, applicationId, f, contents, maxBytes, seen) ensures seen == events {
      LinesReadAs(c, applicationId, f, output, events, seen);
    }
  }

  /** Every line reads as its event exactly when every event agrees with the metadata. */
  lemma LinesRead(c: Codec, applicationId: string, f: File, output: seq<Bytes>, events: seq<Event>)
    requires |output| == |events|
    requires forall i :: 0 <= i < |events| ==> c.reparse(output[i]) == Some(JObject(events[i]))
    ensures (forall i :: 0 <= i < |events| ==> Agrees(applicationId, f, events[i])) <==>
            (forall i :: 0 <= i < |output| ==> ReadEvent(c, applicationId, f, output[i]) == Some(events[i]))
  {
    forall i | 0 <= i < |events|
      ensures Agrees(applicationId, f, events[i]) <==> ReadEvent(c, applicationId, f, output[i]) == Some(events[i])
    {
      ReadEventAgrees(c, applicationId, f, output[i], events[i]);
    }
  }

  lemma LinesReadAs(c: Codec, applicationId: string, f: File, output: seq<Bytes>, events: seq<Event>, seen: seq<Event>)
    requires |output| == |events| == |seen|
    requires forall i :: 0 <= i < |events| ==> c.reparse(output[i]) == Some(JObject(events[i]))
    requires forall i :: 0 <= i < |output| ==> ReadEvent(c, applicationId, f, output[i]) == Some(seen[i])
    ensures seen == events
  {
    forall i | 0 <= i < |seen| ensures seen[i] == events[i] {
      ReadEventAgrees(c, applicationId, f, output[i], events[i]);
    }
  }

  /** Redaction leaves alone the fields that the reader compares. */
  ghost predicate KeepsIdentity(c: Codec, events: seq<Event>) {
    forall i :: 0 <= i < |events| ==>
      var e, r := events[i], c.redact(events[i]);
      && Get(r, "Event") == Get(e, "Event")
      && (Name(e) == LOG_START ==> Get(r, "Spark Version") == Get(e, "Spark Version"))
      && (Name(e) == APPLICATION_START ==>
            Get(r, "App ID") == Get(e, "App ID") && Get(r, "App Attempt ID") == Get(e, "App Attempt ID"))
  }

  lemma RedactionKeepsNames(c: Codec, events: seq<Event>, name: string)
    requires KeepsIdentity(c, events)
    ensures Contains(Redacted(c, events), name) == Contains(events, name)
  {
    forall i | 0 <= i < |events| ensures Name(Redacted(c, events)[i]) == Name(events[i]) {
    }
    if Contains(events, name) {
      var i :| 0 <= i < |events| && Name(events[i]) == name;
      assert Name(Redacted(c, events)[i]) == name;
    }
  }

  lemma KeptIdentityIsConsistent(c: Codec, req: Request, m: Member, index: nat)
    requires StoreMember(c, req, m, index).Some? && KeepsIdentity(c, SourceEvents(c, Lines(m.content)))
    ensures StillConsistent(req.applicationId, StoreMember(c, req, m, index).value.file,
                            Redacted(c, SourceEvents(c, Lines(m.content))))
  {
    var events := SourceEvents(c, Lines(m.content));
    var st, output := StoredParts(c, req, m, index);
    var f := StoreMember(c, req, m, index).value.file;
    RedactionKeepsNames(c, events, LOG_START);
    RedactionKeepsNames(c, events, APPLICATION_START);
    RedactionKeepsNames(c, events, APPLICATION_END);
    forall i | 0 <= i < |events| ensures Agrees(req.applicationId, f, Redacted(c, events)[i]) {
      assert NamedEvent(JObject(events[i]));
    }
  }

  lemma StoreAllStep(c: Codec, req: Request, members: seq<Member>)
    requires members != [] && StoreAll(c, req, members).Some?
    ensures var n := |members| - 1;
            var before, last := StoreAll(c, req, members[..n]), StoreMember(c, req, members[n], n + 1);
            && before.Some? && last.Some? && StoreAll(c, req, members).value == before.value + [last.value]
            && (forall j :: 0 <= j < |before.value| ==> before.value[j].file.attemptId != last.value.file.attemptId)
            && OutputSize(before.value + [last.value]) == OutputSize(before.value) + |last.value.contents|
  {
    var n := |members| - 1;
    ExtendFacts(StoreAll(c, req, members[..n]), StoreMember(c, req, members[n], n + 1));
  }

  lemma {:induction false} StoredCount(c: Codec, req: Request, members: seq<Member>)
    requires StoreAll(c, req, members).Some?
    ensures |StoreAll(c, req, members).value| == |members|
  {
    if members != [] {
      StoreAllStep(c, req, members);
      StoredCount(c, req, members[..|members| - 1]);
    }
  }

  lemma {:induction false} StoredComeFromMembers(c: Codec, req: Request, members: seq<Member>, k: nat)
    requires StoreAll(c, req, members).Some? && k < |members|
    ensures var stored := StoreAll(c, req, members).value;
            && |stored| == |members|
            && StoreMember(c, req, members[k], k + 1) == Some(stored[k])
            && |stored[k].contents| <= OutputSize(stored)
            && forall j :: 0 <= j < k ==> stored[j].file.attemptId != stored[k].file.attemptId
  {
    var n := |members| - 1;
    StoreAllStep(c, req, members);
    StoredCount(c, req, members[..n]);
    var before := StoreAll(c, req, members[..n]).value;
    if k < n {
      StoredComeFromMembers(c, req, members[..n], k);
      assert StoreAll(c, req, members).value[k] == before[k];
    }
  }

  /** `next(file for file in files if file.attempt_id == attempt)` */
  function Select(stored: seq<Stored>, attempt: Option<string>): Option<Stored> {
    if stored == [] then None
    else if stored[0].file.attemptId == attempt then Some(stored[0])
    else Select(stored[1..], attempt)
  }

  lemma {:induction false} SelectFinds(stored: seq<Stored>, s: Stored)
    requires s in stored && forall x :: x in stored && x.file.attemptId == s.file.attemptId ==> x == s
    ensures Select(stored, s.file.attemptId) == Some(s)
  {
    if stored[0].file.attemptId != s.file.attemptId {
      SelectFinds(stored[1..], s);
    }
  }

  lemma AttemptsOccurOnce(c: Codec, req: Request, members: seq<Member>, x: Stored, y: Stored)
    requires StoreAll(c, req, members).Some?
    requires var stored := multiset(StoreAll(c, req, members).value); x in stored && y in stored
    requires x.file.attemptId == y.file.attemptId
    ensures x == y && multiset(StoreAll(c, req, members).value)[x] <= 1
  {
    var stored := StoreAll(c, req, members).value;
    StoredCount(c, req, members);
    var i :| 0 <= i < |stored| && stored[i] == x;
    var j :| 0 <= j < |stored| && stored[j] == y;
    StoredComeFromMembers(c, req, members, i);
    StoredComeFromMembers(c, req, members, j);
    forall k | 0 <= k < |stored| && k != i ensures stored[k] != x {
      StoredComeFromMembers(c, req, members, k);
    }
    OccursOnce(stored, i);
  }

  lemma OccursOnce<T>(s: seq<T>, i: nat)
    requires i < |s| && forall k :: 0 <= k < |s| && k != i ==> s[k] != s[i]
    ensures multiset(s)[s[i]] == 1
  {
    var a, b := s[..i], s[i + 1..];
    assert s == a + ([s[i]] + b);
    assert s[i] !in a && s[i] !in b;
    assert multiset(s) == multiset(a) + multiset{s[i]} + multiset(b);
  }

  /** A stored file is that of one member, and the only one with its attempt. */
  lemma StoredFile(c: Codec, req: Request, members: seq<Member>, s: Stored) returns (k: nat)
    requires StoreAll(c, req, members).Some? && s in StoreAll(c, req, members).value
    ensures k < |members| && StoreMember(c, req, members[k], k + 1) == Some(s)
    ensures |s.contents| <= OutputSize(StoreAll(c, req, members).value)
    ensures forall x :: x in StoreAll(c, req, members).value && x.file.attemptId == s.file.attemptId ==> x == s
  {
    var stored := StoreAll(c, req, members).value;
    StoredCount(c, req, members);
    k :| 0 <= k < |stored| && stored[k] == s;
    StoredComeFromMembers(c, req, members, k);
    forall x | x in stored && x.file.attemptId == s.file.attemptId ensures x == s {
      AttemptsOccurOnce(c, req, members, x, s);
    }
  }

  /** The file is the only one for its attempt, and provided redaction leaves the compared fields
      of its member's events alone, the reader accepts it and visits exactly the redacted events
      in order. */
  ghost predicate ReadsBack(c: Codec, req: Request, members: seq<Member>, maxBytes: nat, files: seq<Stored>, s: Stored) {
    && Select(files, s.file.attemptId) == Some(s)
    && 1 <= s.file.index <= |members|
    && var events := SourceEvents(c, Lines(members[s.file.index - 1].content));
       (KeepsIdentity(c, events) ==> Verified(c, req.applicationId, s.file, s.contents, maxBytes, Redacted(c, events)))
  }

  lemma StoredFileReadsBack(c: Codec, req: Request, members: seq<Member>, maxBytes: nat, files: seq<Stored>, s: Stored)
    requires Lawful(c) && StoreAll(c, req, members).Some? && OutputSize(StoreAll(c, req, members).value) <= maxBytes
    requires multiset(files) == multiset(StoreAll(c, req, members).value) && s in files
    ensures ReadsBack(c, req, members, maxBytes, files, s)
  {
    assert forall x :: x in files ==> x in multiset(files);
    var k := StoredFile(c, req, members, s);
    SelectFinds(files, s);
    var st, output := StoredParts(c, req, members[k], k + 1);
    ReaderAcceptsConsistentFiles(c, req, members[k], k + 1, maxBytes);
    if KeepsIdentity(c, SourceEvents(c, Lines(members[k].content))) {
      KeptIdentityIsConsistent(c, req, members[k], k + 1);
    }
  }

  /** Round trip: each file the processor returns reads back. */
  lemma ProcessedFilesReadBack(c: Codec, req: Request, members: seq<Member>, maxBytes: nat, leaksFile: File -> bool)
    requires Lawful(c)
    ensures match Processed(c, req, members, maxBytes, leaksFile)
            case None => true
            case Some(files) => forall s :: s in files ==> ReadsBack(c, req, members, maxBytes, files, s)
  {
    if Processed(c, req, members, maxBytes, leaksFile).Some? {
      var stored := StoreAll(c, req, members).value;
      var files := Sort(ByAttempt(), stored);
      SortSorted(ByAttempt(), stored);
      forall s | s in files ensures ReadsBack(c, req, members, maxBytes, files, s) {
        StoredFileReadsBack(c, req, members, maxBytes, files, s);
      }
    }
  }

  lemma {:induction false} OutputSizeIsByMultiset(a: seq<Stored>, s: Stored)
    ensures OutputSize(Insert(ByAttempt(), s, a)) == OutputSize(a) + |s.contents|
  {
    if a != [] {
      OutputSizeIsByMultiset(a[..|a| - 1], s);
      var r := Insert(ByAttempt(), s, a);
      assert r[..|r| - 1] == if Less(ByAttempt()(s), ByAttempt()(a[|a| - 1])) then Insert(ByAttempt(), s, a[..|a| - 1]) else a;
    }
  }

  lemma {:induction false} SortKeepsOutputSize(stored: seq<Stored>)
    ensures OutputSize(Sort(ByAttempt(), stored)) == OutputSize(stored)
  {
    if stored != [] {
      SortKeepsOutputSize(stored[..|stored| - 1]);
      OutputSizeIsByMultiset(Sort(ByAttempt(), stored[..|stored| - 1]), stored[|stored| - 1]);
    }
  }

  lemma SortedAttemptsDiffer(c: Codec, req: Request, members: seq<Member>)
    requires StoreAll(c, req, members).Some?
    ensures var files := Sort(ByAttempt(), StoreAll(c, req, members).value);
            forall i, j :: 0 <= i < j < |files| ==> files[i].file.attemptId != files[j].file.attemptId
  {
    var stored := StoreAll(c, req, members).value;
    var files := Sort(ByAttempt(), stored);
    SortSorted(ByAttempt(), stored);
    forall i, j | 0 <= i < j < |files| ensures files[i].file.attemptId != files[j].file.attemptId {
      if files[i].file.attemptId == files[j].file.attemptId {
        assert files[i] in multiset(stored) && files[j] in multiset(stored);
        AttemptsOccurOnce(c, req, members, files[i], files[j]);
        OccursTwice(files, i, j);
      }
    }
  }

  lemma RequestedAttempt(c: Codec, req: Request, members: seq<Member>)
    requires StoreAll(c, req, members).Some? && req.attemptId.Some? && members != []
    ensures |StoreAll(c, req, members).value| == |members|
    ensures StoreAll(c, req, members).value[0].file.attemptId == req.attemptId
  {
    StoredComeFromMembers(c, req, members, 0);
    var st, output := StoredParts(c, req, members[0], 1);
  }

  /** Files in order with distinct attempts that fit the budget together; a requested attempt is the
      only one. */
  ghost predicate Bounded(req: Request, members: seq<Member>, maxBytes: nat, files: seq<Stored>) {
    && OutputSize(files) <= maxBytes && |files| == |members|
    && SortedBy(ByAttempt(), files)
    && (forall i, j :: 0 <= i < j < |files| ==> files[i].file.attemptId != files[j].file.attemptId)
    && (req.attemptId.Some? ==> |files| == 1 && files[0].file.attemptId == req.attemptId)
  }

  lemma SortedFilesAreBounded(c: Codec, req: Request, members: seq<Member>, maxBytes: nat)
    requires StoreAll(c, req, members).Some? && OutputSize(StoreAll(c, req, members).value) <= maxBytes
    requires members != [] && (req.attemptId.Some? ==> |members| == 1)
    ensures Bounded(req, members, maxBytes, Sort(ByAttempt(), StoreAll(c, req, members).value))
  {
    var stored := StoreAll(c, req, members).value;
    SortSorted(ByAttempt(), stored);
    SortKeepsOutputSize(stored);
    StoredCount(c, req, members);
    SortedAttemptsDiffer(c, req, members);
    if req.attemptId.Some? {
      RequestedAttempt(c, req, members);
      assert Sort(ByAttempt(), stored)[0] in multiset(stored);
    }
  }

  /** What the processor returns is bounded. */
  lemma ProcessedFilesAreBounded(c: Codec, req: Request, members: seq<Member>, maxBytes: nat, leaksFile: File -> bool)
    ensures match Processed(c, req, members, maxBytes, leaksFile)
            case None => true
            case Some(files) => Bounded(req, members, maxBytes, files)
  {
    if Processed(c, req, members, maxBytes, leaksFile).Some? {
      StoredCount(c, req, members);
      SortedFilesAreBounded(c, req, members, maxBytes);
    }
  }
}
