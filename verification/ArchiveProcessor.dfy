/** `process_archive`, and exactly which archives it accepts. */
module ArchiveProcessor {
  import opened EventFields
  import opened EventLog
  import opened Ordering
  import opened SparkEvents
  import opened Wrappers

  // ---------------------------------------------------------------------------------------------
  // Lines

  /** Nonempty pieces that hold a newline nowhere but at their ends, and at each end but the last. */
  predicate LineShapes(lines: seq<Bytes>) {
    forall i :: 0 <= i < |lines| ==>
      && lines[i] != [] && NEWLINE !in lines[i][..|lines[i]| - 1]
      && (i < |lines| - 1 ==> lines[i][|lines[i]| - 1] == NEWLINE)
  }

  lemma {:induction false} FirstLineShape(b: Bytes)
    requires b != []
    ensures var n := FirstLine(b);
            NEWLINE !in b[..n - 1] && (n < |b| ==> b[n - 1] == NEWLINE)
  {
    if b[0] != NEWLINE && |b| > 1 {
      FirstLineShape(b[1..]);
      assert b[..FirstLine(b) - 1] == [b[0]] + b[1..][..FirstLine(b[1..]) - 1];
    }
  }

  lemma {:induction false} FirstLineIs(line: Bytes, rest: Bytes)
    requires line != [] && NEWLINE !in line[..|line| - 1] && (rest != [] ==> line[|line| - 1] == NEWLINE)
    ensures FirstLine(line + rest) == |line|
  {
    if |line| > 1 {
      assert line[0] in line[..|line| - 1];
      assert (line + rest)[1..] == line[1..] + rest;
      assert line[1..][..|line| - 2] == line[..|line| - 1][1..];
      FirstLineIs(line[1..], rest);
    } else {
      assert (line + rest)[0] == line[0];
      if rest == [] {
        assert line + rest == line;
      }
    }
  }

  lemma {:induction false} LinesHaveShape(b: Bytes)
    ensures Concat(Lines(b)) == b && LineShapes(Lines(b))
  {
    if b != [] {
      var n := FirstLine(b);
      var lines, rest := Lines(b), Lines(b[n..]);
      FirstLineShape(b);
      LinesHaveShape(b[n..]);
      assert b == b[..n] + b[n..] && b[..n][..n - 1] == b[..n - 1];
      assert lines == [b[..n]] + rest && (rest != [] <==> n < |b|);
      forall i | 1 <= i < |lines| ensures lines[i] == rest[i - 1] {
      }
    }
  }

  lemma {:induction false} ShapedLinesAreLines(lines: seq<Bytes>)
    requires LineShapes(lines)
    ensures Lines(Concat(lines)) == lines
  {
    if lines != [] {
      var rest := Concat(lines[1..]);
      forall i | 0 <= i < |lines[1..]| ensures lines[1..][i] == lines[i + 1] {
      }
      NonEmptyConcat(lines[1..]);
      FirstLineIs(lines[0], rest);
      ShapedLinesAreLines(lines[1..]);
      assert (lines[0] + rest)[..|lines[0]|] == lines[0] && (lines[0] + rest)[|lines[0]|..] == rest;
    }
  }

  /** The lines of a text are the only pieces of that shape that make it up. */
  lemma LinesMean(b: Bytes, lines: seq<Bytes>)
    ensures Lines(b) == lines <==> Concat(lines) == b && LineShapes(lines)
  {
    LinesHaveShape(b);
    if LineShapes(lines) {
      ShapedLinesAreLines(lines);
    }
  }

  lemma NonEmptyConcat(lines: seq<Bytes>)
    requires forall i :: 0 <= i < |lines| ==> lines[i] != []
    ensures Concat(lines) == [] <==> lines == []
  {
    if lines != [] {
      assert |Concat(lines)| >= |lines[0]| > 0;
    }
  }

  // ---------------------------------------------------------------------------------------------
  // What one member must be, and what its file says

  /** Every line decodes to an object with a printable name of at most 512 characters. */
  ghost predicate Decodes(c: Codec, lines: seq<Bytes>, events: seq<Event>) {
    && |events| == |lines|
    && forall i :: 0 <= i < |lines| ==>
         && c.parse(lines[i]) == Some(JObject(events[i]))
         && At(events[i], ["Event"]).JString? && Printable(At(events[i], ["Event"]).text, 512)
  }

  /** Every redacted event prints to a line that leaks nothing. */
  ghost predicate Encodes(c: Codec, events: seq<Event>, output: seq<Bytes>) {
    && |output| == |events|
    && forall i :: 0 <= i < |events| ==>
         && c.print_(c.redact(events[i])).Some?
         && output[i] == c.print_(c.redact(events[i])).value + [NEWLINE] && !c.leaks(output[i])
  }

  /** There is a log start, and all log starts give this version. */
  ghost predicate OneVersion(events: seq<Event>, version: string) {
    && Spelled(version, "._-", 128)
    && (exists i :: 0 <= i < |events| && NamedAs(events[i], "SparkListenerLogStart"))
    && forall i :: 0 <= i < |events| && NamedAs(events[i], "SparkListenerLogStart") ==>
         At(events[i], ["Spark Version"]) == JString(version)
  }

  /** There is an application start, and all of them name the requested application and this attempt,
      which is the requested one if one is. */
  ghost predicate OneIdentity(req: Request, events: seq<Event>, attempt: Option<string>) {
    && (req.attemptId.Some? ==> attempt == req.attemptId)
    && (attempt.Some? ==> Spelled(attempt.value, "_-", 128))
    && (exists i :: 0 <= i < |events| && NamedAs(events[i], "SparkListenerApplicationStart"))
    && forall i :: 0 <= i < |events| && NamedAs(events[i], "SparkListenerApplicationStart") ==>
         && At(events[i], ["App ID"]) == JString(req.applicationId)
         && At(events[i], ["App Attempt ID"]) == match attempt case None => JNull case Some(id) => JString(id)
  }

  /** The name of a log: the application, the attempt behind an underscore, and a mark while the
      application runs. */
  predicate LogName(name: string, application: string, attempt: Option<string>) {
    var complete := application + match attempt case None => "" case Some(id) => "_" + id;
    name == complete || name == complete + ".inprogress"
  }

  /** What a stored file says about the events of its member. */
  ghost predicate FileFacts(c: Codec, m: Member, events: seq<Event>, s: Stored) {
    && s.file.size == |s.contents| && s.file.digest == c.digest(s.contents)
    && s.file.sourceDigest == c.digest(m.content) && s.file.count == |events|
    && (s.file.endSeen <==> exists i :: 0 <= i < |events| && NamedAs(events[i], "SparkListenerApplicationEnd"))
  }

  ghost predicate StoredAs(c: Codec, req: Request, m: Member, index: nat, s: Stored, events: seq<Event>, output: seq<Bytes>) {
    && m.safe && Decodes(c, Lines(m.content), events) && Encodes(c, events, output)
    && OneVersion(events, s.file.version) && OneIdentity(req, events, s.file.attemptId)
    && LogName(m.name, req.applicationId, s.file.attemptId)
    && s.contents == Concat(output) && s.file.index == index && FileFacts(c, m, events, s)
  }

  /** The member can be stored, and this is its file. */
  ghost predicate Stores(c: Codec, req: Request, m: Member, index: nat, s: Stored) {
    exists events, output :: StoredAs(c, req, m, index, s, events, output)
  }

  lemma NamesAgree(e: Event)
    ensures Name(e) == LOG_START <==> NamedAs(e, "SparkListenerLogStart")
    ensures Name(e) == APPLICATION_START <==> NamedAs(e, "SparkListenerApplicationStart")
    ensures Name(e) == APPLICATION_END <==> NamedAs(e, "SparkListenerApplicationEnd")
  {
    NamesMean(e, LOG_START);
    NamesMean(e, APPLICATION_START);
    NamesMean(e, APPLICATION_END);
  }

  lemma NamedEventsAgree(e: Event)
    ensures NamedEvent(JObject(e)) <==> At(e, ["Event"]).JString? && Printable(At(e, ["Event"]).text, 512)
  {
    KeyUnfolds(e, "Event");
    if At(e, ["Event"]).JString? {
      PlainTextIsPrintable(At(e, ["Event"]).text, 512);
    }
  }

  lemma VersionTextIsSpelled(s: string)
    ensures VersionText(s) <==> Spelled(s, "._-", 128)
  {
    assert forall c :: c in "._-" <==> c == '.' || c == '_' || c == '-';
  }

  // ---------------------------------------------------------------------------------------------
  // What the line loop finds

  /** The version and the attempt that the loop has noted are spelled as they must be. */
  predicate WellSpelled(st: Scan) {
    && (st.version.Some? ==> VersionText(st.version.value))
    && (st.identity.Some? && st.identity.value.Some? ==> IdentifierText(st.identity.value.value, 128))
  }

  lemma StepParses(c: Codec, req: Request, st: Scan, raw: Bytes)
    requires StepLine(c, req, st, raw).Some? && WellSpelled(st)
    ensures c.parse(raw).Some? && c.parse(raw).value.JObject?
    ensures WellSpelled(StepLine(c, req, st, raw).value)
  {
  }

  lemma ScanStep(c: Codec, req: Request, lines: seq<Bytes>)
    requires lines != []
    ensures var n := |lines| - 1;
            ScanLines(c, req, lines) == match ScanLines(c, req, lines[..n])
                                        case None => None
                                        case Some(st) => StepLine(c, req, st, lines[n])
  {
  }

  /** Whatever the line loop accepts decodes to objects, with a spelled version and attempt. */
  lemma {:induction false} ScanParses(c: Codec, req: Request, lines: seq<Bytes>)
    requires ScanLines(c, req, lines).Some?
    ensures WellSpelled(ScanLines(c, req, lines).value)
    ensures forall i :: 0 <= i < |lines| ==> c.parse(lines[i]).Some? && c.parse(lines[i]).value.JObject?
  {
    if lines != [] {
      var n := |lines| - 1;
      ScanStep(c, req, lines);
      ScanParses(c, req, lines[..n]);
      StepParses(c, req, ScanLines(c, req, lines[..n]).value, lines[n]);
      forall i | 0 <= i < n ensures c.parse(lines[i]).Some? && c.parse(lines[i]).value.JObject? {
        assert lines[..n][i] == lines[i];
      }
    }
  }

  lemma ContainedNames(events: seq<Event>)
    ensures Contains(events, LOG_START) <==> exists i :: 0 <= i < |events| && NamedAs(events[i], "SparkListenerLogStart")
    ensures Contains(events, APPLICATION_START) <==>
            exists i :: 0 <= i < |events| && NamedAs(events[i], "SparkListenerApplicationStart")
    ensures Contains(events, APPLICATION_END) <==>
            exists i :: 0 <= i < |events| && NamedAs(events[i], "SparkListenerApplicationEnd")
  {
    forall i | 0 <= i < |events|
      ensures Name(events[i]) == LOG_START <==> NamedAs(events[i], "SparkListenerLogStart")
      ensures Name(events[i]) == APPLICATION_START <==> NamedAs(events[i], "SparkListenerApplicationStart")
      ensures Name(events[i]) == APPLICATION_END <==> NamedAs(events[i], "SparkListenerApplicationEnd")
    {
      NamesAgree(events[i]);
    }
  }

  lemma WitnessedVersion(events: seq<Event>, version: string)
    requires VersionWitnessed(Some(version), events) && VersionText(version)
    ensures OneVersion(events, version)
  {
    ContainedNames(events);
    VersionTextIsSpelled(version);
    forall i | 0 <= i < |events| && NamedAs(events[i], "SparkListenerLogStart")
      ensures At(events[i], ["Spark Version"]) == JString(version)
    {
      NamesAgree(events[i]);
      KeyUnfolds(events[i], "Spark Version");
    }
  }

  lemma WitnessedIdentity(req: Request, events: seq<Event>, attempt: Option<string>)
    requires IdentityWitnessed(req, Some(attempt), events) && (attempt.Some? ==> IdentifierText(attempt.value, 128))
    ensures OneIdentity(req, events, attempt)
  {
    ContainedNames(events);
    if attempt.Some? {
      IdentifierTextIsSpelled(attempt.value, 128);
    }
    forall i | 0 <= i < |events| && NamedAs(events[i], "SparkListenerApplicationStart")
      ensures At(events[i], ["App ID"]) == JString(req.applicationId)
      ensures At(events[i], ["App Attempt ID"]) == match attempt case None => JNull case Some(id) => JString(id)
    {
      NamesAgree(events[i]);
      KeyUnfolds(events[i], "App ID");
      KeyUnfolds(events[i], "App Attempt ID");
    }
  }

  lemma PrintedEncodes(c: Codec, events: seq<Event>, output: seq<Bytes>)
    requires Prints(c, events, output)
    ensures Encodes(c, events, output)
  {
    forall i | 0 <= i < |events|
      ensures c.print_(c.redact(events[i])).Some?
      ensures output[i] == c.print_(c.redact(events[i])).value + [NEWLINE] && !c.leaks(output[i])
    {
      assert EncodeEvent(c, events[i]) == Some(output[i]);
    }
  }

  lemma SourceDecodes(c: Codec, req: Request, lines: seq<Bytes>)
    requires ScanLines(c, req, lines).Some? && forall i :: 0 <= i < |lines| ==> NamedEvent(JObject(SourceEvents(c, lines)[i]))
    ensures Decodes(c, lines, SourceEvents(c, lines))
  {
    ScanParses(c, req, lines);
    forall i | 0 <= i < |lines|
      ensures c.parse(lines[i]) == Some(JObject(SourceEvents(c, lines)[i]))
      ensures var j := At(SourceEvents(c, lines)[i], ["Event"]); j.JString? && Printable(j.text, 512)
    {
      NamedEventsAgree(SourceEvents(c, lines)[i]);
    }
  }

  /** What is stored is stored as it must be. */
  lemma StoredIsExact(c: Codec, req: Request, m: Member, index: nat)
    requires StoreMember(c, req, m, index).Some?
    ensures Stores(c, req, m, index, StoreMember(c, req, m, index).value)
  {
    var s, lines := StoreMember(c, req, m, index).value, Lines(m.content);
    var events := SourceEvents(c, lines);
    var st, output := StoredParts(c, req, m, index);
    ScanParses(c, req, lines);
    SourceDecodes(c, req, lines);
    PrintedEncodes(c, events, output);
    SealedParts(c, req, m, index);
    WitnessedVersion(events, s.file.version);
    WitnessedIdentity(req, events, s.file.attemptId);
    ContainedNames(events);
    assert StoredAs(c, req, m, index, s, events, output);
  }

  lemma SealedParts(c: Codec, req: Request, m: Member, index: nat)
    requires StoreMember(c, req, m, index).Some?
    ensures var s, st := StoreMember(c, req, m, index).value, ScanLines(c, req, Lines(m.content));
            && m.safe && st.Some? && st.value.version == Some(s.file.version) && st.value.identity == Some(s.file.attemptId)
            && LogName(m.name, req.applicationId, s.file.attemptId) && s.file.sourceDigest == c.digest(m.content)
  {
  }

  // ---------------------------------------------------------------------------------------------
  // What the line loop must accept

  /** The loop variables after lines that fit one version and one identity. */
  function Expected(events: seq<Event>, output: seq<Bytes>, version: string, attempt: Option<string>): Scan {
    Scan(if Contains(events, LOG_START) then Some(version) else None,
         if Contains(events, APPLICATION_START) then Some(attempt) else None,
         Contains(events, APPLICATION_END), Concat(output), |events|)
  }

  /** The event fits the version and the identity. */
  predicate FitsIn(req: Request, e: Event, version: string, attempt: Option<string>) {
    && NextVersion(Some(version), e) == Some(Some(version)) && NextVersion(None, e).Some?
    && NextIdentity(req, Some(attempt), e) == Some(Some(attempt)) && NextIdentity(req, None, e).Some?
  }

  lemma {:induction false} FittingLinesScan(c: Codec, req: Request, lines: seq<Bytes>, events: seq<Event>,
                                            output: seq<Bytes>, version: string, attempt: Option<string>)
    requires |events| == |lines| == |output|
    requires forall i :: 0 <= i < |lines| ==> c.parse(lines[i]) == Some(JObject(events[i])) && NamedEvent(JObject(events[i]))
    requires forall i :: 0 <= i < |events| ==> EncodeEvent(c, events[i]) == Some(output[i])
    requires forall i :: 0 <= i < |events| ==> FitsIn(req, events[i], version, attempt)
    ensures ScanLines(c, req, lines) == Some(Expected(events, output, version, attempt))
  {
    if lines != [] {
      var n := |lines| - 1;
      FittingLinesScan(c, req, lines[..n], events[..n], output[..n], version, attempt);
      FittingStep(c, req, Expected(events[..n], output[..n], version, attempt), lines[n], events[n], output[n], version, attempt);
      ScanStep(c, req, lines);
      ExpectedStep(events, output, version, attempt);
    }
  }

  lemma ExpectedStep(events: seq<Event>, output: seq<Bytes>, version: string, attempt: Option<string>)
    requires |events| == |output| > 0
    ensures var n := |events| - 1;
            var st, e := Expected(events[..n], output[..n], version, attempt), events[n];
            Expected(events, output, version, attempt) ==
              Scan(if Name(e) == LOG_START then Some(version) else st.version,
                   if Name(e) == APPLICATION_START then Some(attempt) else st.identity,
                   st.endSeen || Name(e) == APPLICATION_END, st.output + output[n], st.count + 1)
  {
    var n := |events| - 1;
    assert events == events[..n] + [events[n]] && output == output[..n] + [output[n]];
    ConcatAppend(output[..n], output[n]);
    ContainsAppend(events[..n], events[n], LOG_START);
    ContainsAppend(events[..n], events[n], APPLICATION_START);
    ContainsAppend(events[..n], events[n], APPLICATION_END);
  }

  lemma FittingStep(c: Codec, req: Request, st: Scan, raw: Bytes, e: Event, line: Bytes, version: string, attempt: Option<string>)
    requires c.parse(raw) == Some(JObject(e)) && NamedEvent(JObject(e)) && EncodeEvent(c, e) == Some(line)
    requires FitsIn(req, e, version, attempt)
    requires (st.version.Some? ==> st.version.value == version) && (st.identity.Some? ==> st.identity.value == attempt)
    ensures StepLine(c, req, st, raw) ==
            Some(Scan(if Name(e) == LOG_START then Some(version) else st.version,
                      if Name(e) == APPLICATION_START then Some(attempt) else st.identity,
                      st.endSeen || Name(e) == APPLICATION_END, st.output + line, st.count + 1))
  {
  }

  lemma EventFits(req: Request, events: seq<Event>, i: nat, version: string, attempt: Option<string>)
    requires OneVersion(events, version) && OneIdentity(req, events, attempt) && i < |events|
    ensures FitsIn(req, events[i], version, attempt)
  {
    var e := events[i];
    NamesAgree(e);
    VersionTextIsSpelled(version);
    if attempt.Some? {
      IdentifierTextIsSpelled(attempt.value, 128);
    }
    KeyUnfolds(e, "Spark Version");
    KeyUnfolds(e, "App ID");
    KeyUnfolds(e, "App Attempt ID");
  }

  /** What must be stored is stored. */
  lemma ExactIsStored(c: Codec, req: Request, m: Member, index: nat, s: Stored, events: seq<Event>, output: seq<Bytes>)
    requires StoredAs(c, req, m, index, s, events, output)
    ensures StoreMember(c, req, m, index) == Some(s)
  {
    var lines := Lines(m.content);
    forall i | 0 <= i < |events|
      ensures c.parse(lines[i]) == Some(JObject(events[i])) && NamedEvent(JObject(events[i]))
      ensures EncodeEvent(c, events[i]) == Some(output[i])
      ensures FitsIn(req, events[i], s.file.version, s.file.attemptId)
    {
      NamedEventsAgree(events[i]);
      EventFits(req, events, i, s.file.version, s.file.attemptId);
    }
    FittingLinesScan(c, req, lines, events, output, s.file.version, s.file.attemptId);
    ContainedNames(events);
    SealsAs(c, req, m, index, s, ScanLines(c, req, lines).value);
  }

  lemma SealsAs(c: Codec, req: Request, m: Member, index: nat, s: Stored, st: Scan)
    requires st == Scan(Some(s.file.version), Some(s.file.attemptId), s.file.endSeen, s.contents, s.file.count)
    requires LogName(m.name, req.applicationId, s.file.attemptId) && s.file.index == index
    requires s.file.size == |s.contents| && s.file.digest == c.digest(s.contents) && s.file.sourceDigest == c.digest(m.content)
    ensures Seal(c, req, m, index, st) == Some(s)
  {
  }

  /** A member is stored exactly if it can be, as exactly that file. */
  lemma MembersAreStoredExactly(c: Codec, req: Request, m: Member, index: nat, s: Stored)
    ensures StoreMember(c, req, m, index) == Some(s) <==> Stores(c, req, m, index, s)
  {
    if StoreMember(c, req, m, index) == Some(s) {
      StoredIsExact(c, req, m, index);
    }
    if Stores(c, req, m, index, s) {
      var events, output :| StoredAs(c, req, m, index, s, events, output);
      ExactIsStored(c, req, m, index, s, events, output);
    }
  }

  // ---------------------------------------------------------------------------------------------
  // What an archive must be

  function Sources(members: seq<Member>): (r: seq<Bytes>)
    ensures |r| == |members| && forall i :: 0 <= i < |r| ==> r[i] == members[i].content
  {
    seq(|members|, i requires 0 <= i < |members| => members[i].content)
  }

  function Outputs(stored: seq<Stored>): (r: seq<Bytes>)
    ensures |r| == |stored| && forall i :: 0 <= i < |r| ==> r[i] == stored[i].contents
  {
    seq(|stored|, i requires 0 <= i < |stored| => stored[i].contents)
  }

  lemma {:induction false} SourceSizeIsTotal(members: seq<Member>)
    ensures SourceSize(members) == |Concat(Sources(members))|
  {
    if members != [] {
      var n := |members| - 1;
      SourceSizeIsTotal(members[..n]);
      ConcatAppend(Sources(members[..n]), members[n].content);
      assert Sources(members) == Sources(members[..n]) + [members[n].content];
    }
  }

  lemma {:induction false} OutputSizeIsTotal(stored: seq<Stored>)
    ensures OutputSize(stored) == |Concat(Outputs(stored))|
  {
    if stored != [] {
      var n := |stored| - 1;
      OutputSizeIsTotal(stored[..n]);
      ConcatAppend(Outputs(stored[..n]), stored[n].contents);
      assert Outputs(stored) == Outputs(stored[..n]) + [stored[n].contents];
    }
  }

  predicate DistinctAttempts(stored: seq<Stored>) {
    forall i, j :: 0 <= i < j < |stored| ==> stored[i].file.attemptId != stored[j].file.attemptId
  }

  /** The file of no attempt comes first, the others by the code points of their attempts. */
  predicate AttemptBefore(a: Option<string>, b: Option<string>) {
    b.Some? && (a.None? || Less(CodePoints(a.value), CodePoints(b.value)))
  }

  /** Each member is stored, in archive order, and no attempt occurs twice. */
  ghost predicate StoresAll(c: Codec, req: Request, members: seq<Member>, stored: seq<Stored>) {
    && |stored| == |members| && DistinctAttempts(stored)
    && forall i :: 0 <= i < |members| ==> Stores(c, req, members[i], i + 1, stored[i])
  }

  /** The archive is accepted and these are its files: one to sixteen members with different names,
      one if an attempt is requested, each stored, both totals within the budget, no metadata that
      holds a secret, in the order of the attempts. */
  ghost predicate Accepted(c: Codec, req: Request, members: seq<Member>, maxBytes: nat, leaksFile: File -> bool,
                           files: seq<Stored>)
  {
    exists stored :: AcceptedAs(c, req, members, maxBytes, leaksFile, files, stored)
  }

  ghost predicate AcceptedAs(c: Codec, req: Request, members: seq<Member>, maxBytes: nat, leaksFile: File -> bool,
                             files: seq<Stored>, stored: seq<Stored>)
  {
    && 1 <= |members| <= 16 && (forall i, j :: 0 <= i < j < |members| ==> members[i].name != members[j].name)
    && (req.attemptId.Some? ==> |members| == 1)
    && StoresAll(c, req, members, stored)
    && |Concat(Sources(members))| <= maxBytes && |Concat(Outputs(stored))| <= maxBytes
    && (forall i :: 0 <= i < |stored| ==> !leaksFile(stored[i].file))
    && multiset(files) == multiset(stored)
    && forall i, j :: 0 <= i < j < |files| ==> AttemptBefore(files[i].file.attemptId, files[j].file.attemptId)
  }

  lemma StoreAllUnfolds(c: Codec, req: Request, members: seq<Member>)
    requires members != []
    ensures var n := |members| - 1;
            StoreAll(c, req, members) == Extend(StoreAll(c, req, members[..n]), StoreMember(c, req, members[n], n + 1))
  {
  }

  lemma LastIsStored(c: Codec, req: Request, members: seq<Member>, stored: seq<Stored>)
    requires |stored| == |members| > 0 && DistinctAttempts(stored)
    requires StoreAll(c, req, members[..|members| - 1]) == Some(stored[..|members| - 1])
    requires StoreMember(c, req, members[|members| - 1], |members|) == Some(stored[|members| - 1])
    ensures StoreAll(c, req, members) == Some(stored)
  {
    var n := |members| - 1;
    StoreAllUnfolds(c, req, members);
    assert stored == stored[..n] + [stored[n]];
    Extends(stored[..n], stored[n]);
  }

  lemma {:induction false} EachIsStored(c: Codec, req: Request, members: seq<Member>, stored: seq<Stored>)
    requires |stored| == |members| && DistinctAttempts(stored)
    requires forall i :: 0 <= i < |members| ==> StoreMember(c, req, members[i], i + 1) == Some(stored[i])
    ensures StoreAll(c, req, members) == Some(stored)
  {
    if members != [] {
      EachIsStored(c, req, members[..|members| - 1], stored[..|members| - 1]);
      LastIsStored(c, req, members, stored);
    } else {
      assert stored == [];
    }
  }

  lemma Extends(before: seq<Stored>, last: Stored)
    requires DistinctAttempts(before + [last])
    ensures Extend(Some(before), Some(last)) == Some(before + [last])
  {
    var all := before + [last];
    forall i | 0 <= i < |before| ensures before[i].file.attemptId != last.file.attemptId {
      assert all[i].file.attemptId != all[|before|].file.attemptId;
    }
  }

  lemma StoredOne(c: Codec, req: Request, members: seq<Member>, stored: seq<Stored>, j: nat)
    requires StoreAll(c, req, members) == Some(stored) && j < |members|
    ensures |stored| == |members| && Stores(c, req, members[j], j + 1, stored[j])
    ensures forall i :: 0 <= i < j ==> stored[i].file.attemptId != stored[j].file.attemptId
  {
    StoredComeFromMembers(c, req, members, j);
    MembersAreStoredExactly(c, req, members[j], j + 1, stored[j]);
  }

  lemma StoredAreExact(c: Codec, req: Request, members: seq<Member>, stored: seq<Stored>)
    requires StoreAll(c, req, members) == Some(stored)
    ensures StoresAll(c, req, members, stored)
  {
    StoredCount(c, req, members);
    forall j | 0 <= j < |members| ensures Stores(c, req, members[j], j + 1, stored[j]) {
      StoredOne(c, req, members, stored, j);
    }
    forall i, j | 0 <= i < j < |stored| ensures stored[i].file.attemptId != stored[j].file.attemptId {
      StoredOne(c, req, members, stored, j);
    }
  }

  lemma ExactAreStored(c: Codec, req: Request, members: seq<Member>, stored: seq<Stored>)
    requires StoresAll(c, req, members, stored)
    ensures StoreAll(c, req, members) == Some(stored)
  {
    forall i | 0 <= i < |members| ensures StoreMember(c, req, members[i], i + 1) == Some(stored[i]) {
      MembersAreStoredExactly(c, req, members[i], i + 1, stored[i]);
    }
    EachIsStored(c, req, members, stored);
  }

  lemma AttemptOrder(a: Stored, b: Stored)
    ensures Less(ByAttempt()(a), ByAttempt()(b)) <==> AttemptBefore(a.file.attemptId, b.file.attemptId)
  {
    var k, l := ByAttempt()(a), ByAttempt()(b);
    assert a.file.attemptId.Some? ==> k[1..] == CodePoints(a.file.attemptId.value);
    assert b.file.attemptId.Some? ==> l[1..] == CodePoints(b.file.attemptId.value);
  }

  lemma KeysAreAttempts(a: Stored, b: Stored)
    requires ByAttempt()(a) == ByAttempt()(b)
    ensures a.file.attemptId == b.file.attemptId
  {
    var k, l := ByAttempt()(a), ByAttempt()(b);
    assert k[0] == if a.file.attemptId.Some? then 1 else 0;
    assert l[0] == if b.file.attemptId.Some? then 1 else 0;
    if a.file.attemptId.Some? && b.file.attemptId.Some? {
      assert k[1..] == CodePoints(a.file.attemptId.value) && l[1..] == CodePoints(b.file.attemptId.value);
      CodePointsIdentify(a.file.attemptId.value, b.file.attemptId.value);
    }
  }

  lemma SameFile(stored: seq<Stored>, a: Stored, b: Stored)
    requires DistinctAttempts(stored) && a in stored && b in stored && a.file.attemptId == b.file.attemptId
    ensures a == b
  {
    var i :| 0 <= i < |stored| && stored[i] == a;
    var j :| 0 <= j < |stored| && stored[j] == b;
    assert stored[i].file.attemptId == stored[j].file.attemptId;
  }

  /** The files in the order of their attempts are the sorted ones. */
  lemma SortedByAttempt(stored: seq<Stored>, files: seq<Stored>)
    requires DistinctAttempts(stored) && multiset(files) == multiset(stored)
    ensures files == Sort(ByAttempt(), stored) <==>
            forall i, j :: 0 <= i < j < |files| ==> AttemptBefore(files[i].file.attemptId, files[j].file.attemptId)
  {
    var sorted := Sort(ByAttempt(), stored);
    SortSorted(ByAttempt(), stored);
    if files == sorted {
      forall i, j | 0 <= i < j < |files| ensures AttemptBefore(files[i].file.attemptId, files[j].file.attemptId) {
        SortedPair(stored, files, i, j);
      }
    } else if forall i, j :: 0 <= i < j < |files| ==> AttemptBefore(files[i].file.attemptId, files[j].file.attemptId) {
      OrderedIsSorted(stored, files);
    }
  }

  lemma SortedPair(stored: seq<Stored>, files: seq<Stored>, i: nat, j: nat)
    requires DistinctAttempts(stored) && multiset(files) == multiset(stored) && SortedBy(ByAttempt(), files)
    requires i < j < |files|
    ensures AttemptBefore(files[i].file.attemptId, files[j].file.attemptId)
  {
    var a, b := files[i], files[j];
    assert a in multiset(stored) && b in multiset(stored);
    assert AtMost(ByAttempt()(a), ByAttempt()(b));
    LessTotal(ByAttempt()(a), ByAttempt()(b));
    AttemptOrder(a, b);
    if ByAttempt()(a) == ByAttempt()(b) {
      KeysAreAttempts(a, b);
      SameFile(stored, a, b);
      OccursTwice(files, i, j);
      AttemptOccursOnce(stored, a);
    }
  }

  lemma AttemptOccursOnce(stored: seq<Stored>, s: Stored)
    requires DistinctAttempts(stored) && s in stored
    ensures multiset(stored)[s] == 1
  {
    var i :| 0 <= i < |stored| && stored[i] == s;
    forall k | 0 <= k < |stored| && k != i ensures stored[k] != stored[i] {
      assert k < i ==> stored[k].file.attemptId != stored[i].file.attemptId;
      assert i < k ==> stored[i].file.attemptId != stored[k].file.attemptId;
    }
    OccursOnce(stored, i);
  }

  lemma OrderedIsSorted(stored: seq<Stored>, files: seq<Stored>)
    requires DistinctAttempts(stored) && multiset(files) == multiset(stored)
    requires forall i, j :: 0 <= i < j < |files| ==> AttemptBefore(files[i].file.attemptId, files[j].file.attemptId)
    ensures files == Sort(ByAttempt(), stored)
  {
    var sorted := Sort(ByAttempt(), stored);
    SortSorted(ByAttempt(), stored);
    forall i, j | 0 <= i < j < |files| ensures AtMost(ByAttempt()(files[i]), ByAttempt()(files[j])) {
      AttemptOrder(files[i], files[j]);
      LessTotal(ByAttempt()(files[i]), ByAttempt()(files[j]));
    }
    forall x, y | x in files && y in files && ByAttempt()(x) == ByAttempt()(y) ensures x == y {
      assert x in multiset(stored) && y in multiset(stored);
      KeysAreAttempts(x, y);
      SameFile(stored, x, y);
    }
    SortedUnique(ByAttempt(), files, sorted);
  }

  /** An archive is accepted exactly if it is what it must be, with exactly those files. */
  lemma AcceptanceIsExact(c: Codec, req: Request, members: seq<Member>, maxBytes: nat, leaksFile: File -> bool,
                          files: seq<Stored>)
    ensures Processed(c, req, members, maxBytes, leaksFile) == Some(files) <==>
            Accepted(c, req, members, maxBytes, leaksFile, files)
  {
    if Processed(c, req, members, maxBytes, leaksFile) == Some(files) {
      ProcessedIsAccepted(c, req, members, maxBytes, leaksFile, files);
    }
    if Accepted(c, req, members, maxBytes, leaksFile, files) {
      var stored :| AcceptedAs(c, req, members, maxBytes, leaksFile, files, stored);
      AcceptedIsProcessed(c, req, members, maxBytes, leaksFile, files, stored);
    }
  }

  lemma ProcessedIsAccepted(c: Codec, req: Request, members: seq<Member>, maxBytes: nat, leaksFile: File -> bool,
                            files: seq<Stored>)
    requires Processed(c, req, members, maxBytes, leaksFile) == Some(files)
    ensures Accepted(c, req, members, maxBytes, leaksFile, files)
  {
    var stored := StoreAll(c, req, members).value;
    StoredAreExact(c, req, members, stored);
    SourceSizeIsTotal(members);
    OutputSizeIsTotal(stored);
    SortSorted(ByAttempt(), stored);
    SortedByAttempt(stored, files);
    assert AcceptedAs(c, req, members, maxBytes, leaksFile, files, stored);
  }

  lemma AcceptedIsProcessed(c: Codec, req: Request, members: seq<Member>, maxBytes: nat, leaksFile: File -> bool,
                            files: seq<Stored>, stored: seq<Stored>)
    requires AcceptedAs(c, req, members, maxBytes, leaksFile, files, stored)
    ensures Processed(c, req, members, maxBytes, leaksFile) == Some(files)
  {
    ExactAreStored(c, req, members, stored);
    SourceSizeIsTotal(members);
    OutputSizeIsTotal(stored);
    assert StoreFitting(c, req, members, maxBytes) == Some(stored);
    SortedByAttempt(stored, files);
    FittingIsProcessed(c, req, members, maxBytes, leaksFile, stored);
  }

  lemma FittingIsProcessed(c: Codec, req: Request, members: seq<Member>, maxBytes: nat, leaksFile: File -> bool,
                           stored: seq<Stored>)
    requires 1 <= |members| <= 16 && forall i, j :: 0 <= i < j < |members| ==> members[i].name != members[j].name
    requires StoreFitting(c, req, members, maxBytes) == Some(stored) && (req.attemptId.Some? ==> |stored| == 1)
    requires forall i :: 0 <= i < |stored| ==> !leaksFile(stored[i].file)
    ensures Processed(c, req, members, maxBytes, leaksFile) == Some(Sort(ByAttempt(), stored))
  {
  }

  /** `process_archive` */
  method ProcessArchive(c: Codec, req: Request, members: seq<Member>, maxBytes: nat, leaksFile: File -> bool)
    returns (r: Option<seq<Stored>>)
    ensures r == Processed(c, req, members, maxBytes, leaksFile)
    ensures r.Some? ==> Accepted(c, req, members, maxBytes, leaksFile, r.value)
    ensures r.None? ==> forall files :: !Accepted(c, req, members, maxBytes, leaksFile, files)
  {
    r := CheckArchive(c, req, members, maxBytes, leaksFile);
    if r.Some? {
      AcceptanceIsExact(c, req, members, maxBytes, leaksFile, r.value);
    } else {
      forall files ensures !Accepted(c, req, members, maxBytes, leaksFile, files) {
        AcceptanceIsExact(c, req, members, maxBytes, leaksFile, files);
      }
    }
  }

  method CheckArchive(c: Codec, req: Request, members: seq<Member>, maxBytes: nat, leaksFile: File -> bool)
    returns (r: Option<seq<Stored>>)
    ensures r == Processed(c, req, members, maxBytes, leaksFile)
  {
    if !(1 <= |members| <= MAX_MEMBERS) || !DistinctNames(members) {
      return None;
    }
    var stored := StoreMembers(c, req, members, maxBytes);
    if stored.None? || (req.attemptId.Some? && |stored.value| != 1) {
      return None;
    }
    if exists i :: 0 <= i < |stored.value| && leaksFile(stored.value[i].file) {
      return None;
    }
    return Some(Sort(ByAttempt(), stored.value));
  }

  /** No line of a returned file leaks a secret. */
  lemma NoLineLeaks(c: Codec, req: Request, members: seq<Member>, maxBytes: nat, leaksFile: File -> bool,
                    files: seq<Stored>, s: Stored, line: Bytes)
    requires Lawful(c) && Accepted(c, req, members, maxBytes, leaksFile, files) && s in files && line in Lines(s.contents)
    ensures !c.leaks(line) && !leaksFile(s.file)
  {
    var stored :| AcceptedAs(c, req, members, maxBytes, leaksFile, files, stored);
    assert s in multiset(files);
    var i :| 0 <= i < |stored| && stored[i] == s;
    var events, output :| StoredAs(c, req, members[i], i + 1, s, events, output);
    EncodedLines(c, events, output);
  }

  lemma EncodedLines(c: Codec, events: seq<Event>, output: seq<Bytes>)
    requires Lawful(c) && Encodes(c, events, output)
    ensures Lines(Concat(output)) == output && forall line :: line in output ==> !c.leaks(line)
  {
    forall i | 0 <= i < |output| ensures IsLine(output[i]) {
      var printed := c.print_(c.redact(events[i]));
      assert output[i][..|output[i]| - 1] == printed.value;
    }
    LinesOfConcat(output);
  }
}
