/** The URLs of an executor log on the gateway: who may appear in them, and what they pin. */
module LogUrls {
  import opened SparkEvents
  import opened Strings
  import opened Wrappers

  datatype Backend = Backend(scheme: string, host: string, port: nat)

  /** One entry of `executor_log_allowed_upstreams`; a wildcard stands for one DNS label in front. */
  datatype Rule = Rule(scheme: string, wildcard: bool, host: string, port: nat)

  /** What the route takes from its environment: the gateway, the rules, percent-decoding (`None`
      for an undecodable part), the container pattern for this application attempt, and the login
      page pattern. */
  datatype Settings = Settings(
    netloc: string,
    nodePath: string,
    historyPath: string,
    rules: seq<Rule>,
    unquote: string -> Option<string>,
    belongs: string -> bool,
    isLogin: string -> bool)

  datatype Request = Request(logType: string, tailBytes: nat)

  /** A split URL; `query` is `None` when strict query parsing fails. */
  datatype Target = Target(
    wellformed: bool,
    scheme: string,
    netloc: string,
    hostname: string,
    port: Option<nat>,
    path: string,
    query: Option<seq<(string, string)>>)

  /** A URL that the route has rebuilt: the gateway's HTTPS origin, decoded path segments, and the
      query start=-tail, scheme, host and port. */
  datatype Url = Url(netloc: string, segments: seq<string>, tail: nat, backend: Backend)

  // ---------------------------------------------------------------------------------------------
  // Parsing

  predicate SafeSegment(s: string) {
    && s != "." && s != ".."
    && forall i :: 0 <= i < |s| ==>
         s[i] != '/' && s[i] != '\\' && s[i] != '%' && s[i] as int >= 32 && s[i] as int != 127
  }

  function DecodeAll(parts: seq<string>, unquote: string -> Option<string>): (r: Option<seq<string>>)
    ensures r.Some? ==> |r.value| == |parts|
  {
    if parts == [] then Some([])
    else
      var rest, last := DecodeAll(parts[..|parts| - 1], unquote), unquote(parts[|parts| - 1]);
      if rest.None? || last.None? || !SafeSegment(last.value) then None else Some(rest.value + [last.value])
  }

  /** `_segments`; `None` is the rejection. */
  function Segments(s: Settings, path: string): Option<seq<string>> {
    DecodeAll(Split(path, '/'), s.unquote)
  }

  lemma {:induction false} DecodeAppend(a: seq<string>, b: seq<string>, unquote: string -> Option<string>)
    ensures DecodeAll(a + b, unquote).Some? <==> DecodeAll(a, unquote).Some? && DecodeAll(b, unquote).Some?
    ensures DecodeAll(a + b, unquote).Some? ==>
      DecodeAll(a + b, unquote).value == DecodeAll(a, unquote).value + DecodeAll(b, unquote).value
  {
    if b == [] {
      assert a + b == a;
    } else {
      var all, n := a + b, |b| - 1;
      DecodeAppend(a, b[..n], unquote);
      assert all[..|all| - 1] == a + b[..n] && all[|all| - 1] == b[n];
    }
  }

  predicate DistinctKeys(pairs: seq<(string, string)>) {
    forall i, j :: 0 <= i < j < |pairs| ==> pairs[i].0 != pairs[j].0
  }

  function Lookup(pairs: seq<(string, string)>, key: string): Option<string> {
    if pairs == [] then None else if pairs[0].0 == key then Some(pairs[0].1) else Lookup(pairs[1..], key)
  }

  /** `-?[0-9]{1,20}` */
  predicate StartText(s: string) {
    var digits := if s != [] && s[0] == '-' then s[1..] else s;
    1 <= |digits| <= 20 && Digits(digits)
  }

  /** `_query` */
  predicate QueryOk(query: Option<seq<(string, string)>>, allowed: set<string>) {
    && query.Some? && DistinctKeys(query.value)
    && (forall i :: 0 <= i < |query.value| ==> query.value[i].0 in allowed)
    && (Lookup(query.value, "start").Some? ==> StartText(Lookup(query.value, "start").value))
  }

  predicate LowerHost(s: string) {
    forall i :: 0 <= i < |s| ==> !('A' <= s[i] <= 'Z')
  }

  predicate LabelText(s: string) {
    s != [] && forall i :: 0 <= i < |s| ==> 'a' <= s[i] <= 'z' || '0' <= s[i] <= '9' || s[i] == '-'
  }

  predicate HostMatches(r: Rule, host: string) {
    if !r.wildcard then host == r.host
    else
      exists n :: 0 <= n <= |host| && LabelText(host[..n]) && host[n..] == "." + r.host
  }

  /** `_allowed` */
  predicate Allowed(s: Settings, b: Backend) {
    && 1 <= b.port <= 65535 && LowerHost(b.host)
    && exists i :: 0 <= i < |s.rules| && s.rules[i].scheme == b.scheme && s.rules[i].port == b.port &&
                   HostMatches(s.rules[i], b.host)
  }

  /** The rule names the host itself, or, as a wildcard, everything behind its first label. */
  ghost predicate Covers(r: Rule, host: string) {
    if !r.wildcard then host == r.host
    else
      exists first :: first != "" && Split(host, '.') == [first] + Split(r.host, '.') &&
        forall c :: c in first ==> 'a' <= c <= 'z' || '0' <= c <= '9' || c == '-'
  }

  /** The allowlist permits the backend: a real port, a host without capitals, and a rule for its
      scheme and port that covers the host. */
  ghost predicate OnAllowlist(s: Settings, b: Backend) {
    && 1 <= b.port <= 65535 && (forall c :: c in b.host ==> !('A' <= c <= 'Z'))
    && exists r :: r in s.rules && r.scheme == b.scheme && r.port == b.port && Covers(r, b.host)
  }

  lemma LabelSplits(first: string, rest: string)
    requires '.' !in first
    ensures Split(first + "." + rest, '.') == [first] + Split(rest, '.')
  {
    SplitBetween(first, rest, '.');
    SplitWithout(first, '.');
    assert first + "." + rest == first + ['.'] + rest;
  }

  lemma HostsAreCovered(r: Rule, host: string)
    ensures HostMatches(r, host) <==> Covers(r, host)
  {
    if r.wildcard && HostMatches(r, host) {
      var n :| 0 <= n <= |host| && LabelText(host[..n]) && host[n..] == "." + r.host;
      var first := host[..n];
      assert forall c :: c in first ==> 'a' <= c <= 'z' || '0' <= c <= '9' || c == '-';
      assert host == first + "." + r.host;
      LabelSplits(first, r.host);
    }
    if r.wildcard && Covers(r, host) {
      var first :| first != "" && Split(host, '.') == [first] + Split(r.host, '.') &&
        forall c :: c in first ==> 'a' <= c <= 'z' || '0' <= c <= '9' || c == '-';
      LabelSplits(first, r.host);
      SplitIdentifies(host, first + "." + r.host, '.');
      assert host[..|first|] == first && host[|first|..] == "." + r.host;
      assert forall i :: 0 <= i < |first| ==> first[i] in first;
    }
  }

  /** A backend passes exactly if the allowlist permits it. */
  lemma AllowedMeans(s: Settings, b: Backend)
    ensures Allowed(s, b) <==> OnAllowlist(s, b)
  {
    forall i | 0 <= i < |s.rules| ensures HostMatches(s.rules[i], b.host) <==> Covers(s.rules[i], b.host) {
      HostsAreCovered(s.rules[i], b.host);
    }
    assert LowerHost(b.host) <==> forall c :: c in b.host ==> !('A' <= c <= 'Z') by {
      assert forall i :: 0 <= i < |b.host| ==> b.host[i] in b.host;
    }
    if Allowed(s, b) {
      var i :| 0 <= i < |s.rules| && s.rules[i].scheme == b.scheme && s.rules[i].port == b.port &&
               HostMatches(s.rules[i], b.host);
      assert s.rules[i] in s.rules && Covers(s.rules[i], b.host);
    }
    if OnAllowlist(s, b) {
      var r :| r in s.rules && r.scheme == b.scheme && r.port == b.port && Covers(r, b.host);
      var i :| 0 <= i < |s.rules| && s.rules[i] == r;
      assert HostMatches(s.rules[i], b.host);
    }
  }

  /** `_backend` of a gateway query. */
  function GatewayBackend(s: Settings, query: Option<seq<(string, string)>>): (r: Option<Backend>)
    ensures r.Some? ==> Allowed(s, r.value)
  {
    if !QueryOk(query, {"start", "scheme", "host", "port"}) then None
    else
      var scheme, host := Lookup(query.value, "scheme"), Lookup(query.value, "host");
      var port := Lookup(query.value, "port");
      if scheme.None? || host.None? || port.None? || DecimalText(port.value, 5).None? then None
      else
        var number := DecimalText(port.value, 5).value;
        if number < 1 then None
        else
          var b := Backend(scheme.value, host.value, number);
          if Allowed(s, b) then Some(b) else None
  }

  predicate NodeHostText(s: string) {
    s != [] && forall i :: 0 <= i < |s| ==>
      'a' <= s[i] <= 'z' || '0' <= s[i] <= '9' || s[i] == '.' || s[i] == '-'
  }

  /** `_node_id`: the host of a host:port pair, split at the last colon. */
  function NodeHost(value: string): Option<string> {
    var parts := Split(value, ':');
    if |parts| != 2 then None
    else
      var port := DecimalText(parts[1], 5);
      if NodeHostText(parts[0]) && port.Some? && 1 <= port.value <= 65535 then Some(parts[0]) else None
  }

  /** `_identity` of container, owner and stream. */
  predicate IdentityOk(s: Settings, q: Request, container: string, owner: string, stream: string) {
    && s.belongs(container)
    && 1 <= |owner| <= 256 && owner != "." && owner != ".."
    && stream == q.logType
  }

  function NodePrefix(s: Settings): string {
    s.nodePath + "/containerlogs"
  }

  predicate StartsWith(s: string, prefix: string) {
    prefix <= s
  }

  // ---------------------------------------------------------------------------------------------
  // What is pinned

  /** The identity and the backends a route has committed to. */
  datatype Pins = Pins(container: string, owner: string, node: Backend, history: Option<Backend>)

  predicate NodeUrl(s: Settings, q: Request, p: Pins, u: Url) {
    && Segments(s, NodePrefix(s)).Some?
    && u.segments == Segments(s, NodePrefix(s)).value + [p.container, p.owner, q.logType]
    && u.backend == p.node
  }

  predicate HistoryUrl(s: Settings, q: Request, p: Pins, u: Url) {
    && Segments(s, s.historyPath).Some?
    && |u.segments| == |Segments(s, s.historyPath).value| + 5
    && u.segments == Segments(s, s.historyPath).value +
         [u.segments[|u.segments| - 5], p.container, p.container, p.owner, q.logType]
    && NodeHost(u.segments[|u.segments| - 5]) == Some(p.node.host)
    && Some(u.backend) == p.history
  }

  /** A URL on the gateway that names the pinned identity, with an allowed backend that is the
      pinned one for its kind. */
  ghost predicate Pinned(s: Settings, q: Request, p: Pins, u: Url) {
    && u.netloc == s.netloc && u.tail == q.tailBytes && OnAllowlist(s, u.backend)
    && (NodeUrl(s, q, p, u) || HistoryUrl(s, q, p, u))
  }

  ghost predicate AllPinned(s: Settings, q: Request, p: Pins, urls: seq<Url>) {
    forall i :: 0 <= i < |urls| ==> Pinned(s, q, p, urls[i])
  }

  /** Pins only ever gain a history backend. */
  predicate Extends(p: Pins, p': Pins) {
    p'.(history := p.history) == p && (p.history.Some? ==> p'.history == p.history)
  }

  // ---------------------------------------------------------------------------------------------
  // The route

  /** The end of `_gateway` for a NodeManager path. */
  function FollowNode(s: Settings, q: Request, p: Pins, path: seq<string>, backend: Backend): Option<(Url, Pins)> {
    var n, base := |path|, Segments(s, s.nodePath);
    if base.None? || n != |base.value| + 4 || backend != p.node then None
    else if !IdentityOk(s, q, path[n - 3], path[n - 2], path[n - 1]) then None
    else if path[n - 3] != p.container || path[n - 2] != p.owner then None
    else Some((Url(s.netloc, path, q.tailBytes, backend), p))
  }

  /** The end of `_gateway` for a JobHistory path. */
  function FollowHistory(s: Settings, q: Request, p: Pins, path: seq<string>, backend: Backend): Option<(Url, Pins)> {
    var n, base := |path|, Segments(s, s.historyPath);
    if base.None? || n != |base.value| + 5 then None
    else if path[n - 3] != p.container || NodeHost(path[n - 5]) != Some(p.node.host) then None
    else if !IdentityOk(s, q, path[n - 4], path[n - 2], path[n - 1]) then None
    else if p.history.Some? && p.history.value != backend then None
    else if path[n - 4] != p.container || path[n - 2] != p.owner then None
    else Some((Url(s.netloc, path, q.tailBytes, backend), p.(history := Some(backend))))
  }

  /** `_gateway`: the rebuilt URL and the pins behind it, or the rejection. */
  function Gateway(s: Settings, q: Request, p: Pins, t: Target): Option<(Url, Pins)> {
    if !t.wellformed || t.scheme != "https" || t.netloc != s.netloc then None
    else
      var path, backend := Segments(s, t.path), GatewayBackend(s, t.query);
      if path.None? || backend.None? then None
      else if StartsWith(t.path, NodePrefix(s) + "/") then FollowNode(s, q, p, path.value, backend.value)
      else if StartsWith(t.path, s.historyPath + "/") then FollowHistory(s, q, p, path.value, backend.value)
      else None
  }

  /** The pins of an original URL on the gateway. */
  function GatewayPath(s: Settings, q: Request, t: Target, path: seq<string>): Option<Pins> {
    var n := |path|;
    if StartsWith(t.path, NodePrefix(s) + "/") then
      var backend := GatewayBackend(s, t.query);
      if n < 3 || !IdentityOk(s, q, path[n - 3], path[n - 2], path[n - 1]) || backend.None? then None
      else Some(Pins(path[n - 3], path[n - 2], backend.value, None))
    else if StartsWith(t.path, s.historyPath + "/") then
      if Segments(s, s.historyPath).None? || n != |Segments(s, s.historyPath).value| + 5 then None
      else if !IdentityOk(s, q, path[n - 4], path[n - 2], path[n - 1]) || NodeHost(path[n - 5]).None? then None
      else Some(Pins(path[n - 4], path[n - 2], Backend("http", NodeHost(path[n - 5]).value, 0), None))
    else None
  }

  /** The pins of an original URL elsewhere. */
  function OutsidePath(s: Settings, q: Request, t: Target, path: seq<string>): Option<Pins> {
    var backend := Backend(t.scheme, t.hostname,
      if t.port.Some? && t.port.value != 0 then t.port.value else if t.scheme == "https" then 443 else 80);
    if |path| != 6 || path[..3] != ["", "node", "containerlogs"] then None
    else if !IdentityOk(s, q, path[3], path[4], path[5]) || !Allowed(s, backend) || !QueryOk(t.query, {"start"}) then None
    else Some(Pins(path[3], path[4], backend, None))
  }

  /** The pins that the original URL sets, before the route is first followed. */
  function OriginalPins(s: Settings, q: Request, t: Target): Option<Pins> {
    if !t.wellformed || Segments(s, t.path).None? then None
    else if t.netloc == s.netloc && t.scheme == "https" then GatewayPath(s, q, t, Segments(s, t.path).value)
    else OutsidePath(s, q, t, Segments(s, t.path).value)
  }

  /** The first URL to fetch and the pins at that point: the original URL itself when it is on the
      gateway, and otherwise the NodeManager proxy URL that stands for it. */
  function FirstUrl(s: Settings, q: Request, t: Target): Option<(Url, Pins)> {
    match OriginalPins(s, q, t)
    case None => None
    case Some(p) =>
      if p.node.port == 0 || (t.netloc == s.netloc && t.scheme == "https") then Gateway(s, q, p, t)
      else if Segments(s, NodePrefix(s)).None? then None
      else
        Some((Url(s.netloc, Segments(s, NodePrefix(s)).value + [p.container, p.owner, q.logType], q.tailBytes, p.node), p))
  }

  lemma PrefixSegments(s: Settings, path: string, prefix: string)
    requires StartsWith(path, prefix + "/") && Segments(s, path).Some?
    ensures Segments(s, prefix).Some? && Segments(s, prefix).value <= Segments(s, path).value
    ensures |Segments(s, path).value| > |Segments(s, prefix).value|
  {
    var rest := path[|prefix| + 1..];
    assert path == prefix + ['/'] + rest;
    SplitBetween(prefix, rest, '/');
    DecodeAppend(Split(prefix, '/'), Split(rest, '/'), s.unquote);
  }

  lemma LongerByOne(s: Settings, base: string, last: string)
    requires '/' !in last && Segments(s, base + ['/'] + last).Some?
    ensures Segments(s, base).Some? && |Segments(s, base + ['/'] + last).value| == |Segments(s, base).value| + 1
  {
    SplitBetween(base, last, '/');
    SplitWithout(last, '/');
    DecodeAppend(Split(base, '/'), [last], s.unquote);
  }

  lemma NodePrefixLength(s: Settings)
    requires Segments(s, NodePrefix(s)).Some?
    ensures Segments(s, s.nodePath).Some? &&
            |Segments(s, NodePrefix(s)).value| == |Segments(s, s.nodePath).value| + 1
  {
    var last := "containerlogs";
    assert NodePrefix(s) == s.nodePath + ['/'] + last;
    LongerByOne(s, s.nodePath, last);
  }

  /** A NodeManager path is followed exactly if it is that of the pinned identity and backend. */
  lemma NodeFollowed(s: Settings, q: Request, p: Pins, path: seq<string>, b: Backend, u: Url, p': Pins)
    requires Segments(s, NodePrefix(s)).Some? && Segments(s, s.nodePath).Some?
    requires |Segments(s, NodePrefix(s)).value| == |Segments(s, s.nodePath).value| + 1
    requires Segments(s, NodePrefix(s)).value <= path
    ensures FollowNode(s, q, p, path, b) == Some((u, p')) <==>
            u == Url(s.netloc, path, q.tailBytes, b) && p' == p && Identified(s, p) && NodeUrl(s, q, p, u)
  {
    var base, n := Segments(s, NodePrefix(s)).value, |path|;
    if n == |base| + 3 {
      assert path == base + [path[n - 3], path[n - 2], path[n - 1]];
    }
  }

  /** A JobHistory path is followed exactly if it is that of the pinned identity and node, and no
      other backend is pinned. */
  lemma HistoryFollowed(s: Settings, q: Request, p: Pins, path: seq<string>, b: Backend, u: Url, p': Pins)
    requires Segments(s, s.historyPath).Some? && Segments(s, s.historyPath).value <= path
    ensures FollowHistory(s, q, p, path, b) == Some((u, p')) <==>
            && u == Url(s.netloc, path, q.tailBytes, b) && Identified(s, p)
            && (p.history.None? || p.history == Some(b)) && p' == p.(history := Some(b)) && HistoryUrl(s, q, p', u)
  {
    var base, n := Segments(s, s.historyPath).value, |path|;
    if n == |base| + 5 {
      assert path == base + [path[n - 5], path[n - 4], path[n - 3], path[n - 2], path[n - 1]];
    }
  }

  /** The pinned identity may be followed. */
  predicate Identified(s: Settings, p: Pins) {
    s.belongs(p.container) && 1 <= |p.owner| <= 256 && p.owner !in {".", ".."}
  }

  lemma NodePathPrefix(s: Settings, t: Target)
    requires StartsWith(t.path, NodePrefix(s) + "/") && Segments(s, t.path).Some?
    ensures Segments(s, NodePrefix(s)).Some? && Segments(s, s.nodePath).Some?
    ensures |Segments(s, NodePrefix(s)).value| == |Segments(s, s.nodePath).value| + 1
    ensures Segments(s, NodePrefix(s)).value <= Segments(s, t.path).value
  {
    PrefixSegments(s, t.path, NodePrefix(s));
    NodePrefixLength(s);
  }

  /** What the gateway check lets through is pinned, and no pin is ever replaced. */
  lemma GatewayPins(s: Settings, q: Request, p: Pins, t: Target)
    requires Gateway(s, q, p, t).Some?
    ensures var (u, p') := Gateway(s, q, p, t).value;
            Pinned(s, q, p', u) && Extends(p, p')
  {
    var (u, p') := Gateway(s, q, p, t).value;
    var path, b := Segments(s, t.path).value, GatewayBackend(s, t.query).value;
    AllowedMeans(s, b);
    if StartsWith(t.path, NodePrefix(s) + "/") {
      NodePathPrefix(s, t);
      NodeFollowed(s, q, p, path, b, u, p');
    } else {
      PrefixSegments(s, t.path, s.historyPath);
      HistoryFollowed(s, q, p, path, b, u, p');
    }
  }

  /** URLs that were pinned once stay pinned. */
  lemma LaterPinsStillHold(s: Settings, q: Request, p: Pins, p': Pins, urls: seq<Url>)
    requires AllPinned(s, q, p, urls) && Extends(p, p')
    ensures AllPinned(s, q, p', urls)
  {
  }

  lemma PinnedAppend(s: Settings, q: Request, p: Pins, urls: seq<Url>, u: Url)
    requires AllPinned(s, q, p, urls) && Pinned(s, q, p, u)
    ensures AllPinned(s, q, p, urls + [u])
  {
  }

  // ---------------------------------------------------------------------------------------------
  // Exactly which URLs pass

  /** The path's parts decode to these segments, none of which steps aside or hides a separator. */
  predicate DecodesTo(s: Settings, path: string, segments: seq<string>) {
    && |segments| == |Split(path, '/')|
    && forall i :: 0 <= i < |segments| ==>
         && s.unquote(Split(path, '/')[i]) == Some(segments[i])
         && segments[i] !in {".", ".."}
         && forall c :: c in segments[i] ==> c !in "/\\%" && ' ' <= c && c != 127 as char
  }

  lemma SafeSegments(x: string)
    ensures SafeSegment(x) <==> x !in {".", ".."} && forall c :: c in x ==> c !in "/\\%" && ' ' <= c && c != 127 as char
  {
    assert forall c :: c in "/\\%" <==> c == '/' || c == '\\' || c == '%';
    assert forall i :: 0 <= i < |x| ==> x[i] in x;
  }

  lemma {:induction false} DecodedParts(parts: seq<string>, unquote: string -> Option<string>, segments: seq<string>)
    ensures DecodeAll(parts, unquote) == Some(segments) <==>
            |segments| == |parts| && forall i :: 0 <= i < |parts| ==> unquote(parts[i]) == Some(segments[i]) && SafeSegment(segments[i])
  {
    if parts != [] {
      var n := |parts| - 1;
      if |segments| == |parts| {
        DecodedParts(parts[..n], unquote, segments[..n]);
        assert segments == segments[..n] + [segments[n]];
      }
      if DecodeAll(parts, unquote) == Some(segments) {
        DecodedParts(parts[..n], unquote, DecodeAll(parts[..n], unquote).value);
      }
    }
  }

  /** `_segments` yields exactly the safe decoded parts of the path. */
  lemma SegmentsMean(s: Settings, path: string, segments: seq<string>)
    ensures Segments(s, path) == Some(segments) <==> DecodesTo(s, path, segments)
  {
    DecodedParts(Split(path, '/'), s.unquote, segments);
    forall i | 0 <= i < |segments|
      ensures SafeSegment(segments[i]) <==>
              segments[i] !in {".", ".."} && forall c :: c in segments[i] ==> c !in "/\\%" && ' ' <= c && c != 127 as char
    {
      SafeSegments(segments[i]);
    }
  }

  /** An optional minus sign and one to twenty digits. */
  ghost predicate StartNumber(x: string) {
    exists digits :: 1 <= |digits| <= 20 && Digits(digits) && (x == digits || x == "-" + digits)
  }

  lemma StartTexts(x: string)
    ensures StartText(x) <==> StartNumber(x)
  {
    if StartText(x) {
      var digits := if x != [] && x[0] == '-' then x[1..] else x;
      assert x == digits || x == "-" + digits;
    }
    if StartNumber(x) {
      var digits :| 1 <= |digits| <= 20 && Digits(digits) && (x == digits || x == "-" + digits);
      assert '0' <= digits[0] <= '9';
      assert x == "-" + digits ==> x[1..] == digits;
    }
  }

  /** The query decodes to different allowed keys, and a start is a number. */
  ghost predicate QueryAllows(query: Option<seq<(string, string)>>, allowed: set<string>) {
    && query.Some?
    && (forall i, j :: 0 <= i < |query.value| && 0 <= j < |query.value| && query.value[i].0 == query.value[j].0 ==> i == j)
    && (forall pair :: pair in query.value ==> pair.0 in allowed && (pair.0 == "start" ==> StartNumber(pair.1)))
  }

  lemma {:induction false} LookupFinds(pairs: seq<(string, string)>, key: string, value: string)
    requires DistinctKeys(pairs)
    ensures Lookup(pairs, key) == Some(value) <==> (key, value) in pairs
  {
    if pairs != [] {
      assert DistinctKeys(pairs[1..]);
      LookupFinds(pairs[1..], key, value);
      if pairs[0].0 == key {
        forall i | 0 <= i < |pairs[1..]| ensures pairs[1..][i].0 != key {
          assert pairs[0].0 != pairs[i + 1].0;
        }
      }
    }
  }

  lemma QueriesMean(query: Option<seq<(string, string)>>, allowed: set<string>)
    ensures QueryOk(query, allowed) <==> QueryAllows(query, allowed)
  {
    if query.Some? && DistinctKeys(query.value) {
      var pairs := query.value;
      assert forall i, j :: 0 <= i < |pairs| && 0 <= j < |pairs| && pairs[i].0 == pairs[j].0 ==> i == j;
      forall pair | pair in pairs && pair.0 == "start"
        ensures Lookup(pairs, "start") == Some(pair.1) && (StartText(pair.1) <==> StartNumber(pair.1))
      {
        assert ("start", pair.1) in pairs;
        LookupFinds(pairs, "start", pair.1);
        StartTexts(pair.1);
      }
      if Lookup(pairs, "start").Some? {
        LookupFinds(pairs, "start", Lookup(pairs, "start").value);
      }
    }
  }

  /** The query names this backend: scheme, host, and the digits of its port. */
  ghost predicate QueryNames(query: Option<seq<(string, string)>>, b: Backend) {
    && QueryAllows(query, {"start", "scheme", "host", "port"})
    && ("scheme", b.scheme) in query.value && ("host", b.host) in query.value
    && exists port :: ("port", port) in query.value && 1 <= |port| <= 5 && Digits(port) && DecimalValue(port) == b.port
  }

  /** What the three values of a query spell. */
  function Spell(scheme: Option<string>, host: Option<string>, port: Option<string>): Option<Backend> {
    if scheme.None? || host.None? || port.None? || DecimalText(port.value, 5).None? || DecimalText(port.value, 5).value < 1
    then None
    else Some(Backend(scheme.value, host.value, DecimalText(port.value, 5).value))
  }

  lemma SpelledIsNamed(query: Option<seq<(string, string)>>, b: Backend)
    requires QueryAllows(query, {"start", "scheme", "host", "port"}) && DistinctKeys(query.value) && b.port >= 1
    ensures Spell(Lookup(query.value, "scheme"), Lookup(query.value, "host"), Lookup(query.value, "port")) == Some(b) <==>
            QueryNames(query, b)
  {
    LookupFinds(query.value, "scheme", b.scheme);
    LookupFinds(query.value, "host", b.host);
    if Lookup(query.value, "port").Some? {
      LookupFinds(query.value, "port", Lookup(query.value, "port").value);
    }
    if QueryNames(query, b) {
      var port :| ("port", port) in query.value && 1 <= |port| <= 5 && Digits(port) && DecimalValue(port) == b.port;
      LookupFinds(query.value, "port", port);
    }
  }

  /** `_backend` yields exactly the allowed backend that the query names. */
  lemma BackendsMean(s: Settings, query: Option<seq<(string, string)>>, b: Backend)
    ensures GatewayBackend(s, query) == Some(b) <==> QueryNames(query, b) && OnAllowlist(s, b)
  {
    QueriesMean(query, {"start", "scheme", "host", "port"});
    AllowedMeans(s, b);
    if QueryOk(query, {"start", "scheme", "host", "port"}) && b.port >= 1 {
      SpelledIsNamed(query, b);
    }
  }

  /** A node ID is its host, a colon and the digits of a real port. */
  ghost predicate NamesHost(value: string, host: string) {
    && host != "" && (forall c :: c in host ==> 'a' <= c <= 'z' || '0' <= c <= '9' || c in ".-")
    && exists port :: value == host + ":" + port && 1 <= |port| <= 5 && Digits(port) && 1 <= DecimalValue(port) <= 65535
  }

  lemma HostTexts(host: string)
    ensures NodeHostText(host) <==> host != "" && forall c :: c in host ==> 'a' <= c <= 'z' || '0' <= c <= '9' || c in ".-"
  {
    assert forall c :: c in ".-" <==> c == '.' || c == '-';
    assert forall i :: 0 <= i < |host| ==> host[i] in host;
  }

  lemma ColonSplits(host: string, port: string)
    requires ':' !in host && ':' !in port
    ensures Split(host + ":" + port, ':') == [host, port]
  {
    SplitBetween(host, port, ':');
    SplitWithout(host, ':');
    SplitWithout(port, ':');
    assert host + ":" + port == host + [':'] + port;
  }

  /** `_node_id` yields exactly the host that the node ID names. */
  lemma NodeHostsMean(value: string, host: string)
    ensures NodeHost(value) == Some(host) <==> NamesHost(value, host)
  {
    HostTexts(host);
    if NodeHost(value) == Some(host) {
      var port := Split(value, ':')[1];
      assert Split(value, ':') == [host, port];
      PartsHoldNoSeparator(value, ':');
      ColonSplits(host, port);
      SplitIdentifies(value, host + ":" + port, ':');
    }
    if NamesHost(value, host) {
      var port :| value == host + ":" + port && 1 <= |port| <= 5 && Digits(port) && 1 <= DecimalValue(port) <= 65535;
      ColonSplits(host, port);
    }
  }

  /** The target on the gateway is followed to this URL, and leaves these pins: it is on the gateway's
      HTTPS origin, its query names an allowed backend, and its path is the NodeManager's with the
      pinned backend or the JobHistory server's, whose backend is or becomes the pinned one. */
  ghost predicate Passes(s: Settings, q: Request, p: Pins, t: Target, u: Url, p': Pins) {
    && t.wellformed && t.scheme == "https" && t.netloc == s.netloc
    && u.netloc == s.netloc && u.tail == q.tailBytes
    && DecodesTo(s, t.path, u.segments) && QueryNames(t.query, u.backend) && OnAllowlist(s, u.backend)
    && Identified(s, p)
    && if NodePrefix(s) + "/" <= t.path then p' == p && NodeUrl(s, q, p, u)
       else
         && s.historyPath + "/" <= t.path && (p.history.None? || p.history == Some(u.backend))
         && p' == p.(history := Some(u.backend)) && HistoryUrl(s, q, p', u)
  }

  /** A target is followed exactly if it passes. */
  lemma GatewayIsExact(s: Settings, q: Request, p: Pins, t: Target, u: Url, p': Pins)
    ensures Gateway(s, q, p, t) == Some((u, p')) <==> Passes(s, q, p, t, u, p')
  {
    SegmentsMean(s, t.path, u.segments);
    BackendsMean(s, t.query, u.backend);
    if Segments(s, t.path).Some? && GatewayBackend(s, t.query).Some? {
      var path, b := Segments(s, t.path).value, GatewayBackend(s, t.query).value;
      if StartsWith(t.path, NodePrefix(s) + "/") {
        NodePathPrefix(s, t);
        NodeFollowed(s, q, p, path, b, u, p');
      } else if StartsWith(t.path, s.historyPath + "/") {
        PrefixSegments(s, t.path, s.historyPath);
        HistoryFollowed(s, q, p, path, b, u, p');
      }
    }
  }

  /** The original URL opens a route to this URL with these pins.  On the gateway it must pass with
      the pins it sets itself, of which a JobHistory URL knows only the host of the node; off the
      gateway it must be a NodeManager's own log URL, and stands for the gateway URL of the same. */
  ghost predicate Opens(s: Settings, q: Request, t: Target, u: Url, p: Pins) {
    if t.netloc == s.netloc && t.scheme == "https" then
      if NodePrefix(s) + "/" <= t.path then p.history.None? && Passes(s, q, p, t, u, p)
      else p.node == Backend("http", p.node.host, 0) && Passes(s, q, p.(history := None), t, u, p)
    else
      && t.wellformed && DecodesTo(s, t.path, ["", "node", "containerlogs"] + [p.container, p.owner, q.logType])
      && Identified(s, p) && QueryAllows(t.query, {"start"}) && OutsidePins(s, t, p) && OnAllowlist(s, p.node)
      && u.netloc == s.netloc && u.tail == q.tailBytes && NodeUrl(s, q, p, u)
  }

  function DefaultPort(scheme: string): nat {
    if scheme == "https" then 443 else 80
  }

  predicate OutsidePins(s: Settings, t: Target, p: Pins) {
    && p.history.None? && p.node == Backend(t.scheme, t.hostname, match t.port
                                            case Some(port) => if port != 0 then port else DefaultPort(t.scheme)
                                            case None => DefaultPort(t.scheme))
  }

  lemma OutsidePathMeans(s: Settings, q: Request, t: Target, path: seq<string>, p: Pins)
    ensures OutsidePath(s, q, t, path) == Some(p) <==>
            && path == ["", "node", "containerlogs"] + [p.container, p.owner, q.logType]
            && Identified(s, p) && QueryAllows(t.query, {"start"}) && OutsidePins(s, t, p) && OnAllowlist(s, p.node)
  {
    AllowedMeans(s, p.node);
    QueriesMean(t.query, {"start"});
    SixParts(path, ["", "node", "containerlogs"], p.container, p.owner, q.logType);
  }

  lemma SixParts(path: seq<string>, prefix: seq<string>, a: string, b: string, c: string)
    requires |prefix| == 3
    ensures path == prefix + [a, b, c] <==>
            |path| == 6 && path[..3] == prefix && path[3] == a && path[4] == b && path[5] == c
  {
    if |path| == 6 {
      assert path == path[..3] + [path[3], path[4], path[5]];
    }
  }

  /** A URL off the gateway opens a route exactly if it is a NodeManager's own log URL. */
  lemma OutsideOpens(s: Settings, q: Request, t: Target, u: Url, p: Pins)
    requires !(t.netloc == s.netloc && t.scheme == "https")
    ensures FirstUrl(s, q, t) == Some((u, p)) <==> Opens(s, q, t, u, p)
  {
    SegmentsMean(s, t.path, ["", "node", "containerlogs"] + [p.container, p.owner, q.logType]);
    if t.wellformed && Segments(s, t.path).Some? {
      var path := Segments(s, t.path).value;
      OutsidePathMeans(s, q, t, path, p);
      if OutsidePath(s, q, t, path).Some? {
        OutsidePathMeans(s, q, t, path, OutsidePath(s, q, t, path).value);
      }
    }
  }

  lemma NodeOpens(s: Settings, q: Request, t: Target, u: Url, p: Pins)
    requires t.netloc == s.netloc && t.scheme == "https" && NodePrefix(s) + "/" <= t.path
    ensures FirstUrl(s, q, t) == Some((u, p)) <==> Opens(s, q, t, u, p)
  {
    if FirstUrl(s, q, t) == Some((u, p)) {
      GatewayIsExact(s, q, OriginalPins(s, q, t).value, t, u, p);
    }
    if Opens(s, q, t, u, p) {
      GatewayIsExact(s, q, p, t, u, p);
      SegmentsMean(s, t.path, u.segments);
      BackendsMean(s, t.query, u.backend);
      assert OriginalPins(s, q, t) == Some(p);
    }
  }

  lemma HistoryOpens(s: Settings, q: Request, t: Target, u: Url, p: Pins)
    requires t.netloc == s.netloc && t.scheme == "https" && !(NodePrefix(s) + "/" <= t.path)
    ensures FirstUrl(s, q, t) == Some((u, p)) <==> Opens(s, q, t, u, p)
  {
    if FirstUrl(s, q, t) == Some((u, p)) {
      GatewayIsExact(s, q, OriginalPins(s, q, t).value, t, u, p);
    }
    if Opens(s, q, t, u, p) {
      GatewayIsExact(s, q, p.(history := None), t, u, p);
      SegmentsMean(s, t.path, u.segments);
      assert OriginalPins(s, q, t) == Some(p.(history := None));
    }
  }

  /** A route opens exactly for those URLs. */
  lemma OpeningIsExact(s: Settings, q: Request, t: Target, u: Url, p: Pins)
    ensures FirstUrl(s, q, t) == Some((u, p)) <==> Opens(s, q, t, u, p)
  {
    if !(t.netloc == s.netloc && t.scheme == "https") {
      OutsideOpens(s, q, t, u, p);
    } else if NodePrefix(s) + "/" <= t.path {
      NodeOpens(s, q, t, u, p);
    } else {
      HistoryOpens(s, q, t, u, p);
    }
  }

  ghost predicate OpensNothing(s: Settings, q: Request, t: Target) {
    forall u, p :: !Opens(s, q, t, u, p)
  }

  lemma NothingOpens(s: Settings, q: Request, t: Target)
    requires FirstUrl(s, q, t).None?
    ensures OpensNothing(s, q, t)
  {
    forall u, p ensures !Opens(s, q, t, u, p) {
      OpeningIsExact(s, q, t, u, p);
    }
  }
}
