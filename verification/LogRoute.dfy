/** The route of an executor log through the gateway: identity and backend pinned over redirects. */
module LogRoute {
  import opened LogUrls
  import opened Wrappers

  const RESPONSE_LIMIT: nat := 8 * 1024 * 1024

  /** The mutable route object. */
  class LogRoute {
    const settings: Settings
    const request: Request
    var pins: Pins
    var url: Url

    constructor (settings: Settings, request: Request)
      ensures this.settings == settings && this.request == request
    {
      this.settings, this.request := settings, request;
      pins := Pins("", "", Backend("", "", 0), None);
      url := Url("", [], 0, Backend("", "", 0));
    }

    /** `_initialize`: the route opens exactly if the original URL opens one. */
    method Initialize(original: Target) returns (ok: bool)
      modifies this
      ensures ok ==> Opens(settings, request, original, url, pins) && Pinned(settings, request, pins, url)
      ensures !ok ==> OpensNothing(settings, request, original)
    {
      ok := Open(original);
      if ok {
        OpeningIsExact(settings, request, original, url, pins);
      } else {
        NothingOpens(settings, request, original);
      }
    }

    method Open(original: Target) returns (ok: bool)
      modifies this
      ensures ok <==> FirstUrl(settings, request, original).Some?
      ensures ok ==> (url, pins) == FirstUrl(settings, request, original).value
      ensures ok ==> Pinned(settings, request, pins, url)
    {
      var first := OriginalPins(settings, request, original);
      if first.None? {
        return false;
      }
      pins := first.value;
      var onGateway := original.netloc == settings.netloc && original.scheme == "https";
      if pins.node.port == 0 || onGateway {
        var next := Follow(original);
        if next.None? {
          return false;
        }
        url := next.value;
        return true;
      }
      var base := Segments(settings, NodePrefix(settings));
      if base.None? {
        return false;
      }
      AllowedMeans(settings, pins.node);
      url := Url(settings.netloc, base.value + [pins.container, pins.owner, request.logType], request.tailBytes, pins.node);
      return true;
    }

    /** `_gateway` on the object: only the history backend may become set. */
    method Follow(t: Target) returns (u: Option<Url>)
      modifies this`pins
      ensures u.Some? <==> Gateway(settings, request, old(pins), t).Some?
      ensures u.Some? ==> (u.value, pins) == Gateway(settings, request, old(pins), t).value
      ensures u.Some? ==> Pinned(settings, request, pins, u.value)
      ensures Extends(old(pins), pins)
    {
      var next := Gateway(settings, request, pins, t);
      if next.None? {
        return None;
      }
      GatewayPins(settings, request, pins, t);
      pins := next.value.1;
      return Some(next.value.0);
    }

    /** `redirect`: a login page is an authentication failure, everything else goes through the
        gateway check. */
    method Redirect(t: Target) returns (u: Option<Url>)
      modifies this`pins
      ensures u.Some? <==> !settings.isLogin(t.path) && Gateway(settings, request, old(pins), t).Some?
      ensures u.Some? ==> (u.value, pins) == Gateway(settings, request, old(pins), t).value
      ensures u.Some? ==> Pinned(settings, request, pins, u.value)
      ensures Extends(old(pins), pins)
    {
      if settings.isLogin(t.path) {
        return None;
      }
      u := Follow(t);
    }
  }

  // ---------------------------------------------------------------------------------------------
  // Following redirects

  /** One answer of the gateway: its size, whether its content encoding is identity, its status,
      where it leads, and whether its body passes the checks on content. */
  datatype Response = Response(size: nat, plain: bool, status: nat, location: Option<Target>, readable: bool)

  datatype Ending = Content(source: Url) | Refused

  predicate IsRedirect(status: nat) {
    status == 302 || status == 303 || status == 307 || status == 308
  }

  predicate DistinctUrls(urls: seq<Url>) {
    forall i, j :: 0 <= i < j < |urls| ==> urls[i] != urls[j]
  }

  /** The answer is a redirect that the route accepts, to this URL and with these pins. */
  predicate Hop(s: Settings, q: Request, r: Response, p: Pins, u': Url, p': Pins) {
    && r.plain && r.status in {302, 303, 307, 308} && r.location.Some?
    && !s.isLogin(r.location.value.path) && Gateway(s, q, p, r.location.value) == Some((u', p'))
  }

  /** Each URL but the first is where the one before it redirects to. */
  predicate Chain(s: Settings, q: Request, answer: (nat, Url) -> Response, urls: seq<Url>, pins: seq<Pins>) {
    && 0 < |urls| == |pins|
    && forall i :: 0 <= i < |urls| - 1 ==> Hop(s, q, answer(i, urls[i]), pins[i], urls[i + 1], pins[i + 1])
  }

  function TotalSize(answer: (nat, Url) -> Response, urls: seq<Url>): nat {
    if urls == [] then 0
    else TotalSize(answer, urls[..|urls| - 1]) + answer(|urls| - 1, urls[|urls| - 1]).size
  }

  predicate Delivers(r: Response) {
    r.plain && r.status == 200 && r.readable
  }

  /** A chain of at most four different URLs whose answers fit the limit together and whose last
      answer is the log. */
  predicate Accepted(s: Settings, q: Request, answer: (nat, Url) -> Response, urls: seq<Url>, pins: seq<Pins>) {
    && Chain(s, q, answer, urls, pins) && |urls| <= 4 && DistinctUrls(urls)
    && TotalSize(answer, urls) <= 8 * 1024 * 1024 && Delivers(answer(|urls| - 1, urls[|urls| - 1]))
  }

  lemma ChainHop(s: Settings, q: Request, answer: (nat, Url) -> Response, urls: seq<Url>, pins: seq<Pins>, i: nat)
    requires Chain(s, q, answer, urls, pins) && i + 1 < |urls|
    ensures Hop(s, q, answer(i, urls[i]), pins[i], urls[i + 1], pins[i + 1])
  {
  }

  lemma HopsAgree(s: Settings, q: Request, r: Response, p: Pins, u: Url, p': Pins, v: Url, p'': Pins)
    requires Hop(s, q, r, p, u, p') && Hop(s, q, r, p, v, p'')
    ensures u == v && p' == p''
  {
  }

  /** The server and the start determine the chain. */
  lemma {:induction false} ChainsAgree(s: Settings, q: Request, answer: (nat, Url) -> Response,
                                       a: seq<Url>, pa: seq<Pins>, b: seq<Url>, pb: seq<Pins>, i: nat)
    requires Chain(s, q, answer, a, pa) && Chain(s, q, answer, b, pb) && i < |a| && i < |b|
    requires a[0] == b[0] && pa[0] == pb[0]
    ensures a[i] == b[i] && pa[i] == pb[i]
  {
    if i > 0 {
      ChainsAgree(s, q, answer, a, pa, b, pb, i - 1);
      ChainHop(s, q, answer, a, pa, i - 1);
      ChainHop(s, q, answer, b, pb, i - 1);
      HopsAgree(s, q, answer(i - 1, a[i - 1]), pa[i - 1], a[i], pa[i], b[i], pb[i]);
    }
  }

  /** A chain that another one continues ends in a redirect. */
  lemma ContinuedByRedirect(s: Settings, q: Request, answer: (nat, Url) -> Response,
                            a: seq<Url>, pa: seq<Pins>, b: seq<Url>, pb: seq<Pins>)
    requires Chain(s, q, answer, a, pa) && Chain(s, q, answer, b, pb) && |a| < |b|
    requires a[0] == b[0] && pa[0] == pb[0]
    ensures answer(|a| - 1, a[|a| - 1]).status in {302, 303, 307, 308}
  {
    var n := |a| - 1;
    ChainsAgree(s, q, answer, a, pa, b, pb, n);
    ChainHop(s, q, answer, b, pb, n);
  }

  /** An accepted chain continues every chain from the same start. */
  lemma AcceptedContinues(s: Settings, q: Request, answer: (nat, Url) -> Response,
                          trail: seq<Url>, trailPins: seq<Pins>, urls: seq<Url>, pins: seq<Pins>)
    requires Chain(s, q, answer, trail, trailPins) && Accepted(s, q, answer, urls, pins)
    requires trail[0] == urls[0] && trailPins[0] == pins[0]
    ensures |trail| <= |urls| && trail == urls[..|trail|] && trailPins == pins[..|trail|]
  {
    if |urls| < |trail| {
      ContinuedByRedirect(s, q, answer, urls, pins, trail, trailPins);
      assert false;
    }
    forall i | 0 <= i < |trail| ensures trail[i] == urls[i] && trailPins[i] == pins[i] {
      ChainsAgree(s, q, answer, trail, trailPins, urls, pins, i);
    }
  }

  lemma {:induction false} SizesGrow(answer: (nat, Url) -> Response, urls: seq<Url>, n: nat)
    requires n <= |urls|
    ensures TotalSize(answer, urls[..n]) <= TotalSize(answer, urls)
  {
    if n < |urls| {
      assert urls[..|urls| - 1][..n] == urls[..n];
      SizesGrow(answer, urls[..|urls| - 1], n);
    } else {
      assert urls[..n] == urls;
    }
  }

  /** Nothing can be accepted behind this chain. */
  predicate Stuck(s: Settings, q: Request, answer: (nat, Url) -> Response, trail: seq<Url>, pins: seq<Pins>)
    requires 0 < |trail| == |pins|
  {
    var r := answer(|trail| - 1, trail[|trail| - 1]);
    || !DistinctUrls(trail)
    || TotalSize(answer, trail) > RESPONSE_LIMIT
    || (!Delivers(r) && (|trail| == 4 || !r.plain || !IsRedirect(r.status) || r.location.None?
                         || s.isLogin(r.location.value.path)
                         || Gateway(s, q, pins[|trail| - 1], r.location.value).None?))
  }

  lemma DistinctPrefix(urls: seq<Url>, n: nat)
    requires DistinctUrls(urls) && n <= |urls|
    ensures DistinctUrls(urls[..n])
  {
  }

  /** A chain that leads to an accepted one is not stuck. */
  lemma AcceptedIsNotStuck(s: Settings, q: Request, answer: (nat, Url) -> Response,
                           trail: seq<Url>, trailPins: seq<Pins>, urls: seq<Url>, pins: seq<Pins>)
    requires Chain(s, q, answer, trail, trailPins) && Accepted(s, q, answer, urls, pins)
    requires trail[0] == urls[0] && trailPins[0] == pins[0]
    ensures !Stuck(s, q, answer, trail, trailPins)
  {
    AcceptedContinues(s, q, answer, trail, trailPins, urls, pins);
    SizesGrow(answer, urls, |trail|);
    var n := |trail| - 1;
    assert trail[n] == urls[n] && trailPins[n] == pins[n];
    DistinctPrefix(urls, |trail|);
    if |trail| < |urls| {
      ChainHop(s, q, answer, urls, pins, n);
    } else {
      assert trail == urls;
    }
  }

  lemma NothingAccepted(s: Settings, q: Request, answer: (nat, Url) -> Response, trail: seq<Url>, trailPins: seq<Pins>)
    requires Chain(s, q, answer, trail, trailPins) && Stuck(s, q, answer, trail, trailPins)
    ensures Hopeless(s, q, answer, trail[0], trailPins[0])
  {
    forall urls, pins | Accepted(s, q, answer, urls, pins)
      ensures !(urls[0] == trail[0] && pins[0] == trailPins[0])
    {
      if urls[0] == trail[0] && pins[0] == trailPins[0] {
        AcceptedIsNotStuck(s, q, answer, trail, trailPins, urls, pins);
      }
    }
  }

  /** No accepted chain starts with this URL and these pins. */
  ghost predicate Hopeless(s: Settings, q: Request, answer: (nat, Url) -> Response, u: Url, p: Pins) {
    forall urls, pins :: Accepted(s, q, answer, urls, pins) ==> !(urls[0] == u && pins[0] == p)
  }

  method FollowRedirect(route: LogRoute, t: Target, ghost fetched: seq<Url>) returns (u: Option<Url>)
    requires AllPinned(route.settings, route.request, route.pins, fetched)
    modifies route`pins
    ensures AllPinned(route.settings, route.request, route.pins, fetched)
    ensures u.Some? ==> Pinned(route.settings, route.request, route.pins, u.value)
    ensures u.Some? <==>
      !route.settings.isLogin(t.path) && Gateway(route.settings, route.request, old(route.pins), t).Some?
    ensures u.Some? ==> Gateway(route.settings, route.request, old(route.pins), t) == Some((u.value, route.pins))
    ensures Extends(old(route.pins), route.pins)
  {
    u := route.Redirect(t);
    LaterPinsStillHold(route.settings, route.request, old(route.pins), route.pins, fetched);
  }

  lemma ChainAppend(s: Settings, q: Request, answer: (nat, Url) -> Response,
                    urls: seq<Url>, pins: seq<Pins>, u: Url, p: Pins)
    requires Chain(s, q, answer, urls, pins)
    requires Hop(s, q, answer(|urls| - 1, urls[|urls| - 1]), pins[|urls| - 1], u, p)
    ensures Chain(s, q, answer, urls + [u], pins + [p])
  {
  }

  /** Where the redirect loop stands: the URLs fetched so far and the one to fetch next are a chain
      from the start, and all are pinned. */
  ghost predicate Walking(s: Settings, q: Request, answer: (nat, Url) -> Response, u0: Url, p0: Pins,
                          fetched: seq<Url>, url: Url, total: nat, trailPins: seq<Pins>, pins: Pins)
  {
    && |fetched| < 4 && DistinctUrls(fetched) && total == TotalSize(answer, fetched)
    && Chain(s, q, answer, fetched + [url], trailPins)
    && (fetched + [url])[0] == u0 && trailPins[0] == p0 && trailPins[|fetched|] == pins
    && AllPinned(s, q, pins, fetched + [url]) && Extends(p0, pins)
  }

  lemma WalkStarts(s: Settings, q: Request, answer: (nat, Url) -> Response, u: Url, p: Pins)
    requires Pinned(s, q, p, u)
    ensures Walking(s, q, answer, u, p, [], u, 0, [p], p)
  {
    assert [] + [u] == [u];
  }

  /** One round of the redirect loop: the log, the next URL, or a dead end. */
  datatype Round = Found | Onward(url: Url, total: nat) | DeadEnd

  /** `trailPins` holds the pins with which each URL was accepted. */
  method FetchRound(route: LogRoute, answer: (nat, Url) -> Response, fetched: seq<Url>, url: Url, total: nat,
                    ghost u0: Url, ghost p0: Pins, ghost trailPins: seq<Pins>)
    returns (round: Round, log: seq<Url>, ghost laterPins: seq<Pins>)
    requires Walking(route.settings, route.request, answer, u0, p0, fetched, url, total, trailPins, route.pins)
    modifies route`pins
    ensures 1 <= |log| <= 4 && log[0] == u0 && DistinctUrls(log) && |log| <= |fetched| + 1
    ensures AllPinned(route.settings, route.request, route.pins, log) && Extends(p0, route.pins)
    ensures round.Found? ==>
      && log == fetched + [url] && trailPins[0] == p0 && trailPins[|trailPins| - 1] == route.pins
      && Accepted(route.settings, route.request, answer, log, trailPins)
    ensures round.Onward? ==>
      && log == fetched + [url]
      && Walking(route.settings, route.request, answer, u0, p0, log, round.url, round.total, laterPins, route.pins)
    ensures round.DeadEnd? ==> Hopeless(route.settings, route.request, answer, u0, p0)
  {
    laterPins := trailPins;
    ghost var trail := fetched + [url];
    assert trail[..|trail| - 1] == fetched;
    if Stuck(route.settings, route.request, answer, trail, trailPins) {
      NothingAccepted(route.settings, route.request, answer, trail, trailPins);
    }
    if url in fetched {
      var i :| 0 <= i < |fetched| && fetched[i] == url;
      assert trail[i] == trail[|fetched|];
      return DeadEnd, fetched, laterPins;
    }
    log := fetched + [url];
    var response := answer(|fetched|, url);
    if !response.plain || total + response.size > RESPONSE_LIMIT {
      return DeadEnd, log, laterPins;
    }
    if !IsRedirect(response.status) {
      return if response.status == 200 && response.readable then Found else DeadEnd, log, laterPins;
    }
    if |fetched| == 3 || response.location.None? {
      return DeadEnd, log, laterPins;
    }
    var next := FollowRedirect(route, response.location.value, log);
    if next.None? {
      return DeadEnd, log, laterPins;
    }
    ChainAppend(route.settings, route.request, answer, trail, trailPins, next.value, route.pins);
    PinnedAppend(route.settings, route.request, route.pins, log, next.value);
    laterPins := trailPins + [route.pins];
    return Onward(next.value, total + response.size), log, laterPins;
  }

  /** The redirect loop of `_receive`, against any server.  `answer` is what the server returns for
      a URL at a step; `fetched` is the log of all credentialed GETs.  The log is found exactly when
      the server offers an acceptable chain from the route's URL. */
  method Receive(route: LogRoute, answer: (nat, Url) -> Response) returns (ending: Ending, fetched: seq<Url>)
    requires Pinned(route.settings, route.request, route.pins, route.url)
    modifies route`pins
    ensures 1 <= |fetched| <= 4 && fetched[0] == route.url && DistinctUrls(fetched)
    ensures AllPinned(route.settings, route.request, route.pins, fetched)
    ensures Extends(old(route.pins), route.pins)
    ensures ending.Content? ==>
      && ending.source == fetched[|fetched| - 1]
      && exists pins :: Accepted(route.settings, route.request, answer, fetched, pins)
                        && pins[0] == old(route.pins) && pins[|pins| - 1] == route.pins
    ensures ending.Refused? ==> Hopeless(route.settings, route.request, answer, route.url, old(route.pins))
  {
    var url, total := route.url, 0;
    fetched := [];
    ghost var trailPins := [route.pins];
    WalkStarts(route.settings, route.request, answer, url, route.pins);
    while true
      invariant Walking(route.settings, route.request, answer, route.url, old(route.pins), fetched, url, total,
                        trailPins, route.pins)
      decreases 4 - |fetched|
    {
      var round, log, laterPins := FetchRound(route, answer, fetched, url, total, route.url, old(route.pins), trailPins);
      match round {
        case Found => return Content(url), log;
        case DeadEnd => return Refused, log;
        case Onward(next, sum) => fetched, url, total, trailPins := log, next, sum, laterPins;
      }
    }
  }
}
