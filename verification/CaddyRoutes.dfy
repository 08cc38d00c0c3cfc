/**
 The route builder as a compiler: from a route configuration to a tree of handlers, with
 an evaluator of such trees and the policy the configuration stands for.
 */
module CaddyPolicy {
  import opened Options
  import opened CookieStrip

  datatype ForwardAuth = ForwardAuth(upstream: string, verifyPath: string, copyHeaders: seq<string>, loginURL: string)

  datatype RouteConfig = RouteConfig(
    upstream: string,
    stripCookieName: string,
    forwardAuth: Option<ForwardAuth>,
    publicPaths: seq<string>,
    scrubHeaders: seq<string>)

  datatype Handler =
    | DeleteHeaders(names: seq<string>)
    | SetFromResponse(names: seq<string>)
    | StaticResponse(status: int, location: string)
    | Proxy(dial: string, strip: Option<string>)
    | Subrequest(dial: string, uri: string, onResponse: seq<ResponseRoute>)
    | Subroute(routes: seq<Route>)

  /** A status class, or None for any, and what to do with a response of it. */
  datatype ResponseRoute = ResponseRoute(class_: Option<int>, handle: seq<Handler>)

  /** Path patterns, or None for any path. */
  datatype Route = Route(paths: Option<seq<string>>, handle: seq<Handler>)

  // ----- The builder -----

  function ForwardAuthHandler(fa: ForwardAuth): Handler {
    Subrequest(fa.upstream, fa.verifyPath, [
      ResponseRoute(Some(2), [DeleteHeaders(fa.copyHeaders), SetFromResponse(fa.copyHeaders)]),
      ResponseRoute(None, [StaticResponse(302, fa.loginURL)])])
  }

  function AddRoute(cfg: RouteConfig): seq<Handler> {
    var proxy := Proxy(cfg.upstream, if cfg.stripCookieName != "" then Some(cfg.stripCookieName) else None);
    var scrub := if |cfg.scrubHeaders| > 0 then [DeleteHeaders(cfg.scrubHeaders)] else [];
    scrub +
    if cfg.forwardAuth.Some? && |cfg.publicPaths| > 0 then
      [Subroute([Route(Some(cfg.publicPaths), [proxy]),
                 Route(None, [ForwardAuthHandler(cfg.forwardAuth.value), proxy])])]
    else if cfg.forwardAuth.Some? then [ForwardAuthHandler(cfg.forwardAuth.value), proxy]
    else [proxy]
  }

  // ----- What the server does with handlers -----

  datatype Request = Request(path: string, headers: map<string, string>)
  datatype Answer = Answer(status: int, headers: map<string, string>)

  /** The app or brain was dialed with this request, a response was written, or neither yet. */
  datatype Outcome = Reached(dial: string, request: Request) | Responded(status: int, location: string) | Next(request: Request)

  /** What the server cannot compute: how paths match patterns, and how a subrequest is answered, if its upstream can be reached at all. */
  datatype World = World(matches: (seq<string>, string) -> bool, ask: (string, string, Request) -> Option<Answer>)

  /** What a client gets when an upstream cannot be reached; no response route sees it. */
  const BAD_GATEWAY := Responded(502, "")

  function Deleted(r: Request, names: seq<string>): Request {
    r.(headers := r.headers - (set n | n in names))
  }

  /** A header placeholder of a response that lacks the header stands for the empty text. */
  function FromResponse(a: map<string, string>, n: string): string {
    if n in a then a[n] else ""
  }

  function Copied(r: Request, names: seq<string>, a: map<string, string>): Request {
    r.(headers := r.headers + (map n | n in names :: FromResponse(a, n)))
  }

  function Stripped(r: Request, strip: Option<string>): Request {
    if strip.Some? && "Cookie" in r.headers
    then r.(headers := r.headers["Cookie" := Strip(r.headers["Cookie"], strip.value)]) else r
  }

  /** Handlers run in order until one of them dials or responds; `a` are the latest subrequest's response headers. */
  function EvalAll(hs: seq<Handler>, r: Request, a: map<string, string>, w: World): Outcome
    decreases hs, 0
  {
    if hs == [] then Next(r)
    else
      var o := Eval(hs[0], r, a, w);
      if o.Next? then EvalAll(hs[1..], o.request, a, w) else o
  }

  function Eval(h: Handler, r: Request, a: map<string, string>, w: World): Outcome
    decreases h, 1
  {
    match h
    case DeleteHeaders(names) => Next(Deleted(r, names))
    case SetFromResponse(names) => Next(Copied(r, names, a))
    case StaticResponse(status, location) => Responded(status, location)
    case Proxy(dial, strip) => Reached(dial, Stripped(r, strip))
    case Subrequest(dial, uri, onResponse) =>
      var answer := w.ask(dial, uri, r);
      if answer.None? then BAD_GATEWAY else EvalResponse(onResponse, answer.value, r, w)
    case Subroute(routes) => EvalRoutes(routes, r, a, w)
  }

  /** The first response route whose class fits handles the response; an unhandled one goes to the client. */
  function EvalResponse(rs: seq<ResponseRoute>, answer: Answer, r: Request, w: World): Outcome
    decreases rs, 0
  {
    if rs == [] then Responded(answer.status, "")
    else if rs[0].class_.None? || rs[0].class_.value == answer.status / 100
    then EvalAll(rs[0].handle, r, answer.headers, w)
    else EvalResponse(rs[1..], answer, r, w)
  }

  /** Every route that matches runs, until one dials or responds. */
  function EvalRoutes(rs: seq<Route>, r: Request, a: map<string, string>, w: World): Outcome
    decreases rs, 0
  {
    if rs == [] then Next(r)
    else
      var o := if rs[0].paths.None? || w.matches(rs[0].paths.value, r.path)
               then EvalAll(rs[0].handle, r, a, w) else Next(r);
      if o.Next? then EvalRoutes(rs[1..], o.request, a, w) else o
  }

  // ----- What a configuration stands for -----

  predicate Public(cfg: RouteConfig, r: Request, w: World) {
    |cfg.publicPaths| > 0 && w.matches(cfg.publicPaths, r.path)
  }

  function Policy(cfg: RouteConfig, r: Request, w: World): Outcome {
    var strip := if cfg.stripCookieName != "" then Some(cfg.stripCookieName) else None;
    var clean := Deleted(r, cfg.scrubHeaders);
    if cfg.forwardAuth.None? || Public(cfg, r, w) then Reached(cfg.upstream, Stripped(clean, strip))
    else
      var fa := cfg.forwardAuth.value;
      var answer := w.ask(fa.upstream, fa.verifyPath, clean);
      if answer.None? then BAD_GATEWAY
      else if 200 <= answer.value.status < 300
      then Reached(cfg.upstream, Stripped(Copied(Deleted(clean, fa.copyHeaders), fa.copyHeaders, answer.value.headers), strip))
      else Responded(302, fa.loginURL)
  }

  lemma EvalTwo(g: Handler, h: Handler, r: Request, a: map<string, string>, w: World)
    ensures EvalAll([h], r, a, w) == Eval(h, r, a, w)
    ensures EvalAll([g, h], r, a, w) ==
            var o := Eval(g, r, a, w); if o.Next? then Eval(h, o.request, a, w) else o
  {
    assert [g, h][1..] == [h] && [h][1..] == [];
    var o := Eval(g, r, a, w);
    if o.Next? { assert EvalAll([h], o.request, a, w) == Eval(h, o.request, a, w); }
  }

  /** The gate lets a request pass, with the identity the verify endpoint vouched for, exactly on a 2xx answer. */
  lemma GateDecides(fa: ForwardAuth, r: Request, a: map<string, string>, w: World)
    ensures var answer := w.ask(fa.upstream, fa.verifyPath, r);
            Eval(ForwardAuthHandler(fa), r, a, w) ==
            if answer.None? then BAD_GATEWAY
            else if 200 <= answer.value.status < 300
            then Next(Copied(Deleted(r, fa.copyHeaders), fa.copyHeaders, answer.value.headers))
            else Responded(302, fa.loginURL)
  {
    var reply := w.ask(fa.upstream, fa.verifyPath, r);
    if reply.None? { return; }
    var answer := reply.value;
    var allow := ResponseRoute(Some(2), [DeleteHeaders(fa.copyHeaders), SetFromResponse(fa.copyHeaders)]);
    var deny := ResponseRoute(None, [StaticResponse(302, fa.loginURL)]);
    assert [allow, deny][1..] == [deny];
    assert EvalResponse([deny], answer, r, w) == EvalAll(deny.handle, r, answer.headers, w);
    EvalTwo(DeleteHeaders(fa.copyHeaders), SetFromResponse(fa.copyHeaders), r, answer.headers, w);
    EvalTwo(StaticResponse(302, fa.loginURL), StaticResponse(302, fa.loginURL), r, answer.headers, w);
    assert Eval(ForwardAuthHandler(fa), r, a, w) == EvalResponse([allow, deny], answer, r, w);
  }

  lemma GatedProxy(fa: ForwardAuth, dial: string, strip: Option<string>, r: Request, a: map<string, string>, w: World)
    ensures var answer := w.ask(fa.upstream, fa.verifyPath, r);
            EvalAll([ForwardAuthHandler(fa), Proxy(dial, strip)], r, a, w) ==
            if answer.None? then BAD_GATEWAY
            else if 200 <= answer.value.status < 300
            then Reached(dial, Stripped(Copied(Deleted(r, fa.copyHeaders), fa.copyHeaders, answer.value.headers), strip))
            else Responded(302, fa.loginURL)
  {
    GateDecides(fa, r, a, w);
    EvalTwo(ForwardAuthHandler(fa), Proxy(dial, strip), r, a, w);
  }

  /** Evaluating the tree the builder emits is the policy, for every configuration, request and answer. */
  lemma TreeMeetsPolicy(cfg: RouteConfig, r: Request, w: World)
    ensures EvalAll(AddRoute(cfg), r, map[], w) == Policy(cfg, r, w)
  {
    var clean := Deleted(r, cfg.scrubHeaders);
    var bare := AddRoute(cfg.(scrubHeaders := []));
    if |cfg.scrubHeaders| > 0 {
      assert AddRoute(cfg) == [DeleteHeaders(cfg.scrubHeaders)] + bare;
      assert AddRoute(cfg)[1..] == bare;
    } else {
      assert clean == r by { assert r.headers - {} == r.headers; }
      assert AddRoute(cfg) == bare;
    }
    assert EvalAll(AddRoute(cfg), r, map[], w) == EvalAll(bare, clean, map[], w);
    BareMeetsPolicy(cfg, clean, w);
    assert Deleted(clean, []) == clean by { assert clean.headers - {} == clean.headers; }
    assert Public(cfg.(scrubHeaders := []), clean, w) == Public(cfg, r, w);
    assert Policy(cfg.(scrubHeaders := []), clean, w) == Policy(cfg, r, w);
  }

  /** The same without the scrub, from the scrubbed request on. */
  lemma BareMeetsPolicy(cfg: RouteConfig, r: Request, w: World)
    ensures EvalAll(AddRoute(cfg.(scrubHeaders := [])), r, map[], w) == Policy(cfg.(scrubHeaders := []), r, w)
  {
    var bare := cfg.(scrubHeaders := []);
    var strip := if cfg.stripCookieName != "" then Some(cfg.stripCookieName) else None;
    var proxy := Proxy(cfg.upstream, strip);
    assert Deleted(r, []) == r by { assert r.headers - {} == r.headers; }
    EvalTwo(proxy, proxy, r, map[], w);
    if cfg.forwardAuth.Some? {
      var fa := cfg.forwardAuth.value;
      GatedProxy(fa, cfg.upstream, strip, r, map[], w);
      if |cfg.publicPaths| > 0 {
        var open, gated := Route(Some(cfg.publicPaths), [proxy]), Route(None, [ForwardAuthHandler(fa), proxy]);
        assert AddRoute(bare) == [Subroute([open, gated])];
        assert [open, gated][1..] == [gated];
        EvalTwo(Subroute([open, gated]), proxy, r, map[], w);
        assert EvalRoutes([gated], r, map[], w) == EvalAll(gated.handle, r, map[], w);
      } else {
        assert AddRoute(bare) == [ForwardAuthHandler(fa), proxy];
      }
    } else {
      assert AddRoute(bare) == [proxy];
    }
  }

  predicate Gated(cfg: RouteConfig, r: Request, w: World) {
    cfg.forwardAuth.Some? && !Public(cfg, r, w)
  }

  /** What the verify endpoint says to a gated request, which it gets scrubbed. */
  function Verified(cfg: RouteConfig, r: Request, w: World): Option<Answer>
    requires cfg.forwardAuth.Some?
  {
    w.ask(cfg.forwardAuth.value.upstream, cfg.forwardAuth.value.verifyPath, Deleted(r, cfg.scrubHeaders))
  }

  /**
   What the policy promises. The app is reached exactly without a gate, on a declared public
   path, or after a 2xx verify; any other answer gets the redirect, and no answer a bad
   gateway; a scrubbed header arrives only as the verify response gave it.
   */
  lemma PolicyPromises(cfg: RouteConfig, r: Request, w: World)
    ensures var o := EvalAll(AddRoute(cfg), r, map[], w);
            var passes := Gated(cfg, r, w) ==> Verified(cfg, r, w).Some? && Verified(cfg, r, w).value.status / 100 == 2;
            && (o.Reached? <==> passes) && (o.Reached? ==> o.dial == cfg.upstream && o.request.path == r.path)
            && (!passes ==> o == if Verified(cfg, r, w).Some? then Responded(302, cfg.forwardAuth.value.loginURL) else BAD_GATEWAY)
            && (o.Reached? ==> forall h :: h in cfg.scrubHeaders && h != "Cookie" && h in o.request.headers ==>
                  && Gated(cfg, r, w) && h in cfg.forwardAuth.value.copyHeaders
                  && o.request.headers[h] == FromResponse(Verified(cfg, r, w).value.headers, h))
  {
    TreeMeetsPolicy(cfg, r, w);
  }

  /**
   Every other header, told one by one. A header the gate copies arrives as the verify
   response has it, empty where it has none; one that is scrubbed does not arrive; any other
   arrives exactly as the client sent it.
   */
  lemma HeadersArrive(cfg: RouteConfig, r: Request, w: World, h: string)
    requires h != "Cookie"
    ensures var o := EvalAll(AddRoute(cfg), r, map[], w);
            o.Reached? ==>
              var arrives := h in o.request.headers;
              if Gated(cfg, r, w) && h in cfg.forwardAuth.value.copyHeaders then
                && Verified(cfg, r, w).Some? && arrives
                && var given := Verified(cfg, r, w).value.headers;
                   o.request.headers[h] == if h in given then given[h] else ""
              else if h in cfg.scrubHeaders then !arrives
              else (arrives <==> h in r.headers) && (arrives ==> o.request.headers[h] == r.headers[h])
  {
    TreeMeetsPolicy(cfg, r, w);
  }

  /** Where the cookies an app gets come from: the verify response if it is asked for them, otherwise the client, unless scrubbed. */
  function CookieSource(cfg: RouteConfig, r: Request, w: World): Option<string> {
    if Gated(cfg, r, w) && "Cookie" in cfg.forwardAuth.value.copyHeaders then
      if Verified(cfg, r, w).Some? then Some(FromResponse(Verified(cfg, r, w).value.headers, "Cookie")) else None
    else if "Cookie" in r.headers && "Cookie" !in cfg.scrubHeaders then Some(r.headers["Cookie"])
    else None
  }

  /** Whatever cookies arrive, on either branch and from either side, went through the strip. */
  lemma ArrivingCookieIsStripped(cfg: RouteConfig, r: Request, w: World)
    requires cfg.stripCookieName != ""
    ensures var o := EvalAll(AddRoute(cfg), r, map[], w);
            o.Reached? ==>
              && ("Cookie" in o.request.headers <==> CookieSource(cfg, r, w).Some?)
              && ("Cookie" in o.request.headers ==>
                    o.request.headers["Cookie"] == Strip(CookieSource(cfg, r, w).value, cfg.stripCookieName))
  {
    TreeMeetsPolicy(cfg, r, w);
  }

  /**
   For every configuration and request, whatever its Cookie header looks like: the app finds
   the stripped cookie in what arrives exactly if the header opened with white space before
   the name, which no header does that was trimmed as HTTP asks.
   */
  lemma StrippedCookieNeverArrives(cfg: RouteConfig, r: Request, w: World)
    requires cfg.stripCookieName != "" && NameOk(cfg.stripCookieName)
    ensures var o := EvalAll(AddRoute(cfg), r, map[], w);
            o.Reached? && "Cookie" in o.request.headers ==>
              && CookieSource(cfg, r, w).Some?
              && (Carries(o.request.headers["Cookie"], cfg.stripCookieName) <==>
                  OpensSpaced(CookieSource(cfg, r, w).value, cfg.stripCookieName))
  {
    ArrivingCookieIsStripped(cfg, r, w);
    if CookieSource(cfg, r, w).Some? {
      StrippedNameIsGone(CookieSource(cfg, r, w).value, cfg.stripCookieName);
    }
  }

  /** A cookie-string arrives as the same pairs, in order, without those of the stripped name. */
  lemma OtherCookiesArrive(cfg: RouteConfig, r: Request, w: World, cs: seq<Cookie>)
    requires cfg.stripCookieName != "" && NameOk(cfg.stripCookieName) && '=' !in cfg.stripCookieName
    requires forall i :: 0 <= i < |cs| ==> CookieOk(cs[i])
    ensures var o := EvalAll(AddRoute(cfg), r, map[], w);
            o.Reached? && CookieSource(cfg, r, w) == Some(Render(cs)) ==>
              && "Cookie" in o.request.headers
              && o.request.headers["Cookie"] == Render(Others(cs, cfg.stripCookieName))
  {
    ArrivingCookieIsStripped(cfg, r, w);
    StripRemovesExactlyOneName(cs, cfg.stripCookieName);
  }
}

/**
 The server's route list: requests go to the first route whose host matches, routes are
 inserted at the front, deleted by id, and the catch-all is appended once.
 */
module CaddyRouteList {
  import opened Options
  import P = CaddyPolicy

  /** `host` is None for the catch-all, which matches every request. */
  datatype Route = Route(id: string, host: Option<string>, handle: seq<P.Handler>)

  const CATCH_ALL := "malmo-catchall"
  const DASHBOARD := "malmo-dashboard"

  function AppId(instance: string): string { "malmo-app-" + instance }

  function NotFound(): Route { Route(CATCH_ALL, None, [P.StaticResponse(404, "")]) }

  function Dashboard(host: string, brain: string, ui: string): Route {
    Route(DASHBOARD, Some(host), [P.Subroute([
      P.Route(Some(["/api/*", "/_malmo/*"]), [P.Proxy(brain, None)]),
      P.Route(None, [P.Proxy(ui, None)])])])
  }

  /** The dashboard host splits by path, with the request as it came. */
  lemma DashboardSplits(host: string, brain: string, ui: string, r: P.Request, w: P.World)
    ensures P.EvalAll(Dashboard(host, brain, ui).handle, r, map[], w) ==
            P.Reached(if w.matches(["/api/*", "/_malmo/*"], r.path) then brain else ui, r)
  {
    var toBrain, toUi := P.Proxy(brain, None), P.Proxy(ui, None);
    var api := P.Route(Some(["/api/*", "/_malmo/*"]), [toBrain]);
    var rest := P.Route(None, [toUi]);
    P.EvalTwo(toBrain, toBrain, r, map[], w);
    P.EvalTwo(toUi, toUi, r, map[], w);
    P.EvalTwo(P.Subroute([api, rest]), toUi, r, map[], w);
    assert [api, rest][1..] == [rest];
    assert P.EvalRoutes([rest], r, map[], w) == P.EvalAll([toUi], r, map[], w);
  }

  /** A host that no route has gets the 404, whatever the request. */
  lemma UnknownHostGets404(ops: seq<Op>, host: string, r: P.Request, w: P.World)
    requires DistinctHosts(RunTable(ops)) && CATCH_ALL in RunTable(ops)
    requires forall id :: id in RunTable(ops) ==> RunTable(ops)[id].host != Some(host)
    ensures Serve(Run(ops), host).Some?
    ensures P.EvalAll(Serve(Run(ops), host).value, r, map[], w) == P.Responded(404, "")
  {
    ServesTheLatest(ops, host);
    P.EvalTwo(P.StaticResponse(404, ""), P.StaticResponse(404, ""), r, map[], w);
  }

  lemma AppIdsAreTheirOwn(a: string, b: string)
    ensures AppId(a) != CATCH_ALL && AppId(a) != DASHBOARD
    ensures AppId(a) == AppId(b) ==> a == b
  {
    assert AppId(a)[6] == 'a' && CATCH_ALL[6] == 'c' && DASHBOARD[6] == 'd';
    assert AppId(a)[10..] == a && AppId(b)[10..] == b;
  }

  // ----- The admin API -----

  function Removed(routes: seq<Route>, id: string): seq<Route> {
    if routes == [] then []
    else (if routes[0].id == id then [] else [routes[0]]) + Removed(routes[1..], id)
  }

  predicate Has(routes: seq<Route>, id: string) {
    exists i :: 0 <= i < |routes| && routes[i].id == id
  }

  /** The first match serves the request. */
  function Serve(routes: seq<Route>, host: string): Option<seq<P.Handler>> {
    if routes == [] then None
    else if routes[0].host == None || routes[0].host == Some(host) then Some(routes[0].handle)
    else Serve(routes[1..], host)
  }

  /**
   What the brain asks of the server. Every admin call may fail without effect: `deleted`,
   `put`, `posted` and `patched` say whether it got through, and `probe` is the answer to
   the look for the catch-all: None for no answer, Some(false) for a server error.
   */
  datatype Op =
    | Upsert(instance: string, host: string, handle: seq<P.Handler>, deleted: bool, put: bool)
    | EnsureDashboard(host: string, brain: string, ui: string, deleted: bool, put: bool)
    | Remove(id: string, deleted: bool)
    | EnsureCatchAll(probe: Option<bool>, posted: bool)
    | EnsureServer(patched: bool)

  function Deleted(routes: seq<Route>, id: string, through: bool): seq<Route> {
    if through then Removed(routes, id) else routes
  }

  /** An id the server already has is refused. */
  function Inserted(routes: seq<Route>, r: Route, through: bool): seq<Route> {
    if through && !Has(routes, r.id) then [r] + routes else routes
  }

  function Appended(routes: seq<Route>, r: Route, through: bool): seq<Route> {
    if through && !Has(routes, r.id) then routes + [r] else routes
  }

  function Apply(routes: seq<Route>, op: Op): seq<Route> {
    match op
    case Upsert(instance, host, handle, deleted, put) =>
      Inserted(Deleted(routes, AppId(instance), deleted), Route(AppId(instance), Some(host), handle), put)
    case EnsureDashboard(host, brain, ui, deleted, put) =>
      Inserted(Deleted(routes, DASHBOARD, deleted), Dashboard(host, brain, ui), put)
    case Remove(id, deleted) => Deleted(routes, id, deleted)
    case EnsureCatchAll(probe, posted) =>
      if probe == None || (probe.value && Has(routes, CATCH_ALL)) then routes else Appended(routes, NotFound(), posted)
    case EnsureServer(patched) => if patched then [] else routes
  }

  function Run(ops: seq<Op>): seq<Route> {
    if ops == [] then [] else Apply(Run(ops[..|ops| - 1]), ops[|ops| - 1])
  }

  // ----- What the list stands for -----

  /** A plain table of the live routes by id; it knows no order. */
  type Table = map<string, Route>

  function Put(t: Table, r: Route, deleted: bool, put: bool): Table {
    if put && (deleted || r.id !in t) then t[r.id := r]
    else if deleted then t - {r.id} else t
  }

  function ApplyTable(t: Table, op: Op): Table {
    match op
    case Upsert(instance, host, handle, deleted, put) => Put(t, Route(AppId(instance), Some(host), handle), deleted, put)
    case EnsureDashboard(host, brain, ui, deleted, put) => Put(t, Dashboard(host, brain, ui), deleted, put)
    case Remove(id, deleted) => if deleted then t - {id} else t
    case EnsureCatchAll(probe, posted) =>
      if probe.Some? && posted && CATCH_ALL !in t then t[CATCH_ALL := NotFound()] else t
    case EnsureServer(patched) => if patched then map[] else t
  }

  function RunTable(ops: seq<Op>): Table {
    if ops == [] then map[] else ApplyTable(RunTable(ops[..|ops| - 1]), ops[|ops| - 1])
  }

  /** Ids are unique, only the catch-all lacks a host, and it is last. */
  ghost predicate Ordered(routes: seq<Route>) {
    && (forall i, j :: 0 <= i < j < |routes| ==> routes[i].id != routes[j].id)
    && (forall i :: 0 <= i < |routes| ==>
          (routes[i].host == None <==> routes[i].id == CATCH_ALL) && (routes[i].host == None ==> i == |routes| - 1))
  }

  ghost predicate Stands(routes: seq<Route>, t: Table) {
    && (forall r :: r in routes ==> r.id in t && t[r.id] == r)
    && (forall id :: id in t ==> t[id] in routes && t[id].id == id)
  }

  lemma {:induction false} RemovedHasOthers(routes: seq<Route>, id: string)
    ensures forall r :: r in Removed(routes, id) <==> r in routes && r.id != id
  {
    if routes != [] {
      RemovedHasOthers(routes[1..], id);
      forall r ensures r in Removed(routes, id) <==> r in routes && r.id != id {
        assert r in routes <==> r == routes[0] || r in routes[1..];
      }
    }
  }

  lemma OrderedAfter(r: Route, rest: seq<Route>)
    requires Ordered(rest) && r.host != None && r.id != CATCH_ALL
    requires forall x :: x in rest ==> x.id != r.id
    ensures Ordered([r] + rest)
  {
    assert forall i :: 0 <= i < |rest| ==> rest[i] in rest;
  }

  lemma {:induction false} RemovedIsOrdered(routes: seq<Route>, id: string)
    requires Ordered(routes)
    ensures Ordered(Removed(routes, id))
  {
    if routes != [] {
      var rest := Removed(routes[1..], id);
      RemovedIsOrdered(routes[1..], id);
      RemovedHasOthers(routes[1..], id);
      if |routes| > 1 && routes[0].id != id {
        OrderedAfter(routes[0], rest);
      }
    }
  }

  lemma RemovedStands(routes: seq<Route>, t: Table, id: string)
    requires Stands(routes, t)
    ensures Stands(Removed(routes, id), t - {id})
  {
    RemovedHasOthers(routes, id);
  }

  lemma DeletedStands(routes: seq<Route>, t: Table, id: string, through: bool)
    requires Ordered(routes) && Stands(routes, t)
    ensures Ordered(Deleted(routes, id, through))
    ensures Stands(Deleted(routes, id, through), if through then t - {id} else t)
  {
    RemovedStands(routes, t, id);
    RemovedIsOrdered(routes, id);
  }

  lemma HasIffInTable(routes: seq<Route>, t: Table, id: string)
    requires Stands(routes, t)
    ensures Has(routes, id) <==> id in t
  {
    if Has(routes, id) {
      var i :| 0 <= i < |routes| && routes[i].id == id;
      assert routes[i] in routes;
    }
  }

  lemma InsertedStands(routes: seq<Route>, t: Table, r: Route)
    requires Ordered(routes) && Stands(routes, t) && r.id !in t && r.id != CATCH_ALL && r.host.Some?
    ensures Ordered([r] + routes) && Stands([r] + routes, t[r.id := r])
  {
    assert forall x :: x in [r] + routes <==> x == r || x in routes;
  }

  lemma PutStands(routes: seq<Route>, t: Table, r: Route, deleted: bool, put: bool)
    requires Ordered(routes) && Stands(routes, t) && r.id != CATCH_ALL && r.host.Some?
    ensures var after := Inserted(Deleted(routes, r.id, deleted), r, put);
            Ordered(after) && Stands(after, Put(t, r, deleted, put))
  {
    DeletedStands(routes, t, r.id, deleted);
    var rest, t' := Deleted(routes, r.id, deleted), if deleted then t - {r.id} else t;
    HasIffInTable(rest, t', r.id);
    if put && r.id !in t' {
      InsertedStands(rest, t', r);
      assert Put(t, r, deleted, put) == t'[r.id := r];
    } else {
      assert Put(t, r, deleted, put) == t';
    }
  }

  lemma ApplyStands(routes: seq<Route>, t: Table, op: Op)
    requires Ordered(routes) && Stands(routes, t)
    ensures Ordered(Apply(routes, op)) && Stands(Apply(routes, op), ApplyTable(t, op))
  {
    match op
    case Upsert(instance, host, handle, deleted, put) =>
      AppIdsAreTheirOwn(instance, instance);
      PutStands(routes, t, Route(AppId(instance), Some(host), handle), deleted, put);
    case EnsureDashboard(host, brain, ui, deleted, put) =>
      assert CATCH_ALL[6] == 'c' && DASHBOARD[6] == 'd';
      PutStands(routes, t, Dashboard(host, brain, ui), deleted, put);
    case Remove(id, deleted) =>
      DeletedStands(routes, t, id, deleted);
    case EnsureCatchAll(probe, posted) =>
      HasIffInTable(routes, t, CATCH_ALL);
      assert forall x :: x in routes + [NotFound()] <==> x == NotFound() || x in routes;
    case EnsureServer(patched) =>
  }

  /** After every sequence of calls, failed ones included, the list holds each live route once, the catch-all last. */
  lemma {:induction false} RunStands(ops: seq<Op>)
    ensures Ordered(Run(ops)) && Stands(Run(ops), RunTable(ops))
  {
    if ops != [] {
      RunStands(ops[..|ops| - 1]);
      ApplyStands(Run(ops[..|ops| - 1]), RunTable(ops[..|ops| - 1]), ops[|ops| - 1]);
    }
  }

  ghost predicate DistinctHosts(t: Table) {
    forall a, b :: a in t && b in t && t[a].host == t[b].host ==> a == b
  }

  /** Whatever the order, a host no other route has is served by its route. */
  lemma {:induction false} FirstMatchIsLookup(routes: seq<Route>, r: Route, host: string)
    requires Ordered(routes) && r in routes && r.host == Some(host)
    requires forall x :: x in routes && x.host == Some(host) ==> x == r
    ensures Serve(routes, host) == Some(r.handle)
  {
    if routes[0] != r {
      assert routes[0].host == None ==> |routes| == 1;
      assert Ordered(routes[1..]);
      FirstMatchIsLookup(routes[1..], r, host);
    }
  }

  /** A host no route has falls to the catch-all, if there is one. */
  lemma {:induction false} NoMatchIsCatchAll(routes: seq<Route>, host: string)
    requires Ordered(routes)
    requires forall x :: x in routes ==> x.host != Some(host)
    ensures Has(routes, CATCH_ALL) ==>
              && routes[|routes| - 1].id == CATCH_ALL
              && Serve(routes, host) == Some(routes[|routes| - 1].handle)
    ensures !Has(routes, CATCH_ALL) ==> Serve(routes, host) == None
  {
    if routes != [] {
      assert Ordered(routes[1..]);
      assert routes[0] in routes;
      NoMatchIsCatchAll(routes[1..], host);
      forall i | 0 <= i < |routes| && routes[i].id == CATCH_ALL
        ensures i == |routes| - 1 && (i > 0 ==> routes[1..][i - 1].id == CATCH_ALL)
      {
      }
    }
  }

  lemma {:induction false} OnlyNotFoundIsCatchAll(ops: seq<Op>)
    ensures CATCH_ALL in RunTable(ops) ==> RunTable(ops)[CATCH_ALL] == NotFound()
  {
    if ops != [] {
      OnlyNotFoundIsCatchAll(ops[..|ops| - 1]);
      var op := ops[|ops| - 1];
      if op.Upsert? { AppIdsAreTheirOwn(op.instance, op.instance); }
      assert CATCH_ALL[6] == 'c' && DASHBOARD[6] == 'd';
    }
  }

  /** First match is a plain lookup: with distinct hosts every host is served by the latest handlers put for it, any other by the 404. */
  lemma ServesTheLatest(ops: seq<Op>, host: string)
    requires DistinctHosts(RunTable(ops))
    ensures forall id :: id in RunTable(ops) && RunTable(ops)[id].host == Some(host) ==>
              Serve(Run(ops), host) == Some(RunTable(ops)[id].handle)
    ensures (forall id :: id in RunTable(ops) ==> RunTable(ops)[id].host != Some(host)) ==>
              Serve(Run(ops), host) == if CATCH_ALL in RunTable(ops) then Some(NotFound().handle) else None
  {
    RunStands(ops);
    var routes, t := Run(ops), RunTable(ops);
    forall id | id in t && t[id].host == Some(host)
      ensures Serve(routes, host) == Some(t[id].handle)
    {
      FirstMatchIsLookup(routes, t[id], host);
    }
    if forall id :: id in t ==> t[id].host != Some(host) {
      NoMatchIsCatchAll(routes, host);
      HasIffInTable(routes, t, CATCH_ALL);
      OnlyNotFoundIsCatchAll(ops);
      if CATCH_ALL in t {
        assert routes[|routes| - 1] in routes;
      }
    }
  }

  /**
   The two halves joined: a request for a live app's host meets the policy of the
   configuration last put for the app, whatever else was put or removed since, as long as
   hosts are distinct.
   */
  lemma LiveAppMeetsPolicy(ops: seq<Op>, instance: string, host: string, cfg: P.RouteConfig, r: P.Request, w: P.World)
    requires DistinctHosts(RunTable(ops))
    requires AppId(instance) in RunTable(ops)
    requires RunTable(ops)[AppId(instance)] == Route(AppId(instance), Some(host), P.AddRoute(cfg))
    ensures Serve(Run(ops), host).Some?
    ensures P.EvalAll(Serve(Run(ops), host).value, r, map[], w) == P.Policy(cfg, r, w)
  {
    ServesTheLatest(ops, host);
    P.TreeMeetsPolicy(cfg, r, w);
  }

  // ----- The client -----

  /** The server the client edits; a flag says for each call whether it gets through. */
  class Server {
    var routes: seq<Route>

    /** As the reset leaves it. */
    constructor ()
      ensures routes == Run([])
    {
      routes := [];
    }

    method RemoveRouteByID(id: string, deleted: bool)
      requires Ordered(routes)
      modifies this
      ensures routes == Apply(old(routes), Remove(id, deleted)) && Ordered(routes)
      ensures deleted ==> !Has(routes, id)
      ensures forall r :: r in routes <==> r in old(routes) && (deleted ==> r.id != id)
    {
      RemovedHasOthers(routes, id);
      RemovedIsOrdered(routes, id);
      if deleted {
        routes := Removed(routes, id);
      }
    }

    /** PUT at index 0. */
    method Insert(r: Route, put: bool) returns (ok: bool)
      modifies this
      ensures ok <==> put && !Has(old(routes), r.id)
      ensures routes == Inserted(old(routes), r, put)
    {
      ok := put && !Has(routes, r.id);
      if ok { routes := [r] + routes; }
    }

    method UpsertRoute(instance: string, host: string, handle: seq<P.Handler>, deleted: bool, put: bool) returns (ok: bool)
      requires Ordered(routes)
      modifies this
      ensures routes == Apply(old(routes), Upsert(instance, host, handle, deleted, put)) && Ordered(routes)
      ensures deleted ==> ok == put
      ensures deleted && !put ==> !Has(routes, AppId(instance))
      ensures forall r: Route :: r.id != AppId(instance) ==> (r in routes <==> r in old(routes))
      ensures ok ==> |routes| > 0 && routes[0] == Route(AppId(instance), Some(host), handle)
    {
      RemoveRouteByID(AppId(instance), deleted);
      AppIdsAreTheirOwn(instance, instance);
      ok := Insert(Route(AppId(instance), Some(host), handle), put);
    }

    method AddRoute(instance: string, host: string, cfg: P.RouteConfig, deleted: bool, put: bool) returns (ok: bool)
      requires Ordered(routes)
      modifies this
      ensures routes == Apply(old(routes), Upsert(instance, host, P.AddRoute(cfg), deleted, put)) && Ordered(routes)
      ensures ok ==> Serve(routes, host) == Some(P.AddRoute(cfg))
      ensures deleted ==> ok == put
    {
      ok := UpsertRoute(instance, host, P.AddRoute(cfg), deleted, put);
    }

    method AddSplashRoute(instance: string, host: string, deleted: bool, put: bool) returns (ok: bool)
      requires Ordered(routes)
      modifies this
      ensures routes == Apply(old(routes), Upsert(instance, host, [P.StaticResponse(200, "")], deleted, put)) && Ordered(routes)
      ensures ok ==> Serve(routes, host) == Some([P.StaticResponse(200, "")])
      ensures deleted ==> ok == put
    {
      ok := UpsertRoute(instance, host, [P.StaticResponse(200, "")], deleted, put);
    }

    method InstallDashboard(host: string, brain: string, ui: string, deleted: bool, put: bool) returns (ok: bool)
      requires Ordered(routes)
      modifies this
      ensures routes == Apply(old(routes), EnsureDashboard(host, brain, ui, deleted, put)) && Ordered(routes)
      ensures ok ==> Serve(routes, host) == Some(Dashboard(host, brain, ui).handle)
      ensures deleted ==> ok == put
    {
      assert CATCH_ALL[6] == 'c' && DASHBOARD[6] == 'd';
      RemoveRouteByID(DASHBOARD, deleted);
      ok := Insert(Dashboard(host, brain, ui), put);
    }

    method InstallCatchAll(probe: Option<bool>, posted: bool) returns (ok: bool)
      requires Ordered(routes)
      modifies this
      ensures routes == Apply(old(routes), EnsureCatchAll(probe, posted)) && Ordered(routes)
      ensures ok ==> routes != [] && routes[|routes| - 1].id == CATCH_ALL
      ensures ok <==> probe.Some? && if Has(old(routes), CATCH_ALL) then probe.value else posted
    {
      if probe == None {
        return false;
      }
      if probe.value && Has(routes, CATCH_ALL) {
        return true;
      }
      ok := posted && !Has(routes, CATCH_ALL);
      if ok { routes := routes + [NotFound()]; }
    }

    method ResetServer(patched: bool) returns (ok: bool)
      modifies this
      ensures ok == patched && routes == Apply(old(routes), EnsureServer(patched))
    {
      if patched { routes := []; }
      ok := patched;
    }
  }
}
