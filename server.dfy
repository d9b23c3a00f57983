/** src/main.ts: its own copy of the configuration singleton, the per-request
    decisions of the dev asset middleware and the dev page handler, the rewrite of
    reload-client references in proxied HTML, the bundler input map, the splice of
    Express's handler stack and the install order of `listen`.

    Express and the network are abstracted: a request is only its path, the
    application's handler stack is a sequence of `Layer`s, and the outside world
    (what `fetch` returns, what the host's own layers and `express.static` answer)
    is a `World` value. */
module Server {
  import opened Router
  import Config

  // ---------------------------------------------------------------------------
  // Outcomes
  // ---------------------------------------------------------------------------

  /** What `fetch(url)` (and reading the body) gives: it throws, or a response with
      its `ok` flag, its final URL and its text. */
  datatype FetchOutcome = Threw | Resp(ok: bool, url: string, body: string)

  /** What a handler does with a request: pass it on with `next()`, redirect,
      send inline HTML or send a file. */
  datatype Outcome = Next | Redirect(url: string) | SendHtml(body: string) | SendFile(path: string)

  // ---------------------------------------------------------------------------
  // The HTML rewrite: content.replace(/(\/@react-refresh|\/@vite\/client)/g, host + "$1")
  // ---------------------------------------------------------------------------

  const ReactRefresh: string := "/@react-refresh"
  const ViteClient: string := "/@vite/client"

  /** One of the two markers starts the string. */
  predicate StartsWithMarker(s: string)
  {
    ReactRefresh <= s || ViteClient <= s
  }

  /** Every marker begins with "/@". */
  lemma MarkerHead(s: string)
    requires StartsWithMarker(s)
    ensures |s| >= 2 && s[0] == '/' && s[1] == '@'
  {
    if ReactRefresh <= s {
      assert s[0] == ReactRefresh[0] && s[1] == ReactRefresh[1];
    } else {
      assert s[0] == ViteClient[0] && s[1] == ViteClient[1];
    }
  }

  /** The length of the marker that starts s. */
  function MarkerLength(s: string): (m: nat)
    requires StartsWithMarker(s)
    ensures 2 <= m <= |s|
    ensures s[..m] == ReactRefresh || s[..m] == ViteClient
  {
    if ReactRefresh <= s then |ReactRefresh| else |ViteClient|
  }

  /** The global replacement, scanning left to right: where a marker starts, the
      host goes in front of the matched text and scanning resumes after it. */
  function RewriteHtml(host: string, s: string): (r: string)
    ensures |s| <= |r|
    ensures host == "" ==> r == s
    decreases |s|
  {
    if |s| == 0 then ""
    else if StartsWithMarker(s) then
      var m := MarkerLength(s);
      assert s == s[..m] + s[m..];
      host + s[..m] + RewriteHtml(host, s[m..])
    else
      assert s == [s[0]] + s[1..];
      [s[0]] + RewriteHtml(host, s[1..])
  }

  /** The number of positions at which a marker starts, counted independently of
      the scan. */
  function CountMarkers(s: string): nat
    decreases |s|
  {
    if |s| == 0 then 0
    else (if StartsWithMarker(s) then 1 else 0) + CountMarkers(s[1..])
  }

  ghost predicate NoMarkers(s: string)
  {
    forall i :: 0 <= i <= |s| ==> !StartsWithMarker(s[i..])
  }

  /** No marker starts strictly inside another: the markers cannot overlap. */
  lemma MarkersDoNotOverlap(s: string, j: nat)
    requires StartsWithMarker(s)
    requires 0 < j < MarkerLength(s)
    ensures !StartsWithMarker(s[j..])
  {
    if StartsWithMarker(s[j..]) {
      MarkerHead(s[j..]);
    }
  }

  /** When no marker starts at positions 1 .. j-1, counting from s skips them. */
  lemma {:induction false} CountSkip(s: string, j: nat)
    requires 0 < j <= |s|
    requires forall k :: 0 < k < j ==> !StartsWithMarker(s[k..])
    ensures CountMarkers(s) == (if StartsWithMarker(s) then 1 else 0) + CountMarkers(s[j..])
    decreases j
  {
    if j > 1 {
      var t := s[1..];
      forall k | 0 < k < j - 1 ensures !StartsWithMarker(t[k..]) {
        assert t[k..] == s[k + 1..];
      }
      assert !StartsWithMarker(t);
      CountSkip(t, j - 1);
      assert t[j - 1..] == s[j..];
    }
  }

  lemma MarkerCountStep(s: string)
    requires StartsWithMarker(s)
    ensures CountMarkers(s) == 1 + CountMarkers(s[MarkerLength(s)..])
  {
    var m := MarkerLength(s);
    forall k | 0 < k < m ensures !StartsWithMarker(s[k..]) {
      MarkersDoNotOverlap(s, k);
    }
    CountSkip(s, m);
  }

  /** Each marker gains exactly one copy of the host in front of it. */
  lemma {:induction false} RewriteLength(host: string, s: string)
    ensures |RewriteHtml(host, s)| == |s| + |host| * CountMarkers(s)
    decreases |s|
  {
    if |s| > 0 {
      if StartsWithMarker(s) {
        var m := MarkerLength(s);
        var rest := RewriteHtml(host, s[m..]);
        assert RewriteHtml(host, s) == host + s[..m] + rest;
        MarkerCountStep(s);
        RewriteLength(host, s[m..]);
        assert |host| * (1 + CountMarkers(s[m..])) == |host| + |host| * CountMarkers(s[m..]);
      } else {
        RewriteLength(host, s[1..]);
      }
    }
  }

  /** A body with a marker gains at least one copy of the host. */
  lemma {:induction false} RewriteGrows(host: string, s: string)
    requires CountMarkers(s) > 0
    ensures |RewriteHtml(host, s)| >= |s| + |host|
    decreases |s|
  {
    if StartsWithMarker(s) {
      var m := MarkerLength(s);
      assert RewriteHtml(host, s) == host + s[..m] + RewriteHtml(host, s[m..]);
    } else {
      RewriteGrows(host, s[1..]);
    }
  }

  lemma {:induction false} NoMarkersCount(s: string)
    ensures NoMarkers(s) <==> CountMarkers(s) == 0
    decreases |s|
  {
    assert s[0..] == s;
    if |s| > 0 {
      NoMarkersCount(s[1..]);
      if NoMarkers(s) {
        forall i | 0 <= i <= |s[1..]| ensures !StartsWithMarker(s[1..][i..]) {
          assert s[1..][i..] == s[i + 1..];
        }
      }
      if CountMarkers(s) == 0 {
        forall i | 0 <= i <= |s| ensures !StartsWithMarker(s[i..]) {
          if i > 0 { assert s[i..] == s[1..][i - 1..]; }
        }
      }
    }
  }

  lemma {:induction false} RewriteWithoutMarkers(host: string, s: string)
    requires NoMarkers(s)
    ensures RewriteHtml(host, s) == s
    decreases |s|
  {
    if |s| > 0 {
      assert s[0..] == s;
      assert NoMarkers(s[1..]) by {
        forall i | 0 <= i <= |s[1..]| ensures !StartsWithMarker(s[1..][i..]) {
          assert s[1..][i..] == s[i + 1..];
        }
      }
      RewriteWithoutMarkers(host, s[1..]);
    }
  }

  /** A body is returned unchanged exactly when it holds no marker (for a
      non-empty host, which GetViteHost always is). */
  lemma RewriteUnchangedIff(host: string, s: string)
    requires |host| > 0
    ensures RewriteHtml(host, s) == s <==> NoMarkers(s)
  {
    NoMarkersCount(s);
    if NoMarkers(s) {
      RewriteWithoutMarkers(host, s);
    } else {
      RewriteGrows(host, s);
    }
  }



  /** A marker-free prefix passes through untouched. */
  lemma {:induction false} RewritePlainPrefix(host: string, a: string, b: string)
    requires forall i :: 0 <= i < |a| ==> !StartsWithMarker((a + b)[i..])
    ensures RewriteHtml(host, a + b) == a + RewriteHtml(host, b)
    decreases |a|
  {
    if |a| > 0 {
      assert (a + b)[0..] == a + b;
      assert (a + b)[1..] == a[1..] + b;
      forall i | 0 <= i < |a[1..]| ensures !StartsWithMarker((a[1..] + b)[i..]) {
        assert (a[1..] + b)[i..] == (a + b)[i + 1..];
      }
      RewritePlainPrefix(host, a[1..], b);
    }
  }

  /** A string in which no "/" is followed by "@" holds no marker. */
  lemma NoMarkersWithoutSlashAt(s: string)
    requires forall i :: 0 <= i < |s| - 1 ==> !(s[i] == '/' && s[i + 1] == '@')
    ensures NoMarkers(s)
  {
    forall i | 0 <= i <= |s| ensures !StartsWithMarker(s[i..]) {
      if StartsWithMarker(s[i..]) {
        MarkerHead(s[i..]);
      }
    }
  }

  /** No marker starts inside a prefix that holds no "/". */
  lemma NoMarkerInSlashFreePrefix(a: string, b: string)
    requires forall i :: 0 <= i < |a| ==> a[i] != '/'
    ensures forall i :: 0 <= i < |a| ==> !StartsWithMarker((a + b)[i..])
  {
    forall i | 0 <= i < |a| ensures !StartsWithMarker((a + b)[i..]) {
      if StartsWithMarker((a + b)[i..]) {
        MarkerHead((a + b)[i..]);
      }
    }
  }

  const ScriptOpen: string := "<script src=\""
  const ScriptClose: string := "\"></script>"

  lemma ScriptCloseHasNoMarker()
    ensures NoMarkers(ScriptClose)
  {
    NoMarkersWithoutSlashAt(ScriptClose);
  }

  /** The client marker followed by marker-free text gains the host in front. */
  lemma RewriteViteClientThen(host: string, rest: string)
    requires NoMarkers(rest)
    ensures RewriteHtml(host, ViteClient + rest) == host + ViteClient + rest
  {
    var body := ViteClient + rest;
    assert ViteClient <= body;
    assert !(ReactRefresh <= body) by { assert body[2] != ReactRefresh[2]; }
    assert body[..|ViteClient|] == ViteClient && body[|ViteClient|..] == rest;
    RewriteWithoutMarkers(host, rest);
  }

  /** A slash-free prefix, the client marker, then marker-free text: only the
      marker gains the host. */
  lemma RewriteAroundViteClient(host: string, a: string, rest: string)
    requires forall i :: 0 <= i < |a| ==> a[i] != '/'
    requires NoMarkers(rest)
    ensures RewriteHtml(host, a + (ViteClient + rest)) == a + (host + ViteClient + rest)
  {
    NoMarkerInSlashFreePrefix(a, ViteClient + rest);
    RewritePlainPrefix(host, a, ViteClient + rest);
    RewriteViteClientThen(host, rest);
  }

  /** The page that loads the reload client: its reference is routed through the
      host. */
  lemma RewriteViteClientScript(host: string)
    ensures RewriteHtml(host, ScriptOpen + ViteClient + ScriptClose)
            == ScriptOpen + host + ViteClient + ScriptClose
  {
    ScriptCloseHasNoMarker();
    RewriteAroundViteClient(host, ScriptOpen, ScriptClose);
    assert ScriptOpen + ViteClient + ScriptClose == ScriptOpen + (ViteClient + ScriptClose);
    assert ScriptOpen + host + ViteClient + ScriptClose == ScriptOpen + (host + ViteClient + ScriptClose);
  }

  // ---------------------------------------------------------------------------
  // Per-request decisions
  // ---------------------------------------------------------------------------

  /** The URL a request is proxied to. */
  function ProxyUrl(cfg: Config.ConfigValue, path: string): (url: string)
    ensures |url| == |Config.GetViteHost(cfg)| + |path|
    ensures url[..|Config.GetViteHost(cfg)|] == Config.GetViteHost(cfg)
    ensures url[|Config.GetViteHost(cfg)|..] == path
  {
    Config.GetViteHost(cfg) + path
  }

  /** The dev asset middleware installed by `serveStatic`. */
  function AssetDecision(cfg: Config.ConfigValue, path: string, fetch: string -> FetchOutcome): (o: Outcome)
    ensures !IsStaticFilePath(path) ==> o == Next
    ensures IsStaticFilePath(path) && fetch(ProxyUrl(cfg, path)).Threw? ==> o == Next
    ensures IsStaticFilePath(path) && fetch(ProxyUrl(cfg, path)).Resp? ==>
              var resp := fetch(ProxyUrl(cfg, path));
              o == if resp.ok then Redirect(resp.url) else Next
  {
    if !IsStaticFilePath(path) then Next
    else
      match fetch(ProxyUrl(cfg, path))
      case Threw => Next
      case Resp(ok, url, _) => if !ok then Next else Redirect(url)
  }

  /** The dev page handler that `serverHTML` installs for each route. */
  function PageDecision(cfg: Config.ConfigValue, path: string, fetch: string -> FetchOutcome): (o: Outcome)
    ensures IsStaticFilePath(path) ==> o == Next
    ensures !IsStaticFilePath(path) && !EndsWithSlash(path) ==> o == Redirect(path + "/")
    ensures !IsStaticFilePath(path) && EndsWithSlash(path) ==>
              match fetch(ProxyUrl(cfg, path))
              case Threw => o == Next
              case Resp(_, _, body) => o == SendHtml(RewriteHtml(Config.GetViteHost(cfg), body))
  {
    if IsStaticFilePath(path) then Next
    else if !EndsWithSlash(path) then Redirect(path + "/")
    else
      match fetch(ProxyUrl(cfg, path))
      case Threw => Next
      case Resp(_, _, body) => SendHtml(RewriteHtml(Config.GetViteHost(cfg), body))
  }

  /** The asset middleware answers only by redirecting, and only when the path is
      static and the dev origin answered with a success. */
  lemma AssetDecisionAnswers(cfg: Config.ConfigValue, path: string, fetch: string -> FetchOutcome)
    ensures !AssetDecision(cfg, path, fetch).Next? <==>
              IsStaticFilePath(path) && fetch(ProxyUrl(cfg, path)).Resp? && fetch(ProxyUrl(cfg, path)).ok
    ensures AssetDecision(cfg, path, fetch).Next? || AssetDecision(cfg, path, fetch).Redirect?
  {
  }

  /** The page handler falls through only for static paths or a fetch that threw;
      it never sends a file. */
  lemma PageDecisionFallsThrough(cfg: Config.ConfigValue, path: string, fetch: string -> FetchOutcome)
    ensures PageDecision(cfg, path, fetch).Next? <==>
              IsStaticFilePath(path) ||
              (EndsWithSlash(path) && fetch(ProxyUrl(cfg, path)).Threw?)
    ensures !PageDecision(cfg, path, fetch).SendFile?
  {
  }

  /** Both decisions depend on the world only through the one URL they proxy. */
  lemma DecisionsFetchOnlyProxyUrl(cfg: Config.ConfigValue, path: string, f1: string -> FetchOutcome, f2: string -> FetchOutcome)
    requires f1(ProxyUrl(cfg, path)) == f2(ProxyUrl(cfg, path))
    ensures AssetDecision(cfg, path, f1) == AssetDecision(cfg, path, f2)
    ensures PageDecision(cfg, path, f1) == PageDecision(cfg, path, f2)
  {
  }

  /** The trailing-slash redirect happens before any fetch, and the path it
      redirects to is answered without a further redirect. */
  lemma RedirectWithoutFetch(cfg: Config.ConfigValue, path: string, f1: string -> FetchOutcome, f2: string -> FetchOutcome)
    requires !IsStaticFilePath(path) && !EndsWithSlash(path)
    ensures PageDecision(cfg, path, f1) == PageDecision(cfg, path, f2) == Redirect(path + "/")
    ensures !PageDecision(cfg, path + "/", f1).Redirect?
  {
    NotStaticWithoutWordEnd(path + "/");
  }

  /** For any one path at most one of the two dev handlers can answer. */
  lemma DevHandlersDisjoint(cfg: Config.ConfigValue, path: string, fetch: string -> FetchOutcome)
    ensures AssetDecision(cfg, path, fetch).Next? || PageDecision(cfg, path, fetch).Next?
  {
  }

  lemma DashboardUrl(nodeEnv: Config.Option<string>)
    ensures ProxyUrl(Config.InitialConfig(nodeEnv), "/dashboard/") == "http://localhost:3001/dashboard/"
  {
    Config.DefaultViteHost(nodeEnv);
  }

  /** The scenario with the default port: "/dashboard/" is proxied to the dev
      origin and the client script reference in its body is rewritten to point
      there, whatever the response status. */
  lemma DashboardScenario(nodeEnv: Config.Option<string>, fetch: string -> FetchOutcome)
    requires fetch("http://localhost:3001/dashboard/").Resp?
    requires fetch("http://localhost:3001/dashboard/").body == ScriptOpen + ViteClient + ScriptClose
    ensures PageDecision(Config.InitialConfig(nodeEnv), "/dashboard/", fetch)
            == SendHtml(ScriptOpen + "http://localhost:3001" + ViteClient + ScriptClose)
  {
    var host := "http://localhost:3001";
    Config.DefaultViteHost(nodeEnv);
    DashboardUrl(nodeEnv);
    NotStaticWithoutWordEnd("/dashboard/");
    RewriteViteClientScript(host);
  }

  // ---------------------------------------------------------------------------
  // The handler stack and dispatch
  // ---------------------------------------------------------------------------

  /** One entry of `app._router.stack`. */
  datatype Layer =
    | Opaque(id: nat)          // installed by Express or the host (query parser, init, ...)
    | StaticDir(dir: string)   // express.static(distPath)
    | AssetProxy               // the dev asset middleware
    | PageRoute(routePath: string)  // app.get(route.path, page handler)
    | CatchAll(dir: string)    // app.use("*", send distPath/index.html)

  /** What lies outside the model: the dev origin, the host's own layers and the
      file system behind express.static. */
  datatype World = World(
    fetch: string -> FetchOutcome,
    hostLayer: (nat, string) -> Outcome,
    staticFile: (string, string) -> Outcome)

  /** `path.resolve(dir, name)` for a plain file name. */
  function Resolve(dir: string, name: string): (r: string)
    ensures |r| > |name| && r[|r| - |name|..] == name && r[|r| - |name| - 1] == '/'
    ensures |r| >= |dir| && r[..|dir|] == dir
  {
    AddTrailingSlash(dir) + name
  }

  /** What one layer does with a GET request for `path`; a page route only sees
      the paths its route path matches. */
  function Handle(layer: Layer, cfg: Config.ConfigValue, path: string, w: World): (o: Outcome)
    ensures layer.AssetProxy? ==> o.Next? || o.Redirect?
    ensures layer.PageRoute? && !IsExactUIPressRoute(path, layer.routePath) ==> o.Next?
    ensures layer.CatchAll? ==> o.SendFile?
  {
    match layer
    case Opaque(id) => w.hostLayer(id, path)
    case StaticDir(dir) => w.staticFile(dir, path)
    case AssetProxy => AssetDecision(cfg, path, w.fetch)
    case PageRoute(routePath) =>
      if IsExactUIPressRoute(path, routePath) then PageDecision(cfg, path, w.fetch) else Next
    case CatchAll(dir) => SendFile(Resolve(dir, "index.html"))
  }

  /** Express runs the layers in order until one does not call `next()`; Next
      means the request fell off the end (the host's not-found handling). */
  function Dispatch(stack: seq<Layer>, cfg: Config.ConfigValue, path: string, w: World): (o: Outcome)
    ensures !o.Next? ==> exists j :: 0 <= j < |stack| && o == Handle(stack[j], cfg, path, w)
    decreases |stack|
  {
    if |stack| == 0 then Next
    else
      var o := Handle(stack[0], cfg, path, w);
      if !o.Next? then o
      else
        assert forall j :: 0 <= j < |stack| - 1 ==> stack[1..][j] == stack[j + 1];
        Dispatch(stack[1..], cfg, path, w)
  }

  /** Layers that pass a request on can be skipped. */
  lemma {:induction false} DispatchSkip(stack: seq<Layer>, k: nat, cfg: Config.ConfigValue, path: string, w: World)
    requires k <= |stack|
    requires forall j :: 0 <= j < k ==> Handle(stack[j], cfg, path, w).Next?
    ensures Dispatch(stack, cfg, path, w) == Dispatch(stack[k..], cfg, path, w)
    decreases k
  {
    if k > 0 {
      assert stack[1..][k - 1..] == stack[k..];
      DispatchSkip(stack[1..], k - 1, cfg, path, w);
    }
  }

  /** The first layer that answers decides the request. */
  lemma FirstAnswerWins(stack: seq<Layer>, k: nat, cfg: Config.ConfigValue, path: string, w: World)
    requires k < |stack|
    requires forall j :: 0 <= j < k ==> Handle(stack[j], cfg, path, w).Next?
    requires !Handle(stack[k], cfg, path, w).Next?
    ensures Dispatch(stack, cfg, path, w) == Handle(stack[k], cfg, path, w)
  {
    DispatchSkip(stack, k, cfg, path, w);
  }

  /** A request falls through the whole stack exactly when every layer passes it on. */
  lemma {:induction false} DispatchFallsThrough(stack: seq<Layer>, cfg: Config.ConfigValue, path: string, w: World)
    ensures Dispatch(stack, cfg, path, w).Next? <==>
              forall j :: 0 <= j < |stack| ==> Handle(stack[j], cfg, path, w).Next?
    decreases |stack|
  {
    if |stack| > 0 {
      DispatchFallsThrough(stack[1..], cfg, path, w);
      assert forall j :: 0 < j < |stack| ==> stack[j] == stack[1..][j - 1];
    }
  }

  // ---------------------------------------------------------------------------
  // The stack splice of serveStatic
  // ---------------------------------------------------------------------------

  function Min(a: int, b: int): int
  {
    if a < b then a else b
  }

  /** `layer = stack.pop(); stack = [...stack.slice(0, 2), layer, ...stack.slice(2)]`. */
  function SpliceLast<T>(s: seq<T>): (r: seq<T>)
    requires |s| > 0
    ensures |r| == |s| && multiset(r) == multiset(s)
    ensures var k := Min(2, |s| - 1);
            && (forall i :: 0 <= i < k ==> r[i] == s[i])
            && r[k] == s[|s| - 1]
            && (forall i :: k < i < |s| ==> r[i] == s[i - 1])
  {
    var rest := s[..|s| - 1];
    var k := Min(2, |rest|);
    assert s == rest + [s[|s| - 1]];
    assert rest == rest[..k] + rest[k..];
    rest[..k] + [s[|s| - 1]] + rest[k..]
  }

  /** The page layers of a route table, in table order. */
  function PageLayers(routes: seq<Route>): (ls: seq<Layer>)
    ensures |ls| == |routes|
    ensures forall i :: 0 <= i < |routes| ==> ls[i] == PageRoute(routes[i].path)
    decreases |routes|
  {
    if |routes| == 0 then []
    else PageLayers(routes[..|routes| - 1]) + [PageRoute(routes[|routes| - 1].path)]
  }

  // ---------------------------------------------------------------------------
  // The bundler input map
  // ---------------------------------------------------------------------------

  /** The map built by assigning `routes[name] = file` for each route in order. */
  function ViteInputs(routes: seq<Route>): (m: map<string, string>)
    ensures forall i :: 0 <= i < |routes| ==> routes[i].name in m
    ensures |routes| > 0 ==> m[routes[|routes| - 1].name] == routes[|routes| - 1].file
    decreases |routes|
  {
    if |routes| == 0 then map[]
    else
      var init, last := routes[..|routes| - 1], routes[|routes| - 1];
      assert forall i :: 0 <= i < |init| ==> init[i] == routes[i];
      ViteInputs(init)[last.name := last.file]
  }

  /** Route i is the last one carrying its name. */
  ghost predicate LastNamed(routes: seq<Route>, i: int)
    requires 0 <= i < |routes|
  {
    forall j :: i < j < |routes| ==> routes[j].name != routes[i].name
  }

  /** One key per route name. */
  lemma {:induction false} ViteInputsKeys(routes: seq<Route>)
    ensures forall n :: n in ViteInputs(routes) <==> exists i :: 0 <= i < |routes| && routes[i].name == n
    decreases |routes|
  {
    if |routes| > 0 {
      var init := routes[..|routes| - 1];
      ViteInputsKeys(init);
      assert forall i :: 0 <= i < |init| ==> init[i] == routes[i];
      forall n | n in ViteInputs(routes) ensures exists i :: 0 <= i < |routes| && routes[i].name == n {
        if n != routes[|routes| - 1].name {
          assert n in ViteInputs(init);
          var i :| 0 <= i < |init| && init[i].name == n;
          assert routes[i].name == n;
        }
      }
    }
  }

  /** Each name maps to the file of its last route. */
  lemma {:induction false} ViteInputsLast(routes: seq<Route>, i: int)
    requires 0 <= i < |routes| && LastNamed(routes, i)
    ensures routes[i].name in ViteInputs(routes) && ViteInputs(routes)[routes[i].name] == routes[i].file
    decreases |routes|
  {
    if i < |routes| - 1 {
      var init := routes[..|routes| - 1];
      assert init[i] == routes[i];
      assert LastNamed(init, i) by {
        forall j | i < j < |init| ensures init[j].name != init[i].name {
          assert init[j] == routes[j];
        }
      }
      assert routes[|routes| - 1].name != routes[i].name;
      ViteInputsLast(init, i);
    }
  }

  /** The Express application; only its handler stack is modelled. */
  class App {
    var stack: seq<Layer>

    /** An application whose stack already holds the host's layers (Express puts
        its query parser and init middleware first). */
    constructor(hostLayers: seq<Layer>)
      ensures stack == hostLayers
    {
      stack := hostLayers;
    }

    /** `app.use(h)` / `app.get(path, h)`: the new layer goes last. */
    method Use(layer: Layer)
      modifies this
      ensures stack == old(stack) + [layer]
    {
      stack := stack + [layer];
    }

    /** The splice in serveStatic: pop the newest layer and put it back at index 2. */
    method MoveLastLayer()
      requires |stack| > 0
      modifies this
      ensures stack == SpliceLast(old(stack))
    {
      var layer := stack[|stack| - 1];
      stack := stack[..|stack| - 1];
      var k := Min(2, |stack|);
      stack := stack[..k] + [layer] + stack[k..];
    }
  }

  // ---------------------------------------------------------------------------
  // The configuration singleton of main.ts and the server setup
  // ---------------------------------------------------------------------------

  /** The module-level `config` object of src/main.ts, with the functions that
      read and change it. */
  class Store {
    var mode: Config.Mode
    var vitePort: int
    var clearScreen: bool
    var routes: seq<Route>

    /** `getConfig`: the live record. */
    function GetConfig(): (c: Config.ConfigValue)
      reads this
      ensures c.mode == mode && c.vitePort == vitePort
      ensures c.clearScreen == clearScreen && c.routes == routes
    {
      Config.ConfigValue(mode, vitePort, clearScreen, routes)
    }

    constructor(nodeEnv: Config.Option<string>)
      ensures GetConfig() == Config.InitialConfig(nodeEnv)
    {
      var c := Config.InitialConfig(nodeEnv);
      mode, vitePort, clearScreen, routes := c.mode, c.vitePort, c.clearScreen, c.routes;
    }

    /** This copy of `configRoutes` only appends, in the given order. */
    method ConfigRoutes(rs: seq<Route>)
      modifies this
      ensures routes == old(routes) + rs
      ensures mode == old(mode) && vitePort == old(vitePort) && clearScreen == old(clearScreen)
    {
      var i := 0;
      while i < |rs|
        invariant 0 <= i <= |rs|
        invariant routes == old(routes) + rs[..i]
        invariant mode == old(mode) && vitePort == old(vitePort) && clearScreen == old(clearScreen)
      {
        routes := routes + [rs[i]];
        assert rs[..i + 1] == rs[..i] + [rs[i]];
        i := i + 1;
      }
      assert rs[..i] == rs;
    }

    /** `setConfig`: overwrite the supplied fields. */
    method SetConfig(c: Config.ConfigPatch)
      modifies this
      ensures GetConfig() == Config.Merge(old(GetConfig()), c)
    {
      var m := Config.Merge(GetConfig(), c);
      mode, vitePort, clearScreen, routes := m.mode, m.vitePort, m.clearScreen, m.routes;
    }

    /** `getViteRoutes`: the bundler's input map, one key per route name; a name
        registered twice keeps the file of its last route. */
    method GetViteRoutes() returns (m: map<string, string>)
      ensures m == ViteInputs(routes)
      ensures forall n :: n in m <==> exists i :: 0 <= i < |routes| && routes[i].name == n
      ensures forall i :: 0 <= i < |routes| && LastNamed(routes, i) ==>
                routes[i].name in m && m[routes[i].name] == routes[i].file
    {
      m := map[];
      var i := 0;
      while i < |routes|
        invariant 0 <= i <= |routes|
        invariant m == ViteInputs(routes[..i])
      {
        m := m[routes[i].name := routes[i].file];
        assert routes[..i + 1][..i] == routes[..i];
        i := i + 1;
      }
      assert routes[..i] == routes;
      ViteInputsKeys(routes);
      forall i | 0 <= i < |routes| && LastNamed(routes, i)
        ensures routes[i].name in m && m[routes[i].name] == routes[i].file
      {
        ViteInputsLast(routes, i);
      }
    }

    /** `serveStatic`: in production the static file server goes last; in
        development the asset middleware is added and moved to index 2. */
    method ServeStatic(app: App, distPath: string)
      modifies app
      ensures mode == Config.Production ==> app.stack == old(app.stack) + [StaticDir(distPath)]
      ensures mode == Config.Development ==> app.stack == SpliceLast(old(app.stack) + [AssetProxy])
    {
      if mode == Config.Production {
        app.Use(StaticDir(distPath));
        return;
      }
      app.Use(AssetProxy);
      app.MoveLastLayer();
    }

    /** `serverHTML`: in production one catch-all serving the root index.html; in
        development one page handler per route, in table order. */
    method ServerHTML(app: App, distPath: string)
      modifies app
      ensures mode == Config.Production ==> app.stack == old(app.stack) + [CatchAll(distPath)]
      ensures mode == Config.Development ==> app.stack == old(app.stack) + PageLayers(routes)
    {
      if mode == Config.Production {
        app.Use(CatchAll(distPath));
        return;
      }
      var i := 0;
      while i < |routes|
        invariant 0 <= i <= |routes|
        invariant app.stack == old(app.stack) + PageLayers(routes[..i])
      {
        app.Use(PageRoute(routes[i].path));
        assert routes[..i + 1][..i] == routes[..i];
        i := i + 1;
      }
      assert routes[..i] == routes;
    }

    /** The part of `listen` that installs handlers, in its order. */
    method Listen(app: App, distPath: string)
      modifies app
      ensures mode == Config.Production ==>
                app.stack == old(app.stack) + [StaticDir(distPath), CatchAll(distPath)]
      ensures mode == Config.Development ==>
                app.stack == DevStack(old(app.stack), routes)
    {
      ServeStatic(app, distPath);
      ServerHTML(app, distPath);
    }
  }

  /** The stack a development `listen` leaves behind: the first min(2, n) host
      layers keep their place, the asset middleware follows, the other host
      layers keep their order, and the page handlers come last in route-table
      order. */
  function DevStack(host: seq<Layer>, routes: seq<Route>): (st: seq<Layer>)
    ensures var k := Min(2, |host|);
            && |st| == |host| + 1 + |routes|
            && (forall i :: 0 <= i < k ==> st[i] == host[i])
            && st[k] == AssetProxy
            && (forall i :: k < i <= |host| ==> st[i] == host[i - 1])
            && (forall i :: 0 <= i < |routes| ==> st[|host| + 1 + i] == PageRoute(routes[i].path))
  {
    var s := host + [AssetProxy];
    assert forall i :: 0 <= i < |host| ==> s[i] == host[i];
    SpliceLast(s) + PageLayers(routes)
  }

  /** Precedence in development: once the host layers in front of it pass a
      request on, a static path the dev origin serves is redirected there, whatever
      routes are registered. */
  lemma DevAssetRedirectWins(host: seq<Layer>, routes: seq<Route>, cfg: Config.ConfigValue, path: string, w: World)
    requires forall j :: 0 <= j < Min(2, |host|) ==> Handle(host[j], cfg, path, w).Next?
    requires IsStaticFilePath(path)
    requires w.fetch(ProxyUrl(cfg, path)).Resp? && w.fetch(ProxyUrl(cfg, path)).ok
    ensures Dispatch(DevStack(host, routes), cfg, path, w) == Redirect(w.fetch(ProxyUrl(cfg, path)).url)
  {
    var st := DevStack(host, routes);
    var k := Min(2, |host|);
    FirstAnswerWins(st, k, cfg, path, w);
  }

  /** In production every request that the host layers and the static file server
      pass on is answered with the root index.html, whatever its path. */
  lemma ProductionServesIndex(host: seq<Layer>, distPath: string, cfg: Config.ConfigValue, path: string, w: World)
    requires forall j :: 0 <= j < |host| ==> Handle(host[j], cfg, path, w).Next?
    requires w.staticFile(distPath, path).Next?
    ensures Dispatch(host + [StaticDir(distPath), CatchAll(distPath)], cfg, path, w)
            == SendFile(AddTrailingSlash(distPath) + "index.html")
  {
    var st := host + [StaticDir(distPath), CatchAll(distPath)];
    assert forall j :: 0 <= j < |host| ==> st[j] == host[j];
    FirstAnswerWins(st, |host| + 1, cfg, path, w);
  }
}
