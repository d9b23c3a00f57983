/** The runtime configuration of src/config.ts: a process-wide record with fixed
    defaults, a route table that is re-sorted by path on every registration, an
    `Object.assign`-style partial overwrite and the dev-origin host string. */
module Config {
  import opened Strings
  import opened Router

  datatype Option<T> = None | Some(value: T)

  datatype Mode = Production | Development

  /** The value of the configuration record at one moment. */
  datatype ConfigValue = ConfigValue(mode: Mode, vitePort: int, clearScreen: bool, routes: seq<Route>)

  /** A `Partial<Config>`: each field either supplied or absent. */
  datatype ConfigPatch = ConfigPatch(
    mode: Option<Mode>,
    vitePort: Option<int>,
    clearScreen: Option<bool>,
    routes: Option<seq<Route>>)

  const DefaultVitePort: int := 3001
  const HostPrefix: string := "http://localhost:"

  /** The record the module starts with; `nodeEnv` is the NODE_ENV variable, None
      when it is unset. */
  function InitialConfig(nodeEnv: Option<string>): (c: ConfigValue)
    ensures c.vitePort == 3001 && !c.clearScreen && c.routes == []
    ensures c.mode == Production <==> nodeEnv == Some("production")
    ensures c.mode == Development <==> nodeEnv != Some("production")
  {
    ConfigValue(
      if nodeEnv == Some("production") then Production else Development,
      DefaultVitePort, false, [])
  }

  // ---------------------------------------------------------------------------
  // setConfig: Object.assign(config, c)
  // ---------------------------------------------------------------------------

  /** The record after `Object.assign` of the patch: every supplied field is
      overwritten, every absent one kept; a supplied route table replaces the old
      one wholesale. */
  function Merge(c: ConfigValue, patch: ConfigPatch): (r: ConfigValue)
    ensures patch.mode.Some? ==> r.mode == patch.mode.value
    ensures patch.mode.None? ==> r.mode == c.mode
    ensures patch.vitePort.Some? ==> r.vitePort == patch.vitePort.value
    ensures patch.vitePort.None? ==> r.vitePort == c.vitePort
    ensures patch.clearScreen.Some? ==> r.clearScreen == patch.clearScreen.value
    ensures patch.clearScreen.None? ==> r.clearScreen == c.clearScreen
    ensures patch.routes.Some? ==> r.routes == patch.routes.value
    ensures patch.routes.None? ==> r.routes == c.routes
  {
    ConfigValue(
      if patch.mode.Some? then patch.mode.value else c.mode,
      if patch.vitePort.Some? then patch.vitePort.value else c.vitePort,
      if patch.clearScreen.Some? then patch.clearScreen.value else c.clearScreen,
      if patch.routes.Some? then patch.routes.value else c.routes)
  }

  const EmptyPatch: ConfigPatch := ConfigPatch(None, None, None, None)

  /** The patch that applies p and then q: q's supplied fields win. */
  function Then(p: ConfigPatch, q: ConfigPatch): ConfigPatch
  {
    ConfigPatch(
      if q.mode.Some? then q.mode else p.mode,
      if q.vitePort.Some? then q.vitePort else p.vitePort,
      if q.clearScreen.Some? then q.clearScreen else p.clearScreen,
      if q.routes.Some? then q.routes else p.routes)
  }

  lemma MergeEmpty(c: ConfigValue)
    ensures Merge(c, EmptyPatch) == c
  {
  }

  lemma MergeIdempotent(c: ConfigValue, p: ConfigPatch)
    ensures Merge(Merge(c, p), p) == Merge(c, p)
  {
  }

  /** Two successive setConfig calls act as one with the combined patch. */
  lemma MergeSequence(c: ConfigValue, p: ConfigPatch, q: ConfigPatch)
    ensures Merge(Merge(c, p), q) == Merge(c, Then(p, q))
  {
  }

  // ---------------------------------------------------------------------------
  // getViteHost
  // ---------------------------------------------------------------------------

  /** `getViteHost`: "http://localhost:" followed by the decimal form of the port. */
  function GetViteHost(cfg: ConfigValue): (r: string)
    ensures |r| > |HostPrefix| && r[..|HostPrefix|] == HostPrefix
    ensures cfg.vitePort >= 0 ==>
              var digits := r[|HostPrefix|..];
              Canonical(digits) && DecimalValue(digits) == cfg.vitePort
    ensures cfg.vitePort < 0 ==>
              var digits := r[|HostPrefix| + 1..];
              r[|HostPrefix|] == '-' && Canonical(digits) && DecimalValue(digits) == -cfg.vitePort
  {
    var port := IntToDecimal(cfg.vitePort);
    assert (HostPrefix + port)[|HostPrefix|..] == port;
    HostPrefix + port
  }

  /** The host part of a GetViteHost string determines the port. */
  lemma GetViteHostInjective(c1: ConfigValue, c2: ConfigValue)
    requires GetViteHost(c1) == GetViteHost(c2)
    ensures c1.vitePort == c2.vitePort
  {
  }

  lemma DefaultViteHost(nodeEnv: Option<string>)
    ensures GetViteHost(InitialConfig(nodeEnv)) == "http://localhost:3001"
  {
    var h := GetViteHost(InitialConfig(nodeEnv));
    var expected := "3001";
    assert Canonical(expected);
    assert DecimalValue(expected) == 3001 by {
      assert DecimalValue("3") == 3 by { assert "3"[..0] == ""; }
      assert DecimalValue("30") == 30 by { assert "30"[..1] == "3"; }
      assert DecimalValue("300") == 300 by { assert "300"[..2] == "30"; }
      assert expected[..3] == "300";
    }
    DecimalUnique(expected);
    DecimalUnique(h[|HostPrefix|..]);
    assert h == h[..|HostPrefix|] + h[|HostPrefix|..];
  }

  // ---------------------------------------------------------------------------
  // The route table order: descending by path, as `a.path > b.path ? -1 : 1`
  // ---------------------------------------------------------------------------

  /** Every route's path is at least that of every later route. */
  ghost predicate SortedDesc(s: seq<Route>)
  {
    forall i, j :: 0 <= i < j < |s| ==> StrAtLeast(s[i].path, s[j].path)
  }

  ghost predicate DistinctPaths(s: seq<Route>)
  {
    forall i, j :: 0 <= i < j < |s| ==> s[i].path != s[j].path
  }

  /** No route in s has a path greater than p. */
  ghost predicate UpperBound(p: string, s: seq<Route>)
  {
    forall x :: x in s ==> StrAtLeast(p, x.path)
  }

  lemma SortedCons(x: Route, s: seq<Route>)
    ensures SortedDesc([x] + s) <==> SortedDesc(s) && UpperBound(x.path, s)
  {
    var t := [x] + s;
    if SortedDesc(s) && UpperBound(x.path, s) {
      forall i, j | 0 <= i < j < |t| ensures StrAtLeast(t[i].path, t[j].path) {
        if i == 0 { assert t[j] in s; } else { assert t[i] == s[i - 1] && t[j] == s[j - 1]; }
      }
    }
    if SortedDesc(t) {
      forall y | y in s ensures StrAtLeast(x.path, y.path) {
        var j :| 0 <= j < |s| && s[j] == y;
        assert t[0] == x && t[j + 1] == y;
      }
      forall i, j | 0 <= i < j < |s| ensures StrAtLeast(s[i].path, s[j].path) {
        assert t[i + 1] == s[i] && t[j + 1] == s[j];
      }
    }
  }

  lemma UpperBoundSameElements(p: string, a: seq<Route>, b: seq<Route>)
    requires UpperBound(p, a) && multiset(a) == multiset(b)
    ensures UpperBound(p, b)
  {
    forall x | x in b ensures StrAtLeast(p, x.path) {
      assert x in multiset(b);
    }
  }

  lemma UpperBoundWeaken(p: string, q: string, s: seq<Route>)
    requires StrAtLeast(p, q) && UpperBound(q, s)
    ensures UpperBound(p, s)
  {
    forall x | x in s ensures StrAtLeast(p, x.path) {
      StrAtLeastTransitive(p, q, x.path);
    }
  }

  /** Inserts r before the first route whose path is not greater than r's. */
  function InsertDesc(r: Route, s: seq<Route>): (t: seq<Route>)
    requires SortedDesc(s)
    ensures SortedDesc(t)
    ensures multiset(t) == multiset(s) + multiset{r}
    decreases |s|
  {
    if |s| == 0 then [r]
    else
      assert s == [s[0]] + s[1..];
      SortedCons(s[0], s[1..]);
      if StrAtLeast(r.path, s[0].path) then
        UpperBoundWeaken(r.path, s[0].path, s[1..]);
        assert UpperBound(r.path, s);
        SortedCons(r, s);
        [r] + s
      else
        var rest := InsertDesc(r, s[1..]);
        StrLessAsymmetric(r.path, s[0].path);
        assert UpperBound(s[0].path, s[1..] + [r]);
        UpperBoundSameElements(s[0].path, s[1..] + [r], rest);
        SortedCons(s[0], rest);
        [s[0]] + rest
  }

  /** A sorted permutation of the table `Array.prototype.sort` would produce with
      the descending comparator. */
  function SortDesc(s: seq<Route>): (t: seq<Route>)
    ensures SortedDesc(t)
    ensures multiset(t) == multiset(s)
    decreases |s|
  {
    if |s| == 0 then []
    else
      assert s == [s[0]] + s[1..];
      InsertDesc(s[0], SortDesc(s[1..]))
  }

  lemma StrAtLeastAntisymmetric(a: string, b: string)
    requires StrAtLeast(a, b) && StrAtLeast(b, a)
    ensures a == b
  {
    if a != b { StrLessTotal(a, b); }
  }

  /** The first route of a sorted table with distinct paths is its only route
      with a maximal path. */
  lemma SortedHeadsAgree(a: seq<Route>, b: seq<Route>)
    requires |a| > 0 && SortedDesc(a) && SortedDesc(b) && DistinctPaths(a)
    requires multiset(a) == multiset(b)
    ensures |b| > 0 && a[0] == b[0]
  {
    assert a[0] in multiset(b);
    assert |b| > 0;
    assert b[0] in multiset(a);
    var i :| 0 <= i < |a| && a[i] == b[0];
    var j :| 0 <= j < |b| && b[j] == a[0];
    StrLessIrreflexive(a[0].path);
    StrLessIrreflexive(b[0].path);
    assert StrAtLeast(a[0].path, a[i].path);
    assert StrAtLeast(b[0].path, b[j].path);
    StrAtLeastAntisymmetric(a[0].path, b[0].path);
    assert i == 0;
  }

  lemma TailsSameElements(a: seq<Route>, b: seq<Route>)
    requires |a| > 0 && |b| > 0 && a[0] == b[0] && multiset(a) == multiset(b)
    ensures multiset(a[1..]) == multiset(b[1..])
  {
    assert a == [a[0]] + a[1..] && b == [b[0]] + b[1..];
    assert multiset(a[1..]) == multiset(a) - multiset{a[0]};
    assert multiset(b[1..]) == multiset(b) - multiset{b[0]};
  }

  lemma DistinctTail(a: seq<Route>)
    requires |a| > 0 && DistinctPaths(a)
    ensures DistinctPaths(a[1..])
  {
    forall i, j | 0 <= i < j < |a[1..]| ensures a[1..][i].path != a[1..][j].path {
      assert a[1..][i] == a[i + 1] && a[1..][j] == a[j + 1];
    }
  }

  /** With distinct paths there is only one sorted order, so re-sorting a sorted
      table (or sorting by any other algorithm) gives the same table. */
  lemma {:induction false} SortedDistinctUnique(a: seq<Route>, b: seq<Route>)
    requires SortedDesc(a) && SortedDesc(b) && DistinctPaths(a)
    requires multiset(a) == multiset(b)
    ensures a == b
    decreases |a|
  {
    if |a| == 0 {
      assert |b| == |multiset(b)| == 0;
    } else {
      SortedHeadsAgree(a, b);
      assert a == [a[0]] + a[1..] && b == [b[0]] + b[1..];
      SortedCons(a[0], a[1..]);
      SortedCons(b[0], b[1..]);
      TailsSameElements(a, b);
      DistinctTail(a);
      SortedDistinctUnique(a[1..], b[1..]);
    }
  }

  /** ["/a", "/a/b"] sorts to ["/a/b", "/a"]: the more specific route first. */
  lemma SortExample(r1: Route, r2: Route, t: seq<Route>)
    requires r1.path == "/a" && r2.path == "/a/b"
    requires SortedDesc(t) && multiset(t) == multiset([r1, r2])
    ensures t == [r2, r1]
  {
    assert StrLess("/a", "/a/b");
    assert !StrLess("/a/b", "/a");
    SortedDistinctUnique([r2, r1], t);
  }

  // ---------------------------------------------------------------------------
  // The singleton
  // ---------------------------------------------------------------------------

  /** The module-level `config` object of src/config.ts. */
  class Store {
    var mode: Mode
    var vitePort: int
    var clearScreen: bool
    var routes: seq<Route>

    /** `getConfig`: the live record. */
    function GetConfig(): (c: ConfigValue)
      reads this
      ensures c.mode == mode && c.vitePort == vitePort
      ensures c.clearScreen == clearScreen && c.routes == routes
    {
      ConfigValue(mode, vitePort, clearScreen, routes)
    }

    /** The record as the module initialises it. */
    constructor(nodeEnv: Option<string>)
      ensures GetConfig() == InitialConfig(nodeEnv)
    {
      var c := InitialConfig(nodeEnv);
      mode, vitePort, clearScreen, routes := c.mode, c.vitePort, c.clearScreen, c.routes;
    }

    /** `configRoutes`: push every new route, then sort the whole table descending
        by path. Nothing is dropped or replaced; the order among equal paths is
        left open. */
    method ConfigRoutes(rs: seq<Route>)
      modifies this
      ensures |routes| == |old(routes)| + |rs|
      ensures multiset(routes) == multiset(old(routes) + rs)
      ensures SortedDesc(routes)
      ensures rs == [] && SortedDesc(old(routes)) && DistinctPaths(old(routes))
              ==> routes == old(routes)
      ensures mode == old(mode) && vitePort == old(vitePort) && clearScreen == old(clearScreen)
    {
      var i := 0;
      while i < |rs|
        invariant 0 <= i <= |rs|
        invariant routes == old(routes) + rs[..i]
        invariant mode == old(mode) && vitePort == old(vitePort) && clearScreen == old(clearScreen)
      {
        routes := routes + [rs[i]];
        assert rs[..i + 1] == rs[..i] + [rs[i]];
        i := i + 1;
      }
      assert rs[..i] == rs;
      ghost var pushed := routes;
      routes := SortDesc(routes);
      assert |routes| == |multiset(routes)| == |multiset(pushed)| == |pushed|;
      if rs == [] && SortedDesc(old(routes)) && DistinctPaths(old(routes)) {
        SortedDistinctUnique(old(routes), routes);
      }
    }

    /** `setConfig`: overwrite the supplied fields. */
    method SetConfig(c: ConfigPatch)
      modifies this
      ensures GetConfig() == Merge(old(GetConfig()), c)
    {
      var m := Merge(GetConfig(), c);
      mode, vitePort, clearScreen, routes := m.mode, m.vitePort, m.clearScreen, m.routes;
    }
  }
}
