/** The path classifier of src/router.ts: trailing-slash normalisation, exact
    route matching and the static-asset test. All of it is pure string logic. */
module Router {

  /** One registered page: the URL path it is served at, its entry file and its
      logical name. */
  datatype Route = Route(path: string, file: string, name: string)

  predicate EndsWithSlash(p: string)
  {
    |p| > 0 && p[|p| - 1] == '/'
  }

  // ---------------------------------------------------------------------------
  // Trailing slashes
  // ---------------------------------------------------------------------------

  /** `addTralingSlash`: the result ends with "/", extends p, and is one character
      longer exactly when p did not end with "/". */
  function AddTrailingSlash(p: string): (r: string)
    ensures EndsWithSlash(r)
    ensures |p| <= |r| <= |p| + 1 && r[..|p|] == p
    ensures |r| == |p| <==> EndsWithSlash(p)
  {
    if EndsWithSlash(p) then p else p + "/"
  }

  /** `removeTralingSlash`: drops exactly one final "/" when there is one and leaves
      every other string alone. */
  function RemoveTrailingSlash(p: string): (r: string)
    ensures EndsWithSlash(p) ==> p == r + "/"
    ensures !EndsWithSlash(p) ==> r == p
  {
    if EndsWithSlash(p) then p[..|p| - 1] else p
  }

  lemma AddTrailingSlashIdempotent(p: string)
    ensures AddTrailingSlash(AddTrailingSlash(p)) == AddTrailingSlash(p)
  {
  }

  /** Only one slash goes: "/" becomes "" and "x//" becomes "x/". */
  lemma RemoveTrailingSlashExamples()
    ensures RemoveTrailingSlash("/") == ""
    ensures RemoveTrailingSlash("x//") == "x/"
    ensures RemoveTrailingSlash("/admin") == "/admin"
  {
  }

  /** Adding a slash first does not change what removing one yields. */
  lemma RemoveAfterAdd(p: string)
    ensures RemoveTrailingSlash(AddTrailingSlash(p)) == RemoveTrailingSlash(p)
  {
    if !EndsWithSlash(p) {
      assert (p + "/")[..|p|] == p;
    }
  }

  /** Removing then adding a slash restores `AddTrailingSlash(p)` unless p ends
      in two slashes, where one of them is lost. */
  lemma AddAfterRemove(p: string)
    ensures AddTrailingSlash(RemoveTrailingSlash(p)) == AddTrailingSlash(p)
            <==> !(|p| >= 2 && p[|p| - 2..] == "//")
  {
    if |p| >= 2 && p[|p| - 2..] == "//" {
      assert p[|p| - 1] == '/' && p[..|p| - 1][|p| - 2] == '/';
    } else if EndsWithSlash(p) {
      var q := p[..|p| - 1];
      assert !EndsWithSlash(q);
      assert q + "/" == p;
    }
  }

  // ---------------------------------------------------------------------------
  // Exact route matching
  // ---------------------------------------------------------------------------

  /** `isExactUIPressRoute`: the requested path equals the route path with its
      trailing slash removed, or that with a slash added back. */
  predicate IsExactUIPressRoute(requestedPath: string, routerPath: string)
    ensures IsExactUIPressRoute(requestedPath, routerPath) ==>
              requestedPath == routerPath || requestedPath + "/" == routerPath || requestedPath == routerPath + "/"
  {
    var bare := RemoveTrailingSlash(routerPath);
    requestedPath == bare || requestedPath == AddTrailingSlash(bare)
  }

  /** A route path without a trailing slash matches itself and itself plus "/". */
  lemma MatchPlainRoute(requestedPath: string, routerPath: string)
    requires !EndsWithSlash(routerPath)
    ensures IsExactUIPressRoute(requestedPath, routerPath)
            <==> requestedPath == routerPath || requestedPath == routerPath + "/"
  {
  }

  /** A route path ending in one slash matches itself and itself minus the slash. */
  lemma MatchSlashRoute(requestedPath: string, bare: string)
    requires !EndsWithSlash(bare)
    ensures IsExactUIPressRoute(requestedPath, bare + "/")
            <==> requestedPath == bare || requestedPath == bare + "/"
  {
    assert (bare + "/")[..|bare|] == bare;
  }

  /** A route path ending in two slashes does not match itself: only the path with
      one slash fewer matches. */
  lemma MatchDoubleSlashRoute(requestedPath: string, routerPath: string)
    requires |routerPath| >= 2 && routerPath[|routerPath| - 2..] == "//"
    ensures IsExactUIPressRoute(requestedPath, routerPath)
            <==> requestedPath + "/" == routerPath
    ensures !IsExactUIPressRoute(routerPath, routerPath)
  {
    var bare := RemoveTrailingSlash(routerPath);
    assert bare[|bare| - 1] == routerPath[|routerPath| - 2];
    if requestedPath + "/" == routerPath {
      assert requestedPath == (requestedPath + "/")[..|requestedPath|];
    }
  }

  /** Matching ignores one trailing slash on the registered route. */
  lemma MatchIgnoresRouteSlash(requestedPath: string, routerPath: string)
    ensures IsExactUIPressRoute(requestedPath, routerPath)
            == IsExactUIPressRoute(requestedPath, AddTrailingSlash(routerPath))
  {
    RemoveAfterAdd(routerPath);
  }

  lemma MatchExamples()
    ensures IsExactUIPressRoute("/admin", "/admin/")
    ensures IsExactUIPressRoute("/admin/", "/admin")
    ensures !IsExactUIPressRoute("/admin/users", "/admin")
  {
    assert "/admin/"[..6] == "/admin";
    assert "/admin/users" != "/admin/" by { assert |"/admin/users"| != |"/admin/"|; }
  }

  // ---------------------------------------------------------------------------
  // Static-asset paths: the regular expression /\.\w+$/
  // ---------------------------------------------------------------------------

  /** `\w` without the unicode flag: ASCII letters, digits and underscore. */
  predicate IsWordChar(c: char)
  {
    ('a' <= c <= 'z') || ('A' <= c <= 'Z') || ('0' <= c <= '9') || c == '_'
  }

  /** Length of the longest run of word characters that ends the string. */
  function TrailingWordCount(p: string): (k: nat)
    ensures k <= |p|
    ensures forall j :: |p| - k <= j < |p| ==> IsWordChar(p[j])
    ensures k < |p| ==> !IsWordChar(p[|p| - 1 - k])
    decreases |p|
  {
    if |p| == 0 || !IsWordChar(p[|p| - 1]) then 0
    else 1 + TrailingWordCount(p[..|p| - 1])
  }

  /** `isStaticFilePath`: the run of word characters at the end is non-empty and
      directly preceded by a dot. */
  predicate IsStaticFilePath(p: string)
    ensures IsStaticFilePath(p) ==> |p| >= 2 && IsWordChar(p[|p| - 1]) && '.' in p
  {
    var k := TrailingWordCount(p);
    1 <= k < |p| && p[|p| - 1 - k] == '.'
  }

  /** The regular expression matches with its dot at index i. */
  ghost predicate ExtensionAt(p: string, i: int)
  {
    0 <= i < |p| - 1 && p[i] == '.' && forall j :: i < j < |p| ==> IsWordChar(p[j])
  }

  /** IsStaticFilePath is exactly "the regular expression /\.\w+$/ matches p". */
  lemma StaticFilePathMeaning(p: string)
    ensures IsStaticFilePath(p) <==> exists i :: ExtensionAt(p, i)
  {
    var k := TrailingWordCount(p);
    if IsStaticFilePath(p) {
      assert ExtensionAt(p, |p| - 1 - k);
    }
    if i :| ExtensionAt(p, i) {
      // every character after the dot is a word character, the dot is not
      if k < |p| - 1 - i {
        assert IsWordChar(p[|p| - 1 - k]);
      }
      if k > |p| - 1 - i {
        assert IsWordChar(p[i]);
      }
    }
  }

  /** Nothing that is empty or ends in a non-word character, such as "/", is a
      static path. */
  lemma NotStaticWithoutWordEnd(p: string)
    requires |p| == 0 || !IsWordChar(p[|p| - 1])
    ensures !IsStaticFilePath(p)
  {
  }

  lemma StaticFilePathExamples()
    ensures IsStaticFilePath("/app/logo.svg")
    ensures !IsStaticFilePath("/app/dashboard/")
    ensures !IsStaticFilePath("/app/v1.")
  {
    StaticFilePathMeaning("/app/logo.svg");
    assert ExtensionAt("/app/logo.svg", 9);
  }
}
