# uipress request dispatch, modelled in Dafny

uipress puts an Express server in front of a Vite front end. On every request
it decides whether to proxy to the Vite dev origin, serve a built file, or pass
the request on to the next handler. The model covers the three files that make
those decisions:

- `src/router.ts` is the path classifier. It normalises trailing slashes,
  compares a request path with a route path exactly, and tests for a file
  extension.
- `src/config.ts` holds the process-wide configuration record. It has fixed
  defaults, a route table that `configRoutes` appends to and then sorts
  descending by path, an `Object.assign` overwrite (`setConfig`) and the
  dev-origin host string (`getViteHost`).
- `src/main.ts` holds its own copy of the configuration record. It also holds
  the dispatch assembler (`serveStatic`, `serverHTML`, `listen`), the two
  per-request handlers of development mode, the HTML rewrite of the reload
  client references, and the bundler input map (`getViteRoutes`).

The Dafny modules follow those files:

- `Strings` (`strings.dfy`) holds the two pieces of JavaScript semantics the
  core depends on:
  - the order that `>` uses on strings;
  - the decimal form that `${port}` produces.
- `Router` (`router.dfy`) mirrors `src/router.ts`. It is pure functions and
  their lemmas.
- `Config` (`config.ts` → `config.dfy`) models the configuration record.
  - The record's value is the datatype `ConfigValue`.
  - A `Partial<Config>` is `ConfigPatch`, whose fields are `Option`s.
  - The mutable singleton is the class `Config.Store`. Its methods change its
    fields.
- `Server` (`server.dfy`) mirrors `src/main.ts`.
  - `Server.Store` is main.ts's own singleton.
  - `Server.App` is the Express application, reduced to its handler stack
    (`app._router.stack`). The stack is a `seq<Layer>` that `app.use` and the
    stack splice reassign.
  - The request handlers are pure decision functions over an abstract `fetch`.
  - `Dispatch` runs a stack the way Express does: each layer in turn, until one
    answers instead of calling `next()`.

What is proved, in brief:
- The string order is the ECMAScript order, and it is a strict total order.
- Printing the port is injective, and the default host is
  `http://localhost:3001`.
- `configRoutes` keeps every route and leaves the table sorted. With distinct
  paths, only one sorted order exists.
- The HTML rewrite adds exactly one host per marker. It leaves a body alone
  exactly when the body holds no marker.
- The two development handlers never both answer the same request.
- After `listen`, the stack has the claimed layout. In development, the asset
  redirect takes precedence over every page route. In production, every request
  that reaches the catch-all gets the root `index.html`.

`src/main.ts` repeats `getViteHost` at lines 42-44 and `isStaticFilePath` at
lines 55-61, with text identical to the `src/config.ts` and `src/router.ts`
versions. The model uses the single definitions `Config.GetViteHost` and
`Router.IsStaticFilePath` for both.

Some behaviour of the code is easy to misread; the model follows the code:
- **Matching in development.** Each route is installed with `app.get(route.path)`
  (main.ts 124-125). The page handler redirects a path without a trailing slash
  to the same path with one (main.ts 129-131). No wildcard route is installed.
- **Production.** One catch-all `app.use("*")` sends the root
  `distPath/index.html` (main.ts 118-120), not an `index.html` per route.
- **Duplicate names.** Neither copy of `configRoutes` rejects a duplicate route
  name. In `getViteRoutes`, the last route with a name wins (`Server.Store.GetViteRoutes`).
- **Failed fetches.** The page handler sends the proxied body with the rewrite
  even when the dev origin answers with a non-success status. Only a thrown
  fetch falls through (`Server.PageDecisionFallsThrough`).
- **Sorting.** The main.ts copy of `configRoutes` appends without sorting
  (main.ts 36-40). Only the config.ts copy sorts.

## Model

| member | source | states |
|---|---|---|
| `Strings.StrLessMeaning` | src/config.ts:23 | `StrLess a b` holds exactly when a is a proper prefix of b, or the strings agree up to the first index where a has the smaller character. This is the order JavaScript's `>` uses in the sort comparator. |
| `Strings.StrLessIrreflexive` | src/config.ts:23 | No path compares greater than itself. |
| `Strings.StrLessAsymmetric` | src/config.ts:23 | The string order is asymmetric. |
| `Strings.StrLessTransitive` | src/config.ts:23 | The string order is transitive. |
| `Strings.StrLessTotal` | src/config.ts:23 | Any two different paths are ordered one way or the other. |
| `Strings.StrAtLeastTransitive` | src/config.ts:23 | "Not smaller" is transitive, so a descending table is ordered pairwise. |
| `Strings.NatToDecimal` | src/config.ts:31 | The printed digits of a non-negative number form a canonical decimal string (no leading zero). The string has one digit exactly when the number is below 10. |
| `Strings.DecimalRoundTrip` | src/config.ts:31 | Reading back the printed digits gives the number. |
| `Strings.CanonicalValue` | src/config.ts:31 | A canonical digit string longer than one digit has a value of at least 10. |
| `Strings.DecimalUnique` | src/config.ts:31 | A canonical digit string is exactly the printed form of its own value. |
| `Strings.StrLess` | src/config.ts:23 | The string order behind `a.path > b.path` (read as `StrLess(b.path, a.path)`). A smaller string is never empty on the right-hand side and never equal to the left. Its meaning is `Strings.StrLessMeaning`. |
| `Strings.IntToDecimal` | src/config.ts:31 | How `${n}` prints an integer n of magnitude below 1e21 (larger ones print in exponent form, which is not modelled). For n >= 0 it gives canonical digits whose value is n. For n < 0 it gives "-" followed by canonical digits whose value is -n. |
| `Router.AddTrailingSlash` | src/router.ts:9-14 | The result ends with "/", starts with p, and is one character longer exactly when p did not end with "/". |
| `Router.RemoveTrailingSlash` | src/router.ts:16-21 | Exactly one final "/" is dropped when there is one. Every other string is returned unchanged. |
| `Router.AddTrailingSlashIdempotent` | src/router.ts:9-14 | Adding a slash twice is the same as adding it once. |
| `Router.RemoveTrailingSlashExamples` | src/router.ts:16-21 | "/" becomes the empty string, "x//" becomes "x/", and "/admin" is unchanged. |
| `Router.RemoveAfterAdd` | src/router.ts:9-21 | Removing a slash after adding one gives the same result as removing it directly. |
| `Router.AddAfterRemove` | src/router.ts:9-21 | Removing a slash and then adding one restores `AddTrailingSlash(p)` exactly when p does not end in "//". |
| `Router.MatchPlainRoute` | src/router.ts:23-36 | A route path without a trailing slash matches exactly itself and itself plus "/". |
| `Router.MatchSlashRoute` | src/router.ts:23-36 | A route path `bare + "/"` matches exactly `bare` and `bare + "/"`. |
| `Router.MatchDoubleSlashRoute` | src/router.ts:23-36 | A route path ending in "//" matches only the path with one slash fewer. In particular it does not match itself. |
| `Router.MatchIgnoresRouteSlash` | src/router.ts:27-31 | Adding a trailing slash to the route path never changes what it matches. |
| `Router.MatchExamples` | src/router.ts:23-36 | "/admin" matches the route "/admin/", and "/admin/" matches the route "/admin". "/admin/users" does not match the route "/admin". |
| `Router.IsExactUIPressRoute` | src/router.ts:23-36 | Either the route path with its trailing slash removed equals the request path, or that with a slash added does. A match differs from the route path by at most one trailing slash. The exact matches are given by `Router.MatchPlainRoute`, `Router.MatchSlashRoute` and `Router.MatchDoubleSlashRoute`. |
| `Router.TrailingWordCount` | src/router.ts:39 | The characters counted are all `\w` characters at the end of the path, and the character just before them is not one. |
| `Router.IsStaticFilePath` | src/router.ts:38-44 | The trailing run of word characters is non-empty and directly preceded by a dot. So a static path has at least two characters, ends in a word character and contains a dot. Its meaning as the regular expression is `Router.StaticFilePathMeaning`. |
| `Router.StaticFilePathMeaning` | src/router.ts:38-44 | `IsStaticFilePath(p)` holds exactly when `/\.\w+$/` matches p. That is, some dot, followed only by one or more word characters, ends p. |
| `Router.NotStaticWithoutWordEnd` | src/router.ts:38-44 | Empty paths and paths ending in a non-word character (such as "/") are never static. |
| `Router.StaticFilePathExamples` | src/router.ts:38-44 | "/app/logo.svg" is static. "/app/dashboard/" and "/app/v1." are not. |
| `Config.InitialConfig` | src/config.ts:12-17 | The initial record has port 3001, clearScreen false and no routes. The mode is production exactly when NODE_ENV is "production", and development otherwise. |
| `Config.Merge` | src/config.ts:34-36 | `Object.assign` overwrites every supplied field and keeps every absent one. A supplied route table replaces the old one wholesale. |
| `Config.MergeEmpty` | src/config.ts:34-36 | An empty patch changes nothing. |
| `Config.MergeIdempotent` | src/config.ts:34-36 | Applying the same patch twice has the same effect as applying it once. |
| `Config.MergeSequence` | src/config.ts:34-36 | Two `setConfig` calls act as one call with the combined patch, in which the later call's fields win. |
| `Config.GetViteHost` | src/config.ts:30-32 | The host is "http://localhost:" followed by the digits of the port (with a "-" first if the port is negative). Reading those digits back gives the port. |
| `Config.GetViteHostInjective` | src/config.ts:30-32 | Different ports give different host strings. |
| `Config.DefaultViteHost` | src/config.ts:12-17 | With the defaults, the host is exactly "http://localhost:3001". |
| `Config.InsertDesc` | src/config.ts:23 | Inserting a route into a descending table keeps it descending, and adds exactly that route. |
| `Config.SortDesc` | src/config.ts:23 | The result is sorted descending by path and is a permutation of the input. |
| `Config.SortedDistinctUnique` | src/config.ts:19-24 | Two descending tables with the same routes and distinct paths are equal. So the outcome does not depend on the sort algorithm, and re-sorting a sorted table changes nothing. |
| `Config.SortExample` | src/config.ts:23 | ["/a", "/a/b"] sorts to ["/a/b", "/a"], so the more specific prefix comes first. |
| `Config.Store.GetConfig` | src/config.ts:38-40 | `getConfig` returns the record's current fields. |
| `Config.Store.constructor` | src/config.ts:3-17 | The singleton starts as `InitialConfig(NODE_ENV)`. |
| `Config.Store.ConfigRoutes` | src/config.ts:19-24 | The new table holds exactly the old routes plus the given ones, counting repeats, and is sorted descending by path. With no new routes, a table that is already sorted with distinct paths is unchanged. The other fields are unchanged. |
| `Config.Store.SetConfig` | src/config.ts:34-36 | The new record is `Merge` of the old record and the patch. |
| `Server.MarkerLength` | src/main.ts:137-140 | The length of the marker that starts the text: the prefix of that length is "/@react-refresh" or "/@vite/client". |
| `Server.MarkersDoNotOverlap` | src/main.ts:138 | No marker starts strictly inside another, so the order in which the scan matches them is irrelevant. |
| `Server.MarkerCountStep` | src/main.ts:137-140 | After a marker, counting resumes directly behind it without missing any occurrence. |
| `Server.RewriteHtml` | src/main.ts:137-140 | The global replace, scanning left to right. Where a marker starts, the host goes in front of the matched marker and scanning resumes after it. Other characters are copied. The result is never shorter than the body, and an empty host leaves the body unchanged. The lemmas below characterise it. |
| `Server.RewriteLength` | src/main.ts:137-140 | The rewritten body is longer than the original by exactly \|host\| times the number of marker occurrences. |
| `Server.RewriteGrows` | src/main.ts:137-140 | A body with at least one marker grows by at least the length of the host. |
| `Server.NoMarkersCount` | src/main.ts:137-140 | A body has no marker at any position exactly when its marker count is 0. |
| `Server.RewriteWithoutMarkers` | src/main.ts:137-140 | A body without markers is returned unchanged. |
| `Server.RewriteUnchangedIff` | src/main.ts:137-140 | For a non-empty host, the rewrite leaves a body unchanged exactly when the body has no marker. |
| `Server.RewritePlainPrefix` | src/main.ts:137-140 | Text in which no marker starts passes through the rewrite untouched. |
| `Server.NoMarkersWithoutSlashAt` | src/main.ts:138 | Text in which no "/" is followed by "@" holds no marker. |
| `Server.RewriteViteClientThen` | src/main.ts:137-140 | "/@vite/client" followed by marker-free text gets the host in front of the marker and nothing else changed. |
| `Server.RewriteAroundViteClient` | src/main.ts:137-140 | Within a slash-free prefix, the client marker and marker-free text, only the marker gains the host. |
| `Server.RewriteViteClientScript` | src/main.ts:137-140 | `<script src="/@vite/client"></script>` becomes `<script src="` + host + `/@vite/client"></script>`. |
| `Server.ProxyUrl` | src/main.ts:95-96 | The proxied URL is the dev-origin host followed by the request path, and it splits back into those two parts. |
| `Server.AssetDecision` | src/main.ts:92-103 | A non-static path, or a fetch that throws, calls next. A non-success response calls next. A success response redirects to the response URL. |
| `Server.PageDecision` | src/main.ts:125-145 | A static path calls next. A path without a trailing "/" redirects to the path plus "/". Otherwise the response body is sent with its markers rewritten to the host, and a thrown fetch calls next. |
| `Server.AssetDecisionAnswers` | src/main.ts:92-103 | The asset middleware answers exactly for a static path whose fetch succeeded with an ok status, and then only ever with a redirect. |
| `Server.PageDecisionFallsThrough` | src/main.ts:125-145 | The page handler calls next exactly for a static path, or for a slash-terminated path whose fetch threw. It never sends a file. |
| `Server.DecisionsFetchOnlyProxyUrl` | src/main.ts:95-97 | Both handlers depend on the dev origin only through the one URL they build. |
| `Server.RedirectWithoutFetch` | src/main.ts:129-132 | The trailing-slash redirect happens before any fetch. The path it redirects to is not redirected again. |
| `Server.DevHandlersDisjoint` | src/main.ts:94 | For any path, at least one of the two development handlers calls next. |
| `Server.DashboardUrl` | src/main.ts:133-134 | With the defaults, "/dashboard/" is proxied to "http://localhost:3001/dashboard/". |
| `Server.DashboardScenario` | src/main.ts:124-145 | With the defaults, "/dashboard/" gets the proxied page, with its client script pointed at "http://localhost:3001". |
| `Server.Resolve` | src/main.ts:119 | `path.resolve(distPath, "index.html")` for a plain file name. The result starts with the directory and ends with "/" followed by the name. |
| `Server.Handle` | src/main.ts:92-145 | What one layer of the stack does with a request. The asset middleware only redirects or calls next. A page layer calls next for paths its route path does not match. The catch-all always sends a file. |
| `Server.Dispatch` | src/main.ts:172-174 | How Express runs the stack that the splice and `listen` build: each layer in turn, until one answers. Any answer is the answer of some layer of the stack. |
| `Server.DispatchSkip` | src/main.ts:172-174 | Layers that call next can be skipped without changing the outcome. |
| `Server.FirstAnswerWins` | src/main.ts:172-174 | The first layer that answers decides the request. |
| `Server.DispatchFallsThrough` | src/main.ts:172-174 | A request falls off the stack exactly when every layer calls next. |
| `Server.SpliceLast` | src/main.ts:105-110 | The splice keeps every layer and the stack's length. The first min(2, n) layers stay in place, the popped layer comes next, and the rest follow in order. |
| `Server.PageLayers` | src/main.ts:124-125 | One route layer per route, in table order, each with the route's own path. |
| `Server.ViteInputs` | src/main.ts:149-157 | The map that assigning `routes[route.name] = route.file` for each route, in order, builds. Every route name is a key, and the last route's name maps to its file. |
| `Server.ViteInputsKeys` | src/main.ts:149-157 | The keys of the input map are exactly the names of the routes. |
| `Server.ViteInputsLast` | src/main.ts:152-154 | Each name maps to the file of the last route that carries it: a later assignment to the same key overwrites an earlier one. |
| `Server.App.constructor` | src/main.ts:167-172 | The application starts with the host's own layers. |
| `Server.App.Use` | src/main.ts:82 | `app.use` and `app.get` append one layer. |
| `Server.App.MoveLastLayer` | src/main.ts:105-110 | The stack becomes `SpliceLast` of the old stack. |
| `Server.Store.GetConfig` | src/main.ts:163-165 | `getConfig` returns the record's current fields. |
| `Server.Store.constructor` | src/main.ts:29-34 | The singleton starts as `InitialConfig(NODE_ENV)`. |
| `Server.Store.ConfigRoutes` | src/main.ts:36-40 | This copy appends the given routes in order and sorts nothing. The other fields are unchanged. |
| `Server.Store.SetConfig` | src/main.ts:159-161 | The new record is `Merge` of the old record and the patch. |
| `Server.Store.GetViteRoutes` | src/main.ts:149-157 | The keys are exactly the route names. The last route with a name gives that name's file. |
| `Server.Store.ServeStatic` | src/main.ts:77-111 | In production, `express.static(distPath)` goes last. In development, the asset middleware is appended and spliced to index min(2, n). |
| `Server.Store.ServerHTML` | src/main.ts:113-147 | In production, one catch-all goes last. In development, one page layer per route is appended, in route-table order. |
| `Server.Store.Listen` | src/main.ts:172-174 | In production, the stack gains `[StaticDir, CatchAll]`. In development it becomes `DevStack` of the old stack and the routes. |
| `Server.DevStack` | src/main.ts:105-125 | The stack a development `listen` leaves behind. In development, the first min(2, n) host layers keep their place, the asset middleware follows, the other host layers keep their order, and the page layers come last in route order. |
| `Server.DevAssetRedirectWins` | src/main.ts:92-110 | In development, a static path that the dev origin serves is redirected there before any page route sees it, once the layers ahead of the middleware pass the request on. |
| `Server.ProductionServesIndex` | src/main.ts:113-122 | In production, every request that the host layers and `express.static` pass on gets the root `index.html`, whatever its path. |

## Left out

- Not modelled: logging (`info`, `src/log.ts`, the timestamps and colours). It is output only.
- Not modelled: the Vite calls (`vite.build`, `vite.createServer`, `server.listen`, `vite.resolveConfig`). They are I/O in foreign code.
  - `distPath` is a parameter of `ServeStatic`, `ServerHTML` and `Listen`.
  - Starting the dev server in `listen` (main.ts 175) is not modelled.
  - The `callback` of `listen` is not modelled.
- Not modelled: `fs.existsSync` and the rebuild when the output directory is missing (main.ts 84-88). They are file-system I/O.
- Not modelled: loading `uipress.config.ts` by dynamic import (main.ts 12-16). The import's effect is whatever sequence of `SetConfig` and `ConfigRoutes` calls the file makes.
- Not modelled: the `app.listen(port)` socket. The model starts from a stack of host layers.
- Not modelled: async interleaving. Each handler is modelled as an atomic decision, and `serveStatic` and `serverHTML` run one after the other.
- Not modelled: the network and the Express response methods.
  - `fetch` is an abstract function from URL to `FetchOutcome`. It gives the same outcome for the same URL within a request. A `response.text()` that throws counts as a fetch that threw.
  - `res.redirect`, `res.send` and `res.sendFile` become `Outcome` values.
  - The `express.static` file lookup is the abstract `World.staticFile`.
- Not modelled: Express route matching in full (path-to-regexp parameters, case-insensitive matching, HEAD requests). A route layer matches the paths that `Router.IsExactUIPressRoute` accepts, which agrees with non-strict matching on plain paths. It does not agree for a route path ending in "//". Express compiles "/a//" to a pattern that accepts "/a//", but `Router.IsExactUIPressRoute("/a//", "/a//")` is false (`Router.MatchDoubleSlashRoute`), so such a route's own path reaches its page handler only through Express.
- Not modelled: `path.resolve` normalisation (`..`, absolute second arguments). `Resolve` joins a directory and a plain file name with one "/".
- Not modelled: UTF-16 detail. Dafny's `char` is a Unicode scalar value, so `StrLess` compares code points. JavaScript compares UTF-16 code units, and the two orders differ only for characters outside the Basic Multilingual Plane.
- Not modelled: non-integer and very large ports. `vitePort` is a JavaScript number, but only integers are modelled. So no fractional form of `${port}` is captured, and no exponent form either: JavaScript prints "1e+21" for integers of magnitude 1e21 or more, while `Strings.IntToDecimal` prints all their digits.
- Not modelled: setting a `Partial<Config>` field explicitly to `undefined`. `Object.assign` would copy it, but a `ConfigPatch` field is either absent or holds a value of the field's type.
- Not modelled: sharing. After `setConfig({routes})`, the record shares the caller's array. `getConfig` (config.ts 38-40, main.ts 163-165) returns the live `config` object, not a copy. In JavaScript, later changes are visible through every such reference. A caller can also change the config through one, for example by pushing a route that bypasses the sort. `Config.Store.GetConfig` and `Server.Store.GetConfig` return a snapshot value, and the model copies values everywhere.
- Not modelled: `__proto__` and similar special keys in the `getViteRoutes` object. They behave differently from plain keys in a JavaScript object and are treated as ordinary map keys here.
- `Server.App.MoveLastLayer` requires a non-empty stack. On an empty stack, `pop()` returns `undefined` and the splice would insert it. That cannot happen, because the only call comes right after `app.use`.
- `Config.Store.ConfigRoutes` does not fix the order of routes with equal paths. The comparator never returns 0, so that order depends on the engine's sort algorithm. The method only promises a sorted permutation, and `Config.SortedDistinctUnique` shows that the order is unique when paths are distinct.
- Not modelled: registration checks such as duplicate-name rejection and route-path validation. Neither copy of the code performs them.
