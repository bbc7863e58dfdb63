/**
 * `build_api_url`: maps a Rentvine web page URL to the manager API URL(s)
 * for the same object, by a first-match search over a fixed route table.
 * Each route pattern is a fixed prefix, then either a numeric id or nothing,
 * then an optional '/', then the end of the path (Python's `$`, which also
 * matches before one final "\n").
 */
module ApiRoutes {
  import opened Wrappers
  import opened Text

  /** The parts of `urlparse(webpage_url)`; only scheme, netloc and path are read. */
  datatype ParsedUrl = ParsedUrl(
    scheme: string, netloc: string, path: string, params: string, query: string, fragment: string)

  /** The keys of the INCLUDES table. */
  datatype IncludesKey =
    | Properties | MaintenanceWorkOrders | MaintenanceInspections | MaintenanceProjects
    | ScreeningApplications | ScreeningProspects | ScreeningPayments

  /**
   * A route: `IdRoute` matches `^prefix(?P<id>\d+)/?$` and maps to
   * `apiPrefix + id` with the includes query of `includes`; `FixedRoute`
   * matches `^path/?$` and maps to several API paths.
   */
  datatype Route =
    | IdRoute(prefix: string, apiPrefix: string, includes: IncludesKey)
    | FixedRoute(path: string, apiPaths: seq<string>)

  /** What `build_api_url` returns: one URL string, or a list of them. */
  datatype ApiUrls = Single(url: string) | Multiple(urls: seq<string>)

  /** The two ValueErrors of `build_api_url`. */
  datatype RouteError = Unsupported(path: string) | NonNumericId

  // ---------------------------------------------------------------------------
  // The INCLUDES and ROUTES tables
  // ---------------------------------------------------------------------------

  /** The field names of an includes string, in the order the string lists them. */
  function IncludeFields(key: IncludesKey): seq<string> {
    match key
    case Properties =>
      ["applicationTemplate", "image", "unit", "lease", "portfolios", "listing", "appliances",
       "managementFeeSetting", "associations", "propertyManager", "pastLeases", "futureLeases",
       "owners"]
    case MaintenanceWorkOrders =>
      ["vendor", "vendorTrade", "property", "unit", "bills", "assignees", "portfolio",
       "portfolioBalances", "owners", "lease", "leaseBalances", "leaseTenants", "inspection",
       "workOrderProject", "associations", "inspection", "review"]
    case MaintenanceInspections => ["areas", "items", "files", "unit", "lease", "property"]
    case MaintenanceProjects => ["assignedToUser", "property", "unit", "restrictions"]
    case ScreeningApplications =>
      ["applicants", "lease", "reports", "group", "creditReportDocument", "criminalReportDocument",
       "evictionReportDocument", "prospect", "animals"]
    case ScreeningProspects => ["contact", "unit", "invitation", "status"]
    case ScreeningPayments => ["applicant", "application", "refunds"]
  }

  /**
   * INCLUDES: the pre-encoded includes strings, each its field names separated
   * by "%2C" (a URL-encoded comma).
   */
  function Includes(key: IncludesKey): string {
    Join(IncludeFields(key), "%2C")
  }

  lemma JoinNonEmpty(xs: seq<string>, sep: string)
    requires xs != [] && xs[0] != ""
    ensures Join(xs, sep) != ""
  {
    if |xs| > 1 {
      assert |Join(xs, sep)| >= |xs[0]|;
    }
  }

  /** Every includes string is non-empty, so every id route appends its includes query. */
  lemma IncludesNonEmpty(key: IncludesKey)
    ensures Includes(key) != ""
  {
    JoinNonEmpty(IncludeFields(key), "%2C");
  }

  /** ROUTES, in table order. */
  const Routes: seq<Route> := [
    IdRoute("/maintenance/work-orders/", "/api/manager/maintenance/work-orders/", MaintenanceWorkOrders),
    IdRoute("/maintenance/inspections/", "/api/manager/maintenance/inspections/", MaintenanceInspections),
    IdRoute("/maintenance/projects/", "/api/manager/maintenance/work-orders/projects/", MaintenanceProjects),
    FixedRoute("/accounting/diagnostics", ["/api/manager/accounting/accounts", "/api/manager/accounting/diagnostics"]),
    IdRoute("/properties/", "/api/manager/properties/", Properties),
    IdRoute("/screening/applications/", "/api/manager/screening/applications/", ScreeningApplications),
    IdRoute("/screening/prospects/", "/api/manager/screening/prospects/", ScreeningProspects),
    IdRoute("/screening/payments/", "/api/manager/screening/payments/", ScreeningPayments)
  ]

  // ---------------------------------------------------------------------------
  // Pattern matching
  // ---------------------------------------------------------------------------

  /** The `\d` class and `str.isdigit()`, over the ASCII digits. */
  predicate IsDigit(c: char) {
    '0' <= c <= '9'
  }

  predicate AllDigits(s: string) {
    forall i :: 0 <= i < |s| ==> IsDigit(s[i])
  }

  /** Length of the leading run of digits of s. */
  function DigitRun(s: string): (n: nat)
    ensures n <= |s| && AllDigits(s[..n])
    ensures n < |s| ==> !IsDigit(s[n])
  {
    if s != [] && IsDigit(s[0]) then
      var n := 1 + DigitRun(s[1..]);
      assert s[..n] == [s[0]] + s[1..][..n - 1];
      n
    else 0
  }

  /** What `/?$` accepts after the id: nothing, '/', or either followed by one final "\n". */
  predicate IsEndTail(t: string) {
    t == "" || t == "/" || t == "\n" || t == "/\n"
  }

  /** `re.match(prefix + r"(?P<id>\d+)/?$", path)`: the captured id, if the path matches. */
  function MatchId(prefix: string, path: string): (r: Option<string>)
    ensures r.Some? ==> r.value != [] && AllDigits(r.value)
  {
    if prefix <= path then
      var rest := path[|prefix|..];
      var n := DigitRun(rest);
      if n >= 1 && IsEndTail(rest[n..]) then Some(rest[..n]) else None
    else None
  }

  /** `re.match(re.escape(p) + r"/?$", path)`. */
  predicate MatchFixed(p: string, path: string) {
    p <= path && IsEndTail(path[|p|..])
  }

  predicate Matches(route: Route, path: string) {
    match route
    case IdRoute(prefix, _, _) => MatchId(prefix, path).Some?
    case FixedRoute(p, _) => MatchFixed(p, path)
  }

  /** A path of the shape the id pattern describes: prefix, digits, then an end tail. */
  predicate IdPathForm(prefix: string, id: string, path: string) {
    && id != [] && AllDigits(id)
    && (path == prefix + id || path == prefix + id + "/" || path == prefix + id + "\n" || path == prefix + id + "/\n")
  }

  // ---------------------------------------------------------------------------
  // build_api_url
  // ---------------------------------------------------------------------------

  /** `s.rstrip("/")`. */
  function RStripSlashes(s: string): (r: string)
    ensures r <= s && (r == [] || r[|r| - 1] != '/')
    ensures forall i :: |r| <= i < |s| ==> s[i] == '/'
  {
    if s != [] && s[|s| - 1] == '/' then RStripSlashes(s[..|s| - 1]) else s
  }

  /** `[base + p for p in paths]`. */
  function Prefixed(base: string, paths: seq<string>): (urls: seq<string>)
    ensures |urls| == |paths| && forall i :: 0 <= i < |paths| ==> urls[i] == base + paths[i]
  {
    if paths == [] then [] else [base + paths[0]] + Prefixed(base, paths[1..])
  }

  /** `f"?includes={includes}"` when the route has a non-empty includes string. */
  function IncludesQuery(includes: string): string {
    if includes != "" then "?includes=" + includes else ""
  }

  /** The result of the route loop from `routes` on: the first route that matches decides. */
  function Dispatch(routes: seq<Route>, base: string, path: string): Result<ApiUrls, RouteError>
    decreases |routes|
  {
    if routes == [] then Failure(Unsupported(path))
    else
      match routes[0]
      case FixedRoute(p, apiPaths) =>
        if MatchFixed(p, path) then Success(Multiple(Prefixed(base, apiPaths)))
        else Dispatch(routes[1..], base, path)
      case IdRoute(prefix, apiPrefix, includes) =>
        match MatchId(prefix, path)
        case None => Dispatch(routes[1..], base, path)
        case Some(id) =>
          if !AllDigits(id) then Failure(NonNumericId)
          else Success(Single(base + apiPrefix + id + IncludesQuery(Includes(includes))))
  }

  /** `build_api_url(webpage_url)`, on the parsed URL. */
  function BuildApiUrl(url: ParsedUrl): Result<ApiUrls, RouteError> {
    Dispatch(Routes, url.scheme + "://" + url.netloc, RStripSlashes(url.path))
  }

  /** What a matching route builds: the list of URLs, or the id URL with its includes query. */
  function RouteResult(route: Route, base: string, path: string): Result<ApiUrls, RouteError>
    requires Matches(route, path)
  {
    match route
    case FixedRoute(_, apiPaths) => Success(Multiple(Prefixed(base, apiPaths)))
    case IdRoute(prefix, apiPrefix, includes) =>
      Success(Single(base + apiPrefix + MatchId(prefix, path).value + IncludesQuery(Includes(includes))))
  }

  // ---------------------------------------------------------------------------
  // The matcher
  // ---------------------------------------------------------------------------

  lemma DigitRunOf(id: string, t: string)
    requires AllDigits(id) && (t == [] || !IsDigit(t[0]))
    ensures DigitRun(id + t) == |id|
    decreases |id|
  {
    if id != [] {
      assert (id + t)[1..] == id[1..] + t;
      DigitRunOf(id[1..], t);
    } else {
      assert id + t == t;
    }
  }

  /** The id pattern matches exactly the paths of the id form, and captures the id. */
  lemma MatchIdIff(prefix: string, id: string, path: string)
    ensures MatchId(prefix, path) == Some(id) <==> IdPathForm(prefix, id, path)
  {
    if MatchId(prefix, path) == Some(id) {
      var rest := path[|prefix|..];
      var n := DigitRun(rest);
      assert rest == id + rest[n..];
      assert path == prefix + rest;
      var t := rest[n..];
      assert path == prefix + id + t;
    }
    if IdPathForm(prefix, id, path) {
      var t := path[|prefix| + |id|..];
      assert path == prefix + id + t;
      assert path[|prefix|..] == id + t;
      DigitRunOf(id, t);
      assert (id + t)[|id|..] == t && (id + t)[..|id|] == id;
    }
  }

  // ---------------------------------------------------------------------------
  // First-match search
  // ---------------------------------------------------------------------------

  /** The search returns what the first matching route builds. */
  lemma {:induction false} DispatchFirstMatch(routes: seq<Route>, base: string, path: string, k: nat)
    requires k < |routes| && Matches(routes[k], path)
    requires forall j :: 0 <= j < k ==> !Matches(routes[j], path)
    ensures Dispatch(routes, base, path) == RouteResult(routes[k], base, path)
    decreases k
  {
    if k > 0 {
      assert !Matches(routes[0], path);
      assert routes[1..][k - 1] == routes[k];
      DispatchFirstMatch(routes[1..], base, path, k - 1);
    }
  }

  /** The search fails exactly when no route matches, and then only with the unsupported-path error. */
  lemma {:induction false} DispatchNoMatch(routes: seq<Route>, base: string, path: string)
    ensures Dispatch(routes, base, path).Failure? <==> forall j :: 0 <= j < |routes| ==> !Matches(routes[j], path)
    ensures Dispatch(routes, base, path).Failure? ==> Dispatch(routes, base, path) == Failure(Unsupported(path))
    decreases |routes|
  {
    if routes != [] {
      DispatchNoMatch(routes[1..], base, path);
      if !Matches(routes[0], path) {
        forall j | 0 <= j < |routes| && Matches(routes[j], path)
          ensures 0 < j && Matches(routes[1..][j - 1], path)
        {
          assert routes[1..][j - 1] == routes[j];
        }
        forall j | 0 < j < |routes| && Matches(routes[1..][j - 1], path)
          ensures Matches(routes[j], path)
        {
          assert routes[1..][j - 1] == routes[j];
        }
      }
    }
  }

  // ---------------------------------------------------------------------------
  // The route table
  // ---------------------------------------------------------------------------

  /** Which route a path could match, read off the characters where the route prefixes differ. */
  function RouteKey(path: string): int {
    if |path| < 2 then -1
    else if path[1] == 'm' then
      if |path| < 14 then -1
      else if path[13] == 'w' then 0 else if path[13] == 'i' then 1 else if path[13] == 'p' then 2 else -1
    else if path[1] == 'a' then 3
    else if path[1] == 'p' then 4
    else if path[1] == 's' then
      if |path| < 13 then -1
      else if path[11] == 'a' then 5 else if path[12] == 'r' then 6 else if path[12] == 'a' then 7 else -1
    else -1
  }

  lemma PrefixChar(p: string, path: string, k: nat)
    requires p <= path && k < |p|
    ensures path[k] == p[k]
  {
  }

  /*
   * One lemma per route: the characters of its prefix that RouteKey reads
   * give the route's own index.
   */
  lemma KeyWorkOrders(path: string)
    requires Matches(Routes[0], path)
    ensures RouteKey(path) == 0
  {
    var p := "/maintenance/work-orders/";
    assert Routes[0].prefix == p;
    PrefixChar(p, path, 1);
    PrefixChar(p, path, 13);
  }

  lemma KeyInspections(path: string)
    requires Matches(Routes[1], path)
    ensures RouteKey(path) == 1
  {
    var p := "/maintenance/inspections/";
    assert Routes[1].prefix == p;
    PrefixChar(p, path, 1);
    PrefixChar(p, path, 13);
  }

  lemma KeyProjects(path: string)
    requires Matches(Routes[2], path)
    ensures RouteKey(path) == 2
  {
    var p := "/maintenance/projects/";
    assert Routes[2].prefix == p;
    PrefixChar(p, path, 1);
    PrefixChar(p, path, 13);
  }

  lemma KeyDiagnostics(path: string)
    requires Matches(Routes[3], path)
    ensures RouteKey(path) == 3
  {
    var p := "/accounting/diagnostics";
    assert Routes[3].path == p;
    PrefixChar(p, path, 1);
  }

  lemma KeyProperties(path: string)
    requires Matches(Routes[4], path)
    ensures RouteKey(path) == 4
  {
    var p := "/properties/";
    assert Routes[4].prefix == p;
    PrefixChar(p, path, 1);
  }

  lemma KeyApplications(path: string)
    requires Matches(Routes[5], path)
    ensures RouteKey(path) == 5
  {
    var p := "/screening/applications/";
    assert Routes[5].prefix == p;
    PrefixChar(p, path, 1);
    PrefixChar(p, path, 11);
  }

  lemma KeyProspects(path: string)
    requires Matches(Routes[6], path)
    ensures RouteKey(path) == 6
  {
    var p := "/screening/prospects/";
    assert Routes[6].prefix == p;
    PrefixChar(p, path, 1);
    PrefixChar(p, path, 11);
    PrefixChar(p, path, 12);
  }

  lemma KeyPayments(path: string)
    requires Matches(Routes[7], path)
    ensures RouteKey(path) == 7
  {
    var p := "/screening/payments/";
    assert Routes[7].prefix == p;
    PrefixChar(p, path, 1);
    PrefixChar(p, path, 11);
    PrefixChar(p, path, 12);
  }

  /** A path that matches route i has key i. */
  lemma MatchesKey(i: nat, path: string)
    requires i < |Routes| && Matches(Routes[i], path)
    ensures RouteKey(path) == i
  {
    if i == 0 {
      KeyWorkOrders(path);
    } else if i == 1 {
      KeyInspections(path);
    } else if i == 2 {
      KeyProjects(path);
    } else if i == 3 {
      KeyDiagnostics(path);
    } else if i == 4 {
      KeyProperties(path);
    } else if i == 5 {
      KeyApplications(path);
    } else if i == 6 {
      KeyProspects(path);
    } else {
      KeyPayments(path);
    }
  }

  /** No path matches two routes of the table, so the table's order never decides. */
  lemma RoutesDisjoint(i: nat, j: nat, path: string)
    requires i < |Routes| && j < |Routes| && Matches(Routes[i], path) && Matches(Routes[j], path)
    ensures i == j
  {
    MatchesKey(i, path);
    MatchesKey(j, path);
  }

  // ---------------------------------------------------------------------------
  // Properties of build_api_url
  // ---------------------------------------------------------------------------

  /** A path matched by route i gives what route i builds. */
  lemma BuildApiUrlRoute(url: ParsedUrl, i: nat)
    requires i < |Routes| && Matches(Routes[i], RStripSlashes(url.path))
    ensures BuildApiUrl(url) == RouteResult(Routes[i], url.scheme + "://" + url.netloc, RStripSlashes(url.path))
  {
    var path := RStripSlashes(url.path);
    forall j | 0 <= j < i
      ensures !Matches(Routes[j], path)
    {
      if Matches(Routes[j], path) {
        RoutesDisjoint(i, j, path);
      }
    }
    DispatchFirstMatch(Routes, url.scheme + "://" + url.netloc, path, i);
  }

  /**
   * An unsupported path is exactly one that no route matches; the non-numeric
   * id error is never raised, because every id the patterns capture is digits.
   */
  lemma BuildApiUrlFails(url: ParsedUrl)
    ensures BuildApiUrl(url).Failure? <==> forall i :: 0 <= i < |Routes| ==> !Matches(Routes[i], RStripSlashes(url.path))
    ensures BuildApiUrl(url).Failure? ==> BuildApiUrl(url) == Failure(Unsupported(RStripSlashes(url.path)))
    ensures BuildApiUrl(url) != Failure(NonNumericId)
  {
    DispatchNoMatch(Routes, url.scheme + "://" + url.netloc, RStripSlashes(url.path));
  }

  /** Removing a trailing '/' from the path never changes the result. */
  lemma BuildApiUrlTrailingSlash(url: ParsedUrl)
    ensures BuildApiUrl(url.(path := url.path + "/")) == BuildApiUrl(url)
  {
    assert (url.path + "/")[..|url.path|] == url.path;
  }

  /** The query string, the parameters and the fragment of the web URL never reach the result. */
  lemma BuildApiUrlIgnoresQuery(url: ParsedUrl, params: string, query: string, fragment: string)
    ensures BuildApiUrl(url.(params := params, query := query, fragment := fragment)) == BuildApiUrl(url)
  {
  }

  /** An id route gives `base + api_path(id) + "?includes=" + includes`, with the id the path carries. */
  lemma IdRouteUrl(url: ParsedUrl, i: nat, id: string)
    requires i < |Routes| && Routes[i].IdRoute?
    requires IdPathForm(Routes[i].prefix, id, RStripSlashes(url.path))
    ensures BuildApiUrl(url) == Success(Single(
      url.scheme + "://" + url.netloc + Routes[i].apiPrefix + id + "?includes=" + Includes(Routes[i].includes)))
  {
    MatchIdIff(Routes[i].prefix, id, RStripSlashes(url.path));
    BuildApiUrlRoute(url, i);
    var front := url.scheme + "://" + url.netloc + Routes[i].apiPrefix + id;
    var inc := Includes(Routes[i].includes);
    IncludesNonEmpty(Routes[i].includes);
    assert front + ("?includes=" + inc) == front + "?includes=" + inc;
  }

  /** `/accounting/diagnostics` gives exactly the accounts URL and then the diagnostics URL, without includes. */
  lemma DiagnosticsUrls(url: ParsedUrl)
    requires MatchFixed("/accounting/diagnostics", RStripSlashes(url.path))
    ensures var base := url.scheme + "://" + url.netloc;
      BuildApiUrl(url) == Success(Multiple([base + "/api/manager/accounting/accounts", base + "/api/manager/accounting/diagnostics"]))
  {
    BuildApiUrlRoute(url, 3);
    var base := url.scheme + "://" + url.netloc;
    var urls := Prefixed(base, Routes[3].apiPaths);
    assert urls == [base + "/api/manager/accounting/accounts", base + "/api/manager/accounting/diagnostics"];
  }

  /** `/maintenance/projects/{id}` maps onto the work-orders projects endpoint with the projects includes. */
  lemma ProjectsUrl(url: ParsedUrl, id: string)
    requires IdPathForm("/maintenance/projects/", id, RStripSlashes(url.path))
    ensures BuildApiUrl(url) == Success(Single(
      url.scheme + "://" + url.netloc + "/api/manager/maintenance/work-orders/projects/" + id
      + "?includes=" + Includes(MaintenanceProjects)))
  {
    IdRouteUrl(url, 2, id);
  }

  /** The properties example: the page's query string is dropped, the id and the includes are added. */
  lemma ExamplePropertiesUrl()
    ensures BuildApiUrl(ParsedUrl("https", "123pm.rentvine.com", "/properties/" + "245", "", "page=1&pageSize=15", ""))
      == Success(Single("https" + "://" + "123pm.rentvine.com" + "/api/manager/properties/" + "245"
                        + "?includes=" + Includes(Properties)))
  {
    var url := ParsedUrl("https", "123pm.rentvine.com", "/properties/" + "245", "", "page=1&pageSize=15", "");
    assert url.path[|url.path| - 1] == '5';
    IdRouteUrl(url, 4, "245");
  }

  /** The diagnostics example, given with a trailing '/'. */
  lemma ExampleDiagnosticsUrl()
    ensures BuildApiUrl(ParsedUrl("https", "123pm.rentvine.com", "/accounting/diagnostics" + "/", "", "", ""))
      == Success(Multiple(["https" + "://" + "123pm.rentvine.com" + "/api/manager/accounting/accounts",
                           "https" + "://" + "123pm.rentvine.com" + "/api/manager/accounting/diagnostics"]))
  {
    var url := ParsedUrl("https", "123pm.rentvine.com", "/accounting/diagnostics", "", "", "");
    BuildApiUrlTrailingSlash(url);
    assert url.path[|url.path| - 1] == 's';
    DiagnosticsUrls(url);
  }

  /** The id pattern fails when the character after the prefix is not a digit. */
  lemma NoIdAfterPrefix(prefix: string, rest: string)
    requires rest != [] && !IsDigit(rest[0])
    ensures MatchId(prefix, prefix + rest).None?
  {
    assert (prefix + rest)[|prefix|..] == rest;
  }

  /** A work-order path whose id is not a number is unsupported. */
  lemma ExampleUnsupported()
    ensures BuildApiUrl(ParsedUrl("https", "h", "/maintenance/work-orders/" + "x1", "", "", ""))
      == Failure(Unsupported("/maintenance/work-orders/" + "x1"))
  {
    var path := "/maintenance/work-orders/" + "x1";
    var url := ParsedUrl("https", "h", path, "", "", "");
    assert path[|path| - 1] == '1';
    assert RouteKey(path) == 0;
    NoIdAfterPrefix("/maintenance/work-orders/", "x1");
    forall i | 0 <= i < |Routes|
      ensures !Matches(Routes[i], path)
    {
      if i != 0 && Matches(Routes[i], path) {
        MatchesKey(i, path);
      }
    }
    BuildApiUrlFails(url);
  }
}
