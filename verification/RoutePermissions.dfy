/** From the route table to the decision whether a request is forwarded: the protected registry is
    derived from the full table by filtering, and both are looked up by first match. */
module RoutePermissions {
  import opened Basics
  import opened Text
  import opened Routes

  datatype AuthMode = Unset | Public | Protected | WebSocket

  /** A policy maps each supported method to the permissions of which one is required. */
  datatype ApiRoute = ApiRoute(pattern: string, mode: AuthMode, policies: map<string, seq<string>>)

  datatype PermissionSpec = PermissionSpec(pattern: string, policies: map<string, seq<string>>)

  // ----- permission lists -----

  function NonEmptyPermissions(values: seq<string>): seq<string> {
    if values == [] then []
    else
      var rest, v := NonEmptyPermissions(values[..|values| - 1]), TrimSpace(values[|values| - 1]);
      if v == "" || v in rest then rest else rest + [v]
  }

  /** Trims, drops blanks and duplicates, keeps the order of first occurrence. */
  method CollectPermissions(values: seq<string>) returns (out: seq<string>)
    ensures out == NonEmptyPermissions(values)
  {
    out := [];
    var seen: set<string> := {};
    for i := 0 to |values|
      invariant out == NonEmptyPermissions(values[..i])
      invariant seen == set v | v in out
    {
      var value := TrimSpace(values[i]);
      assert values[..i + 1][..i] == values[..i];
      if value == "" { continue; }
      if value in seen { continue; }
      seen := seen + {value};
      out := out + [value];
    }
    assert values[..|values|] == values;
  }

  lemma {:induction false} NonEmptyPermissionsAre(values: seq<string>)
    ensures NoDuplicates(NonEmptyPermissions(values))
    ensures forall v :: v in NonEmptyPermissions(values)
              <==> v != "" && exists i :: 0 <= i < |values| && TrimSpace(values[i]) == v
  {
    if values != [] {
      var n := |values| - 1;
      NonEmptyPermissionsAre(values[..n]);
      assert forall i :: 0 <= i < n ==> values[..n][i] == values[i];
      forall v
        ensures v in NonEmptyPermissions(values)
                <==> v != "" && exists i :: 0 <= i < |values| && TrimSpace(values[i]) == v
      {
        if v != "" && v in NonEmptyPermissions(values[..n]) {
          var i :| 0 <= i < n && TrimSpace(values[..n][i]) == v;
          assert TrimSpace(values[i]) == v;
        }
        if exists i :: 0 <= i < n && TrimSpace(values[i]) == v {
          var i :| 0 <= i < n && TrimSpace(values[i]) == v;
          assert TrimSpace(values[..n][i]) == v;
        }
      }
    }
  }

  /** The permissions a policy grants a method; a method it does not list has none. */
  function GrantedBy(policies: map<string, seq<string>>, verb: string): seq<string> {
    if verb in policies then NonEmptyPermissions(policies[verb]) else []
  }

  // ----- the two registries -----

  predicate NeedsPermission(mode: AuthMode) {
    mode.Protected? || mode.WebSocket?
  }

  function ProtectedSpecs(routes: seq<ApiRoute>): seq<PermissionSpec> {
    if routes == [] then []
    else
      var r := routes[0];
      (if NeedsPermission(r.mode) then [PermissionSpec(r.pattern, r.policies)] else []) + ProtectedSpecs(routes[1..])
  }

  method BuildProtectedSpecs(routes: seq<ApiRoute>) returns (out: seq<PermissionSpec>)
    ensures out == ProtectedSpecs(routes)
  {
    out := [];
    for i := 0 to |routes|
      invariant out + ProtectedSpecs(routes[i..]) == ProtectedSpecs(routes)
    {
      assert routes[i..][1..] == routes[i + 1..];
      if !NeedsPermission(routes[i].mode) { continue; }
      out := out + [PermissionSpec(routes[i].pattern, routes[i].policies)];
    }
    assert out + [] == out;
  }

  /** The first route of the full table that matches. */
  function FirstRoute(routes: seq<ApiRoute>, path: string): Option<ApiRoute> {
    if routes == [] then None
    else if Matches(path, routes[0].pattern) then Some(routes[0])
    else FirstRoute(routes[1..], path)
  }

  function PermissionsForRoute(specs: seq<PermissionSpec>, verb: string, path: string): Option<seq<string>> {
    if specs == [] then None
    else if Matches(path, specs[0].pattern) then Some(GrantedBy(specs[0].policies, verb))
    else PermissionsForRoute(specs[1..], verb, path)
  }

  function RoutePatterns(routes: seq<ApiRoute>): seq<string> {
    seq(|routes|, i requires 0 <= i < |routes| => routes[i].pattern)
  }

  /** The route the table resolves a path to, in the terms of pattern lookup. */
  lemma {:induction false} FirstRouteResolves(routes: seq<ApiRoute>, path: string)
    ensures FirstRoute(routes, path).None? <==> FitsNone(path, RoutePatterns(routes))
    ensures forall i: nat :: ResolvesTo(RoutePatterns(routes), path, i) ==> FirstRoute(routes, path) == Some(routes[i])
  {
    if routes != [] {
      var rest := routes[1..];
      FirstRouteResolves(rest, path);
      assert RoutePatterns(routes) == [routes[0].pattern] + RoutePatterns(rest);
      LookupOfCons(routes[0].pattern, RoutePatterns(rest), path);
    }
  }

  /** Lookup tries the first pattern before the others. */
  lemma LookupOfCons(head: string, rest: seq<string>, path: string)
    ensures FitsNone(path, [head] + rest) <==> !Matches(path, head) && FitsNone(path, rest)
    ensures ResolvesTo([head] + rest, path, 0) <==> Matches(path, head)
    ensures forall i: nat :: i > 0
              ==> (ResolvesTo([head] + rest, path, i) <==> !Matches(path, head) && ResolvesTo(rest, path, i - 1))
  {
    var all := [head] + rest;
    assert all[0] == head && forall j :: 0 <= j < |rest| ==> all[j + 1] == rest[j];
    if !Matches(path, head) && FitsNone(path, rest) {
      assert forall j :: 0 < j < |all| ==> all[j] == rest[j - 1];
    }
    forall i: nat | i > 0
      ensures ResolvesTo(all, path, i) <==> !Matches(path, head) && ResolvesTo(rest, path, i - 1)
    {
      assert forall j :: 0 < j < i && j < |all| ==> all[j] == rest[j - 1];
    }
  }

  /** The same for the derived registry. */
  lemma {:induction false} PermissionsResolve(specs: seq<PermissionSpec>, verb: string, path: string)
    ensures PermissionsForRoute(specs, verb, path).None? <==> FitsNone(path, Patterns(specs))
    ensures forall i: nat :: ResolvesTo(Patterns(specs), path, i) ==>
              PermissionsForRoute(specs, verb, path) == Some(GrantedBy(specs[i].policies, verb))
  {
    if specs != [] {
      var rest := specs[1..];
      PermissionsResolve(rest, verb, path);
      assert Patterns(specs) == [specs[0].pattern] + Patterns(rest);
      LookupOfCons(specs[0].pattern, Patterns(rest), path);
    }
  }

  function RequiredPermissions(routes: seq<ApiRoute>, verb: string, path: string): Option<seq<string>> {
    match FirstRoute(routes, path)
    case None => None
    case Some(r) => if r.mode.Public? then Some([]) else PermissionsForRoute(ProtectedSpecs(routes), verb, path)
  }

  /** Looking a path up in the derived registry finds the very route the full table resolves it to. */
  lemma {:induction false} RegistriesAgree(routes: seq<ApiRoute>, verb: string, path: string)
    requires FirstRoute(routes, path).Some? && NeedsPermission(FirstRoute(routes, path).value.mode)
    ensures PermissionsForRoute(ProtectedSpecs(routes), verb, path)
            == Some(GrantedBy(FirstRoute(routes, path).value.policies, verb))
  {
    var r := routes[0];
    if Matches(path, r.pattern) {
      assert ProtectedSpecs(routes)[0] == PermissionSpec(r.pattern, r.policies);
    } else {
      RegistriesAgree(routes[1..], verb, path);
      if NeedsPermission(r.mode) {
        assert ProtectedSpecs(routes)[1..] == ProtectedSpecs(routes[1..]);
      } else {
        assert ProtectedSpecs(routes) == ProtectedSpecs(routes[1..]);
      }
    }
  }

  // ----- the decision -----

  /** One request as the middleware sees it: the outcomes of the session and token checks, and the
      permissions the user holds. */
  datatype Request = Request(verb: string, path: string, authenticated: bool, mustChangePassword: bool,
                             csrfValid: bool, holds: set<string>)

  predicate PasswordChangeAllowed(path: string) {
    path in {"/api/v1/auth/me", "/api/v1/auth/logout", "/api/v1/auth/password/change"}
  }

  predicate RequiresCSRF(r: Request) {
    r.verb in {"POST", "PUT", "PATCH", "DELETE"} && r.path != "/api/v1/auth/login"
  }

  method RequireAnyPermission(holds: set<string>, permissions: seq<string>) returns (ok: bool)
    ensures ok <==> exists p :: p in permissions && p in holds
  {
    if |permissions| == 0 { return false; }
    for i := 0 to |permissions|
      invariant forall j :: 0 <= j < i ==> permissions[j] !in holds
    {
      if permissions[i] in holds { return true; }
    }
    return false;
  }

  /** The checks of `UserAuth`, in its order. */
  method UserAuth(routes: seq<ApiRoute>, r: Request) returns (forwarded: bool)
    ensures forwarded <==> Forwards(routes, r)
  {
    if !r.authenticated { return false; }
    if r.mustChangePassword && !PasswordChangeAllowed(r.path) { return false; }
    if RequiresCSRF(r) && !r.csrfValid { return false; }
    var permissions := RequiredPermissions(routes, r.verb, r.path);
    if permissions.None? { return false; }
    forwarded := RequireAnyPermission(r.holds, permissions.value);
  }

  ghost predicate Forwards(routes: seq<ApiRoute>, r: Request) {
    && r.authenticated && (r.mustChangePassword ==> PasswordChangeAllowed(r.path)) && (RequiresCSRF(r) ==> r.csrfValid)
    && RequiredPermissions(routes, r.verb, r.path).Some?
    && exists p :: p in RequiredPermissions(routes, r.verb, r.path).value && p in r.holds
  }

  ghost predicate AllModesSet(routes: seq<ApiRoute>) {
    forall i :: 0 <= i < |routes| ==> !routes[i].mode.Unset?
  }

  lemma {:induction false} FirstRouteIsAnEntry(routes: seq<ApiRoute>, path: string)
    ensures FirstRoute(routes, path).Some? ==> FirstRoute(routes, path).value in routes
  {
    if routes != [] { FirstRouteIsAnEntry(routes[1..], path); }
  }

  /** In a table whose entries all declare a mode, a request is forwarded exactly when it is
      authenticated; a user who must change the password asks for one of three paths; a POST, PUT,
      PATCH or DELETE other than the login carries a valid token; the path resolves to a route that is
      not public; and the user holds a permission that this very route lists for the method. */
  lemma ForwardedExactlyWithARoutePermission(routes: seq<ApiRoute>, r: Request)
    requires AllModesSet(routes)
    ensures Forwards(routes, r)
            <==> && r.authenticated
                 && (r.mustChangePassword ==> || r.path == "/api/v1/auth/me"
                                              || r.path == "/api/v1/auth/logout"
                                              || r.path == "/api/v1/auth/password/change")
                 && (|| r.csrfValid || r.path == "/api/v1/auth/login"
                     || (r.verb != "POST" && r.verb != "PUT" && r.verb != "PATCH" && r.verb != "DELETE"))
                 && FirstRoute(routes, r.path).Some?
                 && !FirstRoute(routes, r.path).value.mode.Public?
                 && r.verb in FirstRoute(routes, r.path).value.policies
                 && (exists v :: v in FirstRoute(routes, r.path).value.policies[r.verb] && TrimSpace(v) != ""
                                 && TrimSpace(v) in r.holds)
  {
    FirstRouteIsAnEntry(routes, r.path);
    var first := FirstRoute(routes, r.path);
    if first.Some? && NeedsPermission(first.value.mode) {
      RegistriesAgree(routes, r.verb, r.path);
      if r.verb in first.value.policies {
        var values := first.value.policies[r.verb];
        NonEmptyPermissionsAre(values);
        if Forwards(routes, r) {
          var p :| p in NonEmptyPermissions(values) && p in r.holds;
          var i :| 0 <= i < |values| && TrimSpace(values[i]) == p;
          assert values[i] in values;
        }
        forall v | v in values && TrimSpace(v) != ""
          ensures TrimSpace(v) in NonEmptyPermissions(values)
        {
          var i :| 0 <= i < |values| && values[i] == v;
          assert TrimSpace(values[i]) == TrimSpace(v);
        }
      }
    }
  }

  /** Whatever the table, a changing request without a valid token is refused, unless it is the
      login. */
  lemma ChangesNeedAToken(routes: seq<ApiRoute>, r: Request)
    requires r.verb == "POST" || r.verb == "PUT" || r.verb == "PATCH" || r.verb == "DELETE"
    requires r.path != "/api/v1/auth/login" && !r.csrfValid
    ensures !Forwards(routes, r)
  {
  }

  /** For every other request the token makes no difference. */
  lemma OtherRequestsNeedNoToken(routes: seq<ApiRoute>, r: Request, csrfValid: bool)
    requires r.path == "/api/v1/auth/login"
             || (r.verb != "POST" && r.verb != "PUT" && r.verb != "PATCH" && r.verb != "DELETE")
    ensures Forwards(routes, r) <==> Forwards(routes, r.(csrfValid := csrfValid))
  {
  }

  /** A user who must change the password gets no further than three paths, and is treated like any
      other user there. */
  lemma PasswordChangeComesFirst(routes: seq<ApiRoute>, r: Request)
    requires r.mustChangePassword
    ensures Forwards(routes, r)
            <==> && Forwards(routes, r.(mustChangePassword := false))
                 && (|| r.path == "/api/v1/auth/me" || r.path == "/api/v1/auth/logout"
                     || r.path == "/api/v1/auth/password/change")
  {
  }

  // ----- validation carries over -----

  /** The table's own shadow check, with its exemption for routes behind public ones. */
  ghost predicate TableUnshadowed(routes: seq<ApiRoute>) {
    forall i, j :: 0 <= j < i < |routes| && !(routes[j].mode.Public? && !routes[i].mode.Public?)
                   ==> !Matches(routes[i].pattern, routes[j].pattern)
  }

  function Patterns(specs: seq<PermissionSpec>): seq<string> {
    seq(|specs|, i requires 0 <= i < |specs| => specs[i].pattern)
  }

  lemma {:induction false} SpecsComeFromRoutes(routes: seq<ApiRoute>, k: nat)
    requires k < |ProtectedSpecs(routes)|
    ensures exists i :: 0 <= i < |routes| && NeedsPermission(routes[i].mode)
              && routes[i].pattern == ProtectedSpecs(routes)[k].pattern
  {
    var head: nat := if NeedsPermission(routes[0].mode) then 1 else 0;
    if k >= head {
      assert ProtectedSpecs(routes)[k] == ProtectedSpecs(routes[1..])[k - head];
      SpecsComeFromRoutes(routes[1..], k - head);
      var i :| 0 <= i < |routes[1..]| && NeedsPermission(routes[1..][i].mode)
        && routes[1..][i].pattern == ProtectedSpecs(routes)[k].pattern;
      assert routes[i + 1] == routes[1..][i];
    }
  }

  lemma TailIsUnshadowed(routes: seq<ApiRoute>)
    requires TableUnshadowed(routes) && routes != []
    ensures TableUnshadowed(routes[1..])
  {
    var rest := routes[1..];
    forall i, j | 0 <= j < i < |rest| && !(rest[j].mode.Public? && !rest[i].mode.Public?)
      ensures !Matches(rest[i].pattern, rest[j].pattern)
    {
      assert rest[i] == routes[i + 1] && rest[j] == routes[j + 1];
    }
  }

  lemma HeadShadowsNone(routes: seq<ApiRoute>, k: nat)
    requires TableUnshadowed(routes) && routes != [] && NeedsPermission(routes[0].mode)
             && k < |ProtectedSpecs(routes[1..])|
    ensures !Matches(ProtectedSpecs(routes[1..])[k].pattern, routes[0].pattern)
  {
    var rest := routes[1..];
    SpecsComeFromRoutes(rest, k);
    var i :| 0 <= i < |rest| && NeedsPermission(rest[i].mode) && rest[i].pattern == ProtectedSpecs(rest)[k].pattern;
    assert rest[i] == routes[i + 1];
  }

  /** None of the paths fits the pattern. */
  ghost predicate NoneFits(paths: seq<string>, pattern: string) {
    forall k :: 0 <= k < |paths| ==> !Matches(paths[k], pattern)
  }

  lemma PrependKeepsUnshadowed(head: string, rest: seq<string>)
    requires Unshadowed(rest) && NoneFits(rest, head)
    ensures Unshadowed([head] + rest)
  {
    var all := [head] + rest;
    forall i, j | 0 <= j < i < |all|
      ensures !Matches(all[i], all[j])
    {
      assert all[i] == rest[i - 1];
      if j > 0 { assert all[j] == rest[j - 1]; }
    }
  }

  lemma DerivedTailFitsNone(routes: seq<ApiRoute>)
    requires TableUnshadowed(routes) && routes != [] && NeedsPermission(routes[0].mode)
    ensures NoneFits(Patterns(ProtectedSpecs(routes[1..])), routes[0].pattern)
  {
    forall k: nat | k < |ProtectedSpecs(routes[1..])|
      ensures !Matches(Patterns(ProtectedSpecs(routes[1..]))[k], routes[0].pattern)
    {
      HeadShadowsNone(routes, k);
    }
  }

  lemma PatternsOfCons(routes: seq<ApiRoute>)
    requires routes != []
    ensures var rest := Patterns(ProtectedSpecs(routes[1..]));
            Patterns(ProtectedSpecs(routes))
            == if NeedsPermission(routes[0].mode) then [routes[0].pattern] + rest else rest
  {
  }

  /** If the full table passes its shadow check, so does the registry derived from it. */
  lemma {:induction false} DerivedRegistryIsUnshadowed(routes: seq<ApiRoute>)
    requires TableUnshadowed(routes)
    ensures Unshadowed(Patterns(ProtectedSpecs(routes)))
  {
    if routes != [] {
      TailIsUnshadowed(routes);
      DerivedRegistryIsUnshadowed(routes[1..]);
      PatternsOfCons(routes);
      if NeedsPermission(routes[0].mode) {
        DerivedTailFitsNone(routes);
        PrependKeepsUnshadowed(routes[0].pattern, Patterns(ProtectedSpecs(routes[1..])));
      }
    }
  }
}
