/** The `authorized` callback of auth.config.ts, which the middleware runs on
    every request: an unauthenticated request for a protected path is
    refused; otherwise a browser without a `sessionCartId` cookie is given a
    fresh one. */
module AuthConfig {
  import opened Strings

  /** The protected-path patterns. None is anchored, so each regular
      expression matches exactly the paths that contain its literal text
      (`/\/user\/(.*)/` matches any path containing "/user/"). */
  const ProtectedPatterns: seq<string> :=
    ["/shipping-address", "/payment-method", "/place-order", "/profile", "/user/", "/order/", "/admin"]

  /** `protectedPaths.some(path => path.test(pathname))`, by search. */
  function IsProtected(pathname: string): (b: bool)
    ensures b <==> exists k :: 0 <= k < |ProtectedPatterns| && Contains(pathname, ProtectedPatterns[k])
  {
    exists k :: 0 <= k < |ProtectedPatterns| && Includes(pathname, ProtectedPatterns[k])
  }

  /** What the callback returns: `false`, `true`, or a response that sets a
      new `sessionCartId` cookie. */
  datatype Decision = Deny | Allow | AllowSettingCartCookie(sessionCartId: string)

  /** `authorized`. `authenticated` says whether a session exists;
      `hasCartCookie` whether the request carries a `sessionCartId` cookie;
      `freshId` is the value `crypto.randomUUID()` would produce. */
  function Authorized(pathname: string, authenticated: bool, hasCartCookie: bool, freshId: string): (d: Decision)
    ensures d == Deny <==>
              !authenticated && exists k :: 0 <= k < |ProtectedPatterns| && Contains(pathname, ProtectedPatterns[k])
    ensures authenticated ==> d != Deny
    ensures d != Deny ==> (d == Allow <==> hasCartCookie)
    ensures d.AllowSettingCartCookie? ==> d.sessionCartId == freshId
  {
    if !authenticated && IsProtected(pathname) then Deny
    else if !hasCartCookie then AllowSettingCartCookie(freshId)
    else Allow
  }

  /** The path check comes first: an unauthenticated request for a path that
      contains a protected pattern anywhere is refused, cookie or not. */
  lemma ProtectedDeniedWithoutSession(pathname: string, prefix: string, k: nat, suffix: string, hasCartCookie: bool, freshId: string)
    requires k < |ProtectedPatterns| && pathname == prefix + ProtectedPatterns[k] + suffix
    ensures Authorized(pathname, false, hasCartCookie, freshId) == Deny
  {
    var pattern := ProtectedPatterns[k];
    assert pathname[|prefix|..|prefix| + |pattern|] == pattern;
    assert OccursAt(pathname, pattern, |prefix|);
  }

  /** An anonymous visitor is refused "/order/abc", with or without a cookie. */
  lemma ExampleOrderPage()
    ensures Authorized("/order/abc", false, true, "x") == Deny
    ensures Authorized("/order/abc", false, false, "x") == Deny
  {
    ProtectedDeniedWithoutSession("/order/abc", "", 5, "abc", true, "x");
    ProtectedDeniedWithoutSession("/order/abc", "", 5, "abc", false, "x");
  }

  /** The pattern need not start the path. */
  lemma ExampleNestedAdmin()
    ensures Authorized("/en/admin/users", false, false, "x") == Deny
  {
    ProtectedDeniedWithoutSession("/en/admin/users", "/en", 6, "/users", false, "x");
  }

  /** "/cart" is public: a visitor without a cookie gets one. */
  lemma ExampleCart()
    ensures Authorized("/cart", false, false, "x") == AllowSettingCartCookie("x")
  {
    forall k | 0 <= k < |ProtectedPatterns| ensures !Contains("/cart", ProtectedPatterns[k]) {
      TooLongNotContained("/cart", ProtectedPatterns[k]);
    }
  }

  /** "/user" without the trailing slash is not protected. */
  lemma ExampleUserWithoutSlash()
    ensures Authorized("/user", false, true, "x") == Allow
  {
    forall k | 0 <= k < |ProtectedPatterns| ensures !Contains("/user", ProtectedPatterns[k]) {
      TooLongNotContained("/user", ProtectedPatterns[k]);
    }
  }

  lemma TooLongNotContained(s: string, t: string)
    requires |t| > |s|
    ensures !Contains(s, t)
  {
  }
}
