/**
  The redirect-chain resolver of the documentation link check. `slug`, which normalizes a URL path, is a
  parameter of the site; everything else is as the resolver computes it.
 */
module Redirects {
  import opened Wrappers

  datatype Redirect = Redirect(source: string, destination: string)

  datatype Site = Site(slug: string -> string, pages: set<string>, redirects: seq<Redirect>)

  const MARKER := "/:path*"
  const PARAM := ":path*"

  predicate StartsWith(s: string, p: string) {
    p <= s
  }

  predicate EndsWith(s: string, p: string) {
    |p| <= |s| && s[|s| - |p|..] == p
  }

  /** The first occurrence of PARAM is replaced; without one the text is unchanged. */
  function ReplaceParam(s: string, text: string): string {
    if |s| < |PARAM| then s
    else if s[..|PARAM|] == PARAM then text + s[|PARAM|..]
    else [s[0]] + ReplaceParam(s[1..], text)
  }

  function DropSlash(s: string): string {
    if s != "" && s[0] == '/' then s[1..] else s
  }

  predicate IsWildcard(r: Redirect) {
    EndsWith(r.source, MARKER)
  }

  /** Where one rule sends path, if it applies. */
  function RedirectTarget(site: Site, path: string, r: Redirect): Option<string> {
    if IsWildcard(r) then
      var prefix := r.source[..|r.source| - |MARKER|];
      if path != prefix && !StartsWith(path, prefix + "/") then None
      else Some(ReplaceParam(r.destination, DropSlash(path[|prefix|..])))
    else if site.slug(r.source) == path then Some(r.destination)
    else None
  }

  /** A destination with a URL scheme leaves the site. */
  predicate IsExternal(s: string) {
    exists i | 1 <= i < |s| :: s[i] == ':' && Letter(s[0]) && forall j | 0 < j < i :: SchemeChar(s[j])
  }

  predicate Letter(c: char) {
    'a' <= c <= 'z' || 'A' <= c <= 'Z'
  }

  predicate SchemeChar(c: char) {
    Letter(c) || '0' <= c <= '9' || c in "+.-"
  }

  /** The first rule, in declaration order, that applies. */
  function FirstMatch(site: Site, path: string, rules: seq<Redirect>): (m: Option<(Redirect, string)>)
    ensures m.Some? ==> m.value.0 in rules && RedirectTarget(site, path, m.value.0) == Some(m.value.1)
  {
    if rules == [] then None
    else match RedirectTarget(site, path, rules[0])
      case Some(d) => Some((rules[0], d))
      case None => FirstMatch(site, path, rules[1..])
  }

  function Next(site: Site, path: string): Option<string> {
    match FirstMatch(site, path, site.redirects) case Some(m) => Some(m.1) case None => None
  }

  // ----- the reference: the deterministic chain of redirects

  /** One redirect that stays inside the site. */
  function Hop(site: Site, u: string): Option<string> {
    match Next(site, u)
    case None => None
    case Some(d) => if IsExternal(d) then None else Some(site.slug(d))
  }

  /** The chain from u makes n hops inside the site and then halts: no rule applies, and the page exists. */
  ghost predicate HaltsAfter(site: Site, u: string, n: nat)
    decreases n
  {
    if n == 0 then Next(site, u) == None && u in site.pages
    else match Hop(site, u)
      case None => false
      case Some(v) => HaltsAfter(site, v, n - 1)
  }

  ghost predicate HaltsAtPage(site: Site, u: string) {
    exists n: nat :: HaltsAfter(site, u, n)
  }

  // ----- termination

  /** A wildcard rule never sends a path to one at least as long. */
  ghost predicate Shortens(site: Site) {
    forall r, path: string | r in site.redirects && IsWildcard(r) && RedirectTarget(site, path, r).Some? ::
      |site.slug(RedirectTarget(site, path, r).value)| < |path|
  }

  function Literals(site: Site, rules: seq<Redirect>): set<string> {
    set r | r in rules && !IsWildcard(r) :: site.slug(r.source)
  }

  lemma {:induction false} StepDecreases(site: Site, target: string, seen: set<string>)
    requires Shortens(site) && target !in seen && FirstMatch(site, target, site.redirects).Some?
    ensures var d := FirstMatch(site, target, site.redirects).value.1;
      var before, after := Literals(site, site.redirects) - seen, Literals(site, site.redirects) - (seen + {target});
      after < before || (after == before && |site.slug(d)| < |target|)
  {
    var (r, d) := FirstMatch(site, target, site.redirects).value;
    var all := Literals(site, site.redirects);
    assert !IsWildcard(r) ==> site.slug(r.source) in all;
    if target in all {
      assert target in all - seen && target !in all - (seen + {target});
    } else {
      assert IsWildcard(r);
      assert all - (seen + {target}) == all - seen;
    }
  }

  /** The recursion of `resolves`, on the already normalized target. */
  ghost predicate Resolve(site: Site, target: string, seen: set<string>)
    requires Shortens(site)
    decreases Literals(site, site.redirects) - seen, |target|
  {
    if target in seen then false
    else
      match FirstMatch(site, target, site.redirects)
      case None => target in site.pages
      case Some(m) =>
        !IsExternal(m.1) && (StepDecreases(site, target, seen); Resolve(site, site.slug(m.1), seen + {target}))
  }
}
