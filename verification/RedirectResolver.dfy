/** `resolves` as it runs: recursion over a set of seen targets that all calls share. */
module RedirectResolver {
  import opened Wrappers
  import opened Redirects
  import opened RedirectProofs

  class SeenSet {
    var items: set<string>

    constructor ()
      ensures items == {}
    {
      items := {};
    }
  }

  /** Follows redirects and records every target in the shared set. */
  method Resolves(site: Site, path: string, seen: SeenSet) returns (ok: bool)
    requires Shortens(site)
    modifies seen
    ensures ok == Resolve(site, site.slug(path), old(seen.items))
    ensures old(seen.items) == {} ==> (ok <==> HaltsAtPage(site, site.slug(path)))
    ensures old(seen.items) <= seen.items && site.slug(path) in seen.items
    decreases Literals(site, site.redirects) - seen.items, |site.slug(path)|
  {
    ResolverExact(site, path);
    var target := site.slug(path);
    if target in seen.items {
      return false;
    }
    ghost var before := seen.items;
    seen.items := seen.items + {target};
    var i := 0;
    while i < |site.redirects|
      invariant i <= |site.redirects|
      invariant FirstMatch(site, target, site.redirects) == FirstMatch(site, target, site.redirects[i..])
      invariant seen.items == before + {target}
    {
      var destination := RedirectTarget(site, target, site.redirects[i]);
      if destination.Some? {
        StepDecreases(site, target, before);
        if IsExternal(destination.value) {
          return false;
        }
        ok := Resolves(site, destination.value, seen);
        return ok;
      }
      i := i + 1;
    }
    return target in site.pages;
  }
}
