/** The resolver answers exactly the question "does the redirect chain halt at an existing page?". */
module RedirectProofs {
  import opened Wrappers
  import opened Redirects

  /** v is reached from u in exactly n hops. */
  ghost predicate Reaches(site: Site, u: string, v: string, n: nat)
    decreases n
  {
    if n == 0 then u == v
    else match Hop(site, u)
      case None => false
      case Some(w) => Reaches(site, w, v, n - 1)
  }

  lemma {:induction false} ReachesFurther(site: Site, u: string, v: string, w: string, n: nat)
    requires Reaches(site, u, v, n) && Hop(site, v) == Some(w)
    ensures Reaches(site, u, w, n + 1)
    decreases n
  {
    if n == 0 {
      assert Reaches(site, w, w, 0);
    } else {
      ReachesFurther(site, Hop(site, u).value, v, w, n - 1);
    }
  }

  /** Whatever the chain passes through lies on the same halting chain. */
  lemma {:induction false} HaltsThrough(site: Site, u: string, v: string, n: nat, c: nat)
    requires HaltsAfter(site, u, n) && Reaches(site, u, v, c)
    ensures c <= n && HaltsAfter(site, v, n - c)
    decreases c
  {
    if c > 0 {
      if n > 0 {
        HaltsThrough(site, Hop(site, u).value, v, n - 1, c - 1);
      }
    }
  }

  /** A chain that returns to its start never halts. */
  lemma {:induction false} LoopNeverHalts(site: Site, u: string, c: nat, n: nat)
    requires c > 0 && Reaches(site, u, u, c)
    ensures !HaltsAfter(site, u, n)
    decreases n
  {
    if HaltsAfter(site, u, n) {
      HaltsThrough(site, u, u, n, c);
      LoopNeverHalts(site, u, c, n - c);
    }
  }

  lemma HaltsUnfold(site: Site, u: string)
    ensures Hop(site, u).Some? ==> (HaltsAtPage(site, u) <==> HaltsAtPage(site, Hop(site, u).value))
    ensures Hop(site, u).None? ==> (HaltsAtPage(site, u) <==> Next(site, u) == None && u in site.pages)
  {
    match Hop(site, u)
    case None =>
      assert forall n: nat :: HaltsAfter(site, u, n) ==> n == 0;
      assert HaltsAfter(site, u, 0) <==> Next(site, u) == None && u in site.pages;
    case Some(v) =>
      if n: nat :| HaltsAfter(site, u, n) {
        assert HaltsAfter(site, v, n - 1);
      }
      if n: nat :| HaltsAfter(site, v, n) {
        assert HaltsAfter(site, u, n + 1);
      }
  }

  ghost predicate ReachesAfterHops(site: Site, u: string, v: string) {
    exists c: nat :: c > 0 && Reaches(site, u, v, c)
  }

  /** Everything seen so far led here. */
  ghost predicate LedHere(site: Site, seen: set<string>, target: string) {
    forall u | u in seen :: ReachesAfterHops(site, u, target)
  }

  lemma LedFurther(site: Site, seen: set<string>, target: string)
    requires LedHere(site, seen, target) && Hop(site, target).Some?
    ensures LedHere(site, seen + {target}, Hop(site, target).value)
  {
    var next := Hop(site, target).value;
    forall u | u in seen + {target} ensures ReachesAfterHops(site, u, next) {
      if u in seen {
        var c: nat :| c > 0 && Reaches(site, u, target, c);
        ReachesFurther(site, u, target, next, c);
      } else {
        ReachesFurther(site, target, target, next, 0);
      }
    }
  }

  lemma {:induction false} ResolveFollowsChain(site: Site, target: string, seen: set<string>)
    requires Shortens(site) && LedHere(site, seen, target)
    ensures Resolve(site, target, seen) <==> HaltsAtPage(site, target)
    decreases Literals(site, site.redirects) - seen, |target|
  {
    if target in seen {
      var c: nat :| c > 0 && Reaches(site, target, target, c);
      forall n: nat ensures !HaltsAfter(site, target, n) {
        LoopNeverHalts(site, target, c, n);
      }
    } else {
      HaltsUnfold(site, target);
      if Hop(site, target).Some? {
        LedFurther(site, seen, target);
        StepDecreases(site, target, seen);
        ResolveFollowsChain(site, Hop(site, target).value, seen + {target});
      }
    }
  }

  /** For every site whose wildcard rules shorten the path: the resolver, which always terminates there, returns
      true exactly when the redirect chain of the path halts at an existing page. It returns false for cycles,
      external destinations and missing pages. */
  lemma {:induction false} ResolverExact(site: Site, path: string)
    requires Shortens(site)
    ensures Resolve(site, site.slug(path), {}) <==> HaltsAtPage(site, site.slug(path))
  {
    ResolveFollowsChain(site, site.slug(path), {});
  }

  // ----- which lists shorten

  lemma {:induction false} ReplaceWhole(text: string)
    ensures ReplaceParam("/" + PARAM, text) == "/" + text
  {
    var s := "/" + PARAM;
    assert s[..|PARAM|][0] == '/' && PARAM[0] == ':';
    assert s[1..] == PARAM && PARAM[..|PARAM|] == PARAM && PARAM[|PARAM|..] == "";
    assert ReplaceParam(PARAM, text) == text + "" == text;
  }

  /** The legacy rule: a prefix of at least two characters in front of the wildcard, moved to the root. */
  predicate MovesToRoot(r: Redirect) {
    IsWildcard(r) && r.destination == "/" + PARAM && |r.source| >= |MARKER| + 2
  }

  /** Such rules shorten every path, if slug does not lengthen absolute paths. */
  lemma MovesToRootShortens(site: Site)
    requires forall p: string | p != "" && p[0] == '/' :: |site.slug(p)| <= |p|
    requires forall r | r in site.redirects && IsWildcard(r) :: MovesToRoot(r)
    ensures Shortens(site)
  {
    forall r, path: string | r in site.redirects && IsWildcard(r) && RedirectTarget(site, path, r).Some?
      ensures |site.slug(RedirectTarget(site, path, r).value)| < |path|
    {
      var n := |r.source| - |MARKER|;
      var rest := DropSlash(path[n..]);
      ReplaceWhole(rest);
      assert RedirectTarget(site, path, r).value == "/" + rest;
      assert |site.slug("/" + rest)| <= 1 + |rest|;
      if path != r.source[..n] {
        assert path[n] == '/' by {
          var p := r.source[..n] + "/";
          assert p <= path && p[n] == '/';
        }
      }
    }
  }

  /** The website's own table. */
  function SiteRedirects(): seq<Redirect> {
    [Redirect("/docs", "/"),
     Redirect("/docs/:path*", "/:path*"),
     Redirect("/guides/cli-reference", "/reference/cli"),
     Redirect("/guides/tools-reference", "/reference/tools"),
     Redirect("/configuration/environment-variables", "/reference/environment-variables")]
  }

  lemma OneWildcard(r: Redirect)
    requires r in SiteRedirects() && IsWildcard(r)
    ensures MovesToRoot(r)
  {
    Literal("/docs", 's');
    Literal("/guides/cli-reference", 'e');
    Literal("/guides/tools-reference", 'e');
    Literal("/configuration/environment-variables", 's');
  }

  lemma SiteTableShortens(site: Site)
    requires site.redirects == SiteRedirects()
    requires forall p: string | p != "" && p[0] == '/' :: |site.slug(p)| <= |p|
    ensures Shortens(site)
  {
    forall r | r in site.redirects && IsWildcard(r) ensures MovesToRoot(r) {
      OneWildcard(r);
    }
    MovesToRootShortens(site);
  }

  lemma Literal(s: string, last: char)
    requires s != "" && s[|s| - 1] == last && last != '*'
    ensures !EndsWith(s, MARKER)
  {
    assert |MARKER| <= |s| ==> s[|s| - |MARKER|..][|MARKER| - 1] == s[|s| - 1];
  }

  /** A list without wildcards always terminates. */
  lemma LiteralListsShorten(site: Site)
    requires forall r | r in site.redirects :: !IsWildcard(r)
    ensures Shortens(site)
  {
  }
}
