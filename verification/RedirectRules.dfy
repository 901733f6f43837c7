/** What one redirect rule does to a path, which rule is taken, and what the website's own table comes to. */
module RedirectRules {
  import opened Wrappers
  import opened Redirects
  import opened RedirectProofs

  // ----- one rule

  /** PARAM occurs in s at position i. */
  predicate ParamAt(s: string, i: nat) {
    i + |PARAM| <= |s| && s[i..i + |PARAM|] == PARAM
  }

  /** The first PARAM of the text is the one between a and b. */
  ghost predicate FirstParam(a: string, b: string) {
    forall i: nat | i < |a| :: !ParamAt(a + PARAM + b, i)
  }

  /** The replacement puts the text where the first PARAM was and leaves what is around it. */
  lemma {:induction false} ReplacesFirst(a: string, b: string, text: string)
    requires FirstParam(a, b)
    ensures ReplaceParam(a + PARAM + b, text) == a + text + b
    decreases |a|
  {
    var s := a + PARAM + b;
    if a == "" {
      assert s[..|PARAM|] == PARAM && s[|PARAM|..] == b;
    } else {
      assert s[..|PARAM|] != PARAM by {
        assert !ParamAt(s, 0) && s[0..0 + |PARAM|] == s[..|PARAM|];
      }
      var s1 := a[1..] + PARAM + b;
      assert s[1..] == s1;
      forall i: nat | i < |a[1..]| ensures !ParamAt(s1, i) {
        assert !ParamAt(s, i + 1);
        assert i + |PARAM| <= |s1| ==> s1[i..i + |PARAM|] == s[i + 1..i + 1 + |PARAM|];
      }
      ReplacesFirst(a[1..], b, text);
      assert [s[0]] + (a[1..] + text + b) == a + text + b;
    }
  }

  lemma {:induction false} ReplacesNothing(s: string, text: string)
    requires forall i: nat | i < |s| :: !ParamAt(s, i)
    ensures ReplaceParam(s, text) == s
    decreases |s|
  {
    if |s| >= |PARAM| {
      assert !ParamAt(s, 0) && s[0..0 + |PARAM|] == s[..|PARAM|];
      forall i: nat | i < |s[1..]| ensures !ParamAt(s[1..], i) {
        assert !ParamAt(s, i + 1);
        assert i + |PARAM| <= |s[1..]| ==> s[1..][i..i + |PARAM|] == s[i + 1..i + 1 + |PARAM|];
      }
      ReplacesNothing(s[1..], text);
      assert [s[0]] + s[1..] == s;
    }
  }

  /** A wildcard rule applies to its prefix and to every path below it. It sends the prefix to its destination without
      the parameter, and a path below it to the destination with the rest of the path in the parameter's place. */
  lemma {:induction false} WildcardSends(site: Site, p: string, a: string, b: string, path: string, rest: string)
    requires FirstParam(a, b)
    ensures var r := Redirect(p + MARKER, a + PARAM + b);
      && (RedirectTarget(site, path, r).Some? <==> path == p || p + "/" <= path)
      && RedirectTarget(site, p, r) == Some(a + b)
      && RedirectTarget(site, p + "/" + rest, r) == Some(a + rest + b)
  {
    var r := Redirect(p + MARKER, a + PARAM + b);
    assert r.source[|p|..] == MARKER && r.source[..|p|] == p;
    ReplacesFirst(a, b, "");
    ReplacesFirst(a, b, rest);
    assert p[|p|..] == "" && a + "" + b == a + b;
    assert (p + "/" + rest)[|p|..] == "/" + rest && ("/" + rest)[1..] == rest;
    assert p + "/" <= p + "/" + rest;
    assert p != p + "/" + rest;
  }

  /** A wildcard rule without a parameter in its destination sends all these paths to the destination. */
  lemma {:induction false} WildcardWithoutParam(site: Site, p: string, d: string, path: string)
    requires forall i: nat | i < |d| :: !ParamAt(d, i)
    ensures RedirectTarget(site, path, Redirect(p + MARKER, d)) ==
              if path == p || p + "/" <= path then Some(d) else None
  {
    var r := Redirect(p + MARKER, d);
    assert r.source[|p|..] == MARKER && r.source[..|p|] == p;
    if path == p || p + "/" <= path {
      assert |p| <= |path|;
      ReplacesNothing(d, DropSlash(path[|p|..]));
    }
  }

  // ----- the rule taken

  /** The rule taken is the first that applies, wherever it stands; and none is taken if none applies. */
  lemma {:induction false} TakesFirst(site: Site, path: string, rules: seq<Redirect>, i: nat)
    requires i <= |rules| && (i < |rules| ==> RedirectTarget(site, path, rules[i]).Some?)
    requires forall j | 0 <= j < i :: RedirectTarget(site, path, rules[j]) == None
    ensures FirstMatch(site, path, rules) ==
              if i < |rules| then Some((rules[i], RedirectTarget(site, path, rules[i]).value)) else None
    decreases |rules|
  {
    if i > 0 {
      assert RedirectTarget(site, path, rules[0]) == None;
      TakesFirst(site, path, rules[1..], i - 1);
    }
  }

  /** A rule earlier in the list hides a later one, and a match hides the page. */
  lemma {:induction false} TakenDecides(site: Site, path: string, i: nat)
    requires i < |site.redirects| && RedirectTarget(site, path, site.redirects[i]).Some?
    requires forall j | 0 <= j < i :: RedirectTarget(site, path, site.redirects[j]) == None
    ensures var d := RedirectTarget(site, path, site.redirects[i]).value;
      HaltsAtPage(site, path) <==> !IsExternal(d) && HaltsAtPage(site, site.slug(d))
  {
    TakesFirst(site, path, site.redirects, i);
    HaltsUnfold(site, path);
  }

  // ----- external destinations

  /** A letter followed by letters, digits, plus, dot and hyphen. */
  predicate Scheme(t: string) {
    t != "" && Letter(t[0]) && forall j | 0 < j < |t| :: SchemeChar(t[j])
  }

  /** A destination is external exactly when it begins with a scheme and a colon; an absolute path never does. */
  lemma ExternalForm(s: string)
    ensures IsExternal(s) <==> exists n: nat :: n < |s| && Scheme(s[..n]) && s[n] == ':'
    ensures s != "" && s[0] == '/' ==> !IsExternal(s)
  {
    if i :| 1 <= i < |s| && s[i] == ':' && Letter(s[0]) && forall j | 0 < j < i :: SchemeChar(s[j]) {
      assert Scheme(s[..i]);
    }
    if n: nat :| n < |s| && Scheme(s[..n]) && s[n] == ':' {
      assert forall j | 0 < j < n :: SchemeChar(s[..n][j]) && s[..n][j] == s[j];
      assert s[..n][0] == s[0];
    }
  }

  // ----- the website's own table

  lemma {:induction false} DocsRule(site: Site, path: string)
    ensures RedirectTarget(site, path, Redirect("/docs/:path*", "/:path*")) ==
              if path == "/docs" then Some("/") else if "/docs/" <= path then Some("/" + path[6..]) else None
  {
    assert "/docs" + MARKER == "/docs/:path*" && "/" + PARAM + "" == "/:path*" && "/docs" + "/" == "/docs/";
    assert FirstParam("/", "") by {
      assert ("/" + PARAM + "")[0..0 + |PARAM|][0] == '/' && PARAM[0] == ':';
    }
    WildcardSends(site, "/docs", "/", "", path, if "/docs/" <= path then path[6..] else "");
    assert "/" + "" == "/";
    if "/docs/" <= path {
      assert path == "/docs" + "/" + path[6..];
      assert "/" + path[6..] + "" == "/" + path[6..];
    }
  }

  lemma LiteralRule(site: Site, path: string, r: Redirect)
    requires r in SiteRedirects() && r.source != "/docs/:path*"
    ensures RedirectTarget(site, path, r) == if site.slug(r.source) == path then Some(r.destination) else None
  {
    Literal("/docs", 's');
    Literal("/guides/cli-reference", 'e');
    Literal("/guides/tools-reference", 'e');
    Literal("/configuration/environment-variables", 's');
  }

  /** Where the website's table sends a path, if anywhere. */
  function SiteTarget(site: Site, path: string): Option<string> {
    if path == site.slug("/docs") || path == "/docs" then Some("/")
    else if "/docs/" <= path then Some("/" + path[6..])
    else if path == site.slug("/guides/cli-reference") then Some("/reference/cli")
    else if path == site.slug("/guides/tools-reference") then Some("/reference/tools")
    else if path == site.slug("/configuration/environment-variables") then Some("/reference/environment-variables")
    else None
  }

  /** What each rule of the website's table does to a path. */
  lemma {:induction false} SiteRules(site: Site, path: string)
    ensures var rules := SiteRedirects();
      && RedirectTarget(site, path, rules[0]) == (if site.slug("/docs") == path then Some("/") else None)
      && RedirectTarget(site, path, rules[1]) ==
           (if path == "/docs" then Some("/") else if "/docs/" <= path then Some("/" + path[6..]) else None)
      && RedirectTarget(site, path, rules[2]) ==
           (if site.slug("/guides/cli-reference") == path then Some("/reference/cli") else None)
      && RedirectTarget(site, path, rules[3]) ==
           (if site.slug("/guides/tools-reference") == path then Some("/reference/tools") else None)
      && RedirectTarget(site, path, rules[4]) ==
           (if site.slug("/configuration/environment-variables") == path
            then Some("/reference/environment-variables") else None)
  {
    var rules := SiteRedirects();
    DocsRule(site, path);
    LiteralRule(site, path, rules[0]);
    LiteralRule(site, path, rules[2]);
    LiteralRule(site, path, rules[3]);
    LiteralRule(site, path, rules[4]);
  }

  /** The index of the rule of the website's table that a path takes, or 5. */
  function SiteIndex(site: Site, path: string): nat {
    if site.slug("/docs") == path then 0
    else if path == "/docs" || "/docs/" <= path then 1
    else if site.slug("/guides/cli-reference") == path then 2
    else if site.slug("/guides/tools-reference") == path then 3
    else if site.slug("/configuration/environment-variables") == path then 4
    else 5
  }

  lemma {:induction false} SiteNext(site: Site, path: string)
    requires site.redirects == SiteRedirects()
    ensures Next(site, path) == SiteTarget(site, path)
  {
    SiteRules(site, path);
    TakesFirst(site, path, SiteRedirects(), SiteIndex(site, path));
  }

  /** The website's table in words: /docs and what is below it loses the prefix, three pages have moved, and every other
      path is right exactly when it is a page. */
  lemma {:induction false} SiteTableMeans(site: Site, path: string)
    requires site.redirects == SiteRedirects()
    ensures HaltsAtPage(site, path) <==>
              match SiteTarget(site, path)
              case Some(d) => HaltsAtPage(site, site.slug(d))
              case None => path in site.pages
  {
    SiteNext(site, path);
    HaltsUnfold(site, path);
  }

  /** A path below /docs is right exactly when the path without the prefix is. */
  lemma {:induction false} DocsPrefixIsDropped(site: Site, rest: string)
    requires site.redirects == SiteRedirects() && site.slug("/docs") != "/docs/" + rest
    ensures HaltsAtPage(site, "/docs/" + rest) <==> HaltsAtPage(site, site.slug("/" + rest))
  {
    SiteTableMeans(site, "/docs/" + rest);
    assert ("/docs/" + rest)[6..] == rest;
  }
}
