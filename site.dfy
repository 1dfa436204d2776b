/**
 * The site's own use of the helpers: the six sections it links to, the
 * "Generate sitemap.xml" and "Generate robots.txt" actions, which fall back
 * to https://example.com when the page has no origin, and the in-page
 * diagnostics (`runTests`) shown in developer mode.
 */
module Site {
  import opened Wrappers
  import opened Text
  import Sitemap
  import Robots
  import Seo

  const ExampleBase: string := "https://example.com"

  /** The section fragments listed in the sitemap, in page order. */
  const SiteHashes: seq<string> := ["#home", "#listings", "#process", "#blog", "#service-areas", "#contact"]

  /** The navigation routes: the same fragments, with the labels the menu shows. */
  const SiteRoutes: seq<Seo.Route> := [
    Seo.Route("#home", "Home"), Seo.Route("#listings", "Listings"), Seo.Route("#process", "Process"),
    Seo.Route("#blog", "Insights"), Seo.Route("#service-areas", "Service Areas"), Seo.Route("#contact", "Contact")]

  /** `window.location.origin || "https://example.com"`: an empty origin is falsy. */
  function BaseFor(origin: string): (base: string)
    ensures base != ""
    ensures origin != "" ==> base == origin
    ensures origin == "" ==> base == ExampleBase
  {
    if origin != "" then origin else ExampleBase
  }

  /** The text `generateSitemap` downloads as sitemap.xml. */
  function GenerateSitemap(origin: string): (xml: string)
    ensures StartsWith(xml, Sitemap.Header) && EndsWith(xml, Sitemap.Footer)
  {
    Sitemap.BuildSitemapXml(BaseFor(origin), SiteHashes)
  }

  /** The text `generateRobots` downloads as robots.txt. */
  function GenerateRobots(origin: string): (txt: string)
    ensures EndsWith(txt, Robots.SitemapUrl(if origin == "" then ExampleBase else origin))
  {
    Robots.BuildRobotsTxt(BaseFor(origin))
  }

  /**
   * The downloaded sitemap lists each of the six sections once, in page
   * order, under the page's origin (or the fallback), and the downloaded
   * robots.txt points at a sitemap under that same base.
   */
  lemma GeneratedFilesAgree(origin: string)
    requires '<' !in origin
    ensures Sitemap.ParseSitemap(GenerateSitemap(origin)) == Some(Sitemap.Locs(BaseFor(origin), SiteHashes))
    ensures |Sitemap.Locs(BaseFor(origin), SiteHashes)| == 6
    ensures Count(GenerateSitemap(origin), Sitemap.UrlTag) == 6
    ensures EndsWith(GenerateRobots(origin), Robots.SitemapUrl(BaseFor(origin)))
  {
    var base := BaseFor(origin);
    assert '<' !in base by {
      if origin == "" {
        assert base == ExampleBase;
      }
    }
    HashesUntagged();
    Sitemap.SitemapRoundTrip(base, SiteHashes);
    CountWithoutChar(base, Sitemap.UrlTag, '<');
    CountZeroIff(base, Sitemap.UrlTag);
    Sitemap.UrlCountMatchesIff(base, SiteHashes);
  }

  /** No section fragment holds a `<`, so none can hold a `<url>` either. */
  lemma HashesUntagged()
    ensures forall k :: 0 <= k < |SiteHashes| ==> '<' !in SiteHashes[k]
    ensures forall k :: 0 <= k < |SiteHashes| ==> !Contains(SiteHashes[k], Sitemap.UrlTag)
    ensures Sitemap.UrlTag[0] == '<'
  {
    assert Sitemap.UrlTag[0] == '<';
    forall k | 0 <= k < |SiteHashes| ensures !Contains(SiteHashes[k], Sitemap.UrlTag) {
      CountWithoutChar(SiteHashes[k], Sitemap.UrlTag, '<');
      CountZeroIff(SiteHashes[k], Sitemap.UrlTag);
    }
  }

  /** The breadcrumb trail and the sitemap name the same pages in the same order. */
  lemma BreadcrumbsMatchSitemap(origin: string)
    ensures Seo.Paths(SiteRoutes) == SiteHashes
    ensures forall i :: 0 <= i < 6 ==>
      Seo.Breadcrumbs(origin, SiteRoutes)[i].item == Sitemap.Locs(origin, SiteHashes)[i]
  {
    assert Seo.Paths(SiteRoutes) == SiteHashes;
    Seo.BreadcrumbsFollowSitemap(origin, SiteRoutes);
  }

  /** One line of the diagnostics panel; the `details` text it also shows is not modelled. */
  datatype TestResult = TestResult(name: string, pass: bool)

  /** `runTests()`: three checks of the helpers against https://example.com and the six sections. */
  function RunTests(): (r: seq<TestResult>)
    ensures |r| == 3
    ensures r[0].name == "sitemap contains <urlset>" && r[1].name == "sitemap url count matches"
    ensures r[2].name == "robots includes sitemap line"
  {
    var xml := Sitemap.BuildSitemapXml(ExampleBase, SiteHashes);
    var robots := Robots.BuildRobotsTxt(ExampleBase);
    [ TestResult("sitemap contains <urlset>", Contains(xml, "<urlset")),
      TestResult("sitemap url count matches", Count(xml, Sitemap.UrlTag) == |SiteHashes|),
      TestResult("robots includes sitemap line", Contains(robots, ExampleBase + "/sitemap.xml")) ]
  }

  /** Every diagnostic passes. */
  lemma RunTestsPass()
    ensures |RunTests()| == 3
    ensures forall i :: 0 <= i < |RunTests()| ==> RunTests()[i].pass
  {
    var xml := Sitemap.BuildSitemapXml(ExampleBase, SiteHashes);
    var robots := Robots.BuildRobotsTxt(ExampleBase);
    UrlsetPresent(ExampleBase, SiteHashes);
    assert Count(xml, Sitemap.UrlTag) == |SiteHashes| by {
      GeneratedFilesAgree(ExampleBase);
    }
    assert Contains(robots, ExampleBase + "/sitemap.xml") by {
      Robots.RobotsNamesSitemap(ExampleBase);
    }
  }

  /** Every sitemap opens its root element right after the XML declaration and its newline. */
  lemma UrlsetPresent(base: string, hashes: seq<string>)
    ensures Contains(Sitemap.BuildSitemapXml(base, hashes), "<urlset")
  {
    var xml := Sitemap.BuildSitemapXml(base, hashes);
    var at := |Sitemap.XmlDeclaration| + 1;
    HeaderOpensUrlset();
    assert xml[..|Sitemap.Header|] == Sitemap.Header;
    assert xml[at..at + 7] == Sitemap.Header[at..at + 7];
    assert OccursAt(xml, "<urlset", at);
  }

  lemma HeaderOpensUrlset()
    ensures |Sitemap.Header| >= |Sitemap.XmlDeclaration| + 8
    ensures Sitemap.Header[|Sitemap.XmlDeclaration| + 1..|Sitemap.XmlDeclaration| + 8] == "<urlset"
  {
    var a := Sitemap.XmlDeclaration + "\n";
    var b := "<urlset xmlns=\"";
    var c := Sitemap.SitemapNamespace + "\">" + "\n";
    assert Sitemap.Header == a + b + c;
    assert (a + b + c)[|a|..|a| + 7] == b[..7];
  }
}
