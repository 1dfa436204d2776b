/**
 * The robots.txt generator (`buildRobotsTxt`): three directives in the
 * syntax of section 2.2 of RFC 9309 that admit every crawler to the whole
 * site and name the sitemap's location.
 */
module Robots {
  import opened Text

  const UserAgentLine: string := "User-agent: *"
  const AllowLine: string := "Allow: /"
  const SitemapPrefix: string := "Sitemap: "

  /** Where the sitemap of the site at `base` is published. */
  function SitemapUrl(base: string): string
  {
    base + "/sitemap.xml"
  }

  /** `buildRobotsTxt(base)`. */
  function BuildRobotsTxt(base: string): (txt: string)
    ensures EndsWith(txt, SitemapUrl(base))
  {
    var txt := UserAgentLine + "\n" + AllowLine + "\n" + SitemapPrefix + SitemapUrl(base);
    assert txt[|txt| - |SitemapUrl(base)|..] == SitemapUrl(base);
    txt
  }

  /** The text always names the sitemap URL, which is what the in-file diagnostics check. */
  lemma RobotsNamesSitemap(base: string)
    ensures Contains(BuildRobotsTxt(base), SitemapUrl(base))
  {
    var txt := BuildRobotsTxt(base);
    assert OccursAt(txt, SitemapUrl(base), |txt| - |SitemapUrl(base)|);
  }

  /**
   * Read line by line, the text is exactly the three directives, the last
   * one carrying the sitemap URL, as long as `base` holds no line break
   * (an origin never does; nothing is escaped).
   */
  lemma RobotsLines(base: string)
    requires '\n' !in base
    ensures Split(BuildRobotsTxt(base), '\n') == [UserAgentLine, AllowLine, SitemapPrefix + SitemapUrl(base)]
  {
    var lines := [UserAgentLine, AllowLine, SitemapPrefix + SitemapUrl(base)];
    assert '\n' !in SitemapUrl(base);
    assert Join(lines, "\n") == BuildRobotsTxt(base) by {
      assert Join(lines[2..], "\n") == lines[2];
      assert Join(lines[1..], "\n") == lines[1] + "\n" + lines[2];
    }
    SplitJoin(lines, '\n');
  }
}
