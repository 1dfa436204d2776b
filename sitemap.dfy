/**
 * The sitemap.xml generator of the site (`buildSitemapXml`): an XML document
 * in the sitemaps.org 0.9 format with one `<url>` block per page fragment,
 * in the order given. The text is assembled by plain string templating, so
 * nothing in `base` or the fragments is escaped.
 */
module Sitemap {
  import opened Wrappers
  import opened Text

  const XmlDeclaration: string := "<?xml version=\"1.0\" encoding=\"UTF-8\"?>"

  const SitemapNamespace: string := "http://www.sitemaps.org/schemas/sitemap/0.9"

  /** The XML declaration and the opening `urlset` element, each ending its line. */
  const Header: string := XmlDeclaration + "\n" + "<urlset xmlns=\"" + SitemapNamespace + "\">" + "\n"

  /** The newline after the last entry and the closing `urlset` element. */
  const Footer: string := "\n</urlset>"

  /** What precedes a location inside one `<url>` block. */
  const EntryOpen: string := "  " + UrlTag + "\n    <loc>"

  /** What follows a location: the fixed change frequency and priority, and the block's end. */
  const EntryClose: string := LocEnd + ChangeFreqLine + PriorityLine + UrlEnd

  const LocEnd: string := "</loc>\n"
  const ChangeFreqLine: string := "    <changefreq>weekly</changefreq>\n"
  const PriorityLine: string := "    <priority>0.8</priority>\n"
  const UrlEnd: string := "  </" + "url" + ">"

  /** The marker the in-file diagnostics count. */
  const UrlTag: string := "<" + "url" + ">"

  /** The absolute location of one fragment: `${base}/${h}`. */
  function Loc(base: string, hash: string): string
  {
    base + "/" + hash
  }

  /** `hashes.map((h) => `${base}/${h}`)`. */
  function Locs(base: string, hashes: seq<string>): seq<string>
  {
    seq(|hashes|, k requires 0 <= k < |hashes| => Loc(base, hashes[k]))
  }

  /** One `<url>` block for location `u`. */
  function UrlEntry(u: string): string
  {
    EntryOpen + u + EntryClose
  }

  /** `urls.map((u) => <one block>)`. */
  function UrlEntries(urls: seq<string>): seq<string>
  {
    seq(|urls|, k requires 0 <= k < |urls| => UrlEntry(urls[k]))
  }

  /** `buildSitemapXml(base, hashes)`: header, the blocks joined by newlines, footer. */
  function BuildSitemapXml(base: string, hashes: seq<string>): (xml: string)
    ensures StartsWith(xml, Header) && EndsWith(xml, Footer)
  {
    var body := Join(UrlEntries(Locs(base, hashes)), "\n");
    assert (Header + body + Footer)[..|Header|] == Header;
    assert (Header + body + Footer)[|Header + body|..] == Footer;
    Header + body + Footer
  }

  // ---- Reading a sitemap back ------------------------------------------------

  /**
   * Recovers the locations from a document of the shape BuildSitemapXml
   * writes; None when the text does not have that shape. A location ends at
   * the first `<`.
   */
  function ParseSitemap(xml: string): Option<seq<string>>
  {
    if !StartsWith(xml, Header) || |xml| < |Header| + |Footer| || !EndsWith(xml, Footer) then None
    else
      var body := xml[|Header|..|xml| - |Footer|];
      if body == "" then Some([]) else ParseUrls(body)
  }

  /** Reads one or more newline-separated `<url>` blocks. */
  function ParseUrls(s: string): Option<seq<string>>
    decreases |s|
  {
    if !StartsWith(s, EntryOpen) then None
    else
      var rest := s[|EntryOpen|..];
      var i := IndexOf(rest, '<');
      if i < 0 || !StartsWith(rest[i..], EntryClose) then None
      else
        var tail := rest[i + |EntryClose|..];
        if tail == "" then Some([rest[..i]])
        else if tail[0] != '\n' then None
        else match ParseUrls(tail[1..])
          case None => None
          case Some(us) => Some([rest[..i]] + us)
  }

  /**
   * The sitemap lists exactly the locations `base + "/" + hashes[k]`, in the
   * order of `hashes`: none dropped, none added, none reordered. This holds
   * whenever no location contains `<` (origins and fragment identifiers do
   * not); a `<` in a location would end it early, as nothing is escaped.
   */
  lemma SitemapRoundTrip(base: string, hashes: seq<string>)
    requires '<' !in base
    requires forall k :: 0 <= k < |hashes| ==> '<' !in hashes[k]
    ensures ParseSitemap(BuildSitemapXml(base, hashes)) == Some(Locs(base, hashes))
    ensures forall k :: 0 <= k < |hashes| ==> Locs(base, hashes)[k] == base + "/" + hashes[k]
  {
    var urls := Locs(base, hashes);
    var body := Join(UrlEntries(urls), "\n");
    var xml := BuildSitemapXml(base, hashes);
    assert xml[|Header|..|xml| - |Footer|] == body;
    if |hashes| > 0 {
      forall k | 0 <= k < |urls| ensures '<' !in urls[k] {
        assert urls[k] == (base + "/") + hashes[k];
      }
      ParseUrlsJoin(urls);
    }
  }

  lemma {:induction false} ParseUrlsJoin(urls: seq<string>)
    requires |urls| >= 1
    requires forall k :: 0 <= k < |urls| ==> '<' !in urls[k]
    ensures ParseUrls(Join(UrlEntries(urls), "\n")) == Some(urls)
  {
    var entries := UrlEntries(urls);
    if |urls| == 1 {
      assert Join(entries, "\n") == UrlEntry(urls[0]);
      ParseLastEntry(urls[0]);
      assert urls == [urls[0]];
    } else {
      assert urls == [urls[0]] + urls[1..];
      assert entries[1..] == UrlEntries(urls[1..]);
      var t := Join(entries[1..], "\n");
      assert Join(entries, "\n") == UrlEntry(urls[0]) + "\n" + t;
      ParseUrlsJoin(urls[1..]);
      ParseNextEntry(urls[0], t, urls[1..]);
    }
  }

  lemma ParseLastEntry(u: string)
    requires '<' !in u
    ensures ParseUrls(UrlEntry(u)) == Some([u])
  {
    EntryFields(u, "");
    assert UrlEntry(u) + "" == UrlEntry(u);
  }

  lemma ParseNextEntry(u: string, t: string, us: seq<string>)
    requires '<' !in u
    requires ParseUrls(t) == Some(us)
    ensures ParseUrls(UrlEntry(u) + "\n" + t) == Some([u] + us)
  {
    EntryFields(u, "\n" + t);
    assert UrlEntry(u) + "\n" + t == UrlEntry(u) + ("\n" + t);
    assert ("\n" + t)[1..] == t;
  }

  /** Reading the block for `u` finds `u` and stops right after the block, leaving `t`. */
  lemma EntryFields(u: string, t: string)
    requires '<' !in u
    ensures var s := UrlEntry(u) + t;
      && StartsWith(s, EntryOpen)
      && IndexOf(s[|EntryOpen|..], '<') == |u|
      && StartsWith(s[|EntryOpen|..][|u|..], EntryClose)
      && s[|EntryOpen|..][..|u|] == u
      && s[|EntryOpen|..][|u| + |EntryClose|..] == t
  {
    var s := UrlEntry(u) + t;
    var rest := s[|EntryOpen|..];
    assert s[..|EntryOpen|] == EntryOpen;
    assert rest == u + EntryClose + t;
    assert rest[..|u|] == u;
    assert rest[|u|..] == EntryClose + t;
    assert EntryClose[0] == '<';
    assert rest[|u|] == '<';
    assert rest[..|u| + 1] == u + ['<'];
    assert (EntryClose + t)[..|EntryClose|] == EntryClose;
  }

  // ---- Counting `<url>` markers ---------------------------------------------

  /** The number of `<url>` markers in all of `parts` together. */
  function UrlTagsIn(parts: seq<string>): nat
  {
    if |parts| == 0 then 0 else Count(parts[0], UrlTag) + UrlTagsIn(parts[1..])
  }

  /**
   * The count of `<url>` markers that the in-file diagnostics compare with
   * the number of fragments: one per entry, plus every `<url>` carried by
   * the unescaped base (once per entry) and by the fragments themselves.
   */
  lemma SitemapUrlTagCount(base: string, hashes: seq<string>)
    ensures Count(BuildSitemapXml(base, hashes), UrlTag) == |hashes| * (1 + Count(base, UrlTag)) + UrlTagsIn(hashes)
  {
    var body := Join(UrlEntries(Locs(base, hashes)), "\n");
    HeaderFooterUntagged();
    CountConcat(Header, body, UrlTag);
    CountConcat(Header + body, Footer, UrlTag);
    JoinLinesTagCount(UrlEntries(Locs(base, hashes)));
    EntriesTagCount(base, hashes);
  }

  /** The marker count matches the fragment count exactly when no location holds a `<url>` of its own. */
  lemma UrlCountMatchesIff(base: string, hashes: seq<string>)
    ensures Count(BuildSitemapXml(base, hashes), UrlTag) == |hashes|
        <==> (|hashes| == 0 || !Contains(base, UrlTag))
             && forall k :: 0 <= k < |hashes| ==> !Contains(hashes[k], UrlTag)
  {
    SitemapUrlTagCount(base, hashes);
    var c := Count(base, UrlTag);
    assert |hashes| * (1 + c) == |hashes| + |hashes| * c;
    assert |hashes| * c == 0 <==> |hashes| == 0 || c == 0;
    CountZeroIff(base, UrlTag);
    UrlTagsInZero(hashes);
  }

  lemma {:induction false} UrlTagsInZero(parts: seq<string>)
    ensures UrlTagsIn(parts) == 0 <==> forall k :: 0 <= k < |parts| ==> !Contains(parts[k], UrlTag)
  {
    if |parts| > 0 {
      CountZeroIff(parts[0], UrlTag);
      UrlTagsInZero(parts[1..]);
      assert forall k :: 1 <= k < |parts| ==> parts[k] == parts[1..][k - 1];
    }
  }

  lemma HeaderFooterUntagged()
    ensures Count(Header, UrlTag) == 0 && Count(Footer, UrlTag) == 0
    ensures Header[|Header| - 1] == '\n' && Footer[0] == '\n'
  {
    var a := XmlDeclaration + "\n" + "<urlset xmlns=\"";
    var b := SitemapNamespace + "\">" + "\n";
    HeaderStartUntagged();
    NamespaceUntagged();
    assert Header == a + b;
    CountConcat(a, b, UrlTag);
    FooterUntagged();
  }

  lemma HeaderStartUntagged()
    ensures Count(XmlDeclaration + "\n" + "<urlset xmlns=\"", UrlTag) == 0
  {
    var a := XmlDeclaration + "\n";
    var b := "<urlset xmlns=\"";
    assert Count(a, UrlTag) == 0 by { CountWithoutChar(a, UrlTag, 'u'); }
    assert Count(b, UrlTag) == 0 by { CountWithoutChar(b, UrlTag, '>'); }
    CountConcat(a, b, UrlTag);
  }

  lemma NamespaceUntagged()
    ensures Count(SitemapNamespace + "\">" + "\n", UrlTag) == 0
  {
    assert '<' !in SitemapNamespace;
    CountWithoutChar(SitemapNamespace + "\">" + "\n", UrlTag, '<');
  }

  lemma FooterUntagged()
    ensures Count(Footer, UrlTag) == 0
  {
    assert Footer == "\n</urls" + "et>";
    CountWithoutChar("\n</urls", UrlTag, '>');
    CountWithoutChar("et>", UrlTag, '<');
    CountConcat("\n</urls", "et>", UrlTag);
  }

  /** Each block contributes its own marker and whatever its location holds. */
  lemma EntryTagCount(u: string)
    ensures Count(UrlEntry(u), UrlTag) == 1 + Count(u, UrlTag)
  {
    EntryOpenTagged();
    EntryCloseUntagged();
    CountConcat(EntryOpen, u, UrlTag);
    CountConcat(EntryOpen + u, EntryClose, UrlTag);
  }

  lemma EntryOpenTagged()
    ensures Count(EntryOpen, UrlTag) == 1 && EntryOpen[|EntryOpen| - 1] == '>'
  {
    assert Count("  ", UrlTag) == 0 by { CountWithoutChar("  ", UrlTag, '<'); }
    assert Count("\n    <loc>", UrlTag) == 0 by { CountWithoutChar("\n    <loc>", UrlTag, 'u'); }
    CountConcat("  ", UrlTag, UrlTag);
    CountConcat("  " + UrlTag, "\n    <loc>", UrlTag);
  }

  lemma EntryCloseUntagged()
    ensures Count(EntryClose, UrlTag) == 0 && EntryClose[0] == '<'
  {
    LinesUntagged();
    UrlEndUntagged();
    CountConcat(LocEnd, ChangeFreqLine, UrlTag);
    CountConcat(LocEnd + ChangeFreqLine, PriorityLine, UrlTag);
    CountConcat(LocEnd + ChangeFreqLine + PriorityLine, UrlEnd, UrlTag);
  }

  lemma LinesUntagged()
    ensures Count(LocEnd, UrlTag) == 0 && Count(ChangeFreqLine, UrlTag) == 0 && Count(PriorityLine, UrlTag) == 0
    ensures LocEnd[0] == '<' && LocEnd[|LocEnd| - 1] == '\n'
    ensures ChangeFreqLine[|ChangeFreqLine| - 1] == '\n' && PriorityLine[|PriorityLine| - 1] == '\n'
  {
    CountWithoutChar(LocEnd, UrlTag, 'u');
    CountWithoutChar(ChangeFreqLine, UrlTag, 'u');
    CountWithoutChar(PriorityLine, UrlTag, 'u');
  }

  lemma UrlEndUntagged()
    ensures Count(UrlEnd, UrlTag) == 0
  {
    CountWithoutChar("  </", UrlTag, 'u');
    CountWithoutChar("url" + ">", UrlTag, '<');
    assert UrlEnd == "  </" + ("url" + ">");
    CountConcat("  </", "url" + ">", UrlTag);
  }

  lemma LocTagCount(base: string, hash: string)
    ensures Count(Loc(base, hash), UrlTag) == Count(base, UrlTag) + Count(hash, UrlTag)
  {
    CountConcat(base, "/", UrlTag);
    CountConcat(base + "/", hash, UrlTag);
  }

  lemma {:induction false} JoinLinesTagCount(parts: seq<string>)
    ensures Count(Join(parts, "\n"), UrlTag) == UrlTagsIn(parts)
  {
    if |parts| == 1 {
      assert UrlTagsIn(parts[1..]) == 0;
    } else if |parts| > 1 {
      JoinLinesTagCount(parts[1..]);
      CountConcat(parts[0], "\n", UrlTag);
      CountConcat(parts[0] + "\n", Join(parts[1..], "\n"), UrlTag);
    }
  }

  lemma {:induction false} EntriesTagCount(base: string, hashes: seq<string>)
    ensures UrlTagsIn(UrlEntries(Locs(base, hashes))) == |hashes| * (1 + Count(base, UrlTag)) + UrlTagsIn(hashes)
  {
    if |hashes| > 0 {
      var entries := UrlEntries(Locs(base, hashes));
      assert entries[1..] == UrlEntries(Locs(base, hashes[1..]));
      EntriesTagCount(base, hashes[1..]);
      assert Count(entries[0], UrlTag) == 1 + Count(base, UrlTag) + Count(hashes[0], UrlTag) by {
        EntryTagCount(Loc(base, hashes[0]));
        LocTagCount(base, hashes[0]);
      }
      MultiplyStep(|hashes|, 1 + Count(base, UrlTag));
    }
  }

  lemma MultiplyStep(n: nat, c: nat)
    requires n > 0
    ensures n * c == c + (n - 1) * c
  {
  }
}
