/**
 * The page-metadata side channel of the site (`useSEO`): `setMeta` and
 * `ensureLd` each look an element of the document head up by its key,
 * create and append it when it is missing, and then overwrite its content.
 * The head is modelled as the sequence of keyed elements in document
 * order; looking up returns the first element with the key, as
 * `querySelector` and `getElementById` do.
 */
module Seo {
  import opened Wrappers
  import Sitemap

  /** How an element is found: `meta[attr='name']`, or a script's id. */
  datatype Key = MetaKey(attr: string, name: string) | ScriptId(id: string)

  /**
   * A head element as the metadata code sees it: its key and its content
   * (the `content` attribute of a meta tag, the text of a JSON-LD script).
   * A pending write has the same shape: the key and the value to store.
   */
  datatype Element = Element(key: Key, content: string)

  // ---- The head as a sequence -------------------------------------------------

  /** Index of the first element with key `k`, or -1 when there is none. */
  function FirstIndex(es: seq<Element>, k: Key): (r: int)
    ensures -1 <= r < |es|
    ensures r >= 0 ==> es[r].key == k
    ensures forall j :: 0 <= j < |es| && (r < 0 || j < r) ==> es[j].key != k
  {
    if |es| == 0 then -1
    else if es[0].key == k then 0
    else
      var r := FirstIndex(es[1..], k);
      if r < 0 then -1 else r + 1
  }

  /** The content found under `k`, if any. */
  function Lookup(es: seq<Element>, k: Key): Option<string>
  {
    var i := FirstIndex(es, k);
    if i < 0 then None else Some(es[i].content)
  }

  function Keys(es: seq<Element>): set<Key>
  {
    set i | 0 <= i < |es| :: es[i].key
  }

  /** At most one element per key. */
  ghost predicate Unique(es: seq<Element>)
  {
    forall i, j :: 0 <= i < j < |es| ==> es[i].key != es[j].key
  }

  /** The head read as a dictionary from key to content. */
  ghost function AsMap(es: seq<Element>): map<Key, string>
  {
    map k | k in Keys(es) :: es[FirstIndex(es, k)].content
  }

  /**
   * Get-or-create, then set the content: the element found under `k` is
   * overwritten in place; without one, a new element is appended. No
   * element moves or changes its key; `k` is now found with content `c`;
   * every other key finds what it found before.
   */
  function Upserted(es: seq<Element>, k: Key, c: string): (r: seq<Element>)
    ensures |r| == if k in Keys(es) then |es| else |es| + 1
    ensures forall j :: 0 <= j < |es| ==> r[j].key == es[j].key
    ensures Keys(r) == Keys(es) + {k}
    ensures Lookup(r, k) == Some(c)
    ensures forall k' :: k' != k ==> Lookup(r, k') == Lookup(es, k')
  {
    var i := FirstIndex(es, k);
    if i < 0 then
      var r := es + [Element(k, c)];
      assert r[|es|].key == k;
      forall k' ensures FirstIndex(r, k') == if k' == k then |es| else FirstIndex(es, k') {
        FirstIndexCharacterized(r, k', if k' == k then |es| else FirstIndex(es, k'));
      }
      r
    else
      var r := es[i := Element(k, c)];
      forall k' ensures FirstIndex(r, k') == FirstIndex(es, k') {
        FirstIndexCharacterized(r, k', FirstIndex(es, k'));
      }
      r
  }

  /** FirstIndex is the only index with its three properties. */
  lemma FirstIndexCharacterized(es: seq<Element>, k: Key, r: int)
    requires -1 <= r < |es|
    requires r >= 0 ==> es[r].key == k
    requires forall j :: 0 <= j < |es| && (r < 0 || j < r) ==> es[j].key != k
    ensures FirstIndex(es, k) == r
  {
    var f := FirstIndex(es, k);
    if f >= 0 && r >= 0 {
      assert !(f < r) && !(r < f);
    }
  }

  /** A key is found exactly when some element carries it. */
  lemma FoundIffPresent(es: seq<Element>, k: Key)
    ensures FirstIndex(es, k) >= 0 <==> k in Keys(es)
    ensures Lookup(es, k).Some? <==> k in Keys(es)
  {
    if k in Keys(es) {
      var i :| 0 <= i < |es| && es[i].key == k;
    }
  }

  /** Writing the same key and content twice leaves the head as one write left it. */
  lemma UpsertIdempotent(es: seq<Element>, k: Key, c: string)
    ensures Upserted(Upserted(es, k, c), k, c) == Upserted(es, k, c)
  {
    var r := Upserted(es, k, c);
    FoundIffPresent(r, k);
    var i := FirstIndex(r, k);
    assert r[i] == Element(k, c);
    assert r[i := Element(k, c)] == r;
  }

  /** Of two writes to one key, the last one wins and nothing else differs from writing it alone. */
  lemma UpsertLastWriteWins(es: seq<Element>, k: Key, c1: string, c2: string)
    ensures Upserted(Upserted(es, k, c1), k, c2) == Upserted(es, k, c2)
  {
    var i := FirstIndex(es, k);
    var r1 := Upserted(es, k, c1);
    if i < 0 {
      FirstIndexCharacterized(r1, k, |es|);
      assert r1[|es| := Element(k, c2)] == es + [Element(k, c2)];
    } else {
      FirstIndexCharacterized(r1, k, i);
      assert r1[i := Element(k, c2)] == es[i := Element(k, c2)];
    }
  }

  /** Written to a head with one element per key, the key ends up with exactly one element. */
  lemma UpsertKeepsUnique(es: seq<Element>, k: Key, c: string)
    requires Unique(es)
    ensures Unique(Upserted(es, k, c))
    ensures exists j :: 0 <= j < |Upserted(es, k, c)| && Upserted(es, k, c)[j] == Element(k, c)
    ensures forall j1, j2 :: 0 <= j1 < j2 < |Upserted(es, k, c)| ==>
      Upserted(es, k, c)[j1].key != k || Upserted(es, k, c)[j2].key != k
  {
    var r := Upserted(es, k, c);
    FoundIffPresent(es, k);
    FoundIffPresent(r, k);
    assert r[FirstIndex(r, k)] == Element(k, c);
  }

  /** Seen as a dictionary, one write is a map update. */
  lemma UpsertAsMap(es: seq<Element>, k: Key, c: string)
    ensures AsMap(Upserted(es, k, c)) == AsMap(es)[k := c]
  {
    var r := Upserted(es, k, c);
    forall k' | k' in Keys(r) ensures AsMap(r)[k'] == AsMap(es)[k := c][k'] {
      FoundIffPresent(r, k');
      FoundIffPresent(es, k');
      assert Lookup(r, k') == Some(AsMap(r)[k']);
      if k' != k {
        assert Lookup(es, k') == Some(AsMap(es)[k']);
      }
    }
  }

  // ---- A batch of writes, as the effect performs them ---------------------------

  /** The head after the writes of `ws`, performed in order. */
  function ApplyWrites(es: seq<Element>, ws: seq<Element>): (r: seq<Element>)
    ensures |r| >= |es|
    ensures forall j :: 0 <= j < |es| ==> r[j].key == es[j].key
  {
    if |ws| == 0 then es
    else
      var w := ws[|ws| - 1];
      Upserted(ApplyWrites(es, ws[..|ws| - 1]), w.key, w.content)
  }

  /** The last value written to each key of `ws`. */
  function LastWrites(ws: seq<Element>): map<Key, string>
  {
    if |ws| == 0 then map[]
    else
      var w := ws[|ws| - 1];
      LastWrites(ws[..|ws| - 1])[w.key := w.content]
  }

  /** After a batch, each written key holds its last value and every other key is unchanged. */
  lemma {:induction false} ApplyWritesAsMap(es: seq<Element>, ws: seq<Element>)
    ensures AsMap(ApplyWrites(es, ws)) == AsMap(es) + LastWrites(ws)
  {
    if |ws| > 0 {
      var w := ws[|ws| - 1];
      var prev := ApplyWrites(es, ws[..|ws| - 1]);
      calc {
        AsMap(ApplyWrites(es, ws));
        AsMap(Upserted(prev, w.key, w.content));
        { UpsertAsMap(prev, w.key, w.content); }
        AsMap(prev)[w.key := w.content];
        { ApplyWritesAsMap(es, ws[..|ws| - 1]); }
        (AsMap(es) + LastWrites(ws[..|ws| - 1]))[w.key := w.content];
        { UnionUpdate(AsMap(es), LastWrites(ws[..|ws| - 1]), w.key, w.content); }
        AsMap(es) + LastWrites(ws);
      }
    }
  }

  lemma UnionUpdate<K, V>(m: map<K, V>, n: map<K, V>, k: K, v: V)
    ensures (m + n)[k := v] == m + n[k := v]
  {
  }

  /** A batch keeps one element per key, adds only the keys it writes, and moves nothing. */
  lemma {:induction false} ApplyWritesShape(es: seq<Element>, ws: seq<Element>)
    ensures Unique(es) ==> Unique(ApplyWrites(es, ws))
    ensures Keys(ApplyWrites(es, ws)) == Keys(es) + LastWrites(ws).Keys
    ensures |ApplyWrites(es, ws)| >= |es|
    ensures forall j :: 0 <= j < |es| ==> ApplyWrites(es, ws)[j].key == es[j].key
    ensures LastWrites(ws).Keys <= Keys(es) ==> |ApplyWrites(es, ws)| == |es|
  {
    if |ws| > 0 {
      var w := ws[|ws| - 1];
      var before := ApplyWrites(es, ws[..|ws| - 1]);
      ApplyWritesShape(es, ws[..|ws| - 1]);
      if Unique(es) {
        UpsertKeepsUnique(before, w.key, w.content);
      }
    }
  }

  /** Writes to distinct keys each leave their own value. */
  lemma {:induction false} LastWritesDistinct(ws: seq<Element>)
    requires forall i, j :: 0 <= i < j < |ws| ==> ws[i].key != ws[j].key
    ensures LastWrites(ws).Keys == set i | 0 <= i < |ws| :: ws[i].key
    ensures forall i :: 0 <= i < |ws| ==> LastWrites(ws)[ws[i].key] == ws[i].content
  {
    if |ws| > 0 {
      var init := ws[..|ws| - 1];
      LastWritesDistinct(init);
      assert forall i :: 0 <= i < |init| ==> init[i] == ws[i];
      assert (set i | 0 <= i < |ws| :: ws[i].key) == (set i | 0 <= i < |init| :: init[i].key) + {ws[|ws| - 1].key};
    }
  }

  /** The dictionary view agrees with lookup. */
  lemma LookupAsMap(es: seq<Element>, k: Key)
    ensures k in AsMap(es) <==> k in Keys(es)
    ensures k in AsMap(es) ==> Lookup(es, k) == Some(AsMap(es)[k])
    ensures k !in AsMap(es) ==> Lookup(es, k) == None
  {
    FoundIffPresent(es, k);
  }

  /**
   * The head `x` with the first element of every key of `m` given that
   * key's value in `m`: what a batch does to a head that already has all
   * the keys it writes.
   */
  function Overwrite(x: seq<Element>, m: map<Key, string>): (r: seq<Element>)
    ensures |r| == |x|
    ensures forall j :: 0 <= j < |x| ==> r[j].key == x[j].key
  {
    seq(|x|, j requires 0 <= j < |x| =>
      if x[j].key in m && FirstIndex(x, x[j].key) == j then Element(x[j].key, m[x[j].key]) else x[j])
  }

  /** Overwriting moves no key, so every key is first found where it was. */
  lemma OverwriteFinds(x: seq<Element>, m: map<Key, string>, k: Key)
    ensures FirstIndex(Overwrite(x, m), k) == FirstIndex(x, k)
    ensures Keys(Overwrite(x, m)) == Keys(x)
  {
    var r := Overwrite(x, m);
    FirstIndexCharacterized(r, k, FirstIndex(x, k));
    assert forall j :: 0 <= j < |x| ==> r[j].key == x[j].key;
  }

  /** A batch whose keys are all present already overwrites in place and appends nothing. */
  lemma {:induction false} ApplyWritesOverwrite(x: seq<Element>, ws: seq<Element>)
    requires LastWrites(ws).Keys <= Keys(x)
    ensures ApplyWrites(x, ws) == Overwrite(x, LastWrites(ws))
  {
    if |ws| == 0 {
      assert Overwrite(x, map[]) == x;
    } else {
      var w := ws[|ws| - 1];
      var init := ws[..|ws| - 1];
      var m0 := LastWrites(init);
      var m := LastWrites(ws);
      assert m == m0[w.key := w.content];
      ApplyWritesOverwrite(x, init);
      OverwriteThenUpsert(x, m0, w.key, w.content);
    }
  }

  /** One more write to a key already present overwrites that key's first element. */
  lemma OverwriteThenUpsert(x: seq<Element>, m: map<Key, string>, k: Key, c: string)
    requires k in Keys(x)
    ensures Upserted(Overwrite(x, m), k, c) == Overwrite(x, m[k := c])
  {
    var prev := Overwrite(x, m);
    var next := Overwrite(x, m[k := c]);
    OverwriteFinds(x, m, k);
    FoundIffPresent(x, k);
    var i := FirstIndex(x, k);
    var r := prev[i := Element(k, c)];
    assert Upserted(prev, k, c) == r;
    forall j | 0 <= j < |x| ensures r[j] == next[j] {
      if j != i && x[j].key == k {
        assert FirstIndex(x, x[j].key) != j;
      }
    }
  }

  /**
   * Running the same batch of writes again produces the same head, whatever
   * the head held before: the effect re-invoked finds every element it
   * created and rewrites it with the value it already holds.
   */
  lemma ApplyWritesIdempotent(es: seq<Element>, ws: seq<Element>)
    ensures ApplyWrites(ApplyWrites(es, ws), ws) == ApplyWrites(es, ws)
  {
    var once := ApplyWrites(es, ws);
    var m := LastWrites(ws);
    ApplyWritesShape(es, ws);
    ApplyWritesAsMap(es, ws);
    ApplyWritesOverwrite(once, ws);
    forall j | 0 <= j < |once| ensures Overwrite(once, m)[j] == once[j] {
      var k := once[j].key;
      if k in m && FirstIndex(once, k) == j {
        assert k in Keys(once);
        assert AsMap(once)[k] == once[j].content;
      }
    }
  }

  // ---- The document head, updated in place ------------------------------------

  class DocumentHead {
    var title: string
    var elements: seq<Element>

    constructor (title: string, elements: seq<Element>)
      ensures this.title == title && this.elements == elements
    {
      this.title := title;
      this.elements := elements;
    }

    /** Document-order search for the first element with `key`. */
    method Find(key: Key) returns (i: int)
      ensures -1 <= i < |elements|
      ensures i >= 0 ==> elements[i].key == key
      ensures forall j :: 0 <= j < |elements| && (i < 0 || j < i) ==> elements[j].key != key
    {
      var n := 0;
      while n < |elements|
        invariant 0 <= n <= |elements|
        invariant forall j :: 0 <= j < n ==> elements[j].key != key
      {
        if elements[n].key == key {
          return n;
        }
        n := n + 1;
      }
      return -1;
    }

    /** Get-or-create the element for `key`, then set its content. */
    method Upsert(key: Key, content: string)
      modifies this
      ensures title == old(title)
      ensures Unique(old(elements)) ==> Unique(elements)
      ensures elements == Upserted(old(elements), key, content)
    {
      var i := Find(key);
      FirstIndexCharacterized(elements, key, i);
      if Unique(elements) {
        UpsertKeepsUnique(elements, key, content);
      }
      if i < 0 {
        elements := elements + [Element(key, content)];
      } else {
        elements := elements[i := Element(key, content)];
      }
    }

    /** `setMeta(name, content, attr)`: the meta tag with `attr='name'` gets `content`. */
    method SetMeta(name: string, content: string, attr: string)
      modifies this
      ensures title == old(title)
      ensures Unique(old(elements)) ==> Unique(elements)
      ensures elements == Upserted(old(elements), MetaKey(attr, name), content)
    {
      Upsert(MetaKey(attr, name), content);
    }

    /** `ensureLd(id, obj)`: the JSON-LD script with this id holds `json`, the serialised object. */
    method EnsureLd(id: string, json: string)
      modifies this
      ensures title == old(title)
      ensures Unique(old(elements)) ==> Unique(elements)
      ensures elements == Upserted(old(elements), ScriptId(id), json)
    {
      Upsert(ScriptId(id), json);
    }

    /** Performs the writes of `ws` one after another. */
    method ApplyAll(ws: seq<Element>)
      modifies this
      ensures title == old(title)
      ensures Unique(old(elements)) ==> Unique(elements)
      ensures elements == ApplyWrites(old(elements), ws)
    {
      var n := 0;
      while n < |ws|
        invariant 0 <= n <= |ws|
        invariant title == old(title)
        invariant Unique(old(elements)) ==> Unique(elements)
        invariant elements == ApplyWrites(old(elements), ws[..n])
      {
        Upsert(ws[n].key, ws[n].content);
        assert ws[..n + 1][..n] == ws[..n];
        n := n + 1;
      }
      assert ws[..n] == ws;
    }

    /**
     * The SEO effect: sets the title, the nine meta tags and the three
     * JSON-LD blocks, in the order the site does.
     */
    method RunSeoEffect(content: SeoContent)
      modifies this
      ensures title == content.title
      ensures Unique(old(elements)) ==> Unique(elements)
      ensures elements == ApplyWrites(old(elements), SeoWrites(content))
    {
      title := content.title;
      ApplyAll(SeoWrites(content));
    }
  }

  /** The strings the SEO effect writes; their wording is the site's copy, not modelled. */
  datatype SeoContent = SeoContent(
    title: string, description: string, image: string,
    websiteJson: string, agentJson: string, breadcrumbJson: string)

  /** The writes of the SEO effect, in order. */
  function SeoWrites(c: SeoContent): (ws: seq<Element>)
    ensures |ws| == 12
    ensures forall i, j :: 0 <= i < j < |ws| ==> ws[i].key != ws[j].key
  {
    [ Element(MetaKey("name", "description"), c.description),
      Element(MetaKey("property", "og:title"), c.title),
      Element(MetaKey("property", "og:description"), c.description),
      Element(MetaKey("property", "og:type"), "website"),
      Element(MetaKey("property", "og:image"), c.image),
      Element(MetaKey("name", "twitter:card"), "summary_large_image"),
      Element(MetaKey("name", "twitter:title"), c.title),
      Element(MetaKey("name", "twitter:description"), c.description),
      Element(MetaKey("name", "twitter:image"), c.image),
      Element(ScriptId("ld-website"), c.websiteJson),
      Element(ScriptId("ld-agent"), c.agentJson),
      Element(ScriptId("ld-breadcrumbs"), c.breadcrumbJson) ]
  }

  // ---- Breadcrumb list -----------------------------------------------------------

  /** A navigation entry of the site: its fragment (`#home`, ...) and its caption (`label` in the site). */
  datatype Route = Route(path: string, caption: string)

  /** One `ListItem` of the BreadcrumbList object. */
  datatype ListItem = ListItem(position: nat, name: string, item: string)

  /** `routes.map((r, i) => ({ position: i + 1, name: r.label, item: `${origin}/${r.path}` }))`. */
  function Breadcrumbs(origin: string, routes: seq<Route>): (items: seq<ListItem>)
    ensures |items| == |routes|
    ensures forall i :: 0 <= i < |items| ==>
      items[i].position == i + 1 && items[i].name == routes[i].caption && items[i].item == Sitemap.Loc(origin, routes[i].path)
  {
    seq(|routes|, i requires 0 <= i < |routes| => ListItem(i + 1, routes[i].caption, origin + "/" + routes[i].path))
  }

  function Paths(routes: seq<Route>): seq<string>
  {
    seq(|routes|, i requires 0 <= i < |routes| => routes[i].path)
  }

  /**
   * The breadcrumb trail numbers the routes 1, 2, ... with no gap, keeps
   * their labels, and links each to the same URL, in the same order, as
   * the sitemap built from the same origin and fragments.
   */
  lemma BreadcrumbsFollowSitemap(origin: string, routes: seq<Route>)
    ensures var items := Breadcrumbs(origin, routes);
      && |items| == |Sitemap.Locs(origin, Paths(routes))| == |routes|
      && (|items| > 0 ==> items[0].position == 1)
      && (forall i :: 0 <= i < |items| - 1 ==> items[i + 1].position == items[i].position + 1)
      && (forall i :: 0 <= i < |items| ==> items[i].name == routes[i].caption)
      && (forall i :: 0 <= i < |items| ==> items[i].item == Sitemap.Locs(origin, Paths(routes))[i])
  {
  }
}
