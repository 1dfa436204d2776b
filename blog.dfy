/**
 * The blog section: the "Add draft" action, which puts a new working draft
 * in front of the posts, and the effect that gives every post a
 * `BlogPosting` JSON-LD script with the id `ld-post-<index>`.
 */
module Blog {
  import opened Wrappers
  import Seo

  datatype Post = Post(id: string, title: string, date: string, excerpt: string, slug: string)

  const DraftTitle: string := "New working draft"
  const DraftExcerpt: string := "Working notes…"
  const DraftSlugPrefix: string := "draft-"
  const PostScriptPrefix: string := "ld-post-"

  // ---- Decimal numerals ----------------------------------------------------------

  function Digit(d: nat): char
    requires d < 10
  {
    "0123456789"[d]
  }

  function DigitValue(c: char): nat
  {
    if '0' <= c <= '9' then (c - '0') as nat else 0
  }

  /** How JavaScript writes a non-negative integer: its decimal digits, without leading zeros. */
  function Decimal(n: nat): (s: string)
    ensures |s| >= 1
    ensures forall i :: 0 <= i < |s| ==> '0' <= s[i] <= '9'
    ensures |s| > 1 ==> s[0] != '0'
  {
    if n < 10 then [Digit(n)] else Decimal(n / 10) + [Digit(n % 10)]
  }

  /** The value of a string of decimal digits. */
  function ParseDecimal(s: string): nat
  {
    if |s| == 0 then 0 else ParseDecimal(s[..|s| - 1]) * 10 + DigitValue(s[|s| - 1])
  }

  /** Reading a numeral back gives the number. */
  lemma {:induction false} DecimalRoundTrip(n: nat)
    ensures ParseDecimal(Decimal(n)) == n
  {
    var s := Decimal(n);
    if n < 10 {
      assert s[..0] == [];
    } else {
      DecimalRoundTrip(n / 10);
      assert s[..|s| - 1] == Decimal(n / 10);
    }
  }

  /** Different numbers are written differently. */
  lemma DecimalInjective(a: nat, b: nat)
    requires Decimal(a) == Decimal(b)
    ensures a == b
  {
    DecimalRoundTrip(a);
    DecimalRoundTrip(b);
  }

  // ---- Adding a draft --------------------------------------------------------------

  /** `isoNow.slice(0, 10)`: the first ten characters, or all of a shorter string. */
  function DateOf(isoNow: string): (d: string)
    ensures |d| == if |isoNow| < 10 then |isoNow| else 10
    ensures d == isoNow[..|d|]
  {
    if |isoNow| < 10 then isoNow else isoNow[..10]
  }

  /**
   * The draft the button creates. `id` is the random `uid("p")`, `isoNow`
   * the ISO form of the current date and `nowMs` the clock in milliseconds.
   */
  function Draft(id: string, isoNow: string, nowMs: nat): (p: Post)
    ensures p.slug == DraftSlugPrefix + Decimal(nowMs)
    ensures p.date == DateOf(isoNow) && p.title == DraftTitle && p.id == id
  {
    Post(id, DraftTitle, DateOf(isoNow), DraftExcerpt, DraftSlugPrefix + Decimal(nowMs))
  }

  /** Drafts made at different milliseconds have different slugs. */
  lemma DraftSlugsDiffer(id1: string, id2: string, iso1: string, iso2: string, t1: nat, t2: nat)
    requires t1 != t2
    ensures Draft(id1, iso1, t1).slug != Draft(id2, iso2, t2).slug
  {
    if Draft(id1, iso1, t1).slug == Draft(id2, iso2, t2).slug {
      assert Decimal(t1) == Draft(id1, iso1, t1).slug[|DraftSlugPrefix|..];
      DecimalInjective(t1, t2);
    }
  }

  /** The `posts` state of the blog section. */
  class BlogSection {
    var posts: seq<Post>

    constructor (posts: seq<Post>)
      ensures this.posts == posts
    {
      this.posts := posts;
    }

    /** `setPosts(p => [draft, ...p])`: the draft goes first, the earlier posts follow unchanged. */
    method AddDraft(id: string, isoNow: string, nowMs: nat)
      modifies this
      ensures posts == [Draft(id, isoNow, nowMs)] + old(posts)
      ensures |posts| == |old(posts)| + 1 && posts[1..] == old(posts)
    {
      posts := [Draft(id, isoNow, nowMs)] + posts;
    }
  }

  // ---- Structured data for the posts -----------------------------------------------

  /** The id of the script describing the post at index `i`. */
  function PostKey(i: nat): Seo.Key
  {
    Seo.ScriptId(PostScriptPrefix + Decimal(i))
  }

  /** Different indices give different script ids. */
  lemma PostKeysDistinct(i: nat, j: nat)
    requires i != j
    ensures PostKey(i) != PostKey(j)
  {
    if PostKey(i) == PostKey(j) {
      var a := PostScriptPrefix + Decimal(i);
      var b := PostScriptPrefix + Decimal(j);
      assert a[|PostScriptPrefix|..] == Decimal(i);
      assert b[|PostScriptPrefix|..] == Decimal(j);
      DecimalInjective(i, j);
    }
  }

  /**
   * The writes of the posts effect, one per post in list order.
   * `jsons[i]` is the serialised `BlogPosting` object of post `i`; the
   * serialisation itself is not modelled.
   */
  function PostWrites(jsons: seq<string>): (ws: seq<Seo.Element>)
    ensures |ws| == |jsons|
    ensures forall i :: 0 <= i < |ws| ==> ws[i] == Seo.Element(PostKey(i), jsons[i])
  {
    seq(|jsons|, i requires 0 <= i < |jsons| => Seo.Element(PostKey(i), jsons[i]))
  }

  /** The effect's writes go to distinct scripts, so each keeps its own value. */
  lemma PostWritesDistinct(jsons: seq<string>)
    ensures forall i, j :: 0 <= i < j < |jsons| ==> PostWrites(jsons)[i].key != PostWrites(jsons)[j].key
    ensures forall i :: 0 <= i < |jsons| ==>
      PostKey(i) in Seo.LastWrites(PostWrites(jsons)) && Seo.LastWrites(PostWrites(jsons))[PostKey(i)] == jsons[i]
    ensures Seo.LastWrites(PostWrites(jsons)).Keys == set i | 0 <= i < |jsons| :: PostKey(i)
  {
    var ws := PostWrites(jsons);
    forall i, j | 0 <= i < j < |ws| ensures ws[i].key != ws[j].key {
      PostKeysDistinct(i, j);
    }
    Seo.LastWritesDistinct(ws);
    assert (set i | 0 <= i < |ws| :: ws[i].key) == set i | 0 <= i < |jsons| :: PostKey(i);
  }

  /** After the effect, the script for index `i` holds post `i`'s object, once. */
  lemma PostScriptsAfterEffect(head: seq<Seo.Element>, jsons: seq<string>)
    requires Seo.Unique(head)
    ensures Seo.Unique(Seo.ApplyWrites(head, PostWrites(jsons)))
    ensures forall i :: 0 <= i < |jsons| ==> Seo.Lookup(Seo.ApplyWrites(head, PostWrites(jsons)), PostKey(i)) == Some(jsons[i])
  {
    var ws := PostWrites(jsons);
    var after := Seo.ApplyWrites(head, ws);
    Seo.ApplyWritesShape(head, ws);
    forall i | 0 <= i < |jsons| ensures Seo.Lookup(after, PostKey(i)) == Some(jsons[i]) {
      PostScriptHolds(head, jsons, i);
    }
  }

  lemma PostScriptHolds(head: seq<Seo.Element>, jsons: seq<string>, i: int)
    requires 0 <= i < |jsons|
    ensures Seo.Lookup(Seo.ApplyWrites(head, PostWrites(jsons)), PostKey(i)) == Some(jsons[i])
  {
    var ws := PostWrites(jsons);
    var after := Seo.ApplyWrites(head, ws);
    PostWritesDistinct(jsons);
    Seo.ApplyWritesAsMap(head, ws);
    assert Seo.AsMap(after)[PostKey(i)] == jsons[i];
    Seo.LookupAsMap(after, PostKey(i));
  }

  /** The effect leaves every element other than the posts' scripts as it was. */
  lemma OtherElementsKept(head: seq<Seo.Element>, jsons: seq<string>, k: Seo.Key)
    requires forall i :: 0 <= i < |jsons| ==> k != PostKey(i)
    ensures Seo.Lookup(Seo.ApplyWrites(head, PostWrites(jsons)), k) == Seo.Lookup(head, k)
  {
    var ws := PostWrites(jsons);
    PostWritesDistinct(jsons);
    Seo.ApplyWritesAsMap(head, ws);
    assert k !in Seo.LastWrites(ws);
    Seo.LookupAsMap(Seo.ApplyWrites(head, ws), k);
    Seo.LookupAsMap(head, k);
  }

  /**
   * Adding a draft shifts every script: `ld-post-0` now describes the
   * draft and the script of index `i + 1` describes what index `i` did.
   */
  lemma DraftShiftsScripts(head: seq<Seo.Element>, draftJson: string, jsons: seq<string>)
    ensures Seo.Lookup(Seo.ApplyWrites(head, PostWrites([draftJson] + jsons)), PostKey(0)) == Some(draftJson)
    ensures forall i :: 0 <= i < |jsons| ==>
      Seo.Lookup(Seo.ApplyWrites(head, PostWrites([draftJson] + jsons)), PostKey(i + 1)) == Some(jsons[i])
  {
    var all := [draftJson] + jsons;
    PostScriptHolds(head, all, 0);
    forall i | 0 <= i < |jsons|
      ensures Seo.Lookup(Seo.ApplyWrites(head, PostWrites(all)), PostKey(i + 1)) == Some(jsons[i])
    {
      PostScriptHolds(head, all, i + 1);
      assert all[i + 1] == jsons[i];
    }
  }
}
