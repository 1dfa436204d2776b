# Real-estate site helpers, modelled in Dafny

This project models the logic in `src/RealEstateSite.jsx`, the single-page
site of a San Diego real-estate agent. It covers:

- **Sitemap and robots.txt generators** (`buildSitemapXml`, `buildRobotsTxt`,
  `generateSitemap`, `generateRobots`). The sitemap is built on the
  sitemaps.org 0.9 protocol. robots.txt uses the Robots Exclusion Protocol
  syntax of section 2.2 of RFC 9309.
- **In-page diagnostics** (`runTests`), which check those generators.
- **Listings preview** (`hasIframeMarkup`), which decides what the preview
  panel shows.
- **Page-metadata effect** (`useSEO`). It sets nine meta tags and three
  JSON-LD scripts in the document head through the get-or-create helpers
  `setMeta` and `ensureLd`. It also builds the breadcrumb list.
- **Blog** "Add draft" action, and the effect that writes one JSON-LD script
  per post.
- **Lead-capture modal** (`LeadCapture.submit`). It posts a lead and keeps a
  backup log of leads under the local-storage key `noah_leads`. The
  component is defined but not mounted by the page (see below).
- **Contact section form** (`Contact.handleSubmit`).

Modules, one file each:

- `Wrappers` (wrappers.dfy): the `Option` type.
- `Text` (text.dfy): the JavaScript string operations the code relies on.
  These are `includes` (src/RealEstateSite.jsx:132, :1027, :1039), `join`
  (:124) and the number of matches of `.match(/<url>/g)` (:1030). Two more
  helpers, the first index of a character and splitting at a character,
  are not used by the site. They serve only `Sitemap.ParseUrls` and
  `Robots.RobotsLines`, which read the generated text back.
- `Sitemap` (sitemap.dfy): the sitemap serialiser. It comes with a parser of
  its output, used for the round trip, and an exact count of the `<url>` tags.
- `Robots` (robots.dfy): the robots.txt builder.
- `Listings` (listings.dfy): `hasIframeMarkup` and the preview choice.
- `Seo` (seo.dfy):
  - the head as a sequence of keyed elements;
  - the upsert as a function, plus a `DocumentHead` class whose methods
    update the head in place;
  - the whole SEO effect;
  - the breadcrumb list.
- `Leads` (leads.dfy):
  - the status machine of the lead modal, as a step function;
  - the `LeadCapture`, `LeadStore` and `Contact` classes;
  - `FormData.set`.
- `Blog` (blog.dfy): adding a draft, and the per-post JSON-LD scripts.
- `Site` (site.dfy): the site's six sections, the origin fallback, the two
  "Generate" actions and `runTests`.

Each `async` handler runs in two parts around its `await`. It is modelled as
a submit step and a settle step. How the POST ends, whether the
local-storage read and write succeed, and the clock are all parameters of
the settle step.

Four behaviours of the code are easy to miss. The model keeps each as
written:

- **HTTP status.** The modal's `submit` awaits the POST and never reads the
  response status (src/RealEstateSite.jsx:629-642). Any response counts as
  a success, 4xx and 5xx included. Only a throw reaches the error branch
  (`Leads.HttpStatusIgnored`).
- **Optional message in the modal.** The modal's message `<textarea>`
  (src/RealEstateSite.jsx:727-732) has no `required` attribute. Only the
  name and the email are required (`Leads.LeadFormFilled`). The contact
  section's form does require the message (src/RealEstateSite.jsx:870-876,
  `Leads.ContactFilled`).
- **Storage failure.** Reading, parsing and writing the `noah_leads` backup
  happen inside the same `try` as the POST (src/RealEstateSite.jsx:637-640).
  A failure there lands in the same `catch` (:643). The lead has then been
  posted, yet the modal shows the error and the log is unchanged
  (`Leads.Step`, `Leads.Settled`).
- **The modal is not mounted.** The root component
  (src/RealEstateSite.jsx:1091-1111) renders no `<LeadCapture>`. The hero
  and the footer receive `onOpenLead={scrollToContact}` (:1095, :1104), so
  their buttons scroll to the contact section. On this page nothing posts
  through the modal or writes `noah_leads`. The model covers the component
  as written, for a page that mounts it.

## Model

| member | source | states |
|---|---|---|
| Text.Contains | src/RealEstateSite.jsx:131-133 | `s.includes(p)` holds exactly when `p` occurs at some index of `s` |
| Text.CountZeroIff | src/RealEstateSite.jsx:1030 | the number of matches of a non-empty pattern is zero exactly when the text does not contain the pattern |
| Text.SplitJoin | src/RealEstateSite.jsx:124 | `join` of at least one part, with a one-character separator that no part holds, loses nothing: splitting the result at that character gives the parts back |
| Sitemap.BuildSitemapXml | src/RealEstateSite.jsx:117-125 | the output begins with the XML declaration and the `<urlset xmlns="http://www.sitemaps.org/schemas/sitemap/0.9">` line, and ends with the `</urlset>` line |
| Sitemap.SitemapRoundTrip | src/RealEstateSite.jsx:117-125 | when neither base nor hashes hold a `<`, parsing the output gives back exactly `base + "/" + hashes[k]` for each k, in input order, with none dropped or added. The parser accepts only entries carrying `<changefreq>weekly</changefreq>` and `<priority>0.8</priority>` |
| Sitemap.SitemapUrlTagCount | src/RealEstateSite.jsx:118-124 | the number of `<url>` tags is one per hash, plus every `<url>` inside the base (repeated once per entry) or inside a hash. Nothing is escaped |
| Sitemap.UrlCountMatchesIff | src/RealEstateSite.jsx:1030-1035 | the `<url>` count equals `hashes.length` if and only if the hashes hold no `<url>`, and neither does the base (unless the list is empty) |
| Robots.BuildRobotsTxt | src/RealEstateSite.jsx:127-129 | the text ends with `base + "/sitemap.xml"` |
| Robots.RobotsNamesSitemap | src/RealEstateSite.jsx:1036-1041 | the text always contains `base + "/sitemap.xml"` |
| Robots.RobotsLines | src/RealEstateSite.jsx:128 | for a base without a newline, the text is exactly three lines: `User-agent: *`, `Allow: /` and `Sitemap: ` + base + `/sitemap.xml` |
| Listings.HasIframeMarkup | src/RealEstateSite.jsx:131-133 | true exactly when the value is a string holding `<iframe` at some index |
| Listings.ChoosePreview | src/RealEstateSite.jsx:394-415 | the pasted markup is injected exactly when it holds `<iframe`. Otherwise the typed IDX URL is framed exactly when it is non-empty. Otherwise the placeholder is shown |
| Seo.FirstIndex | src/RealEstateSite.jsx:44 | a lookup finds the first element with the key in document order, or reports that none has it |
| Seo.Upserted | src/RealEstateSite.jsx:43-51 | get-or-create then set: no element moves or changes key, the key set gains the key, the key now reads the new content, and every other key reads what it read before |
| Seo.UpsertIdempotent | src/RealEstateSite.jsx:43-51 | repeating a `setMeta`/`ensureLd` call changes nothing |
| Seo.UpsertLastWriteWins | src/RealEstateSite.jsx:43-51 | two writes to one key leave exactly what the last write alone leaves |
| Seo.UpsertKeepsUnique | src/RealEstateSite.jsx:99-108 | on a head with one element per key, the written key ends up with exactly one element, holding the written content, and all keys stay unique |
| Seo.UpsertAsMap | src/RealEstateSite.jsx:43-51 | read as a key-to-content dictionary, one write is a dictionary update |
| Seo.ApplyWritesAsMap | src/RealEstateSite.jsx:53-61 | after a batch of writes, each written key holds its last value and every other key is unchanged |
| Seo.ApplyWritesShape | src/RealEstateSite.jsx:110-112 | a batch keeps one element per key, adds only the keys it writes, and moves no element |
| Seo.ApplyWrites | src/RealEstateSite.jsx:53-112 | a batch of writes, performed in order, never shortens the head and never changes the key of an element already there |
| Seo.ApplyWritesOverwrite | src/RealEstateSite.jsx:53-112 | on a head that already holds every key the batch writes, the batch appends nothing. It sets the first element of each written key to that key's last value and leaves every other element as it was |
| Seo.ApplyWritesIdempotent | src/RealEstateSite.jsx:33-114 | on any head, re-running the effect's writes yields the same head, with no tag or script added a second time |
| Seo.SeoWrites | src/RealEstateSite.jsx:53-112 | the effect makes twelve writes to twelve distinct keys |
| Seo.DocumentHead.Find | src/RealEstateSite.jsx:44 | the loop returns the first index holding the key, or -1 when no element has it |
| Seo.DocumentHead.Upsert | src/RealEstateSite.jsx:43-51 | the head becomes `Upserted` of the old head. A head with one element per key keeps one element per key |
| Seo.DocumentHead.SetMeta | src/RealEstateSite.jsx:43-51 | upserts the meta tag keyed by attribute and name |
| Seo.DocumentHead.EnsureLd | src/RealEstateSite.jsx:99-108 | upserts the JSON-LD script keyed by its id |
| Seo.DocumentHead.ApplyAll | src/RealEstateSite.jsx:53-61 | performing the writes one by one gives `ApplyWrites` of the old head |
| Seo.DocumentHead.RunSeoEffect | src/RealEstateSite.jsx:42-112 | sets the title, then applies the effect's twelve writes in source order |
| Seo.Breadcrumbs | src/RealEstateSite.jsx:91-96 | one list item per route, in order: item i has position i+1, the route's label as its name, and `origin + "/" + path` as its link |
| Seo.BreadcrumbsFollowSitemap | src/RealEstateSite.jsx:88-97 | route i gets position i+1 with no gaps and keeps its label. Its link equals the i-th sitemap location built from the same origin and fragments |
| Site.BaseFor | src/RealEstateSite.jsx:146 | never empty: the origin when it is non-empty, and https://example.com otherwise |
| Site.GenerateSitemap | src/RealEstateSite.jsx:145-157 | the downloaded sitemap begins with the XML declaration and the `<urlset>` line, and ends with `</urlset>` |
| Site.GenerateRobots | src/RealEstateSite.jsx:159-162 | the downloaded robots.txt ends with the sitemap URL under the page's origin, or under https://example.com when the origin is empty |
| Site.GeneratedFilesAgree | src/RealEstateSite.jsx:145-161 | the downloaded sitemap parses back to the six sections in page order, with exactly six `<url>` tags. The downloaded robots.txt points at a sitemap under the same base |
| Site.BreadcrumbsMatchSitemap | src/RealEstateSite.jsx:11-18 | the routes' fragments are exactly the sitemap's six hashes, so breadcrumb links and sitemap locations coincide |
| Site.UrlsetPresent | src/RealEstateSite.jsx:1025-1029 | every sitemap contains `<urlset` |
| Site.RunTests | src/RealEstateSite.jsx:1013-1043 | exactly three diagnostics, named as the panel names them: `<urlset>` present, `<url>` count matches, robots.txt names the sitemap |
| Site.RunTestsPass | src/RealEstateSite.jsx:1013-1043 | all three diagnostics pass |
| Blog.DateOf | src/RealEstateSite.jsx:526 | `slice(0, 10)` keeps the first ten characters, or the whole of a shorter string |
| Blog.Decimal | src/RealEstateSite.jsx:528 | a decimal numeral: at least one digit, only digits, and no leading zero |
| Blog.DecimalRoundTrip | src/RealEstateSite.jsx:528 | reading the numeral back gives the number |
| Blog.Draft | src/RealEstateSite.jsx:522-531 | the draft has the fixed title, the date prefix of the ISO time, and slug `draft-` followed by the millisecond clock |
| Blog.DraftSlugsDiffer | src/RealEstateSite.jsx:528 | drafts made at different milliseconds get different slugs |
| Blog.BlogSection.AddDraft | src/RealEstateSite.jsx:522-531 | the draft is put first and the earlier posts follow unchanged, in order |
| Blog.PostWrites | src/RealEstateSite.jsx:489-506 | one write per post, in list order: write i sets the script with id `ld-post-i` to post i's serialised object |
| Blog.PostKeysDistinct | src/RealEstateSite.jsx:490 | different post indices give different script ids |
| Blog.PostScriptsAfterEffect | src/RealEstateSite.jsx:488-506 | after the effect, the script for index i holds post i's object, and the head keeps one element per key |
| Blog.OtherElementsKept | src/RealEstateSite.jsx:488-506 | the effect leaves every element other than the posts' scripts as it was |
| Blog.DraftShiftsScripts | src/RealEstateSite.jsx:488-531 | after a draft is added, `ld-post-0` describes the draft and index i+1 describes what index i did |
| Leads.Settled | src/RealEstateSite.jsx:629-646 | a submission ends in success if and only if the POST resolved and the rest of the `try` block completed, and in error otherwise |
| Leads.FormDataSet | src/RealEstateSite.jsx:774 | afterwards exactly one entry is called `form-name` and it holds the value. The other entries are unchanged and in order. A missing entry is appended |
| Leads.FormDataSetKeepsPlace | src/RealEstateSite.jsx:774 | the first entry called `name` takes the value in its own place, and every entry before it is unchanged |
| Leads.FormDataSetIdempotent | src/RealEstateSite.jsx:774 | setting the same field twice equals setting it once |
| Leads.PayloadOf | src/RealEstateSite.jsx:619-627 | the payload copies the five form fields and is tagged with form name `contact` and source `LeadCapture modal` |
| Leads.PayloadFields | src/RealEstateSite.jsx:633 | the posted body has seven fields, under seven different names |
| Leads.PayloadFieldsRoundTrip | src/RealEstateSite.jsx:619-634 | the posted fields determine the payload, and `form-name` is posted exactly once |
| Leads.LeadFormFilled | src/RealEstateSite.jsx:692-702 | the modal can be submitted only with a non-empty name and a non-empty email; the message is optional |
| Leads.ContactFilled | src/RealEstateSite.jsx:851-876 | the contact form can be submitted only with a non-empty name, email and message |
| Leads.Step | src/RealEstateSite.jsx:613-647 | a submit starts only from idle or error with the required fields filled, and captures the payload. Settling a pending POST moves to success and appends exactly that payload with `ts`, or moves to error with the log unchanged; either way the form is kept. Submitting while loading or in success changes nothing. An edit replaces the form unless it is hidden (success) and touches neither the status, the pending payload nor the log. Consistency is preserved |
| Leads.HttpStatusIgnored | src/RealEstateSite.jsx:629-642 | two responses with different HTTP statuses lead to the same state, and a stored lead is a success either way |
| Leads.RunAppendsOnly | src/RealEstateSite.jsx:637-642 | over any run of events the log keeps its old records as a prefix, in order. Every record added is tagged `contact` / `LeadCapture modal`, and the records added never outnumber the submissions |
| Leads.SuccessIsFinal | src/RealEstateSite.jsx:665 | after success the form is hidden, so no later event changes the state or the log |
| Leads.SubmitOnce | src/RealEstateSite.jsx:613-647 | a fresh modal filled and submitted once ends in success with exactly one new record (that form's payload) when the POST resolves and the backup is written. It ends in error with the log unchanged otherwise, and stays idle when a required field is empty |
| Leads.LeadCapture.constructor | src/RealEstateSite.jsx:604-611 | the modal starts idle with empty fields and "Seller valuation" selected |
| Leads.LeadCapture.EditForm | src/RealEstateSite.jsx:697-732 | a field change takes effect unless the form is hidden |
| Leads.LeadCapture.Submit | src/RealEstateSite.jsx:613-635 | follows `Step` for a submit, and returns the posted fields exactly when a POST starts |
| Leads.LeadCapture.Settle | src/RealEstateSite.jsx:636-646 | follows `Step` for a settle: read, push and write the backup, then success, or error |
| Leads.Contact.constructor | src/RealEstateSite.jsx:764 | the contact form starts idle, showing its default fields, which are also what `reset()` restores |
| Leads.Contact.Submit | src/RealEstateSite.jsx:766-783 | blocked while loading or with a required field empty. Otherwise it moves to loading and posts the form's fields with `form-name` set to `contact` exactly once, other fields unchanged and in order |
| Leads.Contact.Settle | src/RealEstateSite.jsx:785-790 | a response gives success and resets the form to its defaults; a throw gives error and keeps what was typed |

## Left out

- Rendering, layout and styling: every JSX tree, and the presentational files `src/pages/*.jsx` and `src/components/Navbar.jsx`.
- Browser plumbing is not modelled: `useHashRoute`, `useDevMode`, `downloadText` (Blob and object URLs), `scrollIntoView` and `alert`.
- The network call and the Netlify backend. Only the outcome of the POST is modelled (a response with some status, or a throw).
- `localStorage` and the JSON encoding of the log. The log is a sequence of records. Whether reading, parsing and writing back succeeds is one boolean. The read-modify-write race between two open tabs is not modelled.
- `URLSearchParams` percent-encoding and `JSON.stringify`: payloads are records or name/value pairs. The JSON-LD texts are parameters.
- Randomness and clocks: `uid` ids, `new Date().toISOString()` and `Date.now()` are parameters. So timestamps are not claimed to increase.
- The fixed SEO copy (title, description, image URL): the effect takes them as parameters.
- Seo.SeoWrites: the twelve keys are written out, but the content strings are parameters.
- Head elements carrying two selectable attributes: each element has exactly one key. A page-supplied `<meta name=… property=…>` could match two of the `meta[attr='name']` selectors of src/RealEstateSite.jsx:44, and the model cannot represent it. The effect's own tags carry one attribute each, so it never creates such an element.
- `console.error(err)` in both `catch` blocks (src/RealEstateSite.jsx:644, :788): console output is not modelled.
- The mailto "email details instead" link and the honeypot field: both are markup.
- Leads.LeadFormFilled: checks only that the required fields are non-empty. The browser's check that a `type="email"` field has the shape of an address is not modelled.
- Leads.ContactFilled: the same for the contact form's email input (`type="email"`, src/RealEstateSite.jsx:857-859): only non-emptiness is checked.
- XML escaping: the code does none and the model adds none. `Sitemap.SitemapRoundTrip` therefore requires inputs without `<`, and `Sitemap.SitemapUrlTagCount` counts `<url>` tags that come from inside the inputs.
- Blog.Decimal: negative clock values are not modelled; the millisecond clock is a natural number.
- Site.RunTestsPass: the `details` text of each diagnostic is display only and is not modelled.
