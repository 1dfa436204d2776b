/**
 * The listings section's choice of preview (`hasIframeMarkup` and the
 * conditional that uses it): pasted embed markup is injected only when it
 * holds an `<iframe` tag; otherwise an IDX URL, if one was typed, is shown
 * in a frame; otherwise a placeholder.
 */
module Listings {
  import opened Text

  /** A JavaScript value as `hasIframeMarkup` sees it: a string, or something else. */
  datatype JsValue = JsString(s: string) | NotAString

  const IframeOpen: string := "<iframe"

  /** `hasIframeMarkup(str)`: a string that contains `<iframe` (case-sensitively). */
  function HasIframeMarkup(v: JsValue): (r: bool)
    ensures r <==> v.JsString? && exists i :: OccursAt(v.s, IframeOpen, i)
  {
    v.JsString? && Contains(v.s, IframeOpen)
  }

  /** What the preview panel renders. */
  datatype Preview =
    | RawEmbed(html: string)  // the pasted markup, injected as HTML
    | IdxFrame(src: string)   // an iframe pointing at the typed URL
    | Placeholder             // the "live IDX feed will sit here" text

  /**
   * The panel's three-way conditional. Both inputs are text fields, so both
   * are strings; an empty URL is falsy.
   */
  function ChoosePreview(mlsEmbed: string, idxUrl: string): (p: Preview)
    ensures p.RawEmbed? <==> exists i :: OccursAt(mlsEmbed, IframeOpen, i)
    ensures p.RawEmbed? ==> p.html == mlsEmbed
    ensures p.IdxFrame? <==> (forall i :: !OccursAt(mlsEmbed, IframeOpen, i)) && idxUrl != ""
    ensures p.IdxFrame? ==> p.src == idxUrl
    ensures p.Placeholder? <==> (forall i :: !OccursAt(mlsEmbed, IframeOpen, i)) && idxUrl == ""
  {
    if HasIframeMarkup(JsString(mlsEmbed)) then RawEmbed(mlsEmbed)
    else if idxUrl != "" then IdxFrame(idxUrl)
    else Placeholder
  }
}
