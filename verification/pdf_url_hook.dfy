/** `usePdfUrl` of frontend/src/hooks/usePdfUrl.ts: the PDF preview's URL,
    always stored normalised. */
module PdfUrlHook {
  import opened Options
  import BackendUrl

  class PdfUrl {
    const base: string
    var pdfUrl: Option<string>
    /** The URL last handed to the hook. */
    ghost var lastInput: Option<string>

    /** The stored value is `null` or an output of `normalizeBackendUrl`. */
    ghost predicate Valid()
      reads this
    {
      pdfUrl == BackendUrl.NormalizeBackendUrl(base, lastInput)
    }

    /** The lazy initial state: a falsy URL gives `null`, any other its normalisation. */
    constructor(base: string, initialUrl: Option<string>)
      ensures Valid() && this.base == base
      ensures pdfUrl == BackendUrl.NormalizeBackendUrl(base, initialUrl)
    {
      this.base := base;
      lastInput := initialUrl;
      if initialUrl.Some? && initialUrl.value != [] {
        pdfUrl := BackendUrl.NormalizeBackendUrl(base, initialUrl);
      } else {
        pdfUrl := None;
      }
    }

    /** `updatePdfUrl(url)`: the falsy test agrees with normalisation, so the new
        value is the normalised URL in every case. */
    method UpdatePdfUrl(url: Option<string>)
      requires Valid()
      modifies this
      ensures Valid()
      ensures pdfUrl == BackendUrl.NormalizeBackendUrl(base, url)
      ensures BackendUrl.WellFormedBase(base) && url == old(pdfUrl) ==> pdfUrl == old(pdfUrl)
    {
      lastInput := url;
      if url.Some? && url.value != [] {
        pdfUrl := BackendUrl.NormalizeBackendUrl(base, url);
      } else {
        pdfUrl := None;
      }
      if BackendUrl.WellFormedBase(base) && url == old(pdfUrl) {
        BackendUrl.NormalizeIdempotent(base, old(lastInput));
      }
    }
  }
}
