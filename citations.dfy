/**
 * Retrieved documents, the `Citation` records made from them, and the check
 * the chat page's citation list performs when it reads their metadata.
 */
module Citations {
  import opened Wrappers

  /** A metadata value: a nested dictionary, or any other value (text, a
      relevance score), kept opaque as its displayed text. */
  datatype Meta = Leaf(shown: string) | Dict(fields: map<string, Meta>)

  /** A retrieved document: its `page_content` and its `metadata`. */
  datatype Document = Document(pageContent: string, metadata: map<string, Meta>)

  /** `class Citation(BaseModel)`: `page_content: str`, `metadata: Dict`. */
  datatype Citation = Citation(pageContent: string, metadata: map<string, Meta>)

  /** `extract_citations`: one citation per document, in order, fields copied. */
  function ExtractCitations(docs: seq<Document>): (cs: seq<Citation>)
    ensures |cs| == |docs|
    ensures forall i :: 0 <= i < |docs| ==>
      cs[i].pageContent == docs[i].pageContent && cs[i].metadata == docs[i].metadata
  {
    if docs == [] then []
    else [Citation(docs[0].pageContent, docs[0].metadata)] + ExtractCitations(docs[1..])
  }

  /** Extraction is order-preserving: it commutes with concatenation. */
  lemma {:induction false} ExtractCitationsAppend(a: seq<Document>, b: seq<Document>)
    ensures ExtractCitations(a + b) == ExtractCitations(a) + ExtractCitations(b)
  {
    if a != [] {
      assert (a + b)[1..] == a[1..] + b;
      ExtractCitationsAppend(a[1..], b);
    }
  }

  /** `citation.metadata['score']` can be read. */
  predicate HasScore(c: Citation) {
    "score" in c.metadata
  }

  /** `citation.metadata['source_metadata']['url']` can be read: the inner
      value must be a dictionary holding "url". */
  predicate HasUrl(c: Citation) {
    "source_metadata" in c.metadata
    && c.metadata["source_metadata"].Dict?
    && "url" in c.metadata["source_metadata"].fields
  }

  /** The streamed turn reads both fields; the blocking turn reads the score only. */
  predicate Renderable(c: Citation, readsUrl: bool) {
    HasScore(c) && (readsUrl ==> HasUrl(c))
  }

  /** Position of the first citation that cannot be shown, `|cs|` when all can. */
  function FirstUnrenderable(cs: seq<Citation>, readsUrl: bool): (k: nat)
    ensures k <= |cs|
    ensures forall i :: 0 <= i < k ==> Renderable(cs[i], readsUrl)
    ensures k < |cs| ==> !Renderable(cs[k], readsUrl)
  {
    if cs == [] || !Renderable(cs[0], readsUrl) then 0
    else 1 + FirstUnrenderable(cs[1..], readsUrl)
  }

  /** When every citation has its URL, reading the URL stops no citation. */
  lemma {:induction false} FirstUnrenderableWithUrls(cs: seq<Citation>)
    requires forall i :: 0 <= i < |cs| ==> HasUrl(cs[i])
    ensures FirstUnrenderable(cs, true) == FirstUnrenderable(cs, false)
  {
    if cs != [] {
      assert HasUrl(cs[0]);
      FirstUnrenderableWithUrls(cs[1..]);
    }
  }

  /**
   * The `for citation in citations` rendering loop, without its output: the
   * position of the first citation whose metadata lookup raises `KeyError`
   * (or `TypeError`), or `None` when every citation can be shown.
   */
  method RenderCitations(citations: seq<Citation>, readsUrl: bool) returns (failedAt: Option<nat>)
    ensures failedAt.None? <==> forall i :: 0 <= i < |citations| ==> Renderable(citations[i], readsUrl)
    ensures failedAt.Some? ==>
      && failedAt.value < |citations|
      && !Renderable(citations[failedAt.value], readsUrl)
      && forall i :: 0 <= i < failedAt.value ==> Renderable(citations[i], readsUrl)
    ensures failedAt == if FirstUnrenderable(citations, readsUrl) == |citations| then None
                        else Some(FirstUnrenderable(citations, readsUrl))
  {
    for i := 0 to |citations|
      invariant forall j :: 0 <= j < i ==> Renderable(citations[j], readsUrl)
    {
      if !HasScore(citations[i]) {
        return Some(i);
      }
      if readsUrl && !HasUrl(citations[i]) {
        return Some(i);
      }
    }
    failedAt := None;
  }
}
