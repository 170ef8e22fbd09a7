/**
 * The event-stream fold of `invoke_llm`: the hosted agent answers with a
 * stream of events; the answer is the text of the last chunk (each chunk
 * overwrites the previous one) and the link is the `url` metadata of the
 * last retrieved reference visited.
 */
module AgentEvents {
  import opened Wrappers

  /** A retrieved reference; `metadata` is `None` when the key is absent. */
  datatype Reference = Reference(metadata: Option<map<string, string>>)

  /** One attribution citation: its `retrievedReferences`. */
  datatype AttributionCitation = AttributionCitation(retrievedReferences: seq<Reference>)

  /** `event['chunk']`: the decoded `'bytes'` and the optional `'attribution'` citations. */
  datatype Chunk = Chunk(text: string, attribution: Option<seq<AttributionCitation>>)

  /** An event of the stream; `chunk` is `None` when it has no `'chunk'` key. */
  datatype Event = Event(chunk: Option<Chunk>)

  /** The value of `url`: a string, or Python's `None` from `.get('url')`. */
  datatype UrlValue = Url(s: string) | NoUrl

  /** Why `invoke_llm` raises: `event['chunk']` on an event without one
      (`KeyError`), `.get('url')` on a reference without metadata
      (`AttributeError`), or `returnString` never assigned (`UnboundLocalError`). */
  datatype Failure = ChunkMissing | MetadataMissing | AnswerUnbound

  datatype Outcome = Returned(text: string) | Raised(error: Failure)

  const Separator := "\nFind more information: "

  /** How the f-string shows `url`. */
  function Shown(url: UrlValue): string {
    match url
    case Url(s) => s
    case NoUrl => "None"
  }

  /** `references.get('metadata').get('url')`, for a reference whose metadata is present. */
  function UrlOf(r: Reference): UrlValue
    requires r.metadata.Some?
  {
    if "url" in r.metadata.value then Url(r.metadata.value["url"]) else NoUrl
  }

  /** The inner loop over one citation's references: the new `url`, or `None` when it raises. */
  function WalkReferences(url: UrlValue, refs: seq<Reference>): Option<UrlValue>
    decreases |refs|
  {
    if refs == [] then Some(url)
    else if refs[0].metadata.None? then None
    else WalkReferences(UrlOf(refs[0]), refs[1..])
  }

  /** The middle loop over the attribution's citations. */
  function WalkCitations(url: UrlValue, cits: seq<AttributionCitation>): Option<UrlValue>
    decreases |cits|
  {
    if cits == [] then Some(url)
    else match WalkReferences(url, cits[0].retrievedReferences)
      case None => None
      case Some(u) => WalkCitations(u, cits[1..])
  }

  /** The outer loop from state (`returnString`, `url`) over the remaining events, then the return. */
  function Run(answer: Option<string>, url: UrlValue, events: seq<Event>): Outcome
    decreases |events|
  {
    if events == [] then
      match answer
      case None => Raised(AnswerUnbound)
      case Some(a) => Returned(a + Separator + Shown(url))
    else match events[0].chunk
      case None => Raised(ChunkMissing)
      case Some(c) =>
        match c.attribution
        case None => Run(Some(c.text), url, events[1..])
        case Some(cits) =>
          match WalkCitations(url, cits)
          case None => Raised(MetadataMissing)
          case Some(u) => Run(Some(c.text), u, events[1..])
  }

  /** The loop raises `UnboundLocalError` only when it started without an
      answer and had no event left to set one. */
  lemma {:induction false} RunUnbound(answer: Option<string>, url: UrlValue, events: seq<Event>)
    ensures Run(answer, url, events) == Raised(AnswerUnbound) <==> events == [] && answer.None?
    decreases |events|
  {
    if events != [] && events[0].chunk.Some? {
      var c := events[0].chunk.value;
      RunUnbound(Some(c.text), url, events[1..]);
      if c.attribution.Some? {
        match WalkCitations(url, c.attribution.value)
        case None =>
        case Some(u) => RunUnbound(Some(c.text), u, events[1..]);
      }
    }
  }

  /** `invoke_llm` after the remote call: `url = ""` and no answer yet. */
  function InvokeResult(events: seq<Event>): Outcome {
    Run(None, Url(""), events)
  }

  /**
   * The loops of `invoke_llm`, run over the event stream.
   */
  method CollectAnswer(events: seq<Event>) returns (result: Outcome)
    ensures result == InvokeResult(events)
  {
    var returnString: Option<string> := None;
    var url := Url("");
    for i := 0 to |events|
      invariant Run(returnString, url, events[i..]) == InvokeResult(events)
    {
      assert events[i..][1..] == events[i + 1..];
      var event := events[i];
      if event.chunk.None? {
        return Raised(ChunkMissing);
      }
      returnString := Some(event.chunk.value.text);
      if event.chunk.value.attribution.Some? {
        var cits := event.chunk.value.attribution.value;
        ghost var walked := WalkCitations(url, cits);
        for j := 0 to |cits|
          invariant WalkCitations(url, cits[j..]) == walked
        {
          assert cits[j..][1..] == cits[j + 1..];
          var refs := cits[j].retrievedReferences;
          ghost var inner := WalkReferences(url, refs);
          for k := 0 to |refs|
            invariant WalkReferences(url, refs[k..]) == inner
          {
            assert refs[k..][1..] == refs[k + 1..];
            if refs[k].metadata.None? {
              return Raised(MetadataMissing);
            }
            url := UrlOf(refs[k]);
          }
        }
      }
    }
    match returnString
    case None => result := Raised(AnswerUnbound);
    case Some(a) => result := Returned(a + Separator + Shown(url));
  }

  // What the loops compute, stated without the loops

  /** The references of the citations, citations in order, references within each. */
  function CitationRefs(cits: seq<AttributionCitation>): seq<Reference>
    decreases |cits|
  {
    if cits == [] then [] else cits[0].retrievedReferences + CitationRefs(cits[1..])
  }

  /** The references one event's attribution carries. */
  function ChunkRefs(e: Event): seq<Reference> {
    if e.chunk.Some? && e.chunk.value.attribution.Some? then CitationRefs(e.chunk.value.attribution.value) else []
  }

  /** Every reference the loops visit, in visiting order. */
  function EventRefs(events: seq<Event>): seq<Reference>
    decreases |events|
  {
    if events == [] then [] else ChunkRefs(events[0]) + EventRefs(events[1..])
  }

  predicate AllHaveMetadata(refs: seq<Reference>) {
    forall i :: 0 <= i < |refs| ==> refs[i].metadata.Some?
  }

  predicate AllHaveChunk(events: seq<Event>) {
    forall i :: 0 <= i < |events| ==> events[i].chunk.Some?
  }

  /** `url` after visiting `refs`: the last reference's `url`, or the old value when there are none. */
  function LastUrl(url: UrlValue, refs: seq<Reference>): UrlValue
    requires AllHaveMetadata(refs)
  {
    if refs == [] then url else UrlOf(refs[|refs| - 1])
  }

  lemma AllHaveMetadataAppend(a: seq<Reference>, b: seq<Reference>)
    ensures AllHaveMetadata(a + b) <==> AllHaveMetadata(a) && AllHaveMetadata(b)
  {
    if AllHaveMetadata(a + b) {
      forall i | 0 <= i < |a| ensures a[i].metadata.Some? { assert (a + b)[i] == a[i]; }
      forall i | 0 <= i < |b| ensures b[i].metadata.Some? { assert (a + b)[|a| + i] == b[i]; }
    }
  }

  lemma LastUrlAppend(url: UrlValue, a: seq<Reference>, b: seq<Reference>)
    requires AllHaveMetadata(a) && AllHaveMetadata(b)
    ensures AllHaveMetadata(a + b)
    ensures LastUrl(LastUrl(url, a), b) == LastUrl(url, a + b)
  {
    AllHaveMetadataAppend(a, b);
    if b == [] { assert a + b == a; }
    else { assert (a + b)[|a + b| - 1] == b[|b| - 1]; }
  }

  /** The innermost loop keeps the last `url` or raises on a reference without metadata. */
  lemma {:induction false} WalkReferencesIsLast(url: UrlValue, refs: seq<Reference>)
    ensures WalkReferences(url, refs) == if AllHaveMetadata(refs) then Some(LastUrl(url, refs)) else None
    decreases |refs|
  {
    if refs != [] {
      WalkReferencesIsLast(if refs[0].metadata.Some? then UrlOf(refs[0]) else url, refs[1..]);
      assert refs == [refs[0]] + refs[1..];
      AllHaveMetadataAppend([refs[0]], refs[1..]);
      if AllHaveMetadata(refs) {
        LastUrlAppend(url, [refs[0]], refs[1..]);
      }
    }
  }

  /** The two inner loops together visit the citations' references in order. */
  lemma {:induction false} WalkCitationsIsLast(url: UrlValue, cits: seq<AttributionCitation>)
    ensures var refs := CitationRefs(cits);
      WalkCitations(url, cits) == if AllHaveMetadata(refs) then Some(LastUrl(url, refs)) else None
    decreases |cits|
  {
    if cits != [] {
      var first := cits[0].retrievedReferences;
      var rest := CitationRefs(cits[1..]);
      WalkReferencesIsLast(url, first);
      AllHaveMetadataAppend(first, rest);
      if AllHaveMetadata(first) {
        WalkCitationsIsLast(LastUrl(url, first), cits[1..]);
        if AllHaveMetadata(rest) { LastUrlAppend(url, first, rest); }
      }
    }
  }

  /** The text of the last event, which must carry a chunk. */
  function LastText(events: seq<Event>): string
    requires events != [] && AllHaveChunk(events)
  {
    events[|events| - 1].chunk.value.text
  }

  /** From any loop state, the remaining events either raise, exactly when one
      lacks a chunk, a visited reference lacks metadata, or no answer was ever
      set, or return the last answer with the last visited `url`. */
  lemma {:induction false} RunIsLast(answer: Option<string>, url: UrlValue, events: seq<Event>)
    ensures Run(answer, url, events).Returned? <==>
      AllHaveChunk(events) && AllHaveMetadata(EventRefs(events)) && (events != [] || answer.Some?)
    ensures Run(answer, url, events).Returned? ==>
      Run(answer, url, events).text ==
        (if events == [] then answer.value else LastText(events)) + Separator + Shown(LastUrl(url, EventRefs(events)))
    decreases |events|
  {
    if events != [] {
      var e := events[0];
      var tail := events[1..];
      assert AllHaveChunk(events) <==> e.chunk.Some? && AllHaveChunk(tail) by {
        assert forall i :: 0 <= i < |tail| ==> tail[i] == events[i + 1];
        if e.chunk.Some? && AllHaveChunk(tail) {
          forall i | 0 <= i < |events| ensures events[i].chunk.Some? { if i > 0 { assert events[i] == tail[i - 1]; } }
        }
      }
      AllHaveMetadataAppend(ChunkRefs(e), EventRefs(tail));
      if e.chunk.Some? {
        var c := e.chunk.value;
        var u := url;
        if c.attribution.Some? {
          WalkCitationsIsLast(url, c.attribution.value);
          if AllHaveMetadata(ChunkRefs(e)) { u := LastUrl(url, ChunkRefs(e)); }
        }
        RunIsLast(Some(c.text), u, tail);
        if AllHaveMetadata(ChunkRefs(e)) && AllHaveMetadata(EventRefs(tail)) {
          LastUrlAppend(url, ChunkRefs(e), EventRefs(tail));
          assert c.attribution.None? ==> ChunkRefs(e) == [];
          if tail != [] && AllHaveChunk(tail) { assert LastText(events) == LastText(tail); }
        }
      }
    }
  }

  /** `invoke_llm` returns `answer + "\nFind more information: " + url`, where the
      answer is the last event's chunk text (earlier chunks are overwritten),
      and `url` the last visited reference's `url`, "" when no reference was
      visited; it raises exactly when the stream is empty, an event has no
      chunk, or a visited reference has no metadata. */
  lemma InvokeResultIsLast(events: seq<Event>)
    ensures InvokeResult(events).Returned? <==>
      events != [] && AllHaveChunk(events) && AllHaveMetadata(EventRefs(events))
    ensures InvokeResult(events).Returned? ==>
      InvokeResult(events).text == LastText(events) + Separator + Shown(LastUrl(Url(""), EventRefs(events)))
    ensures InvokeResult(events).Returned? && EventRefs(events) == [] ==>
      InvokeResult(events).text == LastText(events) + Separator
  {
    RunIsLast(None, Url(""), events);
  }

  /** An event with no chunk makes the call raise, whatever else the stream holds,
      and an empty stream leaves the answer unbound. */
  lemma MissingChunkRaises(events: seq<Event>, i: nat)
    requires i < |events| && events[i].chunk.None?
    ensures InvokeResult(events).Raised?
    ensures InvokeResult([]) == Raised(AnswerUnbound)
  {
    InvokeResultIsLast(events);
  }
}
