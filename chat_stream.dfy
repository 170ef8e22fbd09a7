/**
 * The streamed answer of one chat turn: the chain emits chunks that carry
 * either a `'response'` fragment or the retrieved `'context'`; the page
 * concatenates the fragments and keeps the context.
 */
module ChatStream {
  import opened Wrappers
  import opened Citations
  import opened Lines

  /** One streamed chunk: `{'response': text}` or `{'context': docs}`. */
  datatype Chunk = Response(text: string) | Context(docs: seq<Document>)

  /** The fragments of the response chunks, concatenated in arrival order. */
  function StreamedText(chunks: seq<Chunk>): string {
    if chunks == [] then ""
    else (if chunks[0].Response? then chunks[0].text else "") + StreamedText(chunks[1..])
  }

  /** The documents of the last context chunk, `None` when none arrived. */
  function LastContext(chunks: seq<Chunk>): Option<seq<Document>> {
    if chunks == [] then None
    else if chunks[|chunks| - 1].Context? then Some(chunks[|chunks| - 1].docs)
    else LastContext(chunks[..|chunks| - 1])
  }

  /** The answer text can be assembled piecewise, as chunks arrive. */
  lemma {:induction false} StreamedTextAppend(a: seq<Chunk>, b: seq<Chunk>)
    ensures StreamedText(a + b) == StreamedText(a) + StreamedText(b)
  {
    if a != [] {
      var head := if a[0].Response? then a[0].text else "";
      assert (a + b)[0] == a[0];
      assert (a + b)[1..] == a[1..] + b;
      StreamedTextAppend(a[1..], b);
      assert StreamedText(a + b) == head + StreamedText(a[1..] + b);
      assert StreamedText(a) == head + StreamedText(a[1..]);
    } else {
      assert a + b == b;
    }
  }

  /** The texts of the response chunks in arrival order; context chunks are dropped. */
  function ResponseTexts(chunks: seq<Chunk>): (texts: seq<string>)
    ensures |texts| <= |chunks|
    ensures forall i :: 0 <= i < |texts| ==> Response(texts[i]) in chunks
  {
    if chunks == [] then []
    else (if chunks[0].Response? then [chunks[0].text] else []) + ResponseTexts(chunks[1..])
  }

  /** The answer is the response texts alone, concatenated in order. */
  lemma {:induction false} StreamedTextIsResponses(chunks: seq<Chunk>)
    ensures StreamedText(chunks) == Concat(ResponseTexts(chunks))
  {
    if chunks != [] {
      var rest := ResponseTexts(chunks[1..]);
      StreamedTextIsResponses(chunks[1..]);
      if chunks[0].Response? {
        var texts := [chunks[0].text] + rest;
        assert texts[0] == chunks[0].text && texts[1..] == rest;
      } else {
        assert [] + rest == rest;
      }
    }
  }

  /** A context chunk, wherever it arrives, adds nothing to the answer. */
  lemma ContextChunkAddsNothing(before: seq<Chunk>, docs: seq<Document>, after: seq<Chunk>)
    ensures StreamedText(before + [Context(docs)] + after) == StreamedText(before + after)
  {
    StreamedTextAppend(before + [Context(docs)], after);
    StreamedTextAppend(before, [Context(docs)]);
    StreamedTextAppend(before, after);
    assert [Context(docs)][1..] == [];
  }

  /** Chunk `i` is a context chunk and every later chunk is a response chunk. */
  predicate IsLastContext(chunks: seq<Chunk>, i: nat) {
    i < |chunks| && chunks[i].Context? && forall j :: i < j < |chunks| ==> chunks[j].Response?
  }

  /** `LastContext` is `None` exactly when no context chunk arrived, and is
      otherwise the documents of the last context chunk. */
  lemma {:induction false} LastContextIsLast(chunks: seq<Chunk>)
    ensures LastContext(chunks).None? <==> forall i :: 0 <= i < |chunks| ==> chunks[i].Response?
    ensures LastContext(chunks).Some? ==>
      exists i: nat :: IsLastContext(chunks, i) && chunks[i].docs == LastContext(chunks).value
  {
    if chunks != [] {
      var n := |chunks| - 1;
      var init := chunks[..n];
      LastContextIsLast(init);
      assert forall i :: 0 <= i < n ==> init[i] == chunks[i];
      if chunks[n].Context? {
        assert IsLastContext(chunks, n);
      } else if LastContext(init).Some? {
        var i: nat :| IsLastContext(init, i) && init[i].docs == LastContext(init).value;
        assert IsLastContext(chunks, i);
      }
    }
  }

  /**
   * The `for chunk in chain_with_history.stream(...)` loop: `full_response`
   * grows by each response fragment, `full_context` is reassigned on each
   * context chunk and stays unbound (`None`) when none arrives.
   */
  method Accumulate(chunks: seq<Chunk>) returns (fullResponse: string, fullContext: Option<seq<Document>>)
    ensures fullResponse == StreamedText(chunks)
    ensures fullContext == LastContext(chunks)
  {
    fullResponse := "";
    fullContext := None;
    for i := 0 to |chunks|
      invariant fullResponse == StreamedText(chunks[..i])
      invariant fullContext == LastContext(chunks[..i])
    {
      var chunk := chunks[i];
      assert chunks[..i + 1] == chunks[..i] + [chunk];
      assert chunks[..i + 1][..i] == chunks[..i];
      StreamedTextAppend(chunks[..i], [chunk]);
      assert [chunk][1..] == [];
      if chunk.Response? {
        fullResponse := fullResponse + chunk.text;
      } else {
        fullContext := Some(chunk.docs);
      }
    }
    assert chunks[..|chunks|] == chunks;
  }
}
