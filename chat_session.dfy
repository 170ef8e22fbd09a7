/**
 * The chat page's message log (`st.session_state.messages`) and one chat
 * turn: the user's prompt is logged, the answer is streamed, its citations
 * are shown, and the answer is logged; `clear_chat_history` resets the log.
 */
module ChatSession {
  import opened Wrappers
  import opened Citations
  import opened ChatStream

  datatype Role = User | Assistant

  /** `{"role": ..., "content": ...}` */
  datatype Message = Message(role: Role, content: string)

  const Greeting := "Ask me anything about UMass Lowell!"
  const ClearedGreeting := "Ok I've cleared the chat history. Do you have any other questions?"

  /** Why a turn stopped before the answer was logged: `full_context` was
      never bound (`NameError`), or a citation's metadata lookup raised. */
  datatype TurnError = ContextUnbound | CitationUnreadable(index: nat)

  /** `NoPrompt`: `st.chat_input()` gave `None` or "", so no turn ran. */
  datatype TurnOutcome =
    | NoPrompt
    | Answered(answer: string, citations: seq<Citation>)
    | Failed(error: TurnError)

  /** What a streamed turn ends with, given everything the chain emitted. */
  function StreamedOutcome(chunks: seq<Chunk>): (r: TurnOutcome)
    ensures r != NoPrompt
    ensures r == Failed(ContextUnbound) <==> forall i :: 0 <= i < |chunks| ==> chunks[i].Response?
    ensures r.Answered? <==>
      (LastContext(chunks).Some? &&
       forall i :: 0 <= i < |LastContext(chunks).value| ==> Renderable(ExtractCitations(LastContext(chunks).value)[i], true))
    ensures r.Answered? ==> r.answer == StreamedText(chunks) && r.citations == ExtractCitations(LastContext(chunks).value)
    ensures r.Failed? && r.error.CitationUnreadable? ==>
      (LastContext(chunks).Some? &&
       var cs := ExtractCitations(LastContext(chunks).value);
       r.error.index < |cs| && !Renderable(cs[r.error.index], true) &&
       forall i :: 0 <= i < r.error.index ==> Renderable(cs[i], true))
  {
    LastContextIsLast(chunks);
    match LastContext(chunks)
    case None => Failed(ContextUnbound)
    case Some(docs) =>
      var cs := ExtractCitations(docs);
      var k := FirstUnrenderable(cs, true);
      if k == |cs| then Answered(StreamedText(chunks), cs)
      else
        assert LastContext(chunks).value == docs && k < |docs|;
        assert !Renderable(ExtractCitations(LastContext(chunks).value)[k], true);
        Failed(CitationUnreadable(k))
  }

  /** What the blocking (`invoke`) turn ends with; it shows only the score. */
  function BlockingOutcome(response: string, context: seq<Document>): TurnOutcome {
    var cs := ExtractCitations(context);
    var k := FirstUnrenderable(cs, false);
    if k == |cs| then Answered(response, cs) else Failed(CitationUnreadable(k))
  }

  /** The log after a turn with this outcome: the prompt is logged before the
      answer is computed, the answer only once the turn completed. */
  function Logged(log: seq<Message>, prompt: string, outcome: TurnOutcome): (r: seq<Message>)
    ensures |log| <= |r| <= |log| + 2 && r[..|log|] == log
    ensures r == log <==> outcome.NoPrompt?
    ensures |r| > |log| ==> r[|log|] == Message(User, prompt)
    ensures outcome.Answered? <==> |r| == |log| + 2
    ensures outcome.Answered? ==> r == log + [Message(User, prompt), Message(Assistant, outcome.answer)]
    ensures outcome.Failed? ==> r == log + [Message(User, prompt)]
  {
    match outcome
    case NoPrompt => log
    case Answered(answer, _) => log + [Message(User, prompt), Message(Assistant, answer)]
    case Failed(_) => log + [Message(User, prompt)]
  }

  /** An assistant message first, then user and assistant messages in turn. */
  predicate Alternates(log: seq<Message>) {
    |log| % 2 == 1 && forall i :: 0 <= i < |log| ==> log[i].role == if i % 2 == 0 then Assistant else User
  }

  class Session {
    var messages: seq<Message>

    /** The first run of the page: the log holds the greeting only. */
    constructor ()
      ensures messages == [Message(Assistant, Greeting)]
      ensures Alternates(messages)
    {
      messages := [Message(Assistant, Greeting)];
    }

    /** `clear_chat_history`: whatever the log held, it holds one assistant message. */
    method Clear()
      modifies this
      ensures messages == [Message(Assistant, ClearedGreeting)]
      ensures Alternates(messages)
    {
      messages := [Message(Assistant, ClearedGreeting)];
    }

    /** One streamed turn for `prompt`, the chain emitting `chunks`. */
    method Ask(prompt: string, chunks: seq<Chunk>) returns (outcome: TurnOutcome)
      modifies this
      ensures outcome == if prompt == "" then NoPrompt else StreamedOutcome(chunks)
      ensures messages == Logged(old(messages), prompt, outcome)
      ensures old(Alternates(messages)) && outcome.Answered? ==> Alternates(messages)
    {
      ghost var before := messages;
      if prompt == "" {
        return NoPrompt;
      }
      messages := messages + [Message(User, prompt)];
      var fullResponse, fullContext := Accumulate(chunks);
      if fullContext.None? {
        return Failed(ContextUnbound);
      }
      var citations := ExtractCitations(fullContext.value);
      var failedAt := RenderCitations(citations, true);
      if failedAt.Some? {
        return Failed(CitationUnreadable(failedAt.value));
      }
      messages := messages + [Message(Assistant, fullResponse)];
      outcome := Answered(fullResponse, citations);
      if Alternates(before) {
        LoggedAlternates(before, prompt, outcome);
      }
    }

    /** One blocking turn: the chain returns `response` and `context` at once. */
    method AskBlocking(prompt: string, response: string, context: seq<Document>) returns (outcome: TurnOutcome)
      modifies this
      ensures outcome == if prompt == "" then NoPrompt else BlockingOutcome(response, context)
      ensures messages == Logged(old(messages), prompt, outcome)
    {
      if prompt == "" {
        return NoPrompt;
      }
      messages := messages + [Message(User, prompt)];
      var citations := ExtractCitations(context);
      var failedAt := RenderCitations(citations, false);
      if failedAt.Some? {
        return Failed(CitationUnreadable(failedAt.value));
      }
      messages := messages + [Message(Assistant, response)];
      outcome := Answered(response, citations);
    }
  }

  /** An answered turn keeps the log alternating. */
  lemma LoggedAlternates(log: seq<Message>, prompt: string, outcome: TurnOutcome)
    requires Alternates(log) && outcome.Answered?
    ensures Alternates(Logged(log, prompt, outcome))
  {
    var r := Logged(log, prompt, outcome);
    forall i | 0 <= i < |r| ensures r[i].role == if i % 2 == 0 then Assistant else User {
      if i < |log| { assert r[i] == log[i]; }
    }
  }

  /** A prompt and what the chain emits for it. */
  datatype Turn = Turn(prompt: string, chunks: seq<Chunk>)

  function TurnOutcomeOf(t: Turn): TurnOutcome {
    if t.prompt == "" then NoPrompt else StreamedOutcome(t.chunks)
  }

  /** The log after the turns run one after another. */
  function Replay(log: seq<Message>, turns: seq<Turn>): seq<Message>
    decreases |turns|
  {
    if turns == [] then log
    else Replay(Logged(log, turns[0].prompt, TurnOutcomeOf(turns[0])), turns[1..])
  }

  predicate Succeeds(t: Turn) {
    TurnOutcomeOf(t).Answered?
  }

  /** The prompt and answer messages of answered turns, in order. */
  function Exchange(turns: seq<Turn>): seq<Message>
    decreases |turns|
  {
    if turns == [] then []
    else [Message(User, turns[0].prompt), Message(Assistant, StreamedText(turns[0].chunks))] + Exchange(turns[1..])
  }

  /** Answered turns only ever append: each prompt, then its streamed answer. */
  lemma {:induction false} ReplayAnswered(log: seq<Message>, turns: seq<Turn>)
    requires forall k :: 0 <= k < |turns| ==> Succeeds(turns[k])
    ensures Replay(log, turns) == log + Exchange(turns)
    decreases |turns|
  {
    if turns != [] {
      var t := turns[0];
      var pair := [Message(User, t.prompt), Message(Assistant, StreamedText(t.chunks))];
      assert Logged(log, t.prompt, TurnOutcomeOf(t)) == log + pair;
      ReplayAnswered(log + pair, turns[1..]);
      assert log + pair + Exchange(turns[1..]) == log + (pair + Exchange(turns[1..]));
    } else {
      assert log + [] == log;
    }
  }

  /** Turn k contributes messages 2k (its prompt) and 2k + 1 (its answer). */
  lemma {:induction false} ExchangeAt(turns: seq<Turn>, k: nat)
    requires k < |turns|
    ensures |Exchange(turns)| == 2 * |turns|
    ensures Exchange(turns)[2 * k] == Message(User, turns[k].prompt)
    ensures Exchange(turns)[2 * k + 1] == Message(Assistant, StreamedText(turns[k].chunks))
    decreases |turns|
  {
    if |turns| > 1 {
      ExchangeAt(turns[1..], if k > 0 then k - 1 else 0);
      if k > 0 { assert turns[1..][k - 1] == turns[k]; }
    }
  }

  /** Answered turns keep an alternating log alternating. */
  lemma {:induction false} ReplayAlternates(log: seq<Message>, turns: seq<Turn>)
    requires Alternates(log)
    requires forall k :: 0 <= k < |turns| ==> Succeeds(turns[k])
    ensures Alternates(Replay(log, turns))
    decreases |turns|
  {
    if turns != [] {
      LoggedAlternates(log, turns[0].prompt, TurnOutcomeOf(turns[0]));
      ReplayAlternates(Logged(log, turns[0].prompt, TurnOutcomeOf(turns[0])), turns[1..]);
    }
  }

  /** From the greeting, N answered turns leave 1 + 2N alternating messages. */
  lemma ConversationAlternates(turns: seq<Turn>)
    requires forall k :: 0 <= k < |turns| ==> Succeeds(turns[k])
    ensures |Replay([Message(Assistant, Greeting)], turns)| == 1 + 2 * |turns|
    ensures Alternates(Replay([Message(Assistant, Greeting)], turns))
  {
    ReplayAnswered([Message(Assistant, Greeting)], turns);
    if turns != [] { ExchangeAt(turns, 0); }
    ReplayAlternates([Message(Assistant, Greeting)], turns);
  }

  /** A turn that fails leaves the prompt logged without an answer. */
  lemma FailedTurnLeavesPrompt(log: seq<Message>, t: Turn)
    requires t.prompt != "" && !Succeeds(t)
    ensures Replay(log, [t]) == log + [Message(User, t.prompt)]
  {
    assert [t][1..] == [];
  }

  /** Streaming and blocking agree when the fragments add up to the blocking
      response and the streamed context is the blocking context, provided
      every citation has its URL (which only the streamed turn reads). */
  lemma StreamingMatchesBlocking(chunks: seq<Chunk>, response: string, context: seq<Document>)
    requires StreamedText(chunks) == response && LastContext(chunks) == Some(context)
    requires forall i :: 0 <= i < |context| ==> HasUrl(ExtractCitations(context)[i])
    ensures StreamedOutcome(chunks) == BlockingOutcome(response, context)
  {
    FirstUnrenderableWithUrls(ExtractCitations(context));
  }
}
