# rowdyLLM core, modelled in Dafny

rowdyLLM sets up a question-answering chatbot for UMass Lowell on Amazon
Bedrock. Most of the repository calls remote services. This project models
the parts that hold their own logic:

- **The `.env` upsert** (`write_agent_id`, `write_agent_alias` in `agent.py`,
  and the same code in `tools/agent.py`). It records `AGENT_ID = <id>` and
  `AGENT_ALIAS = <id>` in the `.env` file (module `EnvFile`). Python's
  `readlines()` and the sequence of `file.write` calls are modelled too
  (module `Lines`).
- **`generate_random_string`** and the execution-role name built from it
  (module `RandomId`).
- **The chat page `rowdy_stream.py`**:
  - `parse_s3_uri` (module `S3Uri`, on top of Python's `replace`, `split`
    and `join` in `PyText`)
  - `Citation` and `extract_citations`, plus the metadata lookups the
    citation list makes (module `Citations`)
  - the streaming loop that builds `full_response` and `full_context`
    (module `ChatStream`)
  - the `st.session_state.messages` log with a turn and
    `clear_chat_history` (class `ChatSession.Session`).
- **The event-stream fold of `invoke_llm`** in `tests/old_src/app/llm.py`
  (module `AgentEvents`).

The two `agent.py` files contain the same upsert and random-string code
(`agent.py:55-57,185-225` and `tools/agent.py:34-36,161-201`), so one model
covers both. The rows below cite whichever copy is clearer.

Modelling choices:
- A missing `.env` file is `None`.
- `random.choice` appears as a parameter `draw`, where `draw(i)` is the
  alphabet position picked on call `i`.
- The LangChain chain appears as the sequence of chunks it emits, and the
  Bedrock agent as its sequence of events.
- A Python exception is an error value of the result.

In three places the code behaves differently from what such a chat pipeline
usually promises. The model follows the code:
- A chat turn appends the user message **before** the answer is streamed.
  So when the turn fails, the log keeps the prompt with no answer
  (`FailedTurnLeavesPrompt`). It is not left unchanged.
- A citation that lacks `score` or `source_metadata.url` **fails the whole
  turn**. The citation is not skipped.
- The chain ignores the session id: it is the constant `"any"`
  (rowdy_stream.py:177), and the history factory always returns the same
  `history` object (rowdy_stream.py:108). The message log itself is
  Streamlit's per-browser-session state, and one `Session` object models
  one browser session.

## Model

| member | source | states |
|---|---|---|
| EnvFile.KeyLineIsLine | agent.py:187 | The written line `<key> = <value>\n` starts with the key, and is one complete line when neither the key nor the value holds a newline. |
| EnvFile.Upsert | agent.py:192-201 | The lines written are `Upserted(...)`. With no file, exactly the key line is written. Otherwise each line that starts with the key becomes the key line and every other line is copied in order. The key line is appended once at the end exactly when no line matched. So the count stays the same on a match and grows by one otherwise. |
| EnvFile.WriteAgentId | agent.py:185-204 | The new `.env` text is the `AGENT_ID` upsert of the lines read. A missing file ends up as exactly `AGENT_ID = <id>\n`. If the file was missing or ended in a newline, and the id has no newline, the file's lines then include `AGENT_ID = <id>\n`, and every line starting with `AGENT_ID` is that line. |
| EnvFile.WriteAgentAlias | agent.py:206-225 | The same as `WriteAgentId` with the key `AGENT_ALIAS`. A missing file ends up as exactly `AGENT_ALIAS = <id>\n`. Under the same conditions as `WriteAgentId`, the alias line is then present and is the only line starting with `AGENT_ALIAS`. |
| EnvFile.WriteAgentKeys | agent.py:180-181 | The id is written, then the alias. If the file was missing or ended in a newline, and neither id holds a newline, the file's lines then include both key lines, and every line starting with `AGENT_ID` or `AGENT_ALIAS` is that key's line. |
| EnvFile.UpsertedOnlyNewLine | tools/agent.py:170-177 | After the upsert, every line that starts with the key is the key line. |
| EnvFile.UpsertedKeeps | tools/agent.py:174-175 | A line of the file that does not start with the key is still there after the upsert. |
| EnvFile.UpsertedHasNewLine | tools/agent.py:170-180 | The key line is present after the upsert, whether it replaced a line, was appended, or the file was missing. |
| EnvFile.UpsertedIdempotent | tools/agent.py:168-177 | On lines, upserting the same key line twice gives the same lines as upserting it once. |
| EnvFile.ReadBackEnv | agent.py:189-201 | If the file was missing or ended in a newline, and neither the key nor the value holds a newline, reading the written file back gives exactly the lines the upsert wrote. |
| EnvFile.EnvAfterIdempotent | agent.py:185-204 | If the file was missing or ended in a newline, and neither the key nor the value holds a newline, writing the same key and value twice leaves the same text as writing them once. |
| EnvFile.UnterminatedNotIdempotent | tools/agent.py:164-177 | Take a file that is one non-empty line with no final newline, a key and a value with no newline, and suppose the line followed by the key line does not start with the key (so the file's one line did not already hold the key). Writing the key fuses the key line onto that line. A second write then appends the key line again, so the two results differ. |
| EnvFile.UnterminatedExample | agent.py:189-201 | The file `X=1` becomes `X=1AGENT_ID = a\n`, and a second write gives a different text. |
| EnvFile.IdWritten | agent.py:185-204 | After the id is written to a file that was missing or ended in a newline, with an id holding no newline, the file ends in a newline, reads back as the id upsert, and holds the id line as its only `AGENT_ID` line. |
| EnvFile.AliasUpsertKeepsId | tools/agent.py:189-197 | The alias upsert leaves the agent-id line alone. Afterwards both key lines are present and each key's lines are that key's line. |
| EnvFile.BothKeysPresent | tools/agent.py:156-157 | After the id and then the alias are written to a file that was missing or ended in a newline, with neither id holding a newline, both key lines are lines of the file, and each key's lines are that key's line. |
| Lines.ReadLinesPieces | agent.py:190 | `readlines()` returns no pieces exactly for the empty text, and never more pieces than characters. Every piece is non-empty with no newline before its last character, and every piece but the last is a complete line. |
| Lines.Concat | agent.py:192-201 | The text left by the writes starts with the first piece written, and is empty exactly when every piece written was empty. |
| Lines.ConcatReadLines | agent.py:189-190 | `readlines()` keeps every character: concatenating the lines gives the text back. |
| Lines.ReadLinesConcat | agent.py:192-199 | Complete lines that are written and then read back come back unchanged. |
| Lines.ReadLinesAllLines | agent.py:190 | Every line from `readlines()` is a complete line (it ends in `\n`) exactly when the text is empty or ends in a newline. |
| Lines.ReadLinesSingle | agent.py:190 | A text that has no newline before its last character is read as one line. |
| Lines.ConcatTerminated | agent.py:196-201 | Writing complete lines leaves a text that is empty or ends in a newline. |
| RandomId.AlphabetIsAlnum | tools/agent.py:35 | `ascii_letters + digits` has 62 characters, each an ASCII letter or digit, and every ASCII letter and digit is among them. |
| RandomId.GenerateRandomString | agent.py:55-57 | The result has exactly `length` characters, each an ASCII letter or digit. |
| RandomId.RoleName | agent.py:63 | The role name is `AmazonBedrockExecutionRoleForAgents_` followed by exactly 10 ASCII letters or digits. |
| PyText.StartsWithChars | agent.py:195 | `line.startswith(key)` holds exactly when the key is no longer than the line and matches it character by character. |
| PyText.RemoveAll | rowdy_stream.py:142 | `replace(pat, "")` never gives a result longer than the text. |
| PyText.RemoveAllLeftmost | rowdy_stream.py:142 | `replace(pat, "")` drops the leftmost occurrence and resumes right after it. The text before it is kept, the text after it is processed on its own, and the two sides are never rejoined into a new occurrence. With `RemoveAllAbsent`, this fixes the result on every input. |
| PyText.RemoveAllTwo | rowdy_stream.py:142 | A text made of a leading occurrence, a stretch without one, a second occurrence and a tail without one loses both occurrences. |
| PyText.RemoveAllDrops | rowdy_stream.py:142 | `replace(pat, "")` only drops characters: the result's characters are a sub-multiset of the text's. |
| PyText.RemoveAllAbsent | rowdy_stream.py:142 | `replace("s3://", "")` leaves a text without `s3://` unchanged. |
| PyText.FirstIndex | rowdy_stream.py:142-143 | The result is the position of a separator with no separator before it. |
| PyText.Split | rowdy_stream.py:142 | `split("/")` gives at least one part, and no part contains the separator. |
| PyText.JoinSeparators | rowdy_stream.py:144 | `"/".join(parts)` starts with the first part. When no part contains the separator, the result contains it exactly when there are two parts or more. |
| PyText.JoinSplit | rowdy_stream.py:142-144 | Joining the parts of a split with the same separator gives the text back. |
| PyText.SplitJoin | rowdy_stream.py:142-144 | Splitting a join of parts that contain no separator gives the parts back. |
| PyText.SplitHead | rowdy_stream.py:143-144 | The first part is the text before the first separator. The other parts, joined, are the text after it. |
| S3Uri.BucketAndKey | rowdy_stream.py:142-145 | The bucket never contains `/`. If the text has a `/`, the bucket is the text before the first `/` and `bucket + "/" + key` is the text. Otherwise the bucket is the whole text and the key is `""`. |
| S3Uri.ParseS3Uri | rowdy_stream.py:140-145 | The same facts, where the text is the URI with every `s3://` removed. |
| S3Uri.ParseS3UriRoundTrip | rowdy_stream.py:140-145 | If `bucket + "/" + key` contains no `s3://` and the bucket has no `/`, then `s3://bucket/key` parses to `(bucket, key)`. |
| S3Uri.ParseS3UriDropsInnerScheme | rowdy_stream.py:140-145 | Every `s3://` is removed, not only the leading one. For every bucket without `/`, `s3://bucket/a` + `s3://` + `b` parses to key `a + b`, when that inner `s3://` is the only one after the leading scheme. |
| S3Uri.BucketAndKeyOf | rowdy_stream.py:143-145 | For every bucket without `/` and every key, `bucket/key` splits back into that bucket and that key. |
| S3Uri.ParseS3UriAltersKey | rowdy_stream.py:142 | `s3://b/s3://k` parses to `("b", "k")`, not `("b", "s3://k")`. |
| S3Uri.ParseS3UriPrefix | rowdy_stream.py:140-145 | The corrected parse that strips only a leading `s3://`. It satisfies the same bucket and key facts. |
| S3Uri.ParseS3UriPrefixRoundTrip | rowdy_stream.py:140-145 | For every bucket without `/` and every key, `s3://bucket/key` parses to `(bucket, key)`. |
| Citations.ExtractCitations | rowdy_stream.py:117-122 | There is one citation per document, in the same order, with `page_content` and `metadata` copied unchanged. |
| Citations.ExtractCitationsAppend | rowdy_stream.py:121-122 | Extraction preserves order: extracting a concatenation gives the concatenation of the extractions. |
| Citations.FirstUnrenderable | rowdy_stream.py:197-207 | It gives the position of the first citation whose metadata lookup fails, or the length when none fails. Every earlier citation can be shown. |
| Citations.FirstUnrenderableWithUrls | rowdy_stream.py:206-207 | When every citation has `source_metadata.url`, also reading the URL stops no citation that reading the score alone would not. |
| Citations.RenderCitations | rowdy_stream.py:197-207 | The loop reports no failure exactly when every citation has `score` (and `source_metadata.url` when it is read). Otherwise it reports the first citation that lacks one. |
| ChatStream.StreamedTextAppend | rowdy_stream.py:184-190 | The answer text is built piece by piece as chunks arrive: the text of a concatenation of chunks is the concatenation of their texts. |
| ChatStream.ResponseTexts | rowdy_stream.py:188-189 | There is at most one response text per chunk, and each one is the text of a response chunk of the stream. |
| ChatStream.StreamedTextIsResponses | rowdy_stream.py:188-192 | `full_response` is the concatenation, in arrival order, of the texts of the response chunks alone. |
| ChatStream.ContextChunkAddsNothing | rowdy_stream.py:191-192 | Inserting a context chunk anywhere in the stream leaves the answer text unchanged. |
| ChatStream.LastContextIsLast | rowdy_stream.py:191-192 | `full_context` is unbound exactly when no context chunk arrived. Otherwise it holds the documents of the last context chunk. |
| ChatStream.Accumulate | rowdy_stream.py:183-192 | The loop leaves `full_response` equal to the concatenated fragments and `full_context` equal to the last context, or unbound. |
| ChatSession.StreamedOutcome | rowdy_stream.py:179-209 | A streamed turn always runs. It fails with `full_context` unbound exactly when every chunk is a response. It is answered exactly when a context arrived and every citation of the last context has `score` and `source_metadata.url`. The answer is then `full_response` (the streamed text) with the citations of the last context. A citation failure names the first citation of the last context whose lookup fails; every earlier one can be shown. |
| ChatSession.Logged | rowdy_stream.py:172-209 | A turn only appends to the log, at most two messages. It leaves the log unchanged exactly when there was no prompt. The first appended message is the user's prompt. Two messages are appended exactly when the turn was answered: the user's prompt, then the assistant's answer. A failed turn appends the prompt alone. |
| ChatSession.Session.constructor | rowdy_stream.py:163-164 | The log starts as the single assistant greeting. |
| ChatSession.Session.Clear | rowdy_stream.py:148-150 | Whatever the log held, it becomes exactly one assistant message. Only the commented-out sidebar button (rowdy_stream.py:155) refers to it. |
| ChatSession.Session.Ask | rowdy_stream.py:172-209 | An empty prompt changes nothing. Otherwise the user message is appended, then the assistant message with the full streamed answer. The assistant message is appended only if a context arrived and every citation has `score` and `source_metadata.url`. An answered turn keeps the log alternating. |
| ChatSession.Session.AskBlocking | rowdy_stream.py:210-232 | The blocking branch, which the page never takes because `streaming_on` is `True` (rowdy_stream.py:160): the user message, then the response. The response is appended only if every citation has a `score`. |
| ChatSession.LoggedAlternates | rowdy_stream.py:173-209 | An answered turn appends a user message and then an assistant message, so an alternating log stays alternating. |
| ChatSession.ReplayAnswered | rowdy_stream.py:173-209 | Answered turns only append to the log: each prompt, then its streamed answer, in the order the turns ran. |
| ChatSession.ExchangeAt | rowdy_stream.py:173-209 | N answered turns append 2N messages. Turn k's prompt comes at position 2k and its answer at 2k + 1. |
| ChatSession.ReplayAlternates | rowdy_stream.py:173-209 | Answered turns keep an alternating log alternating. |
| ChatSession.ConversationAlternates | rowdy_stream.py:164-209 | From the greeting, N answered turns leave 1 + 2N messages that alternate assistant/user, assistant first. |
| ChatSession.FailedTurnLeavesPrompt | rowdy_stream.py:173-207 | A turn that fails leaves the log with its prompt appended and no answer. |
| ChatSession.StreamingMatchesBlocking | rowdy_stream.py:179-232 | Suppose the fragments add up to the blocking response, the last context is the blocking context, and every citation has a URL. Then the streamed and blocking turns end alike. |
| AgentEvents.CollectAnswer | tests/old_src/app/llm.py:31-45 | The three nested loops and the return compute `InvokeResult(events)`. |
| AgentEvents.WalkReferencesIsLast | tests/old_src/app/llm.py:41-43 | The reference loop ends with the last reference's `url`, or the old value when there are none. It raises when a reference has no metadata. |
| AgentEvents.WalkCitationsIsLast | tests/old_src/app/llm.py:39-43 | Citations are walked in order, then references within each. `url` ends as the last visited reference's `url`. |
| AgentEvents.RunUnbound | tests/old_src/app/llm.py:34-45 | The loop ends with `returnString` unbound exactly when it started without an answer and no event was left. |
| AgentEvents.RunIsLast | tests/old_src/app/llm.py:34-45 | From any loop state, the remaining loop returns exactly when every event has a chunk, every visited reference has metadata and some answer was set. It returns the last answer, the separator and the last `url`. |
| AgentEvents.InvokeResultIsLast | tests/old_src/app/llm.py:31-45 | The result is the last event's chunk text, then `\nFind more information: `, then the last visited `url`, which is `""` when no reference was visited. Earlier chunks are overwritten. It raises exactly when the stream is empty, an event lacks a chunk, or a visited reference lacks metadata. |
| AgentEvents.MissingChunkRaises | tests/old_src/app/llm.py:36-39 | An event without a chunk makes the call raise, and an empty stream leaves the answer unbound. |

## Findings

`parse_s3_uri` is called only from lines that are commented out (rowdy_stream.py:199-200 and 223-224), so the page as shipped never reaches this path. The finding is about the function itself, for any caller that uses it.

| source | as written | input that shows it | evidently intended | confidence | as-written member | corrected member |
|---|---|---|---|---|---|---|
| rowdy_stream.py:142 | `uri.replace("s3://", "")` removes the scheme wherever it occurs, so a key that contains `s3://` is changed | `parse_s3_uri("s3://b/s3://k")` gives `("b", "k")` | strip only the leading `s3://`, so that the result is `("b", "s3://k")` | medium; not executed | S3Uri.ParseS3UriAltersKey | S3Uri.ParseS3UriPrefixRoundTrip |

## Left out

- The Bedrock, IAM and STS calls (`create_agent`, `update_agent`, `prepare_agent`, `list_agents`, `delete_agent`, the alias functions, the role and policy creation, and `invoke_agent`): they are remote services with no local logic. The `create_agent_role` role name is modelled; the rest of that function is not.
- `time.sleep`, `load_dotenv`, `print` and logging: they have no effect on the modelled values.
- Real file I/O: the `.env` file is its text, or `None` when it is missing. Text-mode newline translation (`\r\n`), other I/O errors and encodings are not modelled.
- The LangChain pieces (`ChatPromptTemplate`, `AmazonKnowledgeBasesRetriever`, `ChatOpenAI`, `RunnableParallel`, `RunnableWithMessageHistory`, `StreamlitChatMessageHistory`) are foreign libraries. The chain is the chunk sequence it emits. Its own history (`history`, which `clear_chat_history` also clears) is not modelled.
- A chunk that carries neither `'response'` nor `'context'`, and a stream that fails midway, cannot be represented: the chunk type has only those two cases, and the chunk sequence is given.
- The page sets `streaming_on = True` (rowdy_stream.py:160), so only the streaming branch runs. The blocking branch is modelled as `AskBlocking` for completeness.
- `clear_chat_history` has no live caller: the only reference is the commented-out sidebar button (rowdy_stream.py:155). It is modelled as `Session.Clear` on its own.
- `parse_s3_uri` has no live caller: its two calls are commented out (rowdy_stream.py:199-200, 223-224), and `create_presigned_url` is a remote call. The function is modelled on its own.
- Streamlit rendering (`st.write`, `st.markdown`, `st.expander`, `st.chat_message`) and the loop that redisplays the log: these are UI. The citation loop is modelled only for which lookups fail.
- The displayed score and URL values: they are opaque metadata.
- In `invoke_llm`: the byte chunks are assumed already decoded (UTF-8 decoding errors are not modelled). The `'bytes'` key of a chunk (tests/old_src/app/llm.py:37) and the `'citations'` and `'retrievedReferences'` keys are assumed present; a missing one would raise `KeyError`. Metadata values are strings.
- `main.py`, `cdk/cdk_stack.py` (whose `generate_random_string` is the same as the one modelled), `tests/testllm.py` and `src/app/main.py`: these are command dispatch, infrastructure declarations and single remote calls.
