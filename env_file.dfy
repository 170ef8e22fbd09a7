/**
 * `write_agent_id` and `write_agent_alias`: record a key in the `.env` file,
 * replacing every line that starts with the key and appending the key line
 * when none did.  Both functions are one upsert with a different key.
 */
module EnvFile {
  import opened Wrappers
  import opened PyText
  import opened Lines

  const AgentIdKey := "AGENT_ID"
  const AgentAliasKey := "AGENT_ALIAS"

  /** The line written for a key: `f"{key} = {value}\n"`. */
  function KeyLine(key: string, value: string): string {
    key + " = " + value + "\n"
  }

  predicate AnyStartsWith(lines: seq<string>, prefix: string) {
    exists i :: 0 <= i < |lines| && StartsWith(lines[i], prefix)
  }

  /** Each line starting with `prefix` replaced by `newLine`, the others kept. */
  function Replaced(lines: seq<string>, prefix: string, newLine: string): seq<string> {
    seq(|lines|, i requires 0 <= i < |lines| => if StartsWith(lines[i], prefix) then newLine else lines[i])
  }

  /** The lines the upsert writes, given the lines read (`None`: no file). */
  function Upserted(content: Option<seq<string>>, prefix: string, newLine: string): seq<string> {
    match content
    case None => [newLine]
    case Some(lines) =>
      Replaced(lines, prefix, newLine) + (if AnyStartsWith(lines, prefix) then [] else [newLine])
  }

  /** The lines `readlines()` gives for the file, `None` when it is missing. */
  function ReadEnv(file: Option<string>): Option<seq<string>> {
    match file
    case None => None
    case Some(text) => Some(ReadLines(text))
  }

  /** The text of the `.env` file after recording `key = value` in it. */
  function EnvAfter(file: Option<string>, key: string, value: string): string {
    Concat(Upserted(ReadEnv(file), key, KeyLine(key, value)))
  }

  /**
   * The loop of the upsert: the sequence of `file.write` calls it makes,
   * given the lines read from the file or `None` when the file is missing.
   */
  method Upsert(content: Option<seq<string>>, prefix: string, newLine: string) returns (written: seq<string>)
    ensures written == Upserted(content, prefix, newLine)
    ensures content.None? ==> written == [newLine]
    ensures content.Some? ==>
      |written| == |content.value| + (if AnyStartsWith(content.value, prefix) then 0 else 1)
    ensures content.Some? ==> forall i :: 0 <= i < |content.value| ==>
      written[i] == if StartsWith(content.value[i], prefix) then newLine else content.value[i]
    ensures content.Some? && !AnyStartsWith(content.value, prefix) ==>
      written[|content.value|] == newLine
  {
    match content
    case None =>
      written := [newLine];
    case Some(lines) =>
      written := [];
      var found := false;
      for i := 0 to |lines|
        invariant |written| == i
        invariant forall j :: 0 <= j < i ==>
          written[j] == if StartsWith(lines[j], prefix) then newLine else lines[j]
        invariant found <==> exists j :: 0 <= j < i && StartsWith(lines[j], prefix)
      {
        if StartsWith(lines[i], prefix) {
          written := written + [newLine];
          found := true;
        } else {
          written := written + [lines[i]];
        }
      }
      if !found {
        written := written + [newLine];
      }
      assert written[..|lines|] == Replaced(lines, prefix, newLine);
  }

  /** `write_agent_id(agent_id)`: the new text of the `.env` file. */
  method WriteAgentId(file: Option<string>, agentId: string) returns (text: string)
    ensures text == EnvAfter(file, AgentIdKey, agentId)
    ensures file.None? ==> text == KeyLine(AgentIdKey, agentId)
    ensures (file.None? || Terminated(file.value)) && '\n' !in agentId ==>
      && KeyLine(AgentIdKey, agentId) in ReadLines(text)
      && forall i :: 0 <= i < |ReadLines(text)| && StartsWith(ReadLines(text)[i], AgentIdKey) ==>
           ReadLines(text)[i] == KeyLine(AgentIdKey, agentId)
  {
    var written := Upsert(ReadEnv(file), AgentIdKey, KeyLine(AgentIdKey, agentId));
    text := Concat(written);
    assert Concat([KeyLine(AgentIdKey, agentId)]) == KeyLine(AgentIdKey, agentId);
    if (file.None? || Terminated(file.value)) && '\n' !in agentId {
      ReadBackEnv(file, AgentIdKey, agentId);
      UpsertedHasNewLine(ReadEnv(file), AgentIdKey, KeyLine(AgentIdKey, agentId));
      UpsertedOnlyNewLine(ReadEnv(file), AgentIdKey, KeyLine(AgentIdKey, agentId));
    }
  }

  /** `write_agent_alias(agent_id)`: the same upsert for the alias key. */
  method WriteAgentAlias(file: Option<string>, aliasId: string) returns (text: string)
    ensures text == EnvAfter(file, AgentAliasKey, aliasId)
    ensures file.None? ==> text == KeyLine(AgentAliasKey, aliasId)
    ensures (file.None? || Terminated(file.value)) && '\n' !in aliasId ==>
      && KeyLine(AgentAliasKey, aliasId) in ReadLines(text)
      && forall i :: 0 <= i < |ReadLines(text)| && StartsWith(ReadLines(text)[i], AgentAliasKey) ==>
           ReadLines(text)[i] == KeyLine(AgentAliasKey, aliasId)
  {
    var written := Upsert(ReadEnv(file), AgentAliasKey, KeyLine(AgentAliasKey, aliasId));
    text := Concat(written);
    assert Concat([KeyLine(AgentAliasKey, aliasId)]) == KeyLine(AgentAliasKey, aliasId);
    if (file.None? || Terminated(file.value)) && '\n' !in aliasId {
      ReadBackEnv(file, AgentAliasKey, aliasId);
      UpsertedHasNewLine(ReadEnv(file), AgentAliasKey, KeyLine(AgentAliasKey, aliasId));
      UpsertedOnlyNewLine(ReadEnv(file), AgentAliasKey, KeyLine(AgentAliasKey, aliasId));
    }
  }

  /** The end of `create_agent`: the agent id is written, then the alias id. */
  method WriteAgentKeys(file: Option<string>, agentId: string, aliasId: string) returns (text: string)
    ensures text == EnvAfter(Some(EnvAfter(file, AgentIdKey, agentId)), AgentAliasKey, aliasId)
    ensures (file.None? || Terminated(file.value)) && '\n' !in agentId && '\n' !in aliasId ==>
      KeysRecorded(ReadLines(text), KeyLine(AgentIdKey, agentId), KeyLine(AgentAliasKey, aliasId))
  {
    var afterId := WriteAgentId(file, agentId);
    text := WriteAgentAlias(Some(afterId), aliasId);
    if (file.None? || Terminated(file.value)) && '\n' !in agentId && '\n' !in aliasId {
      BothKeysPresent(file, agentId, aliasId);
    }
  }

  // Line-level facts

  /** After the upsert, every line that starts with the key is the key line. */
  lemma UpsertedOnlyNewLine(content: Option<seq<string>>, prefix: string, newLine: string)
    ensures var r := Upserted(content, prefix, newLine);
      forall i :: 0 <= i < |r| && StartsWith(r[i], prefix) ==> r[i] == newLine
  {
  }

  /** A line that does not start with the key survives the upsert. */
  lemma UpsertedKeeps(content: Option<seq<string>>, prefix: string, newLine: string, l: string)
    requires content.Some? && l in content.value && !StartsWith(l, prefix)
    ensures l in Upserted(content, prefix, newLine)
  {
    var lines := content.value;
    var i :| 0 <= i < |lines| && lines[i] == l;
    assert Upserted(content, prefix, newLine)[i] == l;
  }

  /** The key line is always present after the upsert. */
  lemma UpsertedHasNewLine(content: Option<seq<string>>, prefix: string, newLine: string)
    ensures newLine in Upserted(content, prefix, newLine)
  {
    if content.Some? {
      var lines := content.value;
      var r := Upserted(content, prefix, newLine);
      if AnyStartsWith(lines, prefix) {
        var i :| 0 <= i < |lines| && StartsWith(lines[i], prefix);
        assert r[i] == newLine;
      } else {
        assert r[|lines|] == newLine;
      }
    }
  }

  /** Upserting the same key line again changes nothing, when the key line
      itself starts with the key. */
  lemma UpsertedIdempotent(content: Option<seq<string>>, prefix: string, newLine: string)
    requires StartsWith(newLine, prefix)
    ensures Upserted(Some(Upserted(content, prefix, newLine)), prefix, newLine) == Upserted(content, prefix, newLine)
  {
    var once := Upserted(content, prefix, newLine);
    UpsertedHasNewLine(content, prefix, newLine);
    var k :| 0 <= k < |once| && once[k] == newLine;
    assert AnyStartsWith(once, prefix);
    UpsertedOnlyNewLine(content, prefix, newLine);
    assert Replaced(once, prefix, newLine) == once;
  }

  /** Complete lines in, complete lines out, when the key line is complete. */
  lemma UpsertedAllLines(content: Option<seq<string>>, prefix: string, newLine: string)
    requires content.Some? ==> AllLines(content.value)
    requires IsLine(newLine)
    ensures AllLines(Upserted(content, prefix, newLine))
  {
  }

  /** The written line starts with its key, and is one complete line when
      neither the key nor the value holds a newline. */
  lemma KeyLineIsLine(key: string, value: string)
    ensures StartsWith(KeyLine(key, value), key)
    ensures '\n' !in key && '\n' !in value ==> IsLine(KeyLine(key, value))
  {
    var line := KeyLine(key, value);
    assert line[..|key|] == key;
    assert line[..|line| - 1] == key + " = " + value;
  }

  /** Reading back a file the upsert wrote gives the lines it wrote. */
  lemma ReadBackEnv(file: Option<string>, key: string, value: string)
    requires file.None? || Terminated(file.value)
    requires '\n' !in key && '\n' !in value
    ensures ReadLines(EnvAfter(file, key, value)) == Upserted(ReadEnv(file), key, KeyLine(key, value))
  {
    KeyLineIsLine(key, value);
    if file.Some? { ReadLinesAllLines(file.value); }
    UpsertedAllLines(ReadEnv(file), key, KeyLine(key, value));
    ReadLinesConcat(Upserted(ReadEnv(file), key, KeyLine(key, value)));
  }

  // File-level facts

  /** Writing the same key twice leaves the file as writing it once, provided
      the file was missing or its last line ended in a newline. */
  lemma EnvAfterIdempotent(file: Option<string>, key: string, value: string)
    requires file.None? || Terminated(file.value)
    requires '\n' !in key && '\n' !in value
    ensures EnvAfter(Some(EnvAfter(file, key, value)), key, value) == EnvAfter(file, key, value)
  {
    ReadBackEnv(file, key, value);
    assert StartsWith(KeyLine(key, value), key) by {
      assert KeyLine(key, value)[..|key|] == key;
    }
    UpsertedIdempotent(ReadEnv(file), key, KeyLine(key, value));
  }

  /** Without a final newline the upsert is not idempotent: the unterminated
      last line fuses with the appended key line, the fused line no longer
      starts with the key, and a second run appends the key line once more. */
  lemma {:induction false} UnterminatedNotIdempotent(text: string, key: string, value: string)
    requires text != [] && '\n' !in text && '\n' !in key && '\n' !in value
    requires !StartsWith(text + KeyLine(key, value), key)
    ensures EnvAfter(Some(text), key, value) == text + KeyLine(key, value)
    ensures EnvAfter(Some(EnvAfter(Some(text), key, value)), key, value)
         == text + KeyLine(key, value) + KeyLine(key, value)
  {
    var line := KeyLine(key, value);
    ReadLinesSingle(text);
    assert !StartsWith(text, key) by {
      if |key| <= |text| { assert (text + line)[..|key|] == text[..|key|]; }
    }
    assert Upserted(Some([text]), key, line) == [text, line];
    ConcatPair(text, line);
    var fused := text + line;
    assert fused[..|fused| - 1] == text + key + " = " + value;
    ReadLinesSingle(fused);
    assert Upserted(Some([fused]), key, line) == [fused, line];
    ConcatPair(fused, line);
  }

  /** One input that shows it: the file "X=1" without a final newline. */
  lemma UnterminatedExample()
    ensures EnvAfter(Some("X=1"), AgentIdKey, "a") == "X=1AGENT_ID = a\n"
    ensures EnvAfter(Some(EnvAfter(Some("X=1"), AgentIdKey, "a")), AgentIdKey, "a") != EnvAfter(Some("X=1"), AgentIdKey, "a")
  {
    var fused := "X=1" + KeyLine(AgentIdKey, "a");
    assert fused == "X=1AGENT_ID = a\n";
    assert !StartsWith(fused, AgentIdKey) by { assert fused[0] != AgentIdKey[0]; }
    UnterminatedNotIdempotent("X=1", AgentIdKey, "a");
    assert |fused + KeyLine(AgentIdKey, "a")| != |fused|;
  }

  lemma ConcatPair(a: string, b: string)
    ensures Concat([a, b]) == a + b
  {
    assert [a, b][1..] == [b];
    assert Concat([b]) == b;
  }

  /** Both key lines are present, and each line starting with a key is that key's line. */
  predicate KeysRecorded(lines: seq<string>, idLine: string, aliasLine: string) {
    && idLine in lines
    && aliasLine in lines
    && (forall i :: 0 <= i < |lines| && StartsWith(lines[i], AgentIdKey) ==> lines[i] == idLine)
    && (forall i :: 0 <= i < |lines| && StartsWith(lines[i], AgentAliasKey) ==> lines[i] == aliasLine)
  }

  /** The alias upsert leaves the agent-id lines the id upsert wrote alone. */
  lemma AliasUpsertKeepsId(lines: seq<string>, idLine: string, aliasLine: string)
    requires idLine in lines
    requires forall i :: 0 <= i < |lines| && StartsWith(lines[i], AgentIdKey) ==> lines[i] == idLine
    requires !StartsWith(idLine, AgentAliasKey)
    requires StartsWith(aliasLine, AgentAliasKey) && !StartsWith(aliasLine, AgentIdKey)
    ensures KeysRecorded(Upserted(Some(lines), AgentAliasKey, aliasLine), idLine, aliasLine)
  {
    var r := Upserted(Some(lines), AgentAliasKey, aliasLine);
    UpsertedKeeps(Some(lines), AgentAliasKey, aliasLine, idLine);
    UpsertedHasNewLine(Some(lines), AgentAliasKey, aliasLine);
    UpsertedOnlyNewLine(Some(lines), AgentAliasKey, aliasLine);
    forall i | 0 <= i < |r| && StartsWith(r[i], AgentIdKey) ensures r[i] == idLine {
      if i < |lines| && !StartsWith(lines[i], AgentAliasKey) {
        assert r[i] == lines[i];
      }
    }
  }

  /** After the id is written to a file that was missing or ended in a newline,
      the file is terminated and its lines are the id upsert, which holds the id
      line as its only `AGENT_ID` line. */
  lemma IdWritten(file: Option<string>, agentId: string)
    requires file.None? || Terminated(file.value)
    requires '\n' !in agentId
    ensures var lines := Upserted(ReadEnv(file), AgentIdKey, KeyLine(AgentIdKey, agentId));
      && Terminated(EnvAfter(file, AgentIdKey, agentId))
      && ReadLines(EnvAfter(file, AgentIdKey, agentId)) == lines
      && KeyLine(AgentIdKey, agentId) in lines
      && forall i :: 0 <= i < |lines| && StartsWith(lines[i], AgentIdKey) ==> lines[i] == KeyLine(AgentIdKey, agentId)
  {
    var idLine := KeyLine(AgentIdKey, agentId);
    var lines := Upserted(ReadEnv(file), AgentIdKey, idLine);
    KeyLineIsLine(AgentIdKey, agentId);
    ReadBackEnv(file, AgentIdKey, agentId);
    if file.Some? { ReadLinesAllLines(file.value); }
    UpsertedAllLines(ReadEnv(file), AgentIdKey, idLine);
    ConcatTerminated(lines);
    UpsertedHasNewLine(ReadEnv(file), AgentIdKey, idLine);
    UpsertedOnlyNewLine(ReadEnv(file), AgentIdKey, idLine);
  }

  /** After `create_agent` writes the id and then the alias, both key lines
      are lines of the file, and every line starting with either key is that
      key's line. */
  lemma BothKeysPresent(file: Option<string>, agentId: string, aliasId: string)
    requires file.None? || Terminated(file.value)
    requires '\n' !in agentId && '\n' !in aliasId
    ensures KeysRecorded(ReadLines(EnvAfter(Some(EnvAfter(file, AgentIdKey, agentId)), AgentAliasKey, aliasId)),
                         KeyLine(AgentIdKey, agentId), KeyLine(AgentAliasKey, aliasId))
  {
    var idLine := KeyLine(AgentIdKey, agentId);
    var aliasLine := KeyLine(AgentAliasKey, aliasId);
    var afterId := EnvAfter(file, AgentIdKey, agentId);
    IdWritten(file, agentId);
    ReadBackEnv(Some(afterId), AgentAliasKey, aliasId);
    assert !StartsWith(idLine, AgentAliasKey) by { assert idLine[7] != AgentAliasKey[7]; }
    assert StartsWith(aliasLine, AgentAliasKey) by { assert aliasLine[..|AgentAliasKey|] == AgentAliasKey; }
    assert !StartsWith(aliasLine, AgentIdKey) by { assert aliasLine[7] != AgentIdKey[7]; }
    AliasUpsertKeepsId(Upserted(ReadEnv(file), AgentIdKey, idLine), idLine, aliasLine);
  }
}
