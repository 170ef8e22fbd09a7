/**
 * A text file as Python's `file.readlines()` sees it and as a sequence of
 * `file.write(line)` calls produces it.  Text-mode newline translation is
 * not modelled: the text is what Python has after translation.
 */
module Lines {

  /** A complete line: non-empty, ends in "\n", and has no other "\n". */
  predicate IsLine(l: string) {
    |l| > 0 && l[|l| - 1] == '\n' && '\n' !in l[..|l| - 1]
  }

  /** The file text left by writing `ls` one after another. */
  function Concat(ls: seq<string>): (text: string)
    ensures ls != [] ==> |ls[0]| <= |text| && text[..|ls[0]|] == ls[0]
    ensures text == [] <==> forall i :: 0 <= i < |ls| ==> ls[i] == []
  {
    if ls == [] then "" else ls[0] + Concat(ls[1..])
  }

  /** Length of the first line of `text`, its "\n" included when there is one. */
  function FirstLineLength(text: string): (k: nat)
    requires text != []
    ensures 0 < k <= |text|
    ensures '\n' !in text[..k - 1]
    ensures text[k - 1] == '\n' || k == |text|
  {
    if text[0] == '\n' || |text| == 1 then 1
    else
      var j := FirstLineLength(text[1..]);
      assert text[..j] == [text[0]] + text[1..][..j - 1];
      1 + j
  }

  /** `readlines()`: every piece ends just after a "\n", except a last piece
      the text does not terminate. */
  function ReadLines(text: string): seq<string>
    decreases |text|
  {
    if text == [] then []
    else
      var k := FirstLineLength(text);
      [text[..k]] + ReadLines(text[k..])
  }

  /** Every piece `readlines` returns is non-empty with no "\n" before its
      last character, and every piece but the last is a complete line. */
  lemma {:induction false} ReadLinesPieces(text: string)
    ensures |ReadLines(text)| <= |text|
    ensures text == [] <==> ReadLines(text) == []
    ensures forall i :: 0 <= i < |ReadLines(text)| ==>
      ReadLines(text)[i] != [] && '\n' !in ReadLines(text)[i][..|ReadLines(text)[i]| - 1]
    ensures forall i :: 0 <= i < |ReadLines(text)| - 1 ==> IsLine(ReadLines(text)[i])
    decreases |text|
  {
    if text != [] {
      var k := FirstLineLength(text);
      var rest := ReadLines(text[k..]);
      ReadLinesPieces(text[k..]);
      assert ReadLines(text) == [text[..k]] + rest;
      assert text[..k][..k - 1] == text[..k - 1];
      if k < |text| {
        assert text[k - 1] == '\n';
      }
    }
  }

  /** A text with no "\n" before its last character is read as one line. */
  lemma ReadLinesSingle(text: string)
    requires text != [] && '\n' !in text[..|text| - 1]
    ensures ReadLines(text) == [text]
  {
    var k := FirstLineLength(text);
    forall j | 0 <= j < |text| - 1 ensures text[j] != '\n' { assert text[..|text| - 1][j] == text[j]; }
    assert k == |text|;
    assert text[..k] == text;
    assert ReadLines(text) == [text] + ReadLines([]);
  }

  predicate AllLines(ls: seq<string>) {
    forall i :: 0 <= i < |ls| ==> IsLine(ls[i])
  }

  /** The text is empty or ends in a newline. */
  predicate Terminated(text: string) {
    text == [] || text[|text| - 1] == '\n'
  }

  /** Reading loses nothing: writing the lines back reproduces the text. */
  lemma {:induction false} ConcatReadLines(text: string)
    ensures Concat(ReadLines(text)) == text
    decreases |text|
  {
    if text != [] {
      var k := FirstLineLength(text);
      ConcatReadLines(text[k..]);
      assert ReadLines(text)[1..] == ReadLines(text[k..]);
      assert text == text[..k] + text[k..];
    }
  }

  lemma FirstLineOfLine(l: string, rest: string)
    requires IsLine(l)
    ensures FirstLineLength(l + rest) == |l|
  {
    var t := l + rest;
    var k := FirstLineLength(t);
    assert t[..|l| - 1] == l[..|l| - 1];
    assert t[|l| - 1] == '\n';
    forall j | 0 <= j < |l| - 1 ensures t[j] != '\n' { assert t[..|l| - 1][j] == t[j]; }
    forall j | 0 <= j < k - 1 ensures t[j] != '\n' { assert t[..k - 1][j] == t[j]; }
  }

  /** Writing complete lines and reading them back gives the same lines. */
  lemma {:induction false} ReadLinesConcat(ls: seq<string>)
    requires AllLines(ls)
    ensures ReadLines(Concat(ls)) == ls
  {
    if ls != [] {
      var rest := Concat(ls[1..]);
      FirstLineOfLine(ls[0], rest);
      assert (ls[0] + rest)[..|ls[0]|] == ls[0];
      assert (ls[0] + rest)[|ls[0]|..] == rest;
      ReadLinesConcat(ls[1..]);
      assert ls == [ls[0]] + ls[1..];
    }
  }

  /** Every piece `readlines()` returns is a complete line exactly when the
      text is empty or ends in a newline. */
  lemma {:induction false} ReadLinesAllLines(text: string)
    ensures AllLines(ReadLines(text)) <==> Terminated(text)
    decreases |text|
  {
    if text != [] {
      var k := FirstLineLength(text);
      var first := text[..k];
      ReadLinesAllLines(text[k..]);
      var rest := ReadLines(text[k..]);
      assert ReadLines(text) == [first] + rest;
      AllLinesCons(first, rest);
      assert IsLine(first) <==> text[k - 1] == '\n' by {
        assert first[..k - 1] == text[..k - 1];
      }
      if k < |text| {
        assert text[k..][|text[k..]| - 1] == text[|text| - 1];
      }
    }
  }

  lemma AllLinesCons(l: string, ls: seq<string>)
    ensures AllLines([l] + ls) <==> IsLine(l) && AllLines(ls)
  {
    var all := [l] + ls;
    if AllLines(all) {
      forall i | 0 <= i < |ls| ensures IsLine(ls[i]) { assert all[i + 1] == ls[i]; }
      assert all[0] == l;
    }
    if IsLine(l) && AllLines(ls) {
      forall i | 0 <= i < |all| ensures IsLine(all[i]) { if i > 0 { assert all[i] == ls[i - 1]; } }
    }
  }

  /** Written complete lines leave a terminated text. */
  lemma {:induction false} ConcatTerminated(ls: seq<string>)
    requires AllLines(ls)
    ensures Terminated(Concat(ls))
  {
    if ls != [] {
      ConcatTerminated(ls[1..]);
      var rest := Concat(ls[1..]);
      if rest != [] {
        assert (ls[0] + rest)[|ls[0] + rest| - 1] == rest[|rest| - 1];
      }
    }
  }
}
