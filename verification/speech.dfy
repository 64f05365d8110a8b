/** Word-limit truncation of a speech and its length check. */
module SpeechHandler {
  import opened Wrappers
  import opened Text
  import opened Scoring

  /** Length of Python's `words[:m]` for a list of `n` words; a negative `m` counts from the end. */
  function SliceEnd(n: nat, m: int): (k: nat)
    ensures k <= n
    ensures 0 <= m < n ==> k == m
  {
    if m >= 0 then (if m <= n then m else n)
    else if n + m >= 0 then n + m else 0
  }

  const NoteHead: string := "（发言已截断，原始长度："
  const NoteTail: string := "字）"

  /** The suffix appended to a truncated speech, carrying the original word count. */
  function TruncationNote(n: nat): string {
    NoteHead + NatToString(n) + NoteTail
  }

  /** Reads the word count back out of a truncation note. */
  function ReadTruncationNote(s: string): Option<nat> {
    if |s| > |NoteHead| + |NoteTail| && s[..|NoteHead|] == NoteHead && s[|s| - |NoteTail|..] == NoteTail then
      var digits := s[|NoteHead|..|s| - |NoteTail|];
      if forall i :: 0 <= i < |digits| ==> IsDigit(digits[i]) then Some(ParseNat(digits)) else None
    else None
  }

  /** The note of a truncation records exactly the original word count. */
  lemma ReadTruncationNoteOf(n: nat)
    ensures ReadTruncationNote(TruncationNote(n)) == Some(n)
  {
    var s := TruncationNote(n);
    var digits := NatToString(n);
    assert s[..|NoteHead|] == NoteHead;
    assert s[|s| - |NoteTail|..] == NoteTail;
    assert s[|NoteHead|..|s| - |NoteTail|] == digits;
    ParseNatToString(n);
  }

  /** `validate_speech_length`: the speech has at most `maxWords` words. */
  predicate ValidateSpeechLength(content: string, maxWords: int, tok: Tokenizer) {
    |tok(content)| <= maxWords
  }

  /** `limit_words`: the text itself when within the limit, otherwise its first
      words (Python slice semantics) followed by the truncation note. */
  function LimitWords(text: string, maxWords: int, tok: Tokenizer): (r: string)
    ensures ValidateSpeechLength(text, maxWords, tok) ==> r == text
    ensures !ValidateSpeechLength(text, maxWords, tok) ==>
      var words := tok(text);
      r == Concat(words[..SliceEnd(|words|, maxWords)]) + TruncationNote(|words|)
  {
    var words := tok(text);
    if |words| <= maxWords then text
    else Concat(words[..SliceEnd(|words|, maxWords)]) + TruncationNote(|words|)
  }

  /** When the segmentation concatenates back to the text, a truncated speech is
      a prefix of the text followed by a note recording the original word count. */
  lemma TruncatedSpeechShape(text: string, maxWords: int, tok: Tokenizer)
    requires Concat(tok(text)) == text
    requires !ValidateSpeechLength(text, maxWords, tok)
    ensures var r := LimitWords(text, maxWords, tok);
      var note := TruncationNote(|tok(text)|);
      var k := |r| - |note|;
      && 0 <= k <= |text|
      && r == text[..k] + note
      && ReadTruncationNote(r[k..]) == Some(|tok(text)|)
  {
    var words := tok(text);
    var e := SliceEnd(|words|, maxWords);
    ConcatSplitAt(words, e);
    var kept := Concat(words[..e]);
    assert text == kept + Concat(words[e..]);
    assert kept == text[..|kept|];
    var note := TruncationNote(|words|);
    var r := LimitWords(text, maxWords, tok);
    assert r == kept + note;
    assert r[|r| - |note|..] == note;
    ReadTruncationNoteOf(|words|);
  }
}
