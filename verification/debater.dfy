/** A language-model debater: one claim per turn, truncated for the record. */
module Debater {
  import opened Wrappers
  import opened Text
  import opened Records
  import opened Scoring
  import opened SpeechHandler

  /** What the model call produced for a claim: a reply, or an exception. */
  datatype ClaimOutcome = Replied(text: string) | Raised

  /** The claim recorded when the model call raises. */
  const ClaimFailure: string := "论点生成失败"

  /** The word limit a debater uses when its configuration names none. */
  const DefaultMaxWords: int := 1000

  /** `config.get("max_speech_length", 1000)`. */
  function MaxWords(configured: Option<int>): (m: int)
    ensures configured.None? ==> m == DefaultMaxWords
    ensures configured.Some? ==> m == configured.value
  {
    configured.GetOr(DefaultMaxWords)
  }

  /** `_generate_claim`: the stripped reply, or the failure text. */
  function Claim(outcome: ClaimOutcome): (c: string)
    ensures Strip(c) == c
    ensures outcome.Replied? ==> c == Strip(outcome.text)
    ensures outcome.Raised? ==> c == ClaimFailure
  {
    match outcome
    case Replied(text) =>
      StripIdempotent(text);
      Strip(text)
    case Raised =>
      assert Strip(ClaimFailure) == ClaimFailure by {
        assert !IsSpace(ClaimFailure[0]) && !IsSpace(ClaimFailure[|ClaimFailure| - 1]);
        StripIdempotent(ClaimFailure);
      }
      ClaimFailure
  }

  /** `generate_response`: an argument record keeping the whole claim as
      `full_content` and its word-limited form as `content`. */
  function DebaterResponse(agentId: string, role: string, maxWords: int, outcome: ClaimOutcome,
                           tok: Tokenizer): (r: Record)
    ensures r.Argument? && r.agentId == agentId && r.role == role
    ensures r.fullContent == Some(Claim(outcome))
    ensures r.content == LimitWords(Claim(outcome), maxWords, tok)
    ensures ValidateSpeechLength(Claim(outcome), maxWords, tok) ==> r.content == Claim(outcome)
    ensures !ValidateSpeechLength(Claim(outcome), maxWords, tok) ==>
      var n := |tok(Claim(outcome))|;
      |r.content| >= |TruncationNote(n)| && r.content[|r.content| - |TruncationNote(n)|..] == TruncationNote(n)
  {
    var claim := Claim(outcome);
    Argument(agentId, role, LimitWords(claim, maxWords, tok), Some(claim))
  }

  /** A referee scores the whole claim of a debater, never its truncated form. */
  lemma RefereeScoresWholeClaim(agentId: string, role: string, maxWords: int, outcome: ClaimOutcome,
                                tok: Tokenizer)
    ensures ScoredText(DebaterResponse(agentId, role, maxWords, outcome, tok)) == Claim(outcome)
  {
  }

  /** `DebaterAgent._summarize_history`: excerpts are cut at 80 characters without "...". */
  function DebaterSummary(history: seq<Record>): (s: string)
    ensures history == [] <==> s == NoHistory
  {
    Summarize(history, false)
  }

  /** The debater's and the scorer's summaries differ only in the "..." marker, so
      they coincide when no recent content exceeds 80 characters. */
  lemma {:induction false} SummariesAgreeOnShortContent(history: seq<Record>)
    requires forall i :: 0 <= i < |LastThree(history)| ==> |ContentOr(LastThree(history)[i])| <= 80
    ensures DebaterSummary(history) == ScoringSummary(history)
  {
    if |history| > 0 {
      assert SummaryLines(history, false) == SummaryLines(history, true);
    }
  }

  /** With a recent content over 80 characters, the two summaries differ: the
      scorer's is longer by the "..." of every cut excerpt. */
  lemma SummariesDifferOnLongContent(history: seq<Record>, i: nat)
    requires i < |LastThree(history)| && |ContentOr(LastThree(history)[i])| > 80
    ensures DebaterSummary(history) != ScoringSummary(history)
  {
    var marked := SummaryLines(history, true);
    var plain := SummaryLines(history, false);
    forall j | 0 <= j < |marked| ensures |marked[j]| >= |plain[j]| {
      SummaryLineLength(j + 1, LastThree(history)[j]);
    }
    SummaryLineLength(i + 1, LastThree(history)[i]);
    TotalLengthGrows(marked, plain, i);
    JoinLength(marked, '\n');
    JoinLength(plain, '\n');
  }

  /** A summary line with "..." is three characters longer exactly when its content is cut. */
  lemma SummaryLineLength(n: nat, r: Record)
    ensures |SummaryLine(n, r, true)| == |SummaryLine(n, r, false)| + (if |ContentOr(r)| > 80 then 3 else 0)
  {
  }
}
