/** Turn records of the speech history and the score mappings they carry. */
module Records {
  import opened Wrappers

  /** One dimension score; a score mapping is an ordered list of these, in
      the insertion order a Python dict keeps. */
  datatype Score = Score(dim: string, value: real)

  type Scores = seq<Score>

  /** A speech-history entry: a speaker's argument or the referee's judgment of it.
      `fullContent` is absent for records that never carried it (human players). */
  datatype Record =
    | Argument(agentId: string, role: string, content: string, fullContent: Option<string>)
    | Judgment(agentId: string, scores: Scores, comment: string)

  /** The five scoring dimensions, in the order the lexical scorer emits them. */
  const Dimensions: seq<string> := ["logic", "persuasion", "relevance", "clarity", "depth"]

  /** The dimension names of a score mapping, in order. */
  function Dims(s: Scores): (r: seq<string>)
    ensures |r| == |s|
    ensures forall i :: 0 <= i < |s| ==> r[i] == s[i].dim
  {
    if |s| == 0 then [] else [s[0].dim] + Dims(s[1..])
  }

  /** `scores.get(dim, default)`: the value of the first entry for `dim`. */
  function Get(s: Scores, dim: string, default: real): real {
    if |s| == 0 then default
    else if s[0].dim == dim then s[0].value
    else Get(s[1..], dim, default)
  }

  /** The entry at `i` is the one `get` finds when no earlier entry has its dimension. */
  lemma {:induction false} GetFirst(s: Scores, i: nat, default: real)
    requires i < |s|
    requires forall m :: 0 <= m < i ==> s[m].dim != s[i].dim
    ensures Get(s, s[i].dim, default) == s[i].value
  {
    if i > 0 {
      assert s[1..][i - 1] == s[i];
      GetFirst(s[1..], i - 1, default);
    }
  }

  /** A dimension without an entry reads as the default. */
  lemma {:induction false} GetMissing(s: Scores, dim: string, default: real)
    requires forall i :: 0 <= i < |s| ==> s[i].dim != dim
    ensures Get(s, dim, default) == default
  {
    if |s| > 0 {
      assert forall i :: 0 <= i < |s[1..]| ==> s[1..][i] == s[i + 1];
      GetMissing(s[1..], dim, default);
    }
  }

  /** `sum(scores.values())`. */
  function Total(s: Scores): real {
    if |s| == 0 then 0.0 else s[0].value + Total(s[1..])
  }

  /** Every value of the mapping lies in [0, 1]. */
  predicate AllUnit(s: Scores) {
    forall i :: 0 <= i < |s| ==> 0.0 <= s[i].value <= 1.0
  }

  /** A mapping of unit scores totals at least 0 and at most its size. */
  lemma {:induction false} TotalOfUnitScores(s: Scores)
    requires AllUnit(s)
    ensures 0.0 <= Total(s) <= |s| as real
  {
    if |s| > 0 {
      TotalOfUnitScores(s[1..]);
    }
  }

  /** `item.get('role', '辩手')`: judgments carry no role. */
  function RoleOr(r: Record): string {
    if r.Argument? then r.role else "辩手"
  }

  /** `item.get('content', '')`: judgments carry no content. */
  function ContentOr(r: Record): string {
    if r.Argument? then r.content else ""
  }

  /** Python's `history[-3:]`: the last three records, or all of them. */
  function LastThree(h: seq<Record>): (w: seq<Record>)
    ensures |w| == if |h| < 3 then |h| else 3
    ensures w == h[|h| - |w|..]
  {
    if |h| <= 3 then h else h[|h| - 3..]
  }

  /** The text a referee scores: `full_content` when the record carries it, else
      `content`, else the empty text. */
  function ScoredText(r: Record): (t: string)
    ensures r.Argument? && r.fullContent.Some? ==> t == r.fullContent.value
    ensures r.Argument? && r.fullContent.None? ==> t == r.content
    ensures r.Judgment? ==> t == ""
  {
    if r.Argument? then r.fullContent.GetOr(r.content) else ""
  }
}
