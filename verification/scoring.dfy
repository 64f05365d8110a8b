/** The scoring engine: five lexical metrics, the stage-weight table, the
    language-model path with its validation, fallback and clamp, and the
    history summary used to prompt that model. */
module Scoring {
  import opened Wrappers
  import opened Text
  import opened Records

  /** Word segmentation (jieba's `lcut`), supplied by the caller. */
  type Tokenizer = string -> seq<string>

  /** The word lists the lexical scorer consults: connectives matched as whole
      tokens, and positive, negative and technical words counted as substrings. */
  datatype Lexicon = Lexicon(logic: seq<string>, positive: seq<string>, negative: seq<string>,
                             technical: seq<string>)

  /** `x` is a whole number of hundredths. */
  predicate IsHundredths(x: real) {
    (x * 100.0).Floor as real == x * 100.0
  }

  /** `round(x, 2)`: the nearest whole number of hundredths, halves rounded up. */
  function Round2(x: real): (r: real)
    ensures IsHundredths(r)
    ensures x - 0.005 < r <= x + 0.005
    ensures 0.0 <= x <= 1.0 ==> 0.0 <= r <= 1.0
  {
    var f := (x * 100.0 + 0.5).Floor;
    assert (f as real / 100.0) * 100.0 == f as real;
    f as real / 100.0
  }

  /** Rounding leaves a whole number of hundredths unchanged. */
  lemma Round2Exact(x: real)
    requires IsHundredths(x)
    ensures Round2(x) == x
  {
    var n := (x * 100.0).Floor;
    assert (x * 100.0 + 0.5).Floor == n;
  }

  /** Rounding preserves order. */
  lemma Round2Monotone(x: real, y: real)
    requires x <= y
    ensures Round2(x) <= Round2(y)
  {
    assert (x * 100.0 + 0.5).Floor <= (y * 100.0 + 0.5).Floor;
  }

  function Min(a: real, b: real): real {
    if a <= b then a else b
  }

  // ---------------------------------------------------------------- logic

  /** Number of tokens that are exact members of the connective list. */
  function LogicHits(ws: seq<string>, connectives: seq<string>): (k: nat)
    ensures k <= |ws|
  {
    if |ws| == 0 then 0
    else (if ws[0] in connectives then 1 else 0) + LogicHits(ws[1..], connectives)
  }

  /** Hits of a concatenation of token lists add up. */
  lemma {:induction false} LogicHitsAppend(a: seq<string>, b: seq<string>, connectives: seq<string>)
    ensures LogicHits(a + b, connectives) == LogicHits(a, connectives) + LogicHits(b, connectives)
  {
    if |a| > 0 {
      assert (a + b)[1..] == a[1..] + b;
      LogicHitsAppend(a[1..], b, connectives);
    } else {
      assert a + b == b;
    }
  }

  /** Logic score: 0.3 plus 0.1 per connective token, capped at 0.9. */
  function LogicScore(content: string, tok: Tokenizer, lex: Lexicon): (r: real)
    ensures 0.3 <= r <= 0.9 && IsHundredths(r)
    ensures r == 0.3 <==> LogicHits(tok(content), lex.logic) == 0
    ensures r == 0.9 <==> LogicHits(tok(content), lex.logic) >= 6
  {
    var k := LogicHits(tok(content), lex.logic);
    var r := Min(0.3 + 0.1 * k as real, 0.9);
    assert r * 100.0 == (if k >= 6 then 90 else 30 + 10 * k) as real;
    r
  }

  // ------------------------------------------------------------ persuasion

  /** Sum over the word list of the substring counts of each entry, so an entry
      listed twice is counted twice. */
  function Hits(s: string, words: seq<string>): nat {
    if |words| == 0 then 0 else Count(s, words[0]) + Hits(s, words[1..])
  }

  /** Every listed word contributes at least its own count. */
  lemma {:induction false} HitsCoverEach(s: string, words: seq<string>, i: nat)
    requires i < |words|
    ensures Hits(s, words) >= Count(s, words[i])
  {
    if i > 0 {
      HitsCoverEach(s, words[1..], i - 1);
    }
  }

  /** Hits over two word lists laid end to end add up. */
  lemma {:induction false} HitsAppend(s: string, a: seq<string>, b: seq<string>)
    ensures Hits(s, a + b) == Hits(s, a) + Hits(s, b)
  {
    if |a| > 0 {
      assert (a + b)[1..] == a[1..] + b;
      HitsAppend(s, a[1..], b);
    } else {
      assert a + b == b;
    }
  }

  /** A word listed at two positions contributes its count twice. */
  lemma {:induction false} HitsDoubleCount(s: string, words: seq<string>, i: nat, j: nat)
    requires i < j < |words| && words[i] == words[j]
    ensures Hits(s, words) >= 2 * Count(s, words[i])
  {
    if i > 0 {
      HitsDoubleCount(s, words[1..], i - 1, j - 1);
    } else {
      HitsCoverEach(s, words[1..], j - 1);
    }
  }

  /** Persuasion score: 0.5 plus 0.05 per positive and 0.04 per negative hit,
      the bonus capped at 0.4. */
  function PersuasionScore(content: string, lex: Lexicon): (r: real)
    ensures 0.5 <= r <= 0.9 && IsHundredths(r)
    ensures r == 0.5 <==> Hits(content, lex.positive) == 0 && Hits(content, lex.negative) == 0
  {
    var p := Hits(content, lex.positive);
    var n := Hits(content, lex.negative);
    var r := 0.5 + Min(0.05 * p as real + 0.04 * n as real, 0.4);
    assert r * 100.0 == (50 + if 5 * p + 4 * n <= 40 then 5 * p + 4 * n else 40) as real;
    r
  }

  /** More hits never lower the persuasion score: it is at least the score the
      given lower bounds on the hit counts would earn. */
  lemma PersuasionFromHits(content: string, lex: Lexicon, p: nat, n: nat)
    requires Hits(content, lex.positive) >= p
    requires Hits(content, lex.negative) >= n
    ensures PersuasionScore(content, lex) >= 0.5 + Min(0.05 * p as real + 0.04 * n as real, 0.4)
  {
  }

  // ------------------------------------------------------------- relevance

  /** The distinct tokens of a text. */
  function TokenSet(ws: seq<string>): set<string> {
    set w | w in ws
  }

  /** Share of the topic's distinct tokens found in the content; 0.7 for a token-less topic. */
  function TopicMatch(topicWords: set<string>, contentWords: set<string>): (m: real)
    ensures 0.0 <= m <= 1.0
    ensures topicWords == {} ==> m == 0.7
    ensures topicWords != {} && topicWords <= contentWords ==> m == 1.0
  {
    if |topicWords| > 0 then
      var both := topicWords * contentWords;
      SubsetSize(both, topicWords);
      assert topicWords <= contentWords ==> both == topicWords;
      RatioFacts(|both|, |topicWords|);
      (|both| as real) / (|topicWords| as real)
    else 0.7
  }

  /** Jaccard similarity of two token sets, 0 when both are empty. */
  function Jaccard(a: set<string>, b: set<string>): (j: real)
    ensures 0.0 <= j <= 1.0
    ensures j == 1.0 <==> a == b && a != {}
    ensures j == 0.0 <==> a * b == {}
  {
    var u := a + b;
    if |u| > 0 then
      OverlapFacts(a, b);
      RatioFacts(|a * b|, |u|);
      (|a * b| as real) / (|u| as real)
    else 0.0
  }

  /** A ratio `n / d` of naturals with `n <= d` is 1 exactly when `n == d` and 0 exactly when `n == 0`. */
  lemma RatioFacts(n: nat, d: nat)
    requires 0 < d && n <= d
    ensures 0.0 <= (n as real) / (d as real) <= 1.0
    ensures (n as real) / (d as real) == 1.0 <==> n == d
    ensures (n as real) / (d as real) == 0.0 <==> n == 0
  {
    var q := (n as real) / (d as real);
    assert (1.0 - q) * (d as real) == (d - n) as real;
    NegativeTimesPositive(1.0 - q, d as real);
  }

  /** A negative number times a positive one is negative. */
  lemma NegativeTimesPositive(x: real, y: real)
    requires y > 0.0
    ensures x < 0.0 ==> x * y < 0.0
  {
  }

  /** More technical-term hits never lower the depth score. */
  lemma DepthFromHits(content: string, lex: Lexicon, t: nat)
    requires Hits(content, lex.technical) >= t
    ensures DepthScore(content, lex) >= 0.4 + Min(0.1 * t as real, 0.5)
  {
  }

  /** A subset is no larger than its superset, and a proper subset is smaller. */
  lemma {:induction false} SubsetSize(a: set<string>, b: set<string>)
    requires a <= b
    ensures |a| <= |b|
    ensures a != b ==> |a| < |b|
    decreases |b|
  {
    if b != {} {
      var x :| x in b;
      SubsetSize(a - {x}, b - {x});
      assert |b - {x}| == |b| - 1;
      if x !in a {
        assert a - {x} == a;
      } else {
        assert |a - {x}| == |a| - 1;
        if a != b {
          assert b - a != {} by {
            assert a + (b - a) == b;
          }
          var y :| y in b - a;
          assert y != x && y in b - {x} && y !in a - {x};
        }
      }
    }
  }

  /** The intersection is no larger than the union, as large only when the sets
      are equal, and non-empty exactly when its size is positive. */
  lemma OverlapFacts(a: set<string>, b: set<string>)
    ensures |a * b| <= |a + b|
    ensures |a * b| == |a + b| <==> a == b
    ensures a * b != {} ==> |a * b| > 0
  {
    if a == b {
      assert a * b == a + b;
    }
    SubsetSize(a * b, a + b);
    if a * b != a + b {
      assert |a * b| < |a + b|;
    } else {
      assert a == a * b;
    }
  }

  /** The text the relevance metric compares against: the contents of the last
      three history records joined by spaces (judgments contribute ""). */
  function RecentText(history: seq<Record>): string {
    Join(Contents(LastThree(history)), ' ')
  }

  function Contents(h: seq<Record>): (cs: seq<string>)
    ensures |cs| == |h|
    ensures forall i :: 0 <= i < |h| ==> cs[i] == ContentOr(h[i])
  {
    if |h| == 0 then [] else [ContentOr(h[0])] + Contents(h[1..])
  }

  /** Context overlap: Jaccard similarity with the recent history, 0 for no history. */
  function ContextScore(contentWords: set<string>, history: seq<Record>, tok: Tokenizer): (c: real)
    ensures 0.0 <= c <= 1.0
    ensures history == [] ==> c == 0.0
  {
    if |history| > 0 then Jaccard(contentWords, TokenSet(tok(RecentText(history)))) else 0.0
  }

  /** Relevance: 0.3 topic match plus 0.7 context overlap, rounded; exactly 0 for empty content. */
  function RelevanceScore(content: string, history: seq<Record>, topic: string, tok: Tokenizer): (r: real)
    ensures 0.0 <= r <= 1.0 && IsHundredths(r)
    ensures content == "" ==> r == 0.0
  {
    if |content| == 0 then
      assert 0.0 * 100.0 == 0 as real;
      0.0
    else
      var contentWords := TokenSet(tok(content));
      var topicMatch := TopicMatch(TokenSet(tok(topic)), contentWords);
      Round2(0.3 * topicMatch + 0.7 * ContextScore(contentWords, history, tok))
  }

  /** Only the last three records of the history matter to relevance. */
  lemma RelevanceSeesLastThree(content: string, older: seq<Record>, recent: seq<Record>, topic: string, tok: Tokenizer)
    requires |recent| >= 3
    ensures RelevanceScore(content, older + recent, topic, tok) == RelevanceScore(content, recent, topic, tok)
  {
    var all := older + recent;
    assert all[|all| - 3..] == recent[|recent| - 3..];
    assert LastThree(all) == LastThree(recent);
    assert RecentText(all) == RecentText(recent);
  }

  /** With no topic tokens and no history, any non-empty content scores 0.21. */
  lemma RelevanceWithoutTopicOrHistory(content: string, topic: string, tok: Tokenizer)
    requires content != "" && tok(topic) == []
    ensures RelevanceScore(content, [], topic, tok) == 0.21
  {
    assert TokenSet(tok(topic)) == {};
    assert 0.21 * 100.0 == 21 as real;
    Round2Exact(0.21);
  }

  // --------------------------------------------------------------- clarity

  /** The sentence delimiter. */
  const FullStop: char := '。'

  function NonEmpty(parts: seq<string>): (r: seq<string>)
    ensures |r| <= |parts|
    ensures forall i :: 0 <= i < |r| ==> r[i] != "" && r[i] in parts
  {
    if |parts| == 0 then []
    else (if parts[0] == "" then [] else [parts[0]]) + NonEmpty(parts[1..])
  }

  /** The sentences whose lengths are averaged: the non-empty pieces between full
      stops, or the whole content as one sentence when there are none. */
  function Sentences(content: string): (r: seq<string>)
    ensures |r| >= 1
    ensures |NonEmpty(Split(content, FullStop))| > 0 ==>
      forall i :: 0 <= i < |r| ==> r[i] != "" && FullStop !in r[i]
    ensures |NonEmpty(Split(content, FullStop))| == 0 ==> r == [content]
  {
    var pieces := NonEmpty(Split(content, FullStop));
    if |pieces| > 0 then pieces else [content]
  }

  function TotalLength(parts: seq<string>): nat {
    if |parts| == 0 then 0 else |parts[0]| + TotalLength(parts[1..])
  }

  /** Dropping empty pieces keeps the total length. */
  lemma {:induction false} TotalLengthNonEmpty(parts: seq<string>)
    ensures TotalLength(NonEmpty(parts)) == TotalLength(parts)
  {
    if |parts| > 0 {
      TotalLengthNonEmpty(parts[1..]);
      var head: seq<string> := if parts[0] == "" then [] else [parts[0]];
      TotalLengthAppend(head, NonEmpty(parts[1..]));
    }
  }

  lemma {:induction false} TotalLengthAppend(a: seq<string>, b: seq<string>)
    ensures TotalLength(a + b) == TotalLength(a) + TotalLength(b)
  {
    if |a| > 0 {
      assert (a + b)[1..] == a[1..] + b;
      TotalLengthAppend(a[1..], b);
    } else {
      assert a + b == b;
    }
  }

  /** A join is as long as its pieces plus one separator between each pair. */
  lemma {:induction false} JoinLength(parts: seq<string>, sep: char)
    requires |parts| >= 1
    ensures |Join(parts, sep)| == TotalLength(parts) + |parts| - 1
  {
    if |parts| > 1 {
      JoinLength(parts[1..], sep);
    }
  }

  /** The sentences of a content with at least one non-empty piece are, in total,
      as long as the content less its full stops. */
  lemma SentenceCharacters(content: string)
    ensures |NonEmpty(Split(content, FullStop))| > 0 ==>
      TotalLength(Sentences(content)) + |Split(content, FullStop)| - 1 == |content|
    ensures |NonEmpty(Split(content, FullStop))| > 0 ==>
      TotalLength(Sentences(content)) == |content| - multiset(content)[FullStop]
  {
    var parts := Split(content, FullStop);
    JoinSplit(content, FullStop);
    JoinLength(parts, FullStop);
    TotalLengthNonEmpty(parts);
    SplitCount(content, FullStop);
  }

  /** Lists of equally many strings, each of the first no shorter than its
      counterpart and the `i`-th strictly longer, have the larger total length. */
  lemma {:induction false} TotalLengthGrows(a: seq<string>, b: seq<string>, i: nat)
    requires |a| == |b| && i < |a|
    requires forall j :: 0 <= j < |a| ==> |a[j]| >= |b[j]|
    requires |a[i]| > |b[i]|
    ensures TotalLength(a) > TotalLength(b)
  {
    if i == 0 {
      TotalLengthNoShorter(a[1..], b[1..]);
    } else {
      TotalLengthGrows(a[1..], b[1..], i - 1);
    }
  }

  /** Lists of equally many strings, each of the first no shorter than its
      counterpart, have a total length no smaller. */
  lemma {:induction false} TotalLengthNoShorter(a: seq<string>, b: seq<string>)
    requires |a| == |b|
    requires forall j :: 0 <= j < |a| ==> |a[j]| >= |b[j]|
    ensures TotalLength(a) >= TotalLength(b)
  {
    if |a| > 0 {
      TotalLengthNoShorter(a[1..], b[1..]);
    }
  }

  /** Clarity: 0.9 when the mean sentence length is below 15 characters, 0.7 below 25, else 0.5. */
  function ClarityScore(content: string): (r: real)
    ensures r == 0.9 || r == 0.7 || r == 0.5
    ensures var n := TotalLength(Sentences(content)); var k := |Sentences(content)|;
      && (r == 0.9 <==> n < 15 * k)
      && (r == 0.7 <==> 15 * k <= n < 25 * k)
  {
    var sentences := Sentences(content);
    var avg := (TotalLength(sentences) as real) / (|sentences| as real);
    MeanBelow(TotalLength(sentences), |sentences|, 15);
    MeanBelow(TotalLength(sentences), |sentences|, 25);
    if avg < 15.0 then 0.9 else if avg < 25.0 then 0.7 else 0.5
  }

  /** A mean `n / k` is below `t` exactly when `n < t * k`. */
  lemma MeanBelow(n: nat, k: nat, t: nat)
    requires k > 0
    ensures (n as real) / (k as real) < t as real <==> n < t * k
  {
    var avg := (n as real) / (k as real);
    assert avg * (k as real) == n as real;
    assert (t * k) as real == (t as real) * (k as real);
    if avg < t as real {
      assert avg * (k as real) < (t as real) * (k as real);
    } else {
      assert avg * (k as real) >= (t as real) * (k as real);
    }
  }

  /** Empty content is one empty sentence and scores 0.9. */
  lemma ClarityOfEmpty()
    ensures ClarityScore("") == 0.9
  {
    assert Sentences("") == [""];
  }

  // ----------------------------------------------------------------- depth

  /** Depth score: 0.4 plus 0.1 per technical-term hit, the bonus capped at 0.5. */
  function DepthScore(content: string, lex: Lexicon): (r: real)
    ensures 0.4 <= r <= 0.9 && IsHundredths(r)
    ensures r == 0.4 <==> Hits(content, lex.technical) == 0
  {
    var t := Hits(content, lex.technical);
    var r := 0.4 + Min(0.1 * t as real, 0.5);
    assert r * 100.0 == (40 + if t <= 5 then 10 * t else 50) as real;
    r
  }

  // ------------------------------------------------------ stage weighting

  /** The stage assumed when a scoring request names none. */
  const DefaultStage: string := "质询阶段"

  /** Stage weights; stages not listed weigh 1.0. */
  const StageWeights: map<string, real> :=
    map["立论阶段" := 0.9, "质询阶段" := 1.0, "自由辩论阶段" := 1.0, "结辩阶段" := 0.95]

  /** `stage_weights.get(speech.get("stage", "质询阶段"), 1.0)`. */
  function StageWeight(stage: Option<string>): (w: real)
    ensures 0.9 <= w <= 1.0
    ensures stage == None ==> w == 1.0
    ensures stage.Some? && stage.value !in StageWeights ==> w == 1.0
  {
    var name := stage.GetOr(DefaultStage);
    if name in StageWeights then StageWeights[name] else 1.0
  }

  /** Weighting a unit score by a weight in [0.9, 1] and rounding keeps it in
      [0, 1], never raises a whole-hundredths score, and changes nothing at weight 1. */
  lemma WeightedScore(x: real, w: real)
    requires 0.0 <= x <= 1.0 && IsHundredths(x)
    requires 0.9 <= w <= 1.0
    ensures UnitHundredths(Weighted(x, w)) && Weighted(x, w) <= x
    ensures w == 1.0 ==> Weighted(x, w) == x
  {
    UnitProduct(x, w);
    assert x * w <= x;
    Round2Monotone(x * w, x);
    Round2Exact(x);
  }

  // ---------------------------------------------------- deterministic path

  /** A whole number of hundredths in [0, 1]. */
  predicate UnitHundredths(x: real) {
    0.0 <= x <= 1.0 && IsHundredths(x)
  }

  /** The five unweighted metrics of one text. */
  datatype Metrics = Metrics(logic: real, persuasion: real, relevance: real, clarity: real, depth: real) {

    /** The metrics in dimension order. */
    function Values(): seq<real> {
      [logic, persuasion, relevance, clarity, depth]
    }

    /** Every metric is a whole number of hundredths in [0, 1]. */
    predicate Valid() {
      UnitHundredths(logic) && UnitHundredths(persuasion) && UnitHundredths(relevance)
      && UnitHundredths(clarity) && UnitHundredths(depth)
    }
  }

  function RawScores(content: string, history: seq<Record>, topic: string, tok: Tokenizer, lex: Lexicon): (m: Metrics)
    ensures m.Valid()
  {
    var clarity := ClarityScore(content);
    assert IsHundredths(clarity) by {
      assert clarity * 100.0 == (if clarity == 0.9 then 90 else if clarity == 0.7 then 70 else 50) as real;
    }
    Metrics(LogicScore(content, tok, lex), PersuasionScore(content, lex), RelevanceScore(content, history, topic, tok),
            clarity, DepthScore(content, lex))
  }

  /** `round(x * w, 2)`. */
  function Weighted(x: real, w: real): real {
    Round2(x * w)
  }

  /** The metrics as a score mapping, each weighted by `w`. */
  function WeighMetrics(m: Metrics, w: real): (r: Scores)
    requires m.Valid() && 0.9 <= w <= 1.0
    ensures Dims(r) == Dimensions
    ensures AllUnit(r)
    ensures forall i :: 0 <= i < 5 ==> r[i].value == Weighted(m.Values()[i], w)
    ensures forall i :: 0 <= i < 5 ==> r[i].value <= m.Values()[i]
    ensures w == 1.0 ==> forall i :: 0 <= i < 5 ==> r[i].value == m.Values()[i]
  {
    var v := m.Values();
    WeightedScore(v[0], w);
    WeightedScore(v[1], w);
    WeightedScore(v[2], w);
    WeightedScore(v[3], w);
    WeightedScore(v[4], w);
    var r := [Score("logic", Weighted(v[0], w)), Score("persuasion", Weighted(v[1], w)),
              Score("relevance", Weighted(v[2], w)), Score("clarity", Weighted(v[3], w)),
              Score("depth", Weighted(v[4], w))];
    assert r[0].value == Weighted(v[0], w) && r[1].value == Weighted(v[1], w) && r[2].value == Weighted(v[2], w)
      && r[3].value == Weighted(v[3], w) && r[4].value == Weighted(v[4], w);
    r
  }

  /** `calculate_dimension_scores`: the five metrics, each weighted by the stage and
      rounded to hundredths. */
  function DimensionScores(content: string, history: seq<Record>, topic: string, stage: Option<string>,
                           tok: Tokenizer, lex: Lexicon): (r: Scores)
    ensures Dims(r) == Dimensions
    ensures AllUnit(r)
    ensures var m := RawScores(content, history, topic, tok, lex);
      && (forall i :: 0 <= i < 5 ==> r[i].value == Weighted(m.Values()[i], StageWeight(stage)))
      && (forall i :: 0 <= i < 5 ==> r[i].value <= m.Values()[i])
      && (StageWeight(stage) == 1.0 ==> forall i :: 0 <= i < 5 ==> r[i].value == m.Values()[i])
  {
    WeighMetrics(RawScores(content, history, topic, tok, lex), StageWeight(stage))
  }

  /** A request that names no stage is weighted 1.0, so its scores are the raw metrics. */
  lemma UnstagedScoresAreRaw(content: string, history: seq<Record>, topic: string, tok: Tokenizer, lex: Lexicon)
    ensures forall i :: 0 <= i < 5 ==>
      DimensionScores(content, history, topic, None, tok, lex)[i].value == RawScores(content, history, topic, tok, lex).Values()[i]
  {
  }

  /** An opening speech has every metric scaled by 0.9 and rounded to hundredths,
      so a logic metric of 0.9 is scored 0.81. */
  lemma OpeningStageDiscount(content: string, history: seq<Record>, topic: string, tok: Tokenizer, lex: Lexicon)
    ensures var m := RawScores(content, history, topic, tok, lex);
      var r := DimensionScores(content, history, topic, Some("立论阶段"), tok, lex);
      && (forall i :: 0 <= i < 5 ==> r[i].value == Round2(0.9 * m.Values()[i]))
      && (m.logic == 0.9 ==> r[0].value == 0.81)
  {
    var m := RawScores(content, history, topic, tok, lex);
    assert StageWeight(Some("立论阶段")) == 0.9;
    if m.logic == 0.9 {
      Round2Exact(0.81);
    }
  }

  // ----------------------------------------------------- language-model path

  /** A decoded JSON value, as far as the scorer looks at it: a number, or
      anything `float()` rejects. */
  datatype Json = Number(number: real) | NonNumber

  datatype Member = Member(key: string, value: Json)

  /** `json.loads` of the stripped reply: a decoding error, a non-object value,
      or an object with its members in order. `json.loads` keeps only the last of
      repeated keys; an `Object` with a repeated key stands for no reply it can
      return, and nothing here excludes one. */
  datatype Decoded = Malformed | NotAnObject | Object(members: seq<Member>)

  function MemberKeys(ms: seq<Member>): (ks: seq<string>)
    ensures |ks| == |ms|
    ensures forall i :: 0 <= i < |ms| ==> ks[i] == ms[i].key
  {
    if |ms| == 0 then [] else [ms[0].key] + MemberKeys(ms[1..])
  }

  /** A reply value that passes `0.0 <= float(value) <= 1.0`. */
  predicate InUnitRange(v: Json) {
    v.Number? && 0.0 <= v.number <= 1.0
  }

  /** The five-key neutral mapping used whenever the reply cannot be used. */
  const NeutralScores: Scores :=
    [Score("logic", 0.5), Score("persuasion", 0.5), Score("relevance", 0.5), Score("clarity", 0.5), Score("depth", 0.5)]

  /** Every required dimension is a key of the object. */
  predicate HasAllDimensions(ms: seq<Member>) {
    forall k :: k in Dimensions ==> k in MemberKeys(ms)
  }

  /** Every member, extra keys included, is a number in [0, 1]. */
  predicate AllInUnitRange(ms: seq<Member>) {
    forall i :: 0 <= i < |ms| ==> InUnitRange(ms[i].value)
  }

  /** The reply is used as it stands. */
  predicate Usable(d: Decoded) {
    d.Object? && HasAllDimensions(d.members) && AllInUnitRange(d.members)
  }

  /** `_parse_scores` together with the caller's `except`: a usable object's
      members become scores in order, anything else the neutral mapping. */
  function ParseScores(d: Decoded): (r: Scores)
    ensures AllUnit(r)
    ensures Usable(d) ==>
      && |r| == |d.members| && Dims(r) == MemberKeys(d.members)
      && forall i :: 0 <= i < |r| ==> r[i].value == d.members[i].value.number
    ensures !Usable(d) ==> r == NeutralScores
  {
    match d
    case Malformed => NeutralScores
    case NotAnObject => NeutralScores
    case Object(ms) =>
      if !HasAllDimensions(ms) then NeutralScores
      else if !AllInUnitRange(ms) then NeutralScores
      else
        var r := seq(|ms|, i requires 0 <= i < |ms| => Score(ms[i].key, ms[i].value.number));
        assert Dims(r) == MemberKeys(ms);
        r
  }

  function Clamp(x: real): (c: real)
    ensures 0.0 <= c <= 1.0
    ensures 0.0 <= x <= 1.0 ==> c == x
  {
    if x < 0.0 then 0.0 else if x > 1.0 then 1.0 else x
  }

  /** Every score weighted, rounded and clamped to [0, 1], keys kept in order. */
  function WeighAll(s: Scores, w: real): (r: Scores)
    ensures |r| == |s| && Dims(r) == Dims(s) && AllUnit(r)
    ensures forall i :: 0 <= i < |s| ==> r[i].value == ClampedWeigh(s[i].value, w)
  {
    if |s| == 0 then []
    else [Score(s[0].dim, ClampedWeigh(s[0].value, w))] + WeighAll(s[1..], w)
  }

  /** `max(0, min(1, round(v * w, 2)))`; the clamp never bites for a unit value and a weight in [0.9, 1]. */
  function ClampedWeigh(v: real, w: real): (r: real)
    ensures 0.0 <= r <= 1.0
    ensures 0.0 <= v <= 1.0 && 0.9 <= w <= 1.0 ==> r == Weighted(v, w)
  {
    if 0.0 <= v <= 1.0 && 0.9 <= w <= 1.0 then
      UnitProduct(v, w);
      Clamp(Round2(v * w))
    else Clamp(Round2(v * w))
  }

  /** A unit value times a weight in [0.9, 1] stays a unit value, no larger than before. */
  lemma UnitProduct(v: real, w: real)
    requires 0.0 <= v <= 1.0 && 0.9 <= w <= 1.0
    ensures 0.0 <= v * w <= v
  {
  }

  /** For unit scores and a weight in [0.9, 1] the clamp never bites. */
  lemma WeighAllUnclamped(s: Scores, w: real)
    requires AllUnit(s) && 0.9 <= w <= 1.0
    ensures forall i :: 0 <= i < |s| ==> WeighAll(s, w)[i].value == Weighted(s[i].value, w)
  {
  }

  /** The neutral mapping weighted: the five dimensions, each at the weighted 0.5. */
  lemma WeighNeutral(w: real)
    requires 0.9 <= w <= 1.0
    ensures var r := WeighAll(NeutralScores, w);
      && Dims(r) == Dimensions
      && forall i :: 0 <= i < |r| ==> r[i].value == Weighted(0.5, w)
  {
    var n := NeutralScores;
    assert Dims(n) == Dimensions;
    assert forall i :: 0 <= i < |n| ==> n[i].value == 0.5;
    WeighAllUnclamped(n, w);
  }

  /** `llm_calculate_dimension_scores` after the model call: parse or fall back,
      then weight, round and clamp every returned key. */
  function LlmDimensionScores(d: Decoded, stage: Option<string>): (r: Scores)
    ensures AllUnit(r)
    ensures Usable(d) ==>
      && Dims(r) == MemberKeys(d.members)
      && forall i :: 0 <= i < |r| ==> r[i].value == Weighted(d.members[i].value.number, StageWeight(stage))
    ensures !Usable(d) ==>
      && Dims(r) == Dimensions
      && forall i :: 0 <= i < |r| ==> r[i].value == Weighted(0.5, StageWeight(stage))
  {
    var parsed := ParseScores(d);
    var w := StageWeight(stage);
    WeighNeutral(w);
    WeighAllUnclamped(parsed, w);
    WeighAll(parsed, w)
  }

  /** A reply that is not JSON, lacks a dimension, or has any value outside [0, 1]
      yields exactly 0.5 on all five dimensions when no stage is named. */
  lemma LlmFallbackIsNeutral(d: Decoded)
    requires !Usable(d)
    ensures LlmDimensionScores(d, None) == NeutralScores
  {
    var r := LlmDimensionScores(d, None);
    assert 0.5 * 100.0 == 50 as real;
    Round2Exact(0.5);
    assert |r| == 5;
  }

  /** A usable reply of whole hundredths passes through unchanged when no stage is named. */
  lemma LlmUsableReplyUnchanged(d: Decoded)
    requires Usable(d)
    requires forall i :: 0 <= i < |d.members| ==> IsHundredths(d.members[i].value.number)
    ensures var r := LlmDimensionScores(d, None);
      Dims(r) == MemberKeys(d.members) && forall i :: 0 <= i < |r| ==> r[i].value == d.members[i].value.number
  {
    var r := LlmDimensionScores(d, None);
    assert StageWeight(None) == 1.0;
    forall i | 0 <= i < |r| ensures r[i].value == d.members[i].value.number {
      var x := d.members[i].value.number;
      assert r[i].value == Weighted(x, 1.0);
      assert x * 1.0 == x;
      Round2Exact(x);
    }
  }

  // --------------------------------------------------------- history summary

  /** The summary text for an empty history. */
  const NoHistory: string := "暂无历史发言"

  /** A content cut to 80 characters, followed by "..." when `ellipsis` is set and
      something was cut. */
  function Excerpt(content: string, ellipsis: bool): (r: string)
    ensures |content| <= 80 ==> r == content
    ensures |content| > 80 ==> r == content[..80] + (if ellipsis then "..." else "")
  {
    Take(content, 80) + (if ellipsis && |content| > 80 then "..." else "")
  }

  /** One numbered summary line: "n. role: excerpt". */
  function SummaryLine(n: nat, r: Record, ellipsis: bool): string {
    NatToString(n) + ". " + RoleOr(r) + ": " + Excerpt(ContentOr(r), ellipsis)
  }

  /** The lines for the last three records, numbered from 1. */
  function SummaryLines(history: seq<Record>, ellipsis: bool): (lines: seq<string>)
    ensures |lines| == |LastThree(history)|
    ensures forall i :: 0 <= i < |lines| ==> lines[i] == SummaryLine(i + 1, LastThree(history)[i], ellipsis)
  {
    var recent := LastThree(history);
    seq(|recent|, i requires 0 <= i < |recent| => SummaryLine(i + 1, recent[i], ellipsis))
  }

  /** A summary: the placeholder for no history, else the numbered lines joined by newlines. */
  function Summarize(history: seq<Record>, ellipsis: bool): (s: string)
    ensures history == [] <==> s == NoHistory
  {
    if |history| == 0 then NoHistory
    else
      var lines := SummaryLines(history, ellipsis);
      SummaryIsNotPlaceholder(lines);
      Join(lines, '\n')
  }

  /** A non-empty list of lines starting with a digit never joins to the placeholder. */
  lemma SummaryIsNotPlaceholder(lines: seq<string>)
    requires |lines| >= 1 && forall i :: 0 <= i < |lines| ==> |lines[i]| >= 1 && IsDigit(lines[i][0])
    ensures Join(lines, '\n') != NoHistory
  {
    if |lines| > 1 {
      assert Join(lines, '\n')[0] == lines[0][0];
    }
  }

  /** `ScoringSystem._summarize_history`: the excerpt carries "..." when content was cut. */
  function ScoringSummary(history: seq<Record>): (s: string)
    ensures history == [] <==> s == NoHistory
  {
    Summarize(history, true)
  }

  /** Only the last three records matter to a summary. */
  lemma SummarySeesLastThree(older: seq<Record>, recent: seq<Record>, ellipsis: bool)
    requires |recent| >= 3
    ensures Summarize(older + recent, ellipsis) == Summarize(recent, ellipsis)
  {
    var all := older + recent;
    assert all[|all| - 3..] == recent[|recent| - 3..];
    assert SummaryLines(all, ellipsis) == SummaryLines(recent, ellipsis);
  }
}
