/** The referee: scores the speech under judgment and comments on the scores. */
module Referee {
  import opened Wrappers
  import opened Text
  import opened Records
  import opened Scoring

  /** The phrases a dimension earns above 0.8 and below 0.4. */
  datatype Remark = Remark(dim: string, high: string, low: string)

  /** The remarks in the order the comment lists them. */
  const Remarks: seq<Remark> := [
    Remark("logic", "逻辑严谨有力", "逻辑存在缺陷"),
    Remark("relevance", "与辩题高度相关", "与辩题相关性不足"),
    Remark("persuasion", "说服力强", "说服力不足"),
    Remark("clarity", "表达清晰", "表达不够清晰"),
    Remark("depth", "论证深入", "论证深度不足")
  ]

  /** The comment when no dimension is remarkable. */
  const Balanced: string := "表现均衡"

  /** The comment separator. */
  const Semicolon: char := '；'

  /** A dimension's score as the comment reads it: a missing dimension counts as 0. */
  function Level(s: Scores, r: Remark): real {
    Get(s, r.dim, 0.0)
  }

  /** The phrases of a table all differ: two dimensions never share a phrase, and
      no high phrase is also a low one. */
  predicate Apart(t: seq<Remark>) {
    && (forall j, k :: 0 <= j < |t| && 0 <= k < |t| && j != k ==> t[j].high != t[k].high && t[j].low != t[k].low)
    && (forall j, k :: 0 <= j < |t| && 0 <= k < |t| ==> t[j].high != t[k].low)
  }

  /** No phrase of a table contains the separator or reads "表现均衡". */
  predicate Plain(t: seq<Remark>) {
    forall j :: 0 <= j < |t| ==>
      Semicolon !in t[j].high && Semicolon !in t[j].low && t[j].high != Balanced && t[j].low != Balanced
  }

  /** The comment's table is apart and plain. */
  lemma RemarksApart()
    ensures Apart(Remarks) && Plain(Remarks)
  {
    forall j, k | 0 <= j < |Remarks| && 0 <= k < |Remarks|
      ensures j != k ==> Remarks[j].high != Remarks[k].high && Remarks[j].low != Remarks[k].low
      ensures Remarks[j].high != Remarks[k].low
    {
      RemarkPair(j, k);
    }
    forall j | 0 <= j < |Remarks|
      ensures Semicolon !in Remarks[j].high && Semicolon !in Remarks[j].low
      ensures Remarks[j].high != Balanced && Remarks[j].low != Balanced
    {
      RemarkAlone(j);
    }
  }

  /** Phrases of different dimensions start differently; a dimension's two phrases differ. */
  lemma RemarkPair(j: nat, k: nat)
    requires j < |Remarks| && k < |Remarks|
    ensures j != k ==> Remarks[j].high != Remarks[k].high && Remarks[j].low != Remarks[k].low
    ensures Remarks[j].high != Remarks[k].low
  {
    var rj, rk := Remarks[j], Remarks[k];
    if j != k {
      assert rj.high[0] != rk.high[0] && rj.low[0] != rk.low[0] && rj.high[0] != rk.low[0];
    } else {
      assert rj.high[2] != rj.low[2] || |rj.high| != |rj.low|;
    }
  }

  /** A single phrase neither contains the separator nor reads "表现均衡". */
  lemma RemarkAlone(j: nat)
    requires j < |Remarks|
    ensures Semicolon !in Remarks[j].high && Semicolon !in Remarks[j].low
    ensures Remarks[j].high != Balanced && Remarks[j].low != Balanced
  {
  }

  /** The phrases the scores earn from the remarks of table `t` from `k` on, in
      order: a dimension's high phrase above 0.8, its low phrase below 0.4. */
  function PhrasesFrom(s: Scores, t: seq<Remark>, k: nat): (ps: seq<string>)
    requires k <= |t|
    decreases |t| - k
    ensures Plain(t) ==> forall i :: 0 <= i < |ps| ==> Semicolon !in ps[i] && ps[i] != Balanced
  {
    if k == |t| then []
    else
      var rest := PhrasesFrom(s, t, k + 1);
      var v := Level(s, t[k]);
      if v > 0.8 then [t[k].high] + rest
      else if v < 0.4 then [t[k].low] + rest
      else rest
  }

  /** In a table that is apart, remark `j` contributes its high phrase exactly when
      its level exceeds 0.8 and its low phrase exactly when its level is below 0.4. */
  lemma {:induction false} PhrasesFromNames(s: Scores, t: seq<Remark>, k: nat, j: nat)
    requires Apart(t) && k <= |t| && j < |t|
    ensures t[j].high in PhrasesFrom(s, t, k) <==> k <= j && Level(s, t[j]) > 0.8
    ensures t[j].low in PhrasesFrom(s, t, k) <==> k <= j && Level(s, t[j]) < 0.4
    decreases |t| - k
  {
    if k < |t| {
      PhrasesFromNames(s, t, k + 1, j);
    }
  }

  /** No phrase is earned exactly when every level from `k` on lies in [0.4, 0.8]. */
  lemma {:induction false} PhrasesFromEmpty(s: Scores, t: seq<Remark>, k: nat)
    requires k <= |t|
    ensures |PhrasesFrom(s, t, k)| == 0 <==> forall j :: k <= j < |t| ==> 0.4 <= Level(s, t[j]) <= 0.8
    decreases |t| - k
  {
    if k < |t| {
      PhrasesFromEmpty(s, t, k + 1);
    }
  }

  /** The phrases the scores earn. */
  function Phrases(s: Scores): seq<string> {
    PhrasesFrom(s, Remarks, 0)
  }

  /** Every score lies in [0.4, 0.8]. */
  predicate Unremarkable(s: Scores) {
    forall j :: 0 <= j < |Remarks| ==> 0.4 <= Level(s, Remarks[j]) <= 0.8
  }

  /** `_generate_comment`: the earned phrases joined by '；', or "表现均衡". */
  function Comment(s: Scores): (c: string)
    ensures c == Balanced <==> Unremarkable(s)
    ensures !Unremarkable(s) ==> Split(c, Semicolon) == Phrases(s)
  {
    var ps := Phrases(s);
    PhrasesFromEmpty(s, Remarks, 0);
    if |ps| == 0 then Balanced
    else
      RemarksApart();
      SplitJoin(ps, Semicolon);
      JoinIsNotBalanced(ps);
      Join(ps, Semicolon)
  }

  /** Separator-free phrases other than "表现均衡" never join to "表现均衡". */
  lemma JoinIsNotBalanced(ps: seq<string>)
    requires |ps| >= 1
    requires forall i :: 0 <= i < |ps| ==> Semicolon !in ps[i] && ps[i] != Balanced
    ensures Join(ps, Semicolon) != Balanced
  {
    SplitJoin(ps, Semicolon);
    SplitJoin([Balanced], Semicolon);
    assert Join([Balanced], Semicolon) == Balanced;
  }

  /** The comment names a dimension's high phrase exactly when its score exceeds 0.8,
      and its low phrase exactly when it falls below 0.4. */
  lemma CommentNamesRemarkableScores(s: Scores, j: nat)
    requires j < |Remarks|
    ensures Remarks[j].high in Split(Comment(s), Semicolon) <==> Level(s, Remarks[j]) > 0.8
    ensures Remarks[j].low in Split(Comment(s), Semicolon) <==> Level(s, Remarks[j]) < 0.4
  {
    RemarksApart();
    PhrasesFromNames(s, Remarks, 0, j);
    if Unremarkable(s) {
      SplitJoin([Balanced], Semicolon);
      assert Split(Comment(s), Semicolon) == [Balanced];
    }
  }

  /** How a referee scores: the lexical scorer, or a language model whose reply
      arrives already decoded. */
  datatype Scorer = Lexical | Model(reply: Decoded)

  /** `RefereeAgent.generate_response`: a judgment of the speech's whole text. The
      referee passes no stage, so every score is weighted 1.0. */
  function Judge(refereeId: string, speech: Record, history: seq<Record>, topic: string,
                 scorer: Scorer, tok: Tokenizer, lex: Lexicon): (r: Record)
    ensures r.Judgment? && r.agentId == refereeId
    ensures r.comment == Comment(r.scores)
    ensures AllUnit(r.scores)
    ensures scorer.Lexical? ==>
      var m := RawScores(ScoredText(speech), history, topic, tok, lex);
      && Dims(r.scores) == Dimensions
      && forall i :: 0 <= i < 5 ==> r.scores[i].value == m.Values()[i]
    ensures scorer.Model? && Usable(scorer.reply) ==>
      var ms := scorer.reply.members;
      && Dims(r.scores) == MemberKeys(ms)
      && forall i :: 0 <= i < |ms| ==> r.scores[i].value == Round2(ms[i].value.number)
    ensures scorer.Model? && !Usable(scorer.reply) ==> r.scores == NeutralScores
  {
    var scores := ScoresFor(ScoredText(speech), history, topic, scorer, tok, lex);
    Judgment(refereeId, scores, Comment(scores))
  }

  /** The unstaged scores the chosen scorer gives a text. */
  function ScoresFor(text: string, history: seq<Record>, topic: string, scorer: Scorer, tok: Tokenizer, lex: Lexicon): (s: Scores)
    ensures AllUnit(s)
    ensures scorer.Lexical? ==>
      var m := RawScores(text, history, topic, tok, lex);
      && Dims(s) == Dimensions
      && forall i :: 0 <= i < 5 ==> s[i].value == m.Values()[i]
    ensures scorer.Model? && Usable(scorer.reply) ==>
      var ms := scorer.reply.members;
      && Dims(s) == MemberKeys(ms)
      && forall i :: 0 <= i < |ms| ==> s[i].value == Round2(ms[i].value.number)
    ensures scorer.Model? && !Usable(scorer.reply) ==> s == NeutralScores
  {
    if scorer.Lexical? then
      UnstagedScoresAreRaw(text, history, topic, tok, lex);
      DimensionScores(text, history, topic, None, tok, lex)
    else
      UnstagedFallback(scorer.reply);
      LlmDimensionScores(scorer.reply, None)
  }

  /** An unusable reply scored without a stage gives the neutral scores. */
  lemma UnstagedFallback(reply: Decoded)
    ensures !Usable(reply) ==> LlmDimensionScores(reply, None) == NeutralScores
  {
    if !Usable(reply) {
      LlmFallbackIsNeutral(reply);
    }
  }

  /** A neutral fallback judgment always reads "表现均衡". */
  lemma NeutralJudgmentIsBalanced()
    ensures Comment(NeutralScores) == Balanced
  {
    var n := NeutralScores;
    forall j | 0 <= j < |Remarks| ensures Level(n, Remarks[j]) == 0.5 {
      var i := if j == 1 then 2 else if j == 2 then 1 else j;
      GetFirst(n, i, 0.0);
    }
    assert Unremarkable(n);
  }
}
