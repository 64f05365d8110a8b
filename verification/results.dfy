/** The result aggregator: per-team averages of the judgments' totals and the
    verdict, read off the finished history. */
module Results {
  import opened Wrappers
  import opened Text
  import opened Records
  import opened Debate

  /** A score mapping as a dictionary: its keys are the dimensions, each read as
      `scores.get` reads it. */
  function ScoreMap(s: Scores): (m: map<string, real>)
    ensures forall d :: d in m <==> d in Dims(s)
    ensures forall d :: d in m ==> m[d] == Get(s, d, 0.0)
  {
    if |s| == 0 then map[]
    else ScoreMap(s[1..])[s[0].dim := s[0].value]
  }

  /** Python's `==` on two history records: arguments compare field by field (a
      record without `full_content` never equals one with it), judgments compare
      their id, their score mappings as dictionaries and their comment, and an
      argument never equals a judgment. */
  predicate SameRecord(a: Record, b: Record) {
    match a
    case Argument(_, _, _, _) => a == b
    case Judgment(id, s, c) => b.Judgment? && b.agentId == id && ScoreMap(b.scores) == ScoreMap(s) && b.comment == c
  }

  /** `history.index(history[i])`: the first position holding a record equal to the i-th. */
  function FirstEqual(h: seq<Record>, i: nat): (m: nat)
    requires i < |h|
    ensures m <= i && SameRecord(h[m], h[i])
    ensures forall l :: 0 <= l < m ==> !SameRecord(h[l], h[i])
  {
    FirstEqualFrom(h, i, 0)
  }

  /** The first position from `l` on, up to `i`, holding a record equal to the i-th. */
  function FirstEqualFrom(h: seq<Record>, i: nat, l: nat): (m: nat)
    requires l <= i < |h|
    requires forall k :: 0 <= k < l ==> !SameRecord(h[k], h[i])
    ensures l <= m <= i && SameRecord(h[m], h[i])
    ensures forall k :: 0 <= k < m ==> !SameRecord(h[k], h[i])
    decreases i - l
  {
    if SameRecord(h[l], h[i]) then l else FirstEqualFrom(h, i, l + 1)
  }

  /** The running per-team sums and counts of `announce_result`. */
  datatype Tally = Tally(proSum: real, proCount: nat, conSum: real, conCount: nat)

  /** Nothing credited yet. */
  const Empty: Tally := Tally(0.0, 0, 0.0, 0)

  /** A judgment total credited to the team `role[:2]` names; a role naming neither
      team is credited to nobody. */
  function Credit(t: Tally, role: string, total: real): (r: Tally)
    ensures r.proCount + r.conCount <= t.proCount + t.conCount + 1
    ensures r.proSum - t.proSum == (r.proCount - t.proCount) as real * total
    ensures r.conSum - t.conSum == (r.conCount - t.conCount) as real * total
    ensures r.proCount > t.proCount <==> Take(role, 2) == Pro
    ensures r.conCount > t.conCount <==> Take(role, 2) == Con
  {
    var team := Take(role, 2);
    if team == Pro then t.(proSum := t.proSum + total, proCount := t.proCount + 1)
    else if team == Con then t.(conSum := t.conSum + total, conCount := t.conCount + 1)
    else t
  }

  /** The credit the record at `i` earns when its speaker is taken to be the record
      at `p`: only a judgment earns, and only when `p` holds an argument. */
  function CreditFrom(t: Tally, h: seq<Record>, i: nat, p: int): Tally
    requires i < |h| && p < |h|
  {
    if h[i].Judgment? && 0 <= p && h[p].Argument? then Credit(t, h[p].role, Total(h[i].scores)) else t
  }

  /** The tally of the first `n` records as `announce_result` computes it: a
      judgment's speaker is the record before the judgment's first equal occurrence. */
  function TallyUpTo(h: seq<Record>, n: nat): Tally
    requires n <= |h|
  {
    if n == 0 then Empty
    else
      var i := n - 1;
      CreditFrom(TallyUpTo(h, i), h, i, FirstEqual(h, i) as int - 1)
  }

  /** The tally with each judgment credited to the record just before it. */
  function AdjacentTallyUpTo(h: seq<Record>, n: nat): Tally
    requires n <= |h|
  {
    if n == 0 then Empty
    else
      var i := n - 1;
      CreditFrom(AdjacentTallyUpTo(h, i), h, i, i - 1)
  }

  /** No judgment equals a record before it. */
  predicate FreshJudgments(h: seq<Record>) {
    forall i, l :: 0 <= l < i < |h| && h[i].Judgment? ==> !SameRecord(h[l], h[i])
  }

  /** When no judgment repeats an earlier record, `list.index` finds every judgment
      where it stands, and the tally credits each judgment to the record just before it. */
  lemma {:induction false} TallyIsAdjacentWhenFresh(h: seq<Record>, n: nat)
    requires n <= |h| && FreshJudgments(h)
    ensures TallyUpTo(h, n) == AdjacentTallyUpTo(h, n)
  {
    if n > 0 {
      var i := n - 1;
      TallyIsAdjacentWhenFresh(h, i);
      if h[i].Judgment? {
        assert FirstEqual(h, i) == i;
      }
    }
  }

  /** The number of judgments among the first `n` records. */
  function Judgments(h: seq<Record>, n: nat): nat
    requires n <= |h|
  {
    if n == 0 then 0 else Judgments(h, n - 1) + (if h[n - 1].Judgment? then 1 else 0)
  }

  /** Each judgment is credited at most once, so the two counts together never
      exceed the number of judgments. */
  lemma {:induction false} TallyCountsJudgments(h: seq<Record>, n: nat)
    requires n <= |h|
    ensures TallyUpTo(h, n).proCount + TallyUpTo(h, n).conCount <= Judgments(h, n)
  {
    if n > 0 {
      TallyCountsJudgments(h, n - 1);
    }
  }

  /** `total / count`, or 0 for a team with no judged turn. */
  function Average(sum: real, count: nat): (a: real)
    ensures count > 0 ==> a * count as real == sum
    ensures count == 0 ==> a == 0.0
  {
    if count > 0 then sum / count as real else 0.0
  }

  datatype Verdict = ProWins | ConWins | Draw

  /** The winner: the team with the strictly greater average; equal averages,
      0 against 0 included, are a draw. */
  function Decide(pro: real, con: real): (v: Verdict)
    ensures v == ProWins <==> pro > con
    ensures v == ConWins <==> con > pro
    ensures v == Draw <==> pro == con
  {
    if pro > con then ProWins else if con > pro then ConWins else Draw
  }

  /** The verdict with the teams' places exchanged. */
  function Swapped(v: Verdict): Verdict {
    match v
    case ProWins => ConWins
    case ConWins => ProWins
    case Draw => Draw
  }

  /** Exchanging the two averages exchanges the winner. */
  lemma DecideSymmetric(pro: real, con: real)
    ensures Decide(con, pro) == Swapped(Decide(pro, con))
  {
  }

  /** The result announced at the end of a debate. */
  datatype Outcome = Outcome(proAverage: real, conAverage: real, verdict: Verdict)

  /** `announce_result`: the averages of the tally and the verdict on them. */
  function Announce(h: seq<Record>): (o: Outcome)
    ensures var t := TallyUpTo(h, |h|);
      && (t.proCount > 0 ==> o.proAverage * t.proCount as real == t.proSum)
      && (t.conCount > 0 ==> o.conAverage * t.conCount as real == t.conSum)
      && (t.proCount == 0 ==> o.proAverage == 0.0)
      && (t.conCount == 0 ==> o.conAverage == 0.0)
    ensures o.verdict == Decide(o.proAverage, o.conAverage)
  {
    var t := TallyUpTo(h, |h|);
    var pro := Average(t.proSum, t.proCount);
    var con := Average(t.conSum, t.conCount);
    Outcome(pro, con, Decide(pro, con))
  }

  /** A debate of two pro turns judged 4.0 in total and one con turn judged 3.0,
      with no judgment equal to another, averages 2.0 against 3.0 and goes to the
      con side. */
  lemma ConWinsOnAverage(a1: Record, j1: Record, a2: Record, j2: Record, a3: Record, j3: Record)
    requires a1.Argument? && a2.Argument? && a3.Argument? && j1.Judgment? && j2.Judgment? && j3.Judgment?
    requires Take(a1.role, 2) == Pro && Take(a2.role, 2) == Pro && Take(a3.role, 2) == Con
    requires !SameRecord(j1, j2) && !SameRecord(j1, j3) && !SameRecord(j2, j3)
    requires Total(j1.scores) + Total(j2.scores) == 4.0 && Total(j3.scores) == 3.0
    ensures Announce([a1, j1, a2, j2, a3, j3]) == Outcome(2.0, 3.0, ConWins)
  {
    var h := [a1, j1, a2, j2, a3, j3];
    assert SameRecord(j1, j1) && SameRecord(j2, j2) && SameRecord(j3, j3);
    assert FirstEqual(h, 1) == 1;
    assert FirstEqual(h, 3) == 3;
    assert FirstEqual(h, 5) == 5;
    var t1, t2, t3 := Total(j1.scores), Total(j2.scores), Total(j3.scores);
    assert TallyUpTo(h, 1) == Empty;
    assert TallyUpTo(h, 2) == Tally(t1, 1, 0.0, 0);
    assert TallyUpTo(h, 3) == Tally(t1, 1, 0.0, 0);
    assert TallyUpTo(h, 4) == Tally(t1 + t2, 2, 0.0, 0);
    assert TallyUpTo(h, 5) == Tally(t1 + t2, 2, 0.0, 0);
    assert TallyUpTo(h, 6) == Tally(t1 + t2, 2, t3, 1);
  }

  /** Two turns from opposite sides judged alike are both credited to the first:
      the con judgment's first equal occurrence follows the pro argument, where
      crediting each judgment to the turn just before it splits them. */
  lemma RepeatedJudgmentIsMisattributed(a: Record, b: Record, j: Record)
    requires a.Argument? && b.Argument? && j.Judgment?
    requires Take(a.role, 2) == Pro && Take(b.role, 2) == Con
    ensures var h := [a, j, b, j]; var t := Total(j.scores);
      && TallyUpTo(h, |h|) == Tally(t + t, 2, 0.0, 0)
      && AdjacentTallyUpTo(h, |h|) == Tally(t, 1, t, 1)
  {
    var h := [a, j, b, j];
    assert SameRecord(j, j);
    assert FirstEqual(h, 1) == 1 && FirstEqual(h, 3) == 1;
    var t := Total(j.scores);
    assert TallyUpTo(h, 1) == Empty && AdjacentTallyUpTo(h, 1) == Empty;
    assert TallyUpTo(h, 2) == Tally(t, 1, 0.0, 0);
    assert TallyUpTo(h, 3) == Tally(t, 1, 0.0, 0);
    assert AdjacentTallyUpTo(h, 2) == Tally(t, 1, 0.0, 0);
    assert AdjacentTallyUpTo(h, 3) == Tally(t, 1, 0.0, 0);
  }
}
