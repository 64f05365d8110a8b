/** The debate simulator: agents, the fixed stage table, speaking orders, and the
    turn loop that alternates each speech with the referee's judgment of it. */
module Debate {
  import opened Wrappers
  import opened Text
  import opened Records
  import opened Scoring
  import opened Debater
  import opened Referee

  // ------------------------------------------------------------------ stages

  /** How a stage orders its speakers. */
  datatype Order = Sequential | Cross | Random

  datatype Stage = Stage(name: string, order: Order, rounds: nat)

  /** The four stages, in order: opening, cross-examination, free debate, closing. */
  const Stages: seq<Stage> := [
    Stage("立论阶段", Sequential, 1),
    Stage("质询阶段", Cross, 2),
    Stage("自由辩论阶段", Random, 3),
    Stage("结辩阶段", Sequential, 1)
  ]

  // ------------------------------------------------------------------ agents

  /** Who produces a debater's speeches. */
  datatype Kind = AiDebater | Player

  /** A speaking agent; its team is the first two characters of its role. */
  datatype Agent = Agent(id: string, kind: Kind, role: string, team: string, maxWords: int)

  const Pro: string := "正方"
  const Con: string := "反方"
  const RefereeId: string := "referee_0"

  /** The word limit every simulator-created agent receives when the configuration names none. */
  const SimulatorMaxWords: int := 800

  function DebaterId(i: nat): string {
    "debater_" + NatToString(i)
  }

  /** The debaters `_create_agents` builds, one per role in order; a role listed among
      the player roles gets a human player. The referee, appended last, is kept apart. */
  function CreateAgents(roles: seq<string>, playerRoles: seq<string>, maxSpeech: Option<int>): (ds: seq<Agent>)
    ensures |ds| == |roles|
    ensures forall i :: 0 <= i < |ds| ==>
      && ds[i].id == DebaterId(i)
      && ds[i].role == roles[i]
      && ds[i].team == Take(roles[i], 2)
      && (ds[i].kind == Player <==> roles[i] in playerRoles)
      && ds[i].maxWords == maxSpeech.GetOr(SimulatorMaxWords)
  {
    if |roles| == 0 then []
    else
      var i := |roles| - 1;
      CreateAgents(roles[..i], playerRoles, maxSpeech)
        + [Agent(DebaterId(i), if roles[i] in playerRoles then Player else AiDebater, roles[i], Take(roles[i], 2),
                 MaxWords(Some(maxSpeech.GetOr(SimulatorMaxWords))))]
  }

  /** Every agent id is distinct, and none is the referee's. */
  lemma AgentIdsDistinct(roles: seq<string>, playerRoles: seq<string>, maxSpeech: Option<int>)
    ensures var ds := CreateAgents(roles, playerRoles, maxSpeech);
      && (forall i, j :: 0 <= i < j < |ds| ==> ds[i].id != ds[j].id)
      && (forall i :: 0 <= i < |ds| ==> ds[i].id != RefereeId)
  {
    var ds := CreateAgents(roles, playerRoles, maxSpeech);
    forall i, j | 0 <= i < j < |ds| ensures ds[i].id != ds[j].id {
      NatToStringInjective(i, j);
      assert ds[i].id[8..] == NatToString(i);
      assert ds[j].id[8..] == NatToString(j);
    }
    forall i | 0 <= i < |ds| ensures ds[i].id != RefereeId {
      assert ds[i].id[0] == 'd';
    }
  }

  // --------------------------------------------------------- speaking orders

  /** The agents of one team, in their original order. */
  function OnTeam(ds: seq<Agent>, team: string): (r: seq<Agent>)
    ensures |r| <= |ds|
    ensures forall i :: 0 <= i < |r| ==> r[i].team == team
    ensures forall a :: a in r <==> a in ds && a.team == team
  {
    if |ds| == 0 then []
    else
      var rest := OnTeam(ds[1..], team);
      assert ds == [ds[0]] + ds[1..];
      if ds[0].team == team then [ds[0]] + rest else rest
  }

  /** A team holds each of the pool's agents on it as often as the pool does, and no other. */
  lemma {:induction false} OnTeamCounts(ds: seq<Agent>, team: string)
    ensures forall a :: multiset(OnTeam(ds, team))[a] == if a.team == team then multiset(ds)[a] else 0
  {
    if |ds| > 0 {
      OnTeamCounts(ds[1..], team);
      MultisetCons(ds);
    }
  }

  /** Adding an agent to the end of the pool adds it to the end of its team and
      leaves the other teams as they were: a team keeps the pool's order. */
  lemma {:induction false} OnTeamAppend(ds: seq<Agent>, d: Agent, team: string)
    ensures OnTeam(ds + [d], team) == OnTeam(ds, team) + (if d.team == team then [d] else [])
  {
    if |ds| > 0 {
      assert (ds + [d])[1..] == ds[1..] + [d];
      OnTeamAppend(ds[1..], d, team);
    } else {
      assert ds + [d] == [d];
    }
  }

  /** Alternates two lists, starting with the first; once the shorter runs out,
      the rest of the longer follows in order. */
  function Interleave(a: seq<Agent>, b: seq<Agent>): (r: seq<Agent>)
    ensures |r| == |a| + |b|
  {
    if |a| == 0 then b
    else if |b| == 0 then a
    else
      [a[0], b[0]] + Interleave(a[1..], b[1..])
  }

  /** Interleaving only rearranges. */
  lemma {:induction false} InterleavePermutes(a: seq<Agent>, b: seq<Agent>)
    ensures multiset(Interleave(a, b)) == multiset(a) + multiset(b)
  {
    if |a| > 0 && |b| > 0 {
      var rest := Interleave(a[1..], b[1..]);
      InterleavePermutes(a[1..], b[1..]);
      MultisetCons(a);
      MultisetCons(b);
      assert multiset([a[0], b[0]] + rest) == multiset{a[0], b[0]} + multiset(rest);
    }
  }

  /** A non-empty list holds its head and its tail. */
  lemma MultisetCons(s: seq<Agent>)
    requires |s| > 0
    ensures multiset(s) == multiset{s[0]} + multiset(s[1..])
  {
    assert s == [s[0]] + s[1..];
  }

  /** The interleaving takes one from each list in turn while both last. */
  lemma {:induction false} InterleaveAlternates(a: seq<Agent>, b: seq<Agent>, i: nat)
    requires i < |a| && i < |b|
    ensures Interleave(a, b)[2 * i] == a[i] && Interleave(a, b)[2 * i + 1] == b[i]
  {
    var rest := Interleave(a[1..], b[1..]);
    var r := Interleave(a, b);
    assert r == [a[0], b[0]] + rest;
    if i > 0 {
      InterleaveAlternates(a[1..], b[1..], i - 1);
      assert r[2 * i] == rest[2 * (i - 1)];
      assert r[2 * i + 1] == rest[2 * (i - 1) + 1];
    }
  }

  /** After the shorter list is used up, the rest of the longer one follows unchanged. */
  lemma {:induction false} InterleaveTail(a: seq<Agent>, b: seq<Agent>)
    ensures |a| >= |b| ==> Interleave(a, b)[2 * |b|..] == a[|b|..]
    ensures |b| >= |a| ==> Interleave(a, b)[2 * |a|..] == b[|a|..]
  {
    if |a| > 0 && |b| > 0 {
      InterleaveTail(a[1..], b[1..]);
      var rest := Interleave(a[1..], b[1..]);
      var r := Interleave(a, b);
      assert r == [a[0], b[0]] + rest;
      assert r[2..] == rest;
      if |a| >= |b| {
        assert a[1..][|b| - 1..] == a[|b|..];
      }
      if |b| >= |a| {
        assert b[1..][|a| - 1..] == b[|a|..];
      }
    }
  }

  /** The cross order: pro and con debaters alternate, pro first; agents on neither team do not speak. */
  function CrossOrder(ds: seq<Agent>): (r: seq<Agent>)
    ensures forall a :: a in r <==> a in ds && (a.team == Pro || a.team == Con)
    ensures multiset(r) == multiset(OnTeam(ds, Pro)) + multiset(OnTeam(ds, Con))
    ensures |r| == |OnTeam(ds, Pro)| + |OnTeam(ds, Con)|
  {
    var r := Interleave(OnTeam(ds, Pro), OnTeam(ds, Con));
    InterleavePermutes(OnTeam(ds, Pro), OnTeam(ds, Con));
    assert forall a :: a in r <==> a in multiset(r);
    r
  }

  /** With two teams of equal size, the cross order is p0, c0, p1, c1, ... */
  lemma CrossOrderAlternates(ds: seq<Agent>)
    requires |OnTeam(ds, Pro)| == |OnTeam(ds, Con)|
    ensures var r := CrossOrder(ds);
      forall i :: 0 <= i < |OnTeam(ds, Pro)| ==> r[2 * i] == OnTeam(ds, Pro)[i] && r[2 * i + 1] == OnTeam(ds, Con)[i]
  {
    forall i | 0 <= i < |OnTeam(ds, Pro)| {
      InterleaveAlternates(OnTeam(ds, Pro), OnTeam(ds, Con), i);
    }
  }

  /** `random.shuffle`, chosen per round: the `k`-th round of the debate gets `shuffle(k, ds)`. */
  type Shuffle = (nat, seq<Agent>) -> seq<Agent>

  /** A shuffle only permutes. */
  ghost predicate Permutes(shuffle: Shuffle) {
    forall k: nat, s: seq<Agent> :: multiset(shuffle(k, s)) == multiset(s)
  }

  /** The speakers of one round of a stage; `key` numbers the round within the debate. */
  function SpeakerOrder(order: Order, ds: seq<Agent>, key: nat, shuffle: Shuffle): seq<Agent> {
    match order
    case Sequential => ds
    case Cross => CrossOrder(ds)
    case Random => shuffle(key, ds)
  }

  /** The number of speakers in each round of a stage. */
  function RoundSize(order: Order, ds: seq<Agent>): nat {
    if order == Cross then |OnTeam(ds, Pro)| + |OnTeam(ds, Con)| else |ds|
  }

  /** Only debaters speak; a sequential or random round hears every debater exactly
      once, a cross round every member of the two teams. */
  lemma SpeakerOrderMembers(order: Order, ds: seq<Agent>, key: nat, shuffle: Shuffle)
    requires Permutes(shuffle)
    ensures var r := SpeakerOrder(order, ds, key, shuffle);
      && |r| == RoundSize(order, ds)
      && (order != Cross ==> multiset(r) == multiset(ds))
      && (order == Cross ==> forall a :: a in r <==> a in ds && (a.team == Pro || a.team == Con))
      && forall a :: a in r ==> a in ds
  {
    var r := SpeakerOrder(order, ds, key, shuffle);
    if order != Cross {
      assert multiset(r) == multiset(ds);
      assert |r| == |multiset(r)|;
      assert forall a :: a in r <==> a in multiset(r);
    }
  }

  // -------------------------------------------------------------------- plan

  /** One speaking turn. */
  datatype Turn = Turn(stage: string, round: nat, speaker: Agent)

  function RoundTurns(stage: string, round: nat, order: seq<Agent>): (ts: seq<Turn>)
    ensures |ts| == |order|
    ensures forall i :: 0 <= i < |ts| ==> ts[i] == Turn(stage, round, order[i])
  {
    if |order| == 0 then [] else [Turn(stage, round, order[0])] + RoundTurns(stage, round, order[1..])
  }

  /** The turns of the first `n` rounds of a stage whose first round is round `key0` of the debate. */
  function StageTurns(st: Stage, ds: seq<Agent>, key0: nat, shuffle: Shuffle, n: nat): seq<Turn> {
    if n == 0 then []
    else StageTurns(st, ds, key0, shuffle, n - 1) + RoundTurns(st.name, n, SpeakerOrder(st.order, ds, key0 + n - 1, shuffle))
  }

  /** The number of rounds in a list of stages. */
  function RoundCount(stages: seq<Stage>): nat {
    if |stages| == 0 then 0 else RoundCount(stages[..|stages| - 1]) + stages[|stages| - 1].rounds
  }

  /** All turns of a list of stages, in speaking order. */
  function Plan(stages: seq<Stage>, ds: seq<Agent>, shuffle: Shuffle): seq<Turn> {
    if |stages| == 0 then []
    else
      var before := stages[..|stages| - 1];
      var st := stages[|stages| - 1];
      Plan(before, ds, shuffle) + StageTurns(st, ds, RoundCount(before), shuffle, st.rounds)
  }

  /** Each round of a stage has the same number of turns. */
  lemma {:induction false} StageTurnsLength(st: Stage, ds: seq<Agent>, key0: nat, shuffle: Shuffle, n: nat)
    requires Permutes(shuffle)
    ensures |StageTurns(st, ds, key0, shuffle, n)| == n * RoundSize(st.order, ds)
  {
    if n > 0 {
      StageTurnsLength(st, ds, key0, shuffle, n - 1);
      SpeakerOrderMembers(st.order, ds, key0 + n - 1, shuffle);
      var c := RoundSize(st.order, ds);
      assert n * c == (n - 1) * c + c;
    }
  }

  /** The number of turns a list of stages takes: each stage's rounds times the size of its rounds. */
  function Work(stages: seq<Stage>, ds: seq<Agent>): nat {
    if |stages| == 0 then 0
    else
      var st := stages[|stages| - 1];
      Work(stages[..|stages| - 1], ds) + st.rounds * RoundSize(st.order, ds)
  }

  /** The plan of a list of stages has as many turns as their rounds have speakers. */
  lemma {:induction false} PlanLengthIsWork(stages: seq<Stage>, ds: seq<Agent>, shuffle: Shuffle)
    requires Permutes(shuffle)
    ensures |Plan(stages, ds, shuffle)| == Work(stages, ds)
  {
    if |stages| > 0 {
      var before := stages[..|stages| - 1];
      var st := stages[|stages| - 1];
      PlanLengthIsWork(before, ds, shuffle);
      StageTurnsLength(st, ds, RoundCount(before), shuffle, st.rounds);
    }
  }

  /** One more stage adds its rounds' turns. */
  lemma WorkNext(stages: seq<Stage>, n: nat, ds: seq<Agent>)
    requires n < |stages|
    ensures Work(stages[..n + 1], ds) == Work(stages[..n], ds) + stages[n].rounds * RoundSize(stages[n].order, ds)
  {
    assert stages[..n + 1][..n] == stages[..n];
  }

  /** A debate has 5n + 2(p + c) turns for n debaters, p of them pro and c con:
      one opening and one closing round, three free rounds, two cross rounds. */
  lemma PlanLength(ds: seq<Agent>, shuffle: Shuffle)
    requires Permutes(shuffle)
    ensures |Plan(Stages, ds, shuffle)| == 5 * |ds| + 2 * (|OnTeam(ds, Pro)| + |OnTeam(ds, Con)|)
  {
    PlanLengthIsWork(Stages, ds, shuffle);
    assert Stages[..0] == [];
    WorkNext(Stages, 0, ds);
    WorkNext(Stages, 1, ds);
    WorkNext(Stages, 2, ds);
    WorkNext(Stages, 3, ds);
    assert Stages[..4] == Stages;
  }

  /** The turns of a stage's first `r + 1` rounds, after the turns `done`, are
      those of its first `r` rounds followed by round `r + 1`, whose speakers are
      ordered as round `key + r` of the debate. */
  lemma StageTurnsNext(done: seq<Turn>, st: Stage, ds: seq<Agent>, key: nat, shuffle: Shuffle, r: nat)
    ensures done + StageTurns(st, ds, key, shuffle, r + 1) ==
      (done + StageTurns(st, ds, key, shuffle, r)) + RoundTurns(st.name, r + 1, SpeakerOrder(st.order, ds, key + r, shuffle))
  {
    assert StageTurns(st, ds, key, shuffle, r + 1) ==
      StageTurns(st, ds, key, shuffle, r) + RoundTurns(st.name, r + 1, SpeakerOrder(st.order, ds, key + r, shuffle));
  }

  /** The plan of one more stage extends the plan of those before it by that stage's rounds. */
  lemma PlanNext(stages: seq<Stage>, n: nat, ds: seq<Agent>, shuffle: Shuffle)
    requires n < |stages|
    ensures RoundCount(stages[..n + 1]) == RoundCount(stages[..n]) + stages[n].rounds
    ensures Plan(stages[..n + 1], ds, shuffle) ==
      Plan(stages[..n], ds, shuffle) + StageTurns(stages[n], ds, RoundCount(stages[..n]), shuffle, stages[n].rounds)
  {
    assert stages[..n + 1][..n] == stages[..n];
  }
}
