/** The turn loop of a debate: each speech is followed by the referee's judgment
    of it, stage by stage and round by round. */
module Simulation {
  import opened Wrappers
  import opened Records
  import opened Scoring
  import opened Debater
  import opened Referee
  import opened Debate

  /** The agents as the turn loop calls them: `speak(turn, k)` is the record of
      the speaker of turn `k`, given its stage and round; `judge(speech, h, k)` the
      referee's judgment of it given the history `h`. */
  datatype Env = Env(speak: (Turn, nat) -> Record, judge: (Record, seq<Record>, nat) -> Record)

  /** Turn `k`: the speech, then the referee's judgment of it against the history
      that already includes it. */
  function Step(h: seq<Record>, k: nat, turn: Turn, env: Env): (h': seq<Record>)
    ensures |h'| == |h| + 2
  {
    var speech := env.speak(turn, k);
    var judged := h + [speech];
    judged + [env.judge(speech, judged, k)]
  }

  /** The history after playing the first `n` turns of a list from an empty history. */
  function PlayUpTo(turns: seq<Turn>, n: nat, env: Env): (h: seq<Record>)
    requires n <= |turns|
    ensures |h| == 2 * n
  {
    if n == 0 then [] else Step(PlayUpTo(turns, n - 1, env), n - 1, turns[n - 1], env)
  }

  /** The history after playing a list of turns from an empty history. */
  function Play(turns: seq<Turn>, env: Env): (h: seq<Record>)
    ensures |h| == 2 * |turns|
  {
    PlayUpTo(turns, |turns|, env)
  }

  /** Playing the first `n` turns depends on those turns only. */
  lemma {:induction false} PlayUpToAgree(a: seq<Turn>, b: seq<Turn>, n: nat, env: Env)
    requires n <= |a| && n <= |b| && a[..n] == b[..n]
    ensures PlayUpTo(a, n, env) == PlayUpTo(b, n, env)
  {
    if n > 0 {
      assert a[..n - 1] == a[..n][..n - 1] && b[..n - 1] == b[..n][..n - 1];
      assert a[n - 1] == a[..n][n - 1] && b[n - 1] == b[..n][n - 1];
      PlayUpToAgree(a, b, n - 1, env);
    }
  }

  /** Playing fewer turns gives a prefix of the history. */
  lemma {:induction false} PlayUpToPrefix(turns: seq<Turn>, j: nat, n: nat, env: Env)
    requires j <= n <= |turns|
    ensures PlayUpTo(turns, n, env)[..2 * j] == PlayUpTo(turns, j, env)
  {
    if j < n {
      PlayUpToPrefix(turns, j, n - 1, env);
      var h := PlayUpTo(turns, n - 1, env);
      assert PlayUpTo(turns, n, env)[..2 * (n - 1)] == h;
      assert PlayUpTo(turns, n, env)[..2 * j] == h[..2 * j];
    }
  }

  /** Playing a prefix of the turns gives a prefix of the history. */
  lemma PlayPrefix(turns: seq<Turn>, j: nat, env: Env)
    requires j <= |turns|
    ensures Play(turns, env)[..2 * j] == Play(turns[..j], env)
  {
    PlayUpToPrefix(turns, j, |turns|, env);
    PlayUpToAgree(turns, turns[..j], j, env);
  }

  /** The history alternates speech and judgment: entry 2i is the i-th speaker's
      record and entry 2i+1 the referee's judgment of it, made with everything up
      to and including that speech. */
  lemma HistoryAlternates(turns: seq<Turn>, env: Env, i: nat)
    requires i < |turns|
    ensures var h := Play(turns, env);
      && h[2 * i] == env.speak(turns[i], i)
      && h[2 * i + 1] == env.judge(h[2 * i], h[..2 * i + 1], i)
  {
    PlayUpToPrefix(turns, i + 1, |turns|, env);
    var h := Play(turns, env);
    var p := PlayUpTo(turns, i + 1, env);
    assert h[..2 * i + 2] == p;
    assert h[..2 * i + 1] == p[..2 * i + 1];
  }

  // -------------------------------------------------------------------- loop

  /** One round: each speaker in order speaks, and the referee judges the speech
      against the history that now includes it. */
  method PlayRound(h: seq<Record>, done: seq<Turn>, turns: seq<Turn>, env: Env) returns (history: seq<Record>)
    requires h == Play(done, env)
    ensures history == Play(done + turns, env)
  {
    var all := done + turns;
    PlayUpToAgree(done, all, |done|, env);
    history := h;
    var t := |done|;
    while t < |all|
      invariant |done| <= t <= |all|
      invariant history == PlayUpTo(all, t, env)
    {
      var speech := env.speak(all[t], t);
      history := history + [speech];
      var judgment := env.judge(speech, history, t);
      history := history + [judgment];
      t := t + 1;
    }
  }

  /** One stage: its rounds in order, each with the speaking order the stage prescribes. */
  method PlayStage(h: seq<Record>, done: seq<Turn>, st: Stage, ds: seq<Agent>, key: nat, env: Env, shuffle: Shuffle)
    returns (history: seq<Record>)
    requires h == Play(done, env)
    ensures history == Play(done + StageTurns(st, ds, key, shuffle, st.rounds), env)
  {
    history := h;
    var r := 0;
    var played := done;
    assert played == done + StageTurns(st, ds, key, shuffle, r) by {
      assert StageTurns(st, ds, key, shuffle, 0) == [];
    }
    while r < st.rounds
      invariant r <= st.rounds
      invariant played == done + StageTurns(st, ds, key, shuffle, r)
      invariant history == Play(played, env)
    {
      var order := SpeakerOrder(st.order, ds, key + r, shuffle);
      var turns := RoundTurns(st.name, r + 1, order);
      history := PlayRound(history, played, turns, env);
      StageTurnsNext(done, st, ds, key, shuffle, r);
      played := played + turns;
      r := r + 1;
    }
  }

  /** The stages of a list in turn, each after the rounds of those before it. */
  method PlayStages(stages: seq<Stage>, ds: seq<Agent>, env: Env, shuffle: Shuffle) returns (history: seq<Record>)
    ensures history == Play(Plan(stages, ds, shuffle), env)
  {
    history := [];
    var key := 0;
    var si := 0;
    assert stages[..0] == [];
    while si < |stages|
      invariant 0 <= si <= |stages|
      invariant key == RoundCount(stages[..si])
      invariant history == Play(Plan(stages[..si], ds, shuffle), env)
    {
      history := PlayStage(history, Plan(stages[..si], ds, shuffle), stages[si], ds, key, env, shuffle);
      PlanNext(stages, si, ds, shuffle);
      key := key + stages[si].rounds;
      si := si + 1;
    }
    assert stages[..|stages|] == stages;
  }

  /** `run_debate`: the simulator's debaters play the four stages; the history is
      that of playing the whole plan. */
  method RunDebate(roles: seq<string>, playerRoles: seq<string>, maxSpeech: Option<int>, env: Env, shuffle: Shuffle)
    returns (history: seq<Record>)
    ensures history == Play(Plan(Stages, CreateAgents(roles, playerRoles, maxSpeech), shuffle), env)
  {
    var ds := CreateAgents(roles, playerRoles, maxSpeech);
    history := PlayStages(Stages, ds, env, shuffle);
  }

  /** A debate of n debaters, p pro and c con, records 2(5n + 2(p + c)) entries. */
  lemma DebateLength(ds: seq<Agent>, env: Env, shuffle: Shuffle)
    requires Permutes(shuffle)
    ensures |Play(Plan(Stages, ds, shuffle), env)| == 2 * (5 * |ds| + 2 * (|OnTeam(ds, Pro)| + |OnTeam(ds, Con)|))
  {
    PlanLength(ds, shuffle);
  }
}
