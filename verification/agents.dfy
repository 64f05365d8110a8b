/** The simulator's agents as the turn loop calls them: debaters and players
    speak, the referee judges. */
module Agents {
  import opened Wrappers
  import opened Records
  import opened Scoring
  import opened Debater
  import opened Referee
  import opened Debate
  import opened Simulation

  /** A speaker's record for turn `k`: a player's input as typed, or a debater's
      claim from the model call of that turn. */
  function Respond(a: Agent, k: nat, claims: nat -> ClaimOutcome, typed: nat -> string, tok: Tokenizer): (r: Record)
    ensures r.Argument? && r.agentId == a.id && r.role == a.role
    ensures a.kind == Player ==> r.content == typed(k) && r.fullContent.None?
    ensures a.kind == AiDebater ==> r.fullContent == Some(Claim(claims(k)))
  {
    if a.kind == Player then Argument(a.id, a.role, typed(k), None)
    else DebaterResponse(a.id, a.role, a.maxWords, claims(k), tok)
  }

  /** How the referee scores turn `k`: with the model's reply for that turn when
      `aiReferee` is set, lexically otherwise. */
  function ScorerAt(aiReferee: bool, replies: nat -> Decoded, k: nat): (s: Scorer)
    ensures s.Model? <==> aiReferee
    ensures aiReferee ==> s.reply == replies(k)
  {
    if aiReferee then Model(replies(k)) else Lexical
  }

  /** `env` is the simulator on `topic`: speakers answer as `Respond` and the
      referee as `Judge`. Everything outside the model is a parameter indexed by
      turn: the debaters' model calls, the players' input, the referee's model
      replies; and segmentation and the word lists. */
  ghost predicate IsSimulator(env: Env, topic: string, aiReferee: bool, claims: nat -> ClaimOutcome,
                              typed: nat -> string, replies: nat -> Decoded, tok: Tokenizer, lex: Lexicon) {
    && (forall turn, k :: env.speak(turn, k) == Respond(turn.speaker, k, claims, typed, tok))
    && (forall speech, h, k ::
          env.judge(speech, h, k) == Judge(RefereeId, speech, h, topic, ScorerAt(aiReferee, replies, k), tok, lex))
  }

  /** In a simulated debate, entry 2i of the history is the i-th speaker's own
      record and entry 2i+1 the referee's judgment of it against the history up to
      and including that speech. */
  lemma SimulatedHistory(env: Env, topic: string, aiReferee: bool, claims: nat -> ClaimOutcome, typed: nat -> string,
                         replies: nat -> Decoded, tok: Tokenizer, lex: Lexicon, turns: seq<Turn>, i: nat)
    requires IsSimulator(env, topic, aiReferee, claims, typed, replies, tok, lex)
    requires i < |turns|
    ensures var h := Play(turns, env);
      && h[2 * i] == Respond(turns[i].speaker, i, claims, typed, tok)
      && h[2 * i + 1] == Judge(RefereeId, h[2 * i], h[..2 * i + 1], topic, ScorerAt(aiReferee, replies, i), tok, lex)
  {
    HistoryAlternates(turns, env, i);
  }
}
