# AI debate simulator — a verified model of its deterministic engine

The AI debate simulator stages a debate between 正方 (pro) and 反方 (con) debaters. The debaters are language-model agents or human players. A referee scores and comments on every speech, and the simulator announces a winner at the end. This project models everything in it that does not depend on a model call, a console or the clock, and proves properties of that model:

- the lexical scoring engine (logic, persuasion, relevance, clarity, depth), its stage weights and 2-decimal rounding;
- the validation, fallback, weighting and clamping of the language-model scoring path;
- the two history summarisers;
- the referee: which text it scores, which path it scores with, the judgment record and the threshold comment;
- the debater's argument record, its claim-failure fallback and word-limit truncation;
- the format validator of knowledge responses;
- the four-stage schedule with its sequential, cross and random speaking orders, and the turn loop that follows every speech with its judgment;
- the result aggregation, including its `list.index` quirk, and the verdict.

Modules, one per file:

| file | module | models |
|---|---|---|
| wrappers.dfy | Wrappers | `Option` / `Result` |
| text.dfy | Text | `str.strip`, `split`/`join`, `count`, `s[:n]`, `str(n)` |
| records.dfy | Records | history records, score mappings, `dict.get`, `history[-3:]` |
| scoring.dfy | Scoring | `ScoringSystem` |
| vocabulary.dfy | Vocabulary | the scorer's word lists, as written |
| quirks.dfy | LexicalQuirks | consequences of the word lists as written |
| speech.dfy | SpeechHandler | `SpeechHandler.limit_words`, `validate_speech_length` |
| validator.dfy | KnowledgeValidator | `KnowledgeValidator.validate_format` |
| debater.dfy | Debater | `DebaterAgent` |
| referee.dfy | Referee | `RefereeAgent` |
| debate.dfy | Debate | `DEBATE_STAGES`, `_create_agents`, speaking orders, the turn plan |
| simulation.dfy | Simulation | the turn loop of `run_debate` |
| agents.dfy | Agents | the simulator's agents plugged into the turn loop |
| results.dfy | Results | `announce_result` |

Design:

- **Scores.** Scores are exact reals. `round(x, 2)` is round-half-up to hundredths.
- **Mappings.** A score mapping is an ordered list of `(dimension, value)` pairs, because a Python dict keeps insertion order.
- **External inputs become parameters.** Everything outside the engine is passed in:
  - segmentation (`jieba.lcut`): a function `Tokenizer`;
  - `json.loads` of a model reply: a `Decoded` value;
  - the debaters' model calls: `ClaimOutcome`s indexed by turn;
  - the players' console input: strings indexed by turn;
  - `random.shuffle`: a `Shuffle` function keyed by round number, assumed to be a permutation (`Permutes`).
- **Word lists.** The lexical scorer takes its word lists as a `Lexicon`. `Vocabulary.Standard` holds the lists exactly as the source writes them, duplicates included.
- **Turn loop.** The loop is generic over an `Env` of a speaker and a judge. `Agents.IsSimulator` pins these to the debater, player and referee models.

## Model

| member | source | states |
|---|---|---|
| Text.Strip | debate_agents/utils/knowledge_validator.py:26-27 | `str.strip()`: the result is the slice of the input left after its leading and trailing whitespace; everything cut off is whitespace, and the result neither starts nor ends with whitespace |
| Text.Leading | debate_agents/utils/knowledge_validator.py:26 | the length of the input's whitespace prefix: all of it is whitespace and the next character is not |
| Text.Trailing | debate_agents/utils/knowledge_validator.py:26 | the length of the input's whitespace suffix: all of it is whitespace and the character before it is not |
| Text.StripIdempotent | debate_agents/utils/knowledge_validator.py:26-27 | stripping twice equals stripping once |
| Text.Split | debate_agents/utils/scoring_system.py:263 | `split("。")` yields at least one piece and no piece holds the separator |
| Text.JoinSplit | debate_agents/utils/scoring_system.py:263 | joining the pieces of a split with the separator restores the string |
| Text.SplitJoin | debate_agents/agents/referee_agent.py:76 | splitting a join of separator-free pieces gives back exactly those pieces |
| Text.SplitFreeHead | debate_agents/agents/referee_agent.py:76 | a separator-free prefix stays glued to the first piece of the split |
| Text.Count | debate_agents/utils/scoring_system.py:223-224 | `str.count` of a non-empty word: occurrences do not overlap, so their total length fits in the text |
| Text.CountPositiveIffOccurs | debate_agents/utils/scoring_system.py:223-224 | a word's count is positive exactly when the word occurs somewhere in the text |
| Text.Take | debate_agents/utils/scoring_system.py:148 | `s[:n]` is the prefix of length `min(n, len(s))` |
| Text.ConcatSplitAt | debate_agents/utils/speech_handler.py:13 | joining the first k words and then the rest gives the join of all words |
| Text.NatToString | debate_agents/utils/speech_handler.py:14 | `str(n)` is a non-empty run of decimal digits |
| Text.ParseNatToString | debate_agents/utils/speech_handler.py:14 | reading `str(n)` back as a decimal gives `n` |
| Text.NatToStringInjective | debate_agents/main.py:44 | distinct numbers print differently |
| Records.Dims | debate_agents/utils/scoring_system.py:164-170 | the dimension names of a mapping, in order |
| Records.GetFirst | debate_agents/agents/referee_agent.py:47 | `scores.get(dim)` returns the value of the only entry for `dim` |
| Records.GetMissing | debate_agents/agents/referee_agent.py:47 | `scores.get(dim, default)` on a mapping without `dim` returns the default |
| Records.TotalOfUnitScores | debate_agents/main.py:175 | the sum of a mapping of unit scores lies between 0 and the number of entries |
| Records.LastThree | debate_agents/utils/scoring_system.py:249 | `history[-3:]` is the suffix of length `min(3, len(history))` |
| Records.ScoredText | debate_agents/agents/referee_agent.py:14 | the referee scores `full_content` when present, else `content`; a record with neither gives "" |
| Scoring.Round2 | debate_agents/utils/scoring_system.py:182 | `round(x, 2)` is a whole number of hundredths within half a hundredth of `x`, and stays in [0, 1] for inputs in [0, 1] |
| Scoring.Round2Exact | debate_agents/utils/scoring_system.py:182 | rounding a whole number of hundredths leaves it unchanged |
| Scoring.Round2Monotone | debate_agents/utils/scoring_system.py:182 | rounding preserves order |
| Scoring.LogicHits | debate_agents/utils/scoring_system.py:198-200 | the number of connective tokens is at most the number of tokens |
| Scoring.LogicHitsAppend | debate_agents/utils/scoring_system.py:200 | the connective counts of two token lists laid end to end add up |
| Scoring.LogicScore | debate_agents/utils/scoring_system.py:187-202 | the logic score lies in [0.3, 0.9]; it is 0.3 exactly when no token is a connective and 0.9 exactly when at least six are |
| Scoring.HitsCoverEach | debate_agents/utils/scoring_system.py:223-224 | every listed word contributes at least its own count to the hits |
| Scoring.HitsAppend | debate_agents/utils/scoring_system.py:223-224 | the hits of two word lists laid end to end add up |
| Scoring.HitsDoubleCount | debate_agents/utils/scoring_system.py:223-224 | a word listed twice contributes its count twice |
| Scoring.PersuasionScore | debate_agents/utils/scoring_system.py:205-229 | the persuasion score lies in [0.5, 0.9] and is 0.5 exactly when no positive and no negative word occurs |
| Scoring.PersuasionFromHits | debate_agents/utils/scoring_system.py:226-229 | more positive or negative hits never lower the persuasion score; negative words raise it too |
| Scoring.TopicMatch | debate_agents/utils/scoring_system.py:238-245 | the topic match lies in [0, 1]; it is 0.7 for a topic without tokens and 1 when the content has every topic token |
| Scoring.Jaccard | debate_agents/utils/scoring_system.py:253-255 | the Jaccard similarity lies in [0, 1]; it is 1 exactly for equal non-empty sets and 0 exactly for disjoint ones, an empty union included |
| Scoring.RatioFacts | debate_agents/utils/scoring_system.py:243 | a ratio of a count to a larger total is 1 exactly when they are equal and 0 exactly when the count is 0 |
| Scoring.SubsetSize | debate_agents/utils/scoring_system.py:253-254 | a subset is no larger than its superset, and a proper subset is strictly smaller |
| Scoring.OverlapFacts | debate_agents/utils/scoring_system.py:253-254 | an intersection is no larger than the union, as large only for equal sets, and non-empty exactly when its size is positive |
| Scoring.Contents | debate_agents/utils/scoring_system.py:250 | each record contributes its `content`, and judgments contribute "" |
| Scoring.ContextScore | debate_agents/utils/scoring_system.py:247-255 | the context overlap lies in [0, 1] and is 0 for an empty history |
| Scoring.RelevanceScore | debate_agents/utils/scoring_system.py:232-257 | relevance is a whole number of hundredths in [0, 1], and exactly 0 for empty content |
| Scoring.RelevanceSeesLastThree | debate_agents/utils/scoring_system.py:249-250 | only the last three history records affect relevance |
| Scoring.RelevanceWithoutTopicOrHistory | debate_agents/utils/scoring_system.py:242-257 | with no topic tokens and no history, any non-empty content scores round(0.3 · 0.7, 2) = 0.21 |
| Scoring.NonEmpty | debate_agents/utils/scoring_system.py:263 | dropping empty pieces leaves only non-empty pieces of the original list, no more than before |
| Scoring.Sentences | debate_agents/utils/scoring_system.py:263 | there is always at least one sentence; when some piece between full stops is non-empty, every sentence is non-empty and free of full stops, and otherwise the whole content is the one sentence |
| Scoring.TotalLengthNonEmpty | debate_agents/utils/scoring_system.py:263-264 | dropping empty pieces does not change the total length |
| Scoring.TotalLengthAppend | debate_agents/utils/scoring_system.py:264 | total lengths of two piece lists laid end to end add up |
| Scoring.JoinLength | debate_agents/utils/scoring_system.py:263-264 | a join is as long as its pieces plus one separator between each pair |
| Scoring.SentenceCharacters | debate_agents/utils/scoring_system.py:263-264 | when some piece is non-empty, the sentences' total length is the content's length less its full stops |
| Text.SplitCount | debate_agents/utils/scoring_system.py:263 | `split(sep)` gives one more piece than the string has separators |
| Scoring.TotalLengthGrows | debate_agents/utils/scoring_system.py:264 | lists of equally many strings, each no shorter than its counterpart and one strictly longer, have the larger total length |
| Scoring.TotalLengthNoShorter | debate_agents/utils/scoring_system.py:264 | lists of equally many strings, each no shorter than its counterpart, have a total length no smaller |
| Scoring.ClarityScore | debate_agents/utils/scoring_system.py:260-271 | clarity is 0.9, 0.7 or 0.5; it is 0.9 exactly when the mean sentence length is below 15 and 0.7 exactly when it lies in [15, 25) |
| Scoring.MeanBelow | debate_agents/utils/scoring_system.py:264-268 | a mean n/k is below t exactly when n < t·k |
| Scoring.ClarityOfEmpty | debate_agents/utils/scoring_system.py:263-267 | empty content is one empty sentence and scores 0.9 |
| Scoring.DepthScore | debate_agents/utils/scoring_system.py:274-309 | the depth score lies in [0.4, 0.9] and is 0.4 exactly when no technical term occurs |
| Scoring.DepthFromHits | debate_agents/utils/scoring_system.py:306-309 | more technical-term hits never lower the depth score |
| Scoring.StageWeight | debate_agents/utils/scoring_system.py:173-180 | the stage weight lies in [0.9, 1]; it is 1.0 for a missing stage (the default stage) and for a stage outside the table |
| Scoring.WeightedScore | debate_agents/utils/scoring_system.py:181-182 | weighting a unit score of whole hundredths and rounding keeps it in [0, 1], never raises it, and changes nothing at weight 1 |
| Scoring.RawScores | debate_agents/utils/scoring_system.py:164-170 | all five metrics are whole hundredths in [0, 1] |
| Scoring.WeighMetrics | debate_agents/utils/scoring_system.py:164-184 | the weighted mapping has exactly the five dimensions in order, each the metric times the weight rounded to hundredths, each in [0, 1], none above its raw metric, all equal to it at weight 1 |
| Scoring.DimensionScores | debate_agents/utils/scoring_system.py:153-184 | `calculate_dimension_scores` returns exactly the five keys, each its raw metric times the stage's weight rounded to hundredths, every value in [0, 1] and at most its raw metric; at weight 1 every value is the raw metric |
| Scoring.UnstagedScoresAreRaw | debate_agents/utils/scoring_system.py:179-182 | a request with no stage gets the raw metrics unchanged |
| Scoring.OpeningStageDiscount | debate_agents/utils/scoring_system.py:174-182 | an opening speech's five dimension scores are its raw metrics times 0.9 rounded to hundredths; a logic metric of 0.9 scores 0.81 |
| Scoring.MemberKeys | debate_agents/utils/scoring_system.py:124 | the keys of a decoded object, in order |
| Scoring.ParseScores | debate_agents/utils/scoring_system.py:116-137 | a decoded object with all five keys and every value in [0, 1] becomes the scores, member for member; anything else becomes the neutral 0.5 mapping |
| Scoring.Clamp | debate_agents/utils/scoring_system.py:76 | `max(0, min(1, x))` lies in [0, 1] and is `x` for `x` in [0, 1] |
| Scoring.WeighAll | debate_agents/utils/scoring_system.py:75-76 | every key is kept in order, and each value is weighted, rounded and clamped into [0, 1] |
| Scoring.ClampedWeigh | debate_agents/utils/scoring_system.py:76 | the clamped weighted value lies in [0, 1], and the clamp does not change a unit value at a weight in [0.9, 1] |
| Scoring.UnitProduct | debate_agents/utils/scoring_system.py:76 | a unit value times a weight in [0.9, 1] stays in [0, the value] |
| Scoring.WeighAllUnclamped | debate_agents/utils/scoring_system.py:75-76 | for unit scores the clamp never bites, so every value is just weighted and rounded |
| Scoring.WeighNeutral | debate_agents/utils/scoring_system.py:58-76 | the weighted neutral mapping has the five dimensions, each at the weighted 0.5 |
| Scoring.LlmDimensionScores | debate_agents/utils/scoring_system.py:52-78 | a usable reply keeps its keys, each value weighted and rounded; any other reply gives the five dimensions at the weighted 0.5; every value lies in [0, 1] |
| Scoring.LlmFallbackIsNeutral | debate_agents/utils/scoring_system.py:52-64 | a malformed reply, a missing dimension or any value outside [0, 1] gives exactly 0.5 on all five dimensions when no stage is named |
| Scoring.LlmUsableReplyUnchanged | debate_agents/utils/scoring_system.py:120-131 | a usable reply of whole hundredths passes through unchanged when no stage is named |
| Scoring.Excerpt | debate_agents/utils/scoring_system.py:148 | content of at most 80 characters is kept whole; longer content is cut to 80, and "..." follows only when asked for |
| Scoring.SummaryLines | debate_agents/utils/scoring_system.py:147-150 | one line per record of the last three, numbered from 1, each "n. role: excerpt" |
| Scoring.Summarize | debate_agents/utils/scoring_system.py:144-150 | the summary is "暂无历史发言" exactly when the history is empty |
| Scoring.SummaryIsNotPlaceholder | debate_agents/utils/scoring_system.py:144-150 | numbered lines never join to the placeholder |
| Scoring.ScoringSummary | debate_agents/utils/scoring_system.py:140-150 | the scorer's summary is the placeholder exactly for an empty history |
| Scoring.SummarySeesLastThree | debate_agents/utils/scoring_system.py:149 | only the last three history records affect a summary |
| LexicalQuirks.NegativeHitsByRow | debate_agents/utils/scoring_system.py:215-224 | negative hits are the sum of the hits of the list's five rows |
| LexicalQuirks.PositiveHitsByRow | debate_agents/utils/scoring_system.py:208-223 | positive hits are the sum of the hits of the list's five rows |
| LexicalQuirks.DuplicateNegativeWord | debate_agents/utils/scoring_system.py:215-224 | "不足" is listed twice, so each occurrence counts as two negative hits |
| LexicalQuirks.DuplicateNegativeWordPersuasion | debate_agents/utils/scoring_system.py:215-229 | so each "不足" adds 0.08 to persuasion, up to the cap |
| LexicalQuirks.UnstableCountsBothWays | debate_agents/utils/scoring_system.py:208-229 | "不稳定" contains the positive word "稳定", so one occurrence is a positive and a negative hit and lifts persuasion to at least 0.59 |
| LexicalQuirks.TechnicalHitsByField | debate_agents/utils/scoring_system.py:277-306 | technical hits are the sum of the hits of the eleven fields' term lists |
| LexicalQuirks.DuplicateTechnicalTerm | debate_agents/utils/scoring_system.py:277-306 | "生物多样性" is listed twice, so each occurrence counts as two technical hits |
| LexicalQuirks.DuplicateTechnicalTermDepth | debate_agents/utils/scoring_system.py:277-309 | so each "生物多样性" adds 0.2 to depth, up to the cap |
| SpeechHandler.SliceEnd | debate_agents/utils/speech_handler.py:13 | `words[:m]` keeps at most all words, and exactly `m` when `0 <= m < len(words)` |
| SpeechHandler.ReadTruncationNoteOf | debate_agents/utils/speech_handler.py:14 | the truncation note records exactly the original word count |
| SpeechHandler.LimitWords | debate_agents/utils/speech_handler.py:10-14 | a text that passes `validate_speech_length` comes back unchanged; any other becomes the join of its first words plus the note carrying its word count |
| SpeechHandler.TruncatedSpeechShape | debate_agents/utils/speech_handler.py:10-14 | when the words join back to the text, a truncated speech is a prefix of the text followed by a note the original word count can be read back from |
| KnowledgeValidator.Lookup | debate_agents/utils/knowledge_validator.py:15 | a key is missing exactly when no entry carries it |
| KnowledgeValidator.ValidateFormat | debate_agents/utils/knowledge_validator.py:14-28 | ValueError exactly when a key is missing, checked first; TypeError exactly when both are present but `argument` is not a string or `evidence` not a list of strings; otherwise the stripped argument and every evidence item stripped, length and order kept |
| KnowledgeValidator.ToDict | debate_agents/utils/knowledge_validator.py:25-28 | the output has exactly the keys `argument` and `evidence`, in that order |
| KnowledgeValidator.ValidateFormatIdempotent | debate_agents/utils/knowledge_validator.py:25-28 | validating the output again gives the same result |
| KnowledgeValidator.ValidatedIsFixedPoint | debate_agents/utils/knowledge_validator.py:14-28 | an output whose strings are already stripped validates to itself |
| Debater.MaxWords | debate_agents/agents/debater_agent.py:9 | the configured word limit, or 1000 when none is configured |
| Debater.Claim | debate_agents/agents/debater_agent.py:51-56 | the claim is the stripped reply, which strips to itself; a failed call gives "论点生成失败" and never raises |
| Debater.DebaterResponse | debate_agents/agents/debater_agent.py:11-21 | an argument with the agent's id and role, the whole claim as `full_content`, and as `content` the claim limited to the agent's word count: the claim itself within the limit, else a text ending in the truncation note |
| Debater.RefereeScoresWholeClaim | debate_agents/agents/referee_agent.py:14 | the referee scores a debater's whole claim, never its truncated form |
| Debater.DebaterSummary | debate_agents/agents/debater_agent.py:58-68 | the debater's summary is the placeholder exactly for an empty history |
| Debater.SummariesAgreeOnShortContent | debate_agents/agents/debater_agent.py:65-68 | the debater's and the scorer's summaries coincide when no recent content exceeds 80 characters |
| Debater.SummariesDifferOnLongContent | debate_agents/agents/debater_agent.py:62-68 | for any history, the two summaries differ when one of the last three records has a content over 80 characters |
| Debater.SummaryLineLength | debate_agents/agents/debater_agent.py:66 | the scorer's summary line is three characters longer than the debater's exactly when the content exceeds 80 characters |
| Referee.RemarksApart | debate_agents/agents/referee_agent.py:47-74 | the ten comment phrases are all distinct, and none holds "；" or reads "表现均衡" |
| Referee.RemarkPair | debate_agents/agents/referee_agent.py:47-74 | phrases of different dimensions differ, and a dimension's two phrases differ |
| Referee.PhrasesFrom | debate_agents/agents/referee_agent.py:44-74 | with a plain phrase table, no earned phrase holds "；" or reads "表现均衡" |
| Referee.PhrasesFromNames | debate_agents/agents/referee_agent.py:47-74 | a dimension earns its high phrase exactly when its score exceeds 0.8, and its low phrase exactly when the score is below 0.4 |
| Referee.PhrasesFromEmpty | debate_agents/agents/referee_agent.py:47-76 | no phrase is earned exactly when every score lies in [0.4, 0.8] |
| Referee.Comment | debate_agents/agents/referee_agent.py:43-76 | the comment is "表现均衡" exactly when all five scores lie in [0.4, 0.8]; otherwise it splits on "；" into the earned phrases in dimension order |
| Referee.JoinIsNotBalanced | debate_agents/agents/referee_agent.py:76 | earned phrases never join to "表现均衡" |
| Referee.CommentNamesRemarkableScores | debate_agents/agents/referee_agent.py:47-76 | the comment names a dimension's high phrase exactly when its score exceeds 0.8 and its low phrase exactly when it is below 0.4; a missing dimension counts as 0 |
| Referee.Judge | debate_agents/agents/referee_agent.py:12-41 | a judgment with the referee's id whose comment is the comment on its scores, all in [0, 1]; the lexical path gives the five unweighted metrics of the whole text, a usable model reply its own keys in order with each value rounded to hundredths, and an unusable one the neutral scores |
| Referee.ScoresFor | debate_agents/agents/referee_agent.py:16-32 | `llm_use` alone picks the path, and no stage is passed, so the weight is 1.0: the lexical path gives the raw metrics, a usable model reply its keys in order with each value rounded to hundredths, an unusable one the neutral scores |
| Referee.UnstagedFallback | debate_agents/agents/referee_agent.py:21-26 | an unusable model reply gives exactly the neutral scores |
| Referee.NeutralJudgmentIsBalanced | debate_agents/agents/referee_agent.py:76 | a fallback judgment's comment is "表现均衡" |
| Debate.CreateAgents | debate_agents/main.py:37-63 | one agent per role, in order: id `debater_i`, team `role[:2]`, a player exactly for a player role, and the word limit configured or 800 |
| Debate.AgentIdsDistinct | debate_agents/main.py:44-71 | debater ids are pairwise distinct and never the referee's |
| Debate.OnTeam | debate_agents/main.py:107-108 | a team's list is no longer than the pool, holds only agents on that team, and holds every pool agent on it |
| Debate.OnTeamCounts | debate_agents/main.py:107-108 | a team's list holds each pool agent on that team exactly as often as the pool does, and no agent of another team |
| Debate.OnTeamAppend | debate_agents/main.py:107-108 | a team's list keeps pool order: one more agent at the end of the pool is one more at the end of its team's list and changes no other team's |
| Debate.Interleave | debate_agents/main.py:109-114 | the interleaving is exactly as long as both lists together |
| Debate.InterleavePermutes | debate_agents/main.py:109-114 | interleaving only rearranges the two lists |
| Debate.InterleaveAlternates | debate_agents/main.py:110-114 | while both sides last, position 2i holds pro[i] and 2i+1 con[i] |
| Debate.InterleaveTail | debate_agents/main.py:110-114 | once one side is exhausted, the rest of the other follows in order |
| Debate.CrossOrder | debate_agents/main.py:105-114 | the cross order holds exactly the pool's pro and con debaters, each as often as on its team; other teams are omitted |
| Debate.CrossOrderAlternates | debate_agents/main.py:110-114 | with equal teams the cross order is pro[0], con[0], pro[1], con[1], … |
| Debate.SpeakerOrderMembers | debate_agents/main.py:100-118 | only debaters speak; a sequential or random round is a permutation of the pool, a cross round holds the two teams |
| Debate.RoundTurns | debate_agents/main.py:121-129 | one turn per speaker, in speaking order |
| Debate.StageTurnsLength | debate_agents/main.py:96-121 | each round of a stage has the same number of turns |
| Debate.PlanLengthIsWork | debate_agents/main.py:87-121 | a debate's turns number the sum over stages of rounds times round size |
| Debate.WorkNext | debate_agents/main.py:87-96 | one more stage adds its rounds times its round size |
| Debate.PlanLength | debate_agents/main.py:18-121 | with the four stages (rounds 1, 2, 3, 1), n debaters, p pro and c con, a debate has 5n + 2(p + c) turns |
| Debate.StageTurnsNext | debate_agents/main.py:96-100 | the turns up to round r + 1 of a stage are those up to round r followed by round r + 1, its speakers ordered as round key + r of the debate |
| Debate.PlanNext | debate_agents/main.py:87 | the plan of one more stage extends the plan of those before it |
| Simulation.Step | debate_agents/main.py:129-148 | each turn appends exactly two records |
| Simulation.PlayUpTo | debate_agents/main.py:121-148 | n turns record 2n entries |
| Simulation.Play | debate_agents/main.py:121-148 | a list of turns records twice as many entries |
| Simulation.PlayUpToAgree | debate_agents/main.py:121-148 | the history of the first n turns depends on those turns only |
| Simulation.PlayUpToPrefix | debate_agents/main.py:130-148 | the history only grows: fewer turns give a prefix of it |
| Simulation.PlayPrefix | debate_agents/main.py:130-148 | playing a prefix of the turns gives a prefix of the history |
| Simulation.HistoryAlternates | debate_agents/main.py:129-148 | entry 2i is the i-th speech and entry 2i+1 its judgment, made against a history that already includes the speech |
| Simulation.PlayRound | debate_agents/main.py:121-148 | the round's loop leaves the history of the turns played so far followed by the round's turns |
| Simulation.PlayStage | debate_agents/main.py:96-148 | a stage's loop plays its rounds in order, each with the stage's speaking order |
| Simulation.PlayStages | debate_agents/main.py:87-148 | the stages' loop plays the whole plan |
| Simulation.RunDebate | debate_agents/main.py:78-148 | `run_debate` records the history of playing the plan of the four stages for the created debaters |
| Simulation.DebateLength | debate_agents/main.py:87-148 | a debate of n debaters, p pro and c con, records 2(5n + 2(p + c)) entries |
| Agents.Respond | debate_agents/agents/debater_agent.py:11-21 | a speaker's record is an argument with its id and role: a player's typed text with no `full_content`, or a debater's whole claim as `full_content` |
| Agents.ScorerAt | debate_agents/agents/referee_agent.py:21-32 | the model path exactly when the AI referee is on, with that turn's reply |
| Agents.SimulatedHistory | debate_agents/main.py:129-148 | in a simulated debate, entry 2i is the speaker's own record and entry 2i+1 the referee's judgment of it against the history up to that speech |
| Results.ScoreMap | debate_agents/main.py:175 | a score mapping read as a dictionary has the mapping's dimensions as keys, each read as `get` reads it |
| Results.FirstEqual | debate_agents/main.py:170 | `history.index(r)` is the first position of a record equal to `r`, never after `r`'s own |
| Results.FirstEqualFrom | debate_agents/main.py:170 | the search from a position finds the first equal record from there on |
| Results.Credit | debate_agents/main.py:173-177 | a total is credited to the team `role[:2]` names, once; a role naming neither team credits nobody |
| Results.TallyIsAdjacentWhenFresh | debate_agents/main.py:168-177 | when no judgment equals an earlier record, every judgment is credited to the speech just before it |
| Results.TallyCountsJudgments | debate_agents/main.py:168-177 | the two teams' counts never exceed the number of judgments |
| Results.Average | debate_agents/main.py:180-185 | the average times the count is the sum, and a team with no credited judgment averages 0 |
| Results.Decide | debate_agents/main.py:195-200 | pro wins exactly on a strictly greater average, con likewise, and equal averages, 0 against 0 included, draw |
| Results.DecideSymmetric | debate_agents/main.py:195-200 | swapping the averages swaps the winner |
| Results.Announce | debate_agents/main.py:160-200 | the announced averages are the tally's averages, and the verdict is decided on them |
| Results.ConWinsOnAverage | debate_agents/main.py:164-200 | two pro turns judged 4.0 in total and one con turn judged 3.0, all judgments distinct, average 2.0 against 3.0 and con wins |
| Results.RepeatedJudgmentIsMisattributed | debate_agents/main.py:170-177 | a con turn judged exactly like an earlier pro turn has its judgment credited to the pro side, where crediting the speech just before would split them |

## Left out

- Network calls, with their retries and sleeps: `llm_api` and `BaseAgent.llm_api`. Their outputs enter as parameters: a `Decoded` reply for the referee, a `ClaimOutcome` for a debater.
- The prompt templates: `_create_scoring_prompt` and the prompt text of `_generate_claim`. They are free text for the model and carry no behaviour.
- Console I/O: all printing, `input()` in `PlayerAgent` (the typed text is a parameter), and `time.sleep`.
- The `main()` command line, `ConfigLoader` (file I/O) and `utils/init.py` (re-exports only).
- `SpeechHandler.format_response`: it reads the clock.
- `jieba.lcut`: a `Tokenizer` parameter. Where a result depends on it, the model assumes its tokens join back to the input.
- `json.loads`: a `Decoded` parameter. Duplicate keys are outside the model: `json.loads` keeps the last value of a repeated key, but a `Decoded` object or a validator dict with a repeated key is not excluded, and the model says nothing about which value wins.
- String-valued and boolean JSON scores: `float()` would accept them, but they are outside this model. Any non-numeric value is treated as rejected.
- Python binary floating point. Scores are exact reals.
- Scoring.Round2: it rounds halves up on exact reals, not `round`'s round-half-even on binary doubles. The model states its bounds and that it preserves whole hundredths, not Python's exact result.
- `random.shuffle`: a per-round `Shuffle` parameter assumed to permute.
- The `"evidence": []` key of a player's record. Nothing reads it.
- The `current_stage` and `stage_round` fields of the scheduler's contexts. No agent reads them: the debater and the player read only `topic` and `speech_history`, and the referee only those and `current_speech`.
- The referee's own agent record: it never speaks, so the turn loop keeps it apart from the debaters.
- Two behaviours of the code that its other parts suggest were not intended. The model follows the code in both:
  - Each judgment is meant to be credited to the speech just before it. The aggregation instead credits it to the record before its first equal occurrence (`list.index`, debate_agents/main.py:170). `Results.TallyUpTo` models the code. `Results.AdjacentTallyUpTo` is the reading in which each judgment goes to the speech just before it. `Results.TallyIsAdjacentWhenFresh` proves the two agree when no judgment repeats. `Results.RepeatedJudgmentIsMisattributed` shows where they part.
  - The simulator always passes `max_speech_length`, which is 800 unless configured (debate_agents/main.py:47), so `DebaterAgent`'s own fallback of 1000 (debate_agents/agents/debater_agent.py:9) is never used. Only that fallback and the prompt's request to stay, preferably, within 1000 characters (debate_agents/agents/debater_agent.py:45) name 1000. The model uses 800.
- Simulation.Step: its contract states only how much the history grows. What each entry holds is stated by `Simulation.HistoryAlternates` and, for the real agents, by `Agents.SimulatedHistory`.
