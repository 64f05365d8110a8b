/** Consequences of the vocabulary as written: entries listed twice and entries
    that contain other entries are counted more than once. */
module LexicalQuirks {
  import opened Text
  import opened Scoring
  import opened Vocabulary

  /** Negative-word hits are the sum of the hits of the five source rows. */
  lemma NegativeHitsByRow(s: string)
    ensures Hits(s, NegativeWords) == Hits(s, NegativeRow1) + Hits(s, NegativeRow2)
      + Hits(s, NegativeRow3) + Hits(s, NegativeRow4) + Hits(s, NegativeRow5)
  {
    HitsAppend(s, NegativeRow1, NegativeRow2);
    HitsAppend(s, NegativeRow1 + NegativeRow2, NegativeRow3);
    HitsAppend(s, NegativeRow1 + NegativeRow2 + NegativeRow3, NegativeRow4);
    HitsAppend(s, NegativeRow1 + NegativeRow2 + NegativeRow3 + NegativeRow4, NegativeRow5);
  }

  /** Positive-word hits are the sum of the hits of the five source rows. */
  lemma PositiveHitsByRow(s: string)
    ensures Hits(s, PositiveWords) == Hits(s, PositiveRow1) + Hits(s, PositiveRow2)
      + Hits(s, PositiveRow3) + Hits(s, PositiveRow4) + Hits(s, PositiveRow5)
  {
    HitsAppend(s, PositiveRow1, PositiveRow2);
    HitsAppend(s, PositiveRow1 + PositiveRow2, PositiveRow3);
    HitsAppend(s, PositiveRow1 + PositiveRow2 + PositiveRow3, PositiveRow4);
    HitsAppend(s, PositiveRow1 + PositiveRow2 + PositiveRow3 + PositiveRow4, PositiveRow5);
  }

  /** The negative list names "不足" twice (rows 2 and 5), so each occurrence counts as two hits. */
  lemma DuplicateNegativeWord(content: string)
    ensures Hits(content, NegativeWords) >= 2 * Count(content, "不足")
  {
    var n := Count(content, "不足");
    assert Hits(content, NegativeRow2) >= n by {
      assert NegativeRow2[1] == "不足";
      HitsCoverEach(content, NegativeRow2, 1);
    }
    assert Hits(content, NegativeRow5) >= n by {
      assert NegativeRow5[2] == "不足";
      HitsCoverEach(content, NegativeRow5, 2);
    }
    NegativeHitsByRow(content);
  }

  /** Each occurrence of "不足" therefore adds 0.08 to the persuasion score, up to the cap. */
  lemma DuplicateNegativeWordPersuasion(content: string)
    ensures PersuasionScore(content, Standard) >= 0.5 + Min(0.08 * Count(content, "不足") as real, 0.4)
  {
    DuplicateNegativeWord(content);
    PersuasionFromHits(content, Standard, 0, 2 * Count(content, "不足"));
  }

  /** "不稳定" also contains the positive word "稳定", so it is counted on both sides. */
  lemma UnstableCountsBothWays(content: string, i: int)
    requires OccursAt(content, "不稳定", i)
    ensures Hits(content, PositiveWords) >= 1
    ensures Hits(content, NegativeWords) >= 1
    ensures PersuasionScore(content, Standard) >= 0.59
  {
    assert content[i + 1..i + 3] == content[i..i + 3][1..];
    assert OccursAt(content, "稳定", i + 1);
    CountPositiveIffOccurs(content, "稳定");
    CountPositiveIffOccurs(content, "不稳定");
    PositiveHitsByRow(content);
    NegativeHitsByRow(content);
    assert PositiveRow4[0] == "稳定";
    assert NegativeRow3[9] == "不稳定";
    HitsCoverEach(content, PositiveRow4, 0);
    HitsCoverEach(content, NegativeRow3, 9);
    PersuasionFromHits(content, Standard, 1, 1);
  }

  /** Technical-term hits are the sum of the hits of the eleven fields. */
  lemma TechnicalHitsByField(s: string)
    ensures Hits(s, TechnicalTerms) == Hits(s, ResearchTerms) + Hits(s, PsychologyTerms)
      + Hits(s, EconomicsTerms) + Hits(s, ComputerScienceTerms) + Hits(s, BiologyTerms)
      + Hits(s, PhysicsTerms) + Hits(s, LawTerms) + Hits(s, EducationTerms)
      + Hits(s, MedicineTerms) + Hits(s, PoliticsTerms) + Hits(s, EnvironmentTerms)
  {
    var t := ResearchTerms;
    HitsAppend(s, t, PsychologyTerms);
    t := t + PsychologyTerms;
    HitsAppend(s, t, EconomicsTerms);
    t := t + EconomicsTerms;
    HitsAppend(s, t, ComputerScienceTerms);
    t := t + ComputerScienceTerms;
    HitsAppend(s, t, BiologyTerms);
    t := t + BiologyTerms;
    HitsAppend(s, t, PhysicsTerms);
    t := t + PhysicsTerms;
    HitsAppend(s, t, LawTerms);
    t := t + LawTerms;
    HitsAppend(s, t, EducationTerms);
    t := t + EducationTerms;
    HitsAppend(s, t, MedicineTerms);
    t := t + MedicineTerms;
    HitsAppend(s, t, PoliticsTerms);
    t := t + PoliticsTerms;
    HitsAppend(s, t, EnvironmentTerms);
  }

  /** "生物多样性" is listed among both the biology and the environment terms and so counts as two hits. */
  lemma DuplicateTechnicalTerm(content: string)
    ensures Hits(content, TechnicalTerms) >= 2 * Count(content, "生物多样性")
  {
    var n := Count(content, "生物多样性");
    assert Hits(content, BiologyTerms) >= n by {
      assert BiologyTerms[5] == "生物多样性";
      HitsCoverEach(content, BiologyTerms, 5);
    }
    assert Hits(content, EnvironmentTerms) >= n by {
      assert EnvironmentTerms[6] == "生物多样性";
      HitsCoverEach(content, EnvironmentTerms, 6);
    }
    TechnicalHitsByField(content);
  }

  /** Each occurrence of "生物多样性" therefore adds 0.2 to the depth score, up to the cap. */
  lemma DuplicateTechnicalTermDepth(content: string)
    ensures DepthScore(content, Standard) >= 0.4 + Min(0.2 * Count(content, "生物多样性") as real, 0.5)
  {
    DuplicateTechnicalTerm(content);
    DepthFromHits(content, Standard, 2 * Count(content, "生物多样性"));
  }
}
