/**
 * The end-of-game panel's percentage of correct answers.
 */
module Feedback {
  import opened Js

  /**
   * `percentual`: `Math.round((corretos / totalQuestoes) * 100)`. The getter
   * divides by `totalQuestoes` unguarded, so a positive total is required.
   */
  function Percentual(corretos: nat, totalQuestoes: nat): (r: nat)
    requires totalQuestoes > 0
    ensures 2 * totalQuestoes * r <= 2 * (100 * corretos) + totalQuestoes < 2 * totalQuestoes * r + 2 * totalQuestoes
  {
    Percent(corretos, totalQuestoes)
  }

  /** No correct answer is 0%, all correct is 100%, and a score within the total stays within 0..100. */
  lemma PercentualLimites(corretos: nat, totalQuestoes: nat)
    requires totalQuestoes > 0
    ensures corretos == 0 ==> Percentual(corretos, totalQuestoes) == 0
    ensures corretos == totalQuestoes ==> Percentual(corretos, totalQuestoes) == 100
    ensures corretos <= totalQuestoes ==> Percentual(corretos, totalQuestoes) <= 100
  {
    PercentBounds(corretos, totalQuestoes);
  }

  /** More correct answers never show a lower percentage. */
  lemma PercentualMonotonico(c1: nat, c2: nat, totalQuestoes: nat)
    requires totalQuestoes > 0 && c1 <= c2
    ensures Percentual(c1, totalQuestoes) <= Percentual(c2, totalQuestoes)
  {
    RoundRatioMonotonic(100 * c1, 100 * c2, totalQuestoes);
  }

  /** Seven of ten correct shows 70%. */
  lemma PercentualSeteDeDez()
    ensures Percentual(7, 10) == 70
  {
  }
}
