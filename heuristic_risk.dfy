/**
 * The heuristic risk estimate of the web form (app.py): the form answers are
 * encoded as 0/1, five threshold tests are counted into a score, the score
 * becomes a capped probability and a percentage, and one of two verdicts is
 * shown. Probabilities are exact reals, so the percentage is exact as well.
 */
module HeuristicRisk {

  /** The answers of the form, as the widgets deliver them. */
  datatype Form = Form(
    age: int,         // slider, years
    sex: string,      // "Male" or "Female"
    trestbps: int,    // resting blood pressure, mm Hg
    chol: int,        // serum cholesterol, mg/dl
    fbs: string,      // fasting blood sugar > 120 mg/dl: "No" or "Yes"
    exang: string,    // exercise induced angina: "No" or "Yes"
    oldpeak: real,    // ST depression
    ca: int           // number of major vessels
  )

  /** The two messages the page can show, each with the displayed percentage. */
  datatype Verdict = HighRisk(percentage: real) | LowRisk(percentage: real)

  /** A two-way answer is encoded 1 for the answer `one` ("Male", "Yes") and 0 for anything else. */
  function EncodeAnswer(choice: string, one: string): (b: int)
    ensures b == 0 || b == 1
    ensures b == 1 <==> choice == one
  {
    if choice == one then 1 else 0
  }

  /** A boolean used as a summand counts as 0 or 1. */
  function Indicator(b: bool): int {
    if b then 1 else 0
  }

  /** The number of risk factors: three strict thresholds plus the two yes/no answers. */
  function Score(f: Form): (s: int)
    ensures 0 <= s <= 5
  {
    Indicator(f.age > 55) + Indicator(f.chol > 240) + Indicator(f.trestbps > 140)
      + EncodeAnswer(f.fbs, "Yes") + EncodeAnswer(f.exang, "Yes")
  }

  function Min(a: real, b: real): real {
    if a <= b then a else b
  }

  /** The probability is 0.15 per point, capped at 0.95; the cap never binds. */
  function Probability(f: Form): (p: real)
    ensures p == 0.15 * Score(f) as real
    ensures 0.0 <= p <= 0.75
  {
    Min(Score(f) as real * 0.15, 0.95)
  }

  /** The displayed percentage, in exact arithmetic. */
  function Percentage(f: Form): (pct: real)
    ensures pct == (15 * Score(f)) as real
    ensures 0.0 <= pct <= 75.0
  {
    Probability(f) * 100.0
  }

  /** The message shown: high risk exactly when the probability exceeds one half. */
  function Assess(f: Form): (v: Verdict)
    ensures v.HighRisk? <==> Score(f) >= 4
    ensures v.percentage == Percentage(f)
  {
    if Probability(f) > 0.5 then HighRisk(Percentage(f)) else LowRisk(Percentage(f))
  }

  /** The three thresholds are strict: the threshold itself adds nothing, one more adds one point. */
  lemma ThresholdsAreStrict(f: Form)
    ensures Score(f.(age := 56)) == Score(f.(age := 55)) + 1
    ensures Score(f.(chol := 241)) == Score(f.(chol := 240)) + 1
    ensures Score(f.(trestbps := 141)) == Score(f.(trestbps := 140)) + 1
  {
  }

  /** Raising any measured value, or turning a "No" into a "Yes", never lowers the score. */
  lemma ScoreIsMonotone(f: Form, g: Form)
    requires f.age <= g.age && f.chol <= g.chol && f.trestbps <= g.trestbps
    requires EncodeAnswer(f.fbs, "Yes") <= EncodeAnswer(g.fbs, "Yes")
    requires EncodeAnswer(f.exang, "Yes") <= EncodeAnswer(g.exang, "Yes")
    ensures Score(f) <= Score(g)
    ensures Assess(f).HighRisk? ==> Assess(g).HighRisk?
  {
  }

  /** Sex, ST depression and the vessel count are collected but do not affect the result. */
  lemma UnusedAnswersAreIgnored(f: Form, sex: string, oldpeak: real, ca: int)
    ensures Assess(f.(sex := sex, oldpeak := oldpeak, ca := ca)) == Assess(f)
  {
  }
}
