/**
 The data shapes of the `getLegalAdvice` flow (`src/ai/flows/get-legal-advice.ts`).
 The prompt and the language-model call behind it are not modelled: a call is
 represented only by how it ended.
 */
module LegalAdvice {
  import opened Base

  /** `GetLegalAdviceOutput`: the four sections of one answer. */
  datatype Advice = Advice(
    legalAnalysis: string,
    rightsAnalysis: string,
    actionPlan: string,
    disclaimer: string)

  /** `GetLegalAdviceInput`: the query text and the optional answer language. */
  datatype AdviceInput = AdviceInput(query: string, language: Option<Language>)

  /** How one awaited `getLegalAdvice` call ended: with advice, or by throwing. */
  datatype Outcome = Success(advice: Advice) | Failure
}
