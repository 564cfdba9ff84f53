/**
 * The quiz catalog's record types (src/types/types.ts). TypeScript's
 * `Option` interface is called AnswerOption here, so that it does not clash
 * with the optional-value type Wrappers.Option.
 */
module QuizTypes {
  import opened Wrappers

  datatype Tooltip = Tooltip(title: string, description: string)

  /** One answer of a question; `next` is the id of the following question, or None at the end of the quiz. */
  datatype AnswerOption = AnswerOption(id: string, text: string, next: Option<string>)

  datatype Question = Question(
    id: string,
    title: string,
    subtitle: Option<string>,
    options: seq<AnswerOption>,
    tooltip: Option<Tooltip>)
}
