/** The records exchanged between the API and the pages. */
module Domain {

  /** A bank question as the server stores it, answer key included. */
  datatype Question = Question(
    text: string,
    options: seq<string>,
    correctAnswer: int,
    category: string,
    difficulty: string)

  /** An answer key is usable only when it indexes one of the question's options. */
  predicate WellFormed(q: Question) {
    0 <= q.correctAnswer < |q.options|
  }

  /** The configuration the landing page sends and `/test/start` receives. */
  datatype TestConfig = TestConfig(duration: string, questionTypes: seq<string>, difficulty: string)

  /** A question as the client receives it: a positional id and no answer key or difficulty. */
  datatype ClientQuestion = ClientQuestion(id: string, text: string, options: seq<string>, category: string)
}
