/**
 * The shapes the client exchanges with the server about questions: scale
 * types, optimisation directions, criteria (src/types/Question.ts) and the
 * question record the question pages read (status, author, alternatives).
 */
module QuestionTypes {
  import opened Wrappers

  /** The four ordinal scales a criterion can be rated on. */
  datatype ScaleType = Long | Base | Short | Numeric

  /** Whether a higher rating is better (`Max`) or worse (`Min`). */
  datatype Optimization = Max | Min

  datatype Criterion = Criterion(name: string, scaleType: ScaleType, optimization: Optimization)

  /** The life cycle of a question. */
  datatype QuestionStatus = Draft | Active | AwaitingDecision | Resolved

  datatype Alternative = Alternative(id: int, value: string)

  /** A question as the server returns it. The author is identified by the
      e-mail address of `createdBy`; `selectedAlternative` is the recorded
      decision of a resolved question, if the server sent one. */
  datatype Question = Question(
    id: int,
    title: string,
    description: string,
    alternatives: seq<Alternative>,
    criteria: seq<Criterion>,
    status: QuestionStatus,
    creatorEmail: string,
    selectedAlternative: Option<Alternative>)

  /** `prev ? { ...prev, status } : prev`: the question, if loaded, with its
      status replaced and every other field kept. */
  function WithStatus(q: Option<Question>, status: QuestionStatus): (r: Option<Question>)
    ensures r.Some? <==> q.Some?
    ensures r.Some? ==> r.value.status == status && r.value.(status := q.value.status) == q.value
  {
    match q
    case None => None
    case Some(x) => Some(x.(status := status))
  }

  /** `isCreator` / `isAuthor`: the signed-in user's e-mail address is the
      question author's. */
  predicate IsCreator(user: Option<string>, q: Question) {
    user == Some(q.creatorEmail)
  }
}
