/**
 * The question preview page (src/components/content/question/QuestionPreview.tsx):
 * the alternative-by-criterion answer matrix, the single-cell answer update,
 * activation of a draft, and the status-dependent controls.
 */
module QuestionPreview {
  import opened Wrappers
  import opened QuestionTypes
  import opened Rating

  const LoadFailedMessage: string := "Произошла ошибка"
  const ActivatedMessage: string := "Вопрос активирован"
  const ActivateFailedMessage: string := "Не удалось активировать вопрос"

  /** One alternative's answers, by criterion name. */
  type Row = map<string, string>

  /** The answer matrix, by alternative index. */
  type Answers = map<int, Row>

  /** The names of the criteria (equal names share one cell). */
  function CriterionNames(criteria: seq<Criterion>): set<string> {
    set k | 0 <= k < |criteria| :: criteria[k].name
  }

  /** The matrix right after loading `q`: a row for every alternative index
      0..n-1 and nothing else, each row holding every criterion name with an
      empty answer. */
  ghost predicate IsInitialAnswers(answers: Answers, q: Question) {
    && (forall i :: i in answers <==> 0 <= i < |q.alternatives|)
    && forall i | i in answers :: answers[i].Keys == CriterionNames(q.criteria) && forall c | c in answers[i] :: answers[i][c] == ""
  }

  /** The nested `forEach` loops that fill `initialAnswers`. */
  method InitialAnswers(q: Question) returns (answers: Answers)
    ensures IsInitialAnswers(answers, q)
  {
    answers := map[];
    var altIndex := 0;
    while altIndex < |q.alternatives|
      invariant 0 <= altIndex <= |q.alternatives|
      invariant forall i :: i in answers <==> 0 <= i < altIndex
      invariant forall i | i in answers :: answers[i].Keys == CriterionNames(q.criteria) && forall c | c in answers[i] :: answers[i][c] == ""
    {
      answers := answers[altIndex := map[]];
      var k := 0;
      while k < |q.criteria|
        invariant 0 <= k <= |q.criteria|
        invariant forall i :: i in answers <==> 0 <= i <= altIndex
        invariant forall i | i in answers && i != altIndex :: answers[i].Keys == CriterionNames(q.criteria) && forall c | c in answers[i] :: answers[i][c] == ""
        invariant answers[altIndex].Keys == CriterionNames(q.criteria[..k])
        invariant forall c | c in answers[altIndex] :: answers[altIndex][c] == ""
      {
        assert q.criteria[..k + 1] == q.criteria[..k] + [q.criteria[k]];
        assert CriterionNames(q.criteria[..k + 1]) == CriterionNames(q.criteria[..k]) + {q.criteria[k].name} by {
          var ks := q.criteria[..k + 1];
          forall n | n in CriterionNames(ks) ensures n in CriterionNames(q.criteria[..k]) + {q.criteria[k].name} {
            var j :| 0 <= j < |ks| && ks[j].name == n;
            if j < k {
              assert q.criteria[..k][j] == ks[j];
            }
          }
        }
        answers := answers[altIndex := answers[altIndex][q.criteria[k].name := ""]];
        k := k + 1;
      }
      assert q.criteria[..k] == q.criteria;
      altIndex := altIndex + 1;
    }
  }

  /** `handleAnswerChange(altIndex, criterionName, value)`: the row spread with the
      one cell overwritten; a missing row spreads as an empty one. */
  function AnswerChange(answers: Answers, altIndex: int, criterionName: string, value: string): Answers
  {
    var row := if altIndex in answers then answers[altIndex] else map[];
    answers[altIndex := row[criterionName := value]]
  }

  /** An answer change sets the one cell and keeps the rest of its row and every
      other row; a missing row is created holding only this cell. */
  lemma AnswerChangeSpec(answers: Answers, altIndex: int, criterionName: string, value: string)
    ensures var r := AnswerChange(answers, altIndex, criterionName, value);
      && r.Keys == answers.Keys + {altIndex}
      && criterionName in r[altIndex] && r[altIndex][criterionName] == value
      && (altIndex in answers ==> r[altIndex].Keys == answers[altIndex].Keys + {criterionName})
      && (altIndex !in answers ==> r[altIndex].Keys == {criterionName})
      && (altIndex in answers ==> forall c | c in answers[altIndex] && c != criterionName :: r[altIndex][c] == answers[altIndex][c])
      && (forall i | i in answers && i != altIndex :: r[i] == answers[i])
  {
  }

  /** Changing a cell that exists keeps the matrix's shape: the same rows, and
      every row with the same criterion names. */
  lemma AnswerChangeKeepsShape(answers: Answers, q: Question, altIndex: int, criterionName: string, value: string)
    requires IsInitialAnswers(answers, q)
    requires 0 <= altIndex < |q.alternatives| && criterionName in CriterionNames(q.criteria)
    ensures var r := AnswerChange(answers, altIndex, criterionName, value);
      r.Keys == answers.Keys && forall i | i in r :: r[i].Keys == CriterionNames(q.criteria)
  {
    AnswerChangeSpec(answers, altIndex, criterionName, value);
  }

  /** Two changes of the same cell: the later one wins. */
  lemma AnswerChangeLastWins(answers: Answers, altIndex: int, criterionName: string, v1: string, v2: string)
    ensures AnswerChange(AnswerChange(answers, altIndex, criterionName, v1), altIndex, criterionName, v2)
         == AnswerChange(answers, altIndex, criterionName, v2)
  {
    var l := AnswerChange(AnswerChange(answers, altIndex, criterionName, v1), altIndex, criterionName, v2);
    var r := AnswerChange(answers, altIndex, criterionName, v2);
    assert l[altIndex].Keys == r[altIndex].Keys;
    assert forall c | c in l[altIndex] :: l[altIndex][c] == r[altIndex][c];
    assert l[altIndex] == r[altIndex];
    assert l.Keys == r.Keys;
  }

  /** Changes of two different cells commute. */
  lemma AnswerChangesCommute(answers: Answers, a1: int, c1: string, v1: string, a2: int, c2: string, v2: string)
    requires a1 != a2 || c1 != c2
    ensures AnswerChange(AnswerChange(answers, a1, c1, v1), a2, c2, v2)
         == AnswerChange(AnswerChange(answers, a2, c2, v2), a1, c1, v1)
  {
    if a1 != a2 {
      ChangesInDifferentRowsCommute(answers, a1, c1, v1, a2, c2, v2);
    } else {
      ChangesInOneRowCommute(answers, a1, c1, v1, c2, v2);
    }
  }

  lemma ChangesInDifferentRowsCommute(answers: Answers, a1: int, c1: string, v1: string, a2: int, c2: string, v2: string)
    requires a1 != a2
    ensures AnswerChange(AnswerChange(answers, a1, c1, v1), a2, c2, v2)
         == AnswerChange(AnswerChange(answers, a2, c2, v2), a1, c1, v1)
  {
    var row1 := if a1 in answers then answers[a1] else map[];
    var row2 := if a2 in answers then answers[a2] else map[];
    assert answers[a1 := row1[c1 := v1]][a2 := row2[c2 := v2]] == answers[a2 := row2[c2 := v2]][a1 := row1[c1 := v1]];
  }

  lemma ChangesInOneRowCommute(answers: Answers, a: int, c1: string, v1: string, c2: string, v2: string)
    requires c1 != c2
    ensures AnswerChange(AnswerChange(answers, a, c1, v1), a, c2, v2)
         == AnswerChange(AnswerChange(answers, a, c2, v2), a, c1, v1)
  {
    var row := if a in answers then answers[a] else map[];
    assert row[c1 := v1][c2 := v2] == row[c2 := v2][c1 := v1];
  }

  /** `isDraft`: the loaded question is a draft. */
  predicate IsDraft(q: Question) {
    q.status == Draft
  }

  /** `isActive`: the loaded question is open for answers. */
  predicate IsActive(q: Question) {
    q.status == Active
  }

  /** The controls shown in the page header and in the author's menu. */
  datatype Controls = Controls(activate: bool, submitAnswer: bool, finish: bool, menu: bool, edit: bool, delete: bool)

  /** Which controls the page shows: activation for a draft; answer submission for
      an active question, and finishing it for its author; the menu only for the
      author, with editing only while the question is a draft. */
  function VisibleControls(user: Option<string>, q: Question): (r: Controls)
    ensures r.activate <==> q.status == Draft
    ensures r.submitAnswer <==> q.status == Active
    ensures r.finish <==> q.status == Active && user == Some(q.creatorEmail)
    ensures r.menu <==> r.delete
    ensures r.menu <==> user == Some(q.creatorEmail)
    ensures r.edit <==> r.menu && r.activate
    ensures !(r.activate && r.submitAnswer) && (r.finish ==> r.submitAnswer && r.menu)
  {
    Controls(
      activate := IsDraft(q),
      submitAnswer := IsActive(q),
      finish := IsActive(q) && IsCreator(user, q),
      menu := IsCreator(user, q),
      edit := IsCreator(user, q) && IsDraft(q),
      delete := IsCreator(user, q))
  }

  /** The answer selects are disabled while the question is a draft. */
  predicate SelectsDisabled(q: Question) {
    IsDraft(q)
  }

  /** A question cannot be a draft and active at once. */
  lemma DraftAndActiveExclusive(q: Question)
    ensures !(IsDraft(q) && IsActive(q))
    ensures IsActive(q) ==> !SelectsDisabled(q)
  {
  }

  /** The choices every answer select offers, whatever the criterion's scale. */
  const FixedAnswerChoices: seq<string> := ["1", "2", "3", "4", "5"]

  /** The fixed choices are the first five numeric ratings; for the three verbal
      scales none of them is a rating of the scale, and for the numeric scale the
      ratings 6 to 10 are never offered. */
  lemma FixedChoicesMissScaleValues(scale: ScaleType)
    ensures FixedAnswerChoices == Values(Numeric)[..5]
    ensures scale != Numeric ==> forall v | v in FixedAnswerChoices :: IndexOfValue(scale, v).None?
    ensures scale == Numeric ==> forall k | 5 <= k < 10 :: Values(Numeric)[k] !in FixedAnswerChoices
  {
    FixedChoicesAreLowNumeric();
    if scale != Numeric {
      forall v | v in FixedAnswerChoices ensures IndexOfValue(scale, v).None? {
        DigitStartNotVerbal(scale, v);
      }
    }
  }

  /** The fixed choices are the numeric ratings 1 to 5, and 6 to 10 are never offered. */
  lemma FixedChoicesAreLowNumeric()
    ensures FixedAnswerChoices == Values(Numeric)[..5]
    ensures forall k | 5 <= k < 10 :: Values(Numeric)[k] !in FixedAnswerChoices
  {
    NumericOptions();
    var vs := Values(Numeric);
    assert vs[..5] == FixedAnswerChoices;
    forall k | 5 <= k < 10 ensures vs[k] !in FixedAnswerChoices {
      assert vs[k] in ["6", "7", "8", "9", "10"];
    }
  }

  /** No rating of a verbal scale starts with a digit. */
  lemma DigitStartNotVerbal(scale: ScaleType, v: string)
    requires scale != Numeric
    requires |v| > 0 && '0' <= v[0] <= '9'
    ensures v !in Values(scale)
  {
    VerbalValuesAreLetters(scale);
  }

  /** Every rating of a verbal scale starts with a Cyrillic capital letter. */
  lemma VerbalValuesAreLetters(scale: ScaleType)
    requires scale != Numeric
    ensures forall w | w in Values(scale) :: |w| > 0 && 'А' <= w[0] <= 'Я'
  {
    VerbalScalesAreCentredWindows(scale);
    var long := Values(Long);
    forall k | 0 <= k < 7 ensures |long[k]| > 0 && 'А' <= long[k][0] <= 'Я' {
    }
    forall w | w in Values(scale) ensures |w| > 0 && 'А' <= w[0] <= 'Я' {
      var k :| 0 <= k < |Values(scale)| && Values(scale)[k] == w;
      assert w == long[k + Margin(scale)];
    }
  }

  /** The choices a criterion's select should offer: the ratings of its scale, in
      order from lowest to highest. */
  function ScaleAnswerChoices(c: Criterion): (r: seq<string>)
    ensures |r| == Cardinality(c.scaleType)
    ensures forall v | v in r :: IndexOfValue(c.scaleType, v).Some?
    ensures forall k | 0 <= k < |r| :: IndexOfValue(c.scaleType, r[k]) == Some(k)
  {
    ValuesDistinct(c.scaleType);
    Values(c.scaleType)
  }

  /** The activation request: the team and question of the route. */
  datatype ActivateRequest = ActivateRequest(teamId: string, questionId: string)

  /** The state of the page. */
  class PreviewPage {
    /** The route parameters ("" when absent) and the signed-in user's e-mail. */
    const teamId: string
    const questionId: string
    const user: Option<string>
    var question: Option<Question>
    var answers: Answers
    var errorMessage: string
    var showError: bool
    var successMessage: string
    var showSuccess: bool

    constructor (teamId: string, questionId: string, user: Option<string>)
      ensures this.teamId == teamId && this.questionId == questionId && this.user == user
      ensures question == None && answers == map[]
      ensures errorMessage == "" && !showError && successMessage == "" && !showSuccess
    {
      this.teamId, this.questionId, this.user := teamId, questionId, user;
      question, answers := None, map[];
      errorMessage, showError, successMessage, showSuccess := "", false, "", false;
    }

    /** The load effect, given the outcome of fetching the question. Without both
        route parameters nothing is fetched. A fetched question is stored with its
        initial answer matrix; a failure shows the server's message or the default. */
    method Load(outcome: Outcome<Question>)
      modifies this`question, this`answers, this`errorMessage, this`showError
      ensures teamId == "" || questionId == "" ==>
        question == old(question) && answers == old(answers) && errorMessage == old(errorMessage) && showError == old(showError)
      ensures teamId != "" && questionId != "" && outcome.Success? ==>
        question == Some(outcome.value) && IsInitialAnswers(answers, outcome.value)
        && errorMessage == old(errorMessage) && showError == old(showError)
      ensures teamId != "" && questionId != "" && outcome.Failure? ==>
        question == old(question) && answers == old(answers)
        && errorMessage == OrDefault(outcome.serverMessage, LoadFailedMessage) && showError
    {
      if teamId == "" || questionId == "" {
        return;
      }
      match outcome
      case Success(q) =>
        question := Some(q);
        answers := InitialAnswers(q);
      case Failure(message) =>
        errorMessage := OrDefault(message, LoadFailedMessage);
        showError := true;
    }

    method ChangeAnswer(altIndex: int, criterionName: string, value: string)
      modifies this`answers
      ensures answers == AnswerChange(old(answers), altIndex, criterionName, value)
    {
      answers := AnswerChange(answers, altIndex, criterionName, value);
    }

    /** `handleActivateQuestion`, given the outcome of the activation call (its
        success carries the server's message, "" when absent). Without both route
        parameters nothing is sent and nothing happens; otherwise the request for the
        route's team and question is sent (returned here). Success shows the message
        and makes a loaded question active, keeping its other fields; failure shows
        an error and keeps the question. */
    method Activate(outcome: Outcome<string>) returns (request: Option<ActivateRequest>)
      modifies this`question, this`successMessage, this`showSuccess, this`errorMessage, this`showError
      ensures request.None? <==> teamId == "" || questionId == ""
      ensures request.Some? ==> request.value == ActivateRequest(teamId, questionId)
      ensures teamId == "" || questionId == "" ==>
        question == old(question) && successMessage == old(successMessage) && showSuccess == old(showSuccess)
        && errorMessage == old(errorMessage) && showError == old(showError)
      ensures teamId != "" && questionId != "" && outcome.Success? ==>
        question == WithStatus(old(question), Active)
        && successMessage == OrDefault(outcome.value, ActivatedMessage) && showSuccess
        && errorMessage == old(errorMessage) && showError == old(showError)
      ensures teamId != "" && questionId != "" && outcome.Failure? ==>
        question == old(question) && successMessage == old(successMessage) && showSuccess == old(showSuccess)
        && errorMessage == OrDefault(outcome.serverMessage, ActivateFailedMessage) && showError
    {
      if teamId == "" || questionId == "" {
        return None;
      }
      request := Some(ActivateRequest(teamId, questionId));
      match outcome
      case Success(message) =>
        successMessage := OrDefault(message, ActivatedMessage);
        showSuccess := true;
        question := WithStatus(question, Active);
      case Failure(message) =>
        errorMessage := OrDefault(message, ActivateFailedMessage);
        showError := true;
    }
  }

  /** After a successful activation the page shows the active-question controls
      and no longer offers activation. */
  lemma ActivatedControls(user: Option<string>, q: Question)
    ensures var a := WithStatus(Some(q), Active).value;
      !VisibleControls(user, a).activate && VisibleControls(user, a).submitAnswer && !SelectsDisabled(a)
  {
  }
}
