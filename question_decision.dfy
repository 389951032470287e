/**
 * The decision page of a question (src/components/content/question/QuestionDecisionView.tsx):
 * loading the question and its ranking, the author's choice of the final
 * alternative, and how the recorded decision is looked up and shown.
 */
module QuestionDecision {
  import opened Wrappers
  import opened Seqs
  import opened QuestionTypes

  const LoadFailedMessage: string := "Не удалось загрузить данные. Возврат на страницу команд..."
  const ChooseAlternativeMessage: string := "Выберите вариант решения"
  const ResolvedMessage: string := "Вопрос успешно решён"
  const ResolveFailedMessage: string := "Не удалось завершить вопрос"

  /** One entry of the server's ranking (its floating-point weight is not modelled). */
  datatype RankedAlternative = RankedAlternative(alternative: Alternative, rank: int)

  /** What the three parallel loads deliver together. */
  datatype Loaded = Loaded(question: Question, ranked: seq<RankedAlternative>)

  datatype Severity = SuccessSeverity | ErrorSeverity

  /** The decision panel: only for the author, only while the question awaits a decision. */
  predicate DecisionPanelVisible(user: Option<string>, q: Question) {
    q.status == AwaitingDecision && IsCreator(user, q)
  }

  /** The "decision taken" panel: a resolved question with a known final alternative. */
  predicate FinalPanelVisible(q: Question, finalDecisionId: Option<int>) {
    q.status == Resolved && finalDecisionId.Some?
  }

  /** The decision id read on load: `selectedAlternative?.id ?? null`. */
  function ResolvedDecisionId(q: Question): (r: Option<int>)
    ensures r.Some? <==> q.selectedAlternative.Some?
    ensures r.Some? ==> r.value == q.selectedAlternative.value.id
  {
    match q.selectedAlternative
    case None => None
    case Some(a) => Some(a.id)
  }

  /** `ranked.find(r => r.alternative.id === id)`, as the position found. */
  function FindAlternative(ranked: seq<RankedAlternative>, id: int): (r: Option<nat>)
    ensures r.Some? ==> r.value < |ranked| && ranked[r.value].alternative.id == id
    ensures r.Some? ==> forall k | 0 <= k < r.value :: ranked[k].alternative.id != id
    ensures r.None? <==> forall k | 0 <= k < |ranked| :: ranked[k].alternative.id != id
  {
    FindFirst(ranked, (e: RankedAlternative) => e.alternative.id == id)
  }

  /** The text of the decision panel: the value of the first ranked entry with the
      final id, or nothing. */
  function DisplayedDecision(ranked: seq<RankedAlternative>, finalDecisionId: Option<int>): (r: Option<string>)
    ensures finalDecisionId.None? ==> r.None?
    ensures r.Some? ==> exists k | 0 <= k < |ranked| ::
      && ranked[k].alternative.id == finalDecisionId.value
      && ranked[k].alternative.value == r.value
      && forall j | 0 <= j < k :: ranked[j].alternative.id != finalDecisionId.value
    ensures finalDecisionId.Some? && (exists k | 0 <= k < |ranked| :: ranked[k].alternative.id == finalDecisionId.value) ==> r.Some?
  {
    match finalDecisionId
    case None => None
    case Some(id) =>
      match FindAlternative(ranked, id)
      case None => None
      case Some(k) => Some(ranked[k].alternative.value)
  }

  /** With distinct ids in the ranking, the decision shown is the one alternative
      carrying the final id. */
  lemma DisplayedDecisionUnique(ranked: seq<RankedAlternative>, k: nat)
    requires k < |ranked|
    requires forall i, j | 0 <= i < j < |ranked| :: ranked[i].alternative.id != ranked[j].alternative.id
    ensures DisplayedDecision(ranked, Some(ranked[k].alternative.id)) == Some(ranked[k].alternative.value)
  {
    var f := FindAlternative(ranked, ranked[k].alternative.id);
    assert f.Some?;
  }

  /** The state of the page. */
  class DecisionPage {
    /** The route parameter ("" when absent) and the signed-in user's e-mail. */
    const questionId: string
    const user: Option<string>
    var question: Option<Question>
    var ranked: seq<RankedAlternative>
    var selectedAltId: Option<int>
    var finalDecisionId: Option<int>
    var loading: bool
    var error: Option<string>
    var showErrorSnackbar: bool
    var snackbarOpen: bool
    var snackbarMessage: string
    var snackbarSeverity: Severity

    constructor (questionId: string, user: Option<string>)
      ensures this.questionId == questionId && this.user == user
      ensures question == None && ranked == [] && selectedAltId == None && finalDecisionId == None
      ensures loading && error == None && !showErrorSnackbar
      ensures !snackbarOpen && snackbarMessage == "" && snackbarSeverity == SuccessSeverity
    {
      this.questionId, this.user := questionId, user;
      question, ranked, selectedAltId, finalDecisionId := None, [], None, None;
      loading, error, showErrorSnackbar := true, None, false;
      snackbarOpen, snackbarMessage, snackbarSeverity := false, "", SuccessSeverity;
    }

    /** `loadData`, given the outcome of the three loads. Without a question id
        nothing happens. On success the question and ranking are stored, and for a
        resolved question the final decision is read from it; on failure the load
        error is shown. Either way loading ends. */
    method Load(outcome: Outcome<Loaded>)
      modifies this`question, this`ranked, this`finalDecisionId, this`loading, this`error, this`showErrorSnackbar
      ensures questionId == "" ==>
        question == old(question) && ranked == old(ranked) && finalDecisionId == old(finalDecisionId)
        && loading == old(loading) && error == old(error) && showErrorSnackbar == old(showErrorSnackbar)
      ensures questionId != "" ==> !loading
      ensures questionId != "" && outcome.Success? ==>
        question == Some(outcome.value.question) && ranked == outcome.value.ranked
        && finalDecisionId == (if outcome.value.question.status == Resolved then ResolvedDecisionId(outcome.value.question) else old(finalDecisionId))
        && error == old(error) && showErrorSnackbar == old(showErrorSnackbar)
      ensures questionId != "" && outcome.Failure? ==>
        question == old(question) && ranked == old(ranked) && finalDecisionId == old(finalDecisionId)
        && error == Some(LoadFailedMessage) && showErrorSnackbar
    {
      if questionId == "" {
        return;
      }
      match outcome {
        case Success(data) =>
          question := Some(data.question);
          ranked := data.ranked;
          if data.question.status == Resolved {
            finalDecisionId := ResolvedDecisionId(data.question);
          }
        case Failure(_) =>
          error := Some(LoadFailedMessage);
          showErrorSnackbar := true;
      }
      loading := false;
    }

    /** The radio group's change handler. */
    method Select(altId: int)
      modifies this`selectedAltId
      ensures selectedAltId == Some(altId)
    {
      selectedAltId := Some(altId);
    }

    /** `handleDecision`, given whether the resolve call succeeds; returns the
        alternative id sent to the server, if any. No selection (or the id 0) only
        shows an error. Otherwise success records the decision and resolves the
        question, keeping its other fields; failure keeps both and shows an error. */
    method Decide(resolveSucceeds: bool) returns (sent: Option<int>)
      modifies this`finalDecisionId, this`question, this`snackbarOpen, this`snackbarMessage, this`snackbarSeverity
      ensures sent.None? <==> selectedAltId.None? || selectedAltId == Some(0)
      ensures sent.Some? ==> sent == selectedAltId
      ensures snackbarOpen
      ensures sent.None? ==>
        question == old(question) && finalDecisionId == old(finalDecisionId)
        && snackbarMessage == ChooseAlternativeMessage && snackbarSeverity == ErrorSeverity
      ensures sent.Some? && resolveSucceeds ==>
        finalDecisionId == sent && question == WithStatus(old(question), Resolved)
        && snackbarMessage == ResolvedMessage && snackbarSeverity == SuccessSeverity
      ensures sent.Some? && !resolveSucceeds ==>
        question == old(question) && finalDecisionId == old(finalDecisionId)
        && snackbarMessage == ResolveFailedMessage && snackbarSeverity == ErrorSeverity
    {
      if selectedAltId.None? || selectedAltId.value == 0 {
        snackbarMessage := ChooseAlternativeMessage;
        snackbarSeverity := ErrorSeverity;
        snackbarOpen := true;
        return None;
      }
      sent := selectedAltId;
      if resolveSucceeds {
        finalDecisionId := selectedAltId;
        question := WithStatus(question, Resolved);
        snackbarMessage := ResolvedMessage;
        snackbarSeverity := SuccessSeverity;
        snackbarOpen := true;
      } else {
        snackbarMessage := ResolveFailedMessage;
        snackbarSeverity := ErrorSeverity;
        snackbarOpen := true;
      }
    }
  }

  /** After a successful decision the decision panel closes and the final panel
      opens, showing the chosen alternative when the ranking lists it. */
  lemma ResolvedQuestionShowsDecision(user: Option<string>, q: Question, ranked: seq<RankedAlternative>, altId: int)
    requires DecisionPanelVisible(user, q)
    ensures var r := WithStatus(Some(q), Resolved).value;
      && !DecisionPanelVisible(user, r)
      && FinalPanelVisible(r, Some(altId))
      && ((exists k | 0 <= k < |ranked| :: ranked[k].alternative.id == altId) ==> DisplayedDecision(ranked, Some(altId)).Some?)
  {
  }
}
