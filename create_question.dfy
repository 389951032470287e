/**
 * The question-creation form (src/components/content/question/CreateQuestion.tsx):
 * the editors of the alternatives and criteria lists, the save-time validation
 * and the create request it produces.
 */
module CreateQuestion {
  import opened Wrappers
  import opened Text
  import opened Seqs
  import opened QuestionTypes

  /** An entry of the scale-type selector. */
  datatype ScaleOption = ScaleOption(caption: string, value: ScaleType)

  /** `scaleOptions`, in the order the selector shows them. */
  const ScaleOptions: seq<ScaleOption> := [
    ScaleOption("Extended", Long),
    ScaleOption("Standard", Base),
    ScaleOption("Compact", Short),
    ScaleOption("Numeric", Numeric)]

  /** The values of the scale-type selector, in order. */
  function ScaleOptionValues(): (r: seq<ScaleType>)
    ensures |r| == |ScaleOptions|
    ensures forall k :: 0 <= k < |r| ==> r[k] == ScaleOptions[k].value
  {
    seq(|ScaleOptions|, k requires 0 <= k < |ScaleOptions| => ScaleOptions[k].value)
  }

  /** The selector offers every scale type exactly once. */
  lemma ScaleOptionsAreScaleTypes()
    ensures forall t: ScaleType :: t in ScaleOptionValues()
    ensures Distinct(ScaleOptionValues())
  {
    var vs := ScaleOptionValues();
    assert vs == [Long, Base, Short, Numeric];
    forall t: ScaleType ensures t in vs {
      match t
      case Long => assert vs[0] == t;
      case Base => assert vs[1] == t;
      case Short => assert vs[2] == t;
      case Numeric => assert vs[3] == t;
    }
  }

  /** The criterion the form starts with and appends on "add". */
  const DefaultCriterion: Criterion := Criterion("", Base, Max)

  // ---- alternatives list editors ----

  /** `addAlternative`: one empty alternative appended, the others untouched. */
  function AddAlternative(alternatives: seq<string>): (r: seq<string>)
    ensures |r| == |alternatives| + 1
    ensures r[..|alternatives|] == alternatives && r[|alternatives|] == ""
  {
    alternatives + [""]
  }

  /** `removeAlternative(index)`: the alternative at an in-range index removed, the rest
      kept in order; an out-of-range index changes nothing. */
  function RemoveAlternative(alternatives: seq<string>, index: int): (r: seq<string>)
    ensures 0 <= index < |alternatives| ==> r == alternatives[..index] + alternatives[index + 1..]
    ensures !(0 <= index < |alternatives|) ==> r == alternatives
  {
    DropIndexSpec(alternatives, index);
    DropIndex(alternatives, index)
  }

  /** `updateAlternative(index, value)`: same length, only position `index` changes. */
  function UpdateAlternative(alternatives: seq<string>, index: int, value: string): (r: seq<string>)
    ensures |r| == |alternatives|
    ensures forall k :: 0 <= k < |r| && k != index ==> r[k] == alternatives[k]
    ensures 0 <= index < |r| ==> r[index] == value
  {
    MapAtSpec(alternatives, index, alt => value);
    MapAt(alternatives, index, alt => value)
  }

  // ---- criteria list editors ----

  /** The field of a criterion an edit sets, with its new value. */
  datatype CriterionEdit = SetName(name: string) | SetScaleType(scaleType: ScaleType) | SetOptimization(optimization: Optimization)

  /** `{...c, [key]: value}`: the edited field takes the new value, the other two keep theirs. */
  function ApplyEdit(c: Criterion, edit: CriterionEdit): (r: Criterion)
    ensures r.name == (if edit.SetName? then edit.name else c.name)
    ensures r.scaleType == (if edit.SetScaleType? then edit.scaleType else c.scaleType)
    ensures r.optimization == (if edit.SetOptimization? then edit.optimization else c.optimization)
  {
    match edit
    case SetName(n) => c.(name := n)
    case SetScaleType(t) => c.(scaleType := t)
    case SetOptimization(o) => c.(optimization := o)
  }

  /** `addCriterion`: one default criterion appended, the others untouched. */
  function AddCriterion(criteria: seq<Criterion>): (r: seq<Criterion>)
    ensures |r| == |criteria| + 1
    ensures r[..|criteria|] == criteria && r[|criteria|] == Criterion("", Base, Max)
  {
    criteria + [DefaultCriterion]
  }

  /** `removeCriterion(index)`: as `RemoveAlternative`, on the criteria list. */
  function RemoveCriterion(criteria: seq<Criterion>, index: int): (r: seq<Criterion>)
    ensures 0 <= index < |criteria| ==> r == criteria[..index] + criteria[index + 1..]
    ensures !(0 <= index < |criteria|) ==> r == criteria
  {
    DropIndexSpec(criteria, index);
    DropIndex(criteria, index)
  }

  /** `updateCriterion(index, key, value)`: only the chosen field of criterion `index` changes. */
  function UpdateCriterion(criteria: seq<Criterion>, index: int, edit: CriterionEdit): (r: seq<Criterion>)
    ensures |r| == |criteria|
    ensures forall k :: 0 <= k < |r| && k != index ==> r[k] == criteria[k]
    ensures 0 <= index < |r| ==> r[index] == ApplyEdit(criteria[index], edit)
  {
    MapAtSpec(criteria, index, c => ApplyEdit(c, edit));
    MapAt(criteria, index, c => ApplyEdit(c, edit))
  }

  // ---- validation and the create request ----

  /** `a.trim() !== ''` */
  predicate NonBlank(s: string) {
    !IsBlank(s)
  }

  /** `c.name.trim() !== ''` */
  predicate Named(c: Criterion) {
    !IsBlank(c.name)
  }

  /** The three error flags the form highlights. */
  datatype FieldErrors = FieldErrors(title: bool, alternatives: bool, criteria: bool)
  {
    predicate Any() {
      title || alternatives || criteria
    }
  }

  /** The flags `handleSave` sets, from the title and the filtered lists. */
  function Validate(title: string, alternatives: seq<string>, criteria: seq<Criterion>): FieldErrors
  {
    FieldErrors(IsBlank(title), |Filter(alternatives, NonBlank)| == 0, |Filter(criteria, Named)| == 0)
  }

  /** No element of `s` passes `keep` exactly when filtering leaves nothing. */
  lemma FilterEmptyIff<T>(s: seq<T>, keep: T -> bool)
    ensures |Filter(s, keep)| == 0 <==> forall k :: 0 <= k < |s| ==> !keep(s[k])
  {
    FilterMembers(s, keep);
    if |Filter(s, keep)| != 0 {
      assert Filter(s, keep)[0] in s;
    }
  }

  /** Each flag holds exactly when its own field is unusable: the title is all
      whitespace, every alternative is, or every criterion name is; the save is
      refused exactly when one of them holds. */
  lemma ValidateMeaning(title: string, alternatives: seq<string>, criteria: seq<Criterion>)
    ensures Validate(title, alternatives, criteria).title <==> AllWhitespace(title)
    ensures Validate(title, alternatives, criteria).alternatives <==> forall k :: 0 <= k < |alternatives| ==> AllWhitespace(alternatives[k])
    ensures Validate(title, alternatives, criteria).criteria <==> forall k :: 0 <= k < |criteria| ==> AllWhitespace(criteria[k].name)
  {
    BlankIffAllWhitespace(title);
    FilterEmptyIff(alternatives, NonBlank);
    FilterEmptyIff(criteria, Named);
    forall k | 0 <= k < |alternatives| ensures NonBlank(alternatives[k]) <==> !AllWhitespace(alternatives[k]) {
      BlankIffAllWhitespace(alternatives[k]);
    }
    forall k | 0 <= k < |criteria| ensures Named(criteria[k]) <==> !AllWhitespace(criteria[k].name) {
      BlankIffAllWhitespace(criteria[k].name);
    }
  }

  /** The body of `questionApi.createQuestion`. */
  datatype CreateQuestionRequest = CreateQuestionRequest(
    teamId: int,
    title: string,
    description: Option<string>,
    alternatives: seq<string>,
    criteria: seq<Criterion>)

  /** The request built from a form that passed validation. */
  function BuildRequest(teamId: int, title: string, description: string, alternatives: seq<string>, criteria: seq<Criterion>): CreateQuestionRequest
  {
    CreateQuestionRequest(
      teamId,
      Trim(title),
      if IsBlank(description) then None else Some(Trim(description)),
      Filter(alternatives, NonBlank),
      Filter(criteria, Named))
  }

  /** The shape of the request: the title trimmed; the description trimmed, or
      absent when blank; the non-blank alternatives and the named criteria, each
      kept as typed (untrimmed) with every occurrence, and in the form's order
      (`Seqs.FilterConcat`). */
  lemma RequestShape(teamId: int, title: string, description: string, alternatives: seq<string>, criteria: seq<Criterion>)
    ensures var r := BuildRequest(teamId, title, description, alternatives, criteria);
      && r.teamId == teamId && r.title == Trim(title)
      && r.description == (if AllWhitespace(description) then None else Some(Trim(description)))
      && (forall a :: multiset(r.alternatives)[a] == if AllWhitespace(a) then 0 else multiset(alternatives)[a])
      && (forall c :: multiset(r.criteria)[c] == if AllWhitespace(c.name) then 0 else multiset(criteria)[c])
  {
    BlankIffAllWhitespace(description);
    forall a ensures multiset(Filter(alternatives, NonBlank))[a] == if AllWhitespace(a) then 0 else multiset(alternatives)[a] {
      FilterMultiplicity(alternatives, NonBlank, a);
      BlankIffAllWhitespace(a);
    }
    forall c ensures multiset(Filter(criteria, Named))[c] == if AllWhitespace(c.name) then 0 else multiset(criteria)[c] {
      FilterMultiplicity(criteria, Named, c);
      BlankIffAllWhitespace(c.name);
    }
  }

  /** The state of the form. Each input's change handler below sets one field; the
      list handlers apply the editor functions above to the current list. */
  class QuestionForm {
    const teamId: int
    var title: string
    var description: string
    var alternatives: seq<string>
    var criteria: seq<Criterion>
    var errors: FieldErrors
    var showError: bool
    var successSnackbarOpen: bool

    /** The form as first shown: one empty alternative and one default criterion. */
    constructor (teamId: int)
      ensures this.teamId == teamId && title == "" && description == ""
      ensures alternatives == [""] && criteria == [Criterion("", Base, Max)]
      ensures errors == FieldErrors(false, false, false)
      ensures !showError && !successSnackbarOpen
    {
      this.teamId := teamId;
      title, description := "", "";
      alternatives := [""];
      criteria := [DefaultCriterion];
      errors := FieldErrors(false, false, false);
      showError, successSnackbarOpen := false, false;
    }

    /** The title input's change handler. */
    method SetTitle(value: string)
      modifies this`title
      ensures title == value
    {
      title := value;
    }

    /** The description input's change handler. */
    method SetDescription(value: string)
      modifies this`description
      ensures description == value
    {
      description := value;
    }

    /** `addAlternative`, the add button of the alternatives list. */
    method AppendAlternative()
      modifies this`alternatives
      ensures alternatives == AddAlternative(old(alternatives))
    {
      alternatives := AddAlternative(alternatives);
    }

    /** `removeAlternative(idx)`, an alternative's delete button. */
    method DeleteAlternative(index: int)
      modifies this`alternatives
      ensures alternatives == RemoveAlternative(old(alternatives), index)
    {
      alternatives := RemoveAlternative(alternatives, index);
    }

    /** `updateAlternative(idx, value)`, an alternative's text field. */
    method EditAlternative(index: int, value: string)
      modifies this`alternatives
      ensures alternatives == UpdateAlternative(old(alternatives), index, value)
    {
      alternatives := UpdateAlternative(alternatives, index, value);
    }

    /** `addCriterion`, the add button of the criteria list. */
    method AppendCriterion()
      modifies this`criteria
      ensures criteria == AddCriterion(old(criteria))
    {
      criteria := AddCriterion(criteria);
    }

    /** `removeCriterion(idx)`, a criterion's delete button. */
    method DeleteCriterion(index: int)
      modifies this`criteria
      ensures criteria == RemoveCriterion(old(criteria), index)
    {
      criteria := RemoveCriterion(criteria, index);
    }

    /** `updateCriterion(idx, key, value)`, a criterion's name field or one of its
        two selects. */
    method EditCriterion(index: int, edit: CriterionEdit)
      modifies this`criteria
      ensures criteria == UpdateCriterion(old(criteria), index, edit)
    {
      criteria := UpdateCriterion(criteria, index, edit);
    }

    /** `handleSave`. The error flags are always recomputed; if any is set the error
        banner opens and no request is sent. Otherwise the create request is sent
        (returned here) and, when the server accepts it, the success banner opens. */
    method Save(createSucceeds: bool) returns (request: Option<CreateQuestionRequest>)
      modifies this`errors, this`showError, this`successSnackbarOpen
      ensures errors == Validate(title, alternatives, criteria)
      ensures request == if errors.Any() then None else Some(BuildRequest(teamId, title, description, alternatives, criteria))
      ensures showError == (old(showError) || errors.Any())
      ensures successSnackbarOpen == (old(successSnackbarOpen) || (request.Some? && createSucceeds))
    {
      var trimmedTitle := Trim(title);
      var validAlternatives := Filter(alternatives, NonBlank);
      var validCriteria := Filter(criteria, Named);
      var hasErrors := trimmedTitle == "" || |validAlternatives| == 0 || |validCriteria| == 0;
      errors := FieldErrors(trimmedTitle == "", |validAlternatives| == 0, |validCriteria| == 0);
      if hasErrors {
        showError := true;
        return None;
      }
      var trimmedDescription := Trim(description);
      request := Some(CreateQuestionRequest(
        teamId,
        trimmedTitle,
        if trimmedDescription == "" then None else Some(trimmedDescription),
        validAlternatives,
        validCriteria));
      if createSucceeds {
        successSnackbarOpen := true;
      }
    }
  }
}
