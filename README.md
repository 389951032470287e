# MCDA system client rules in Dafny

This project models the client-side rules of a multi-criteria decision
system's web front end. In that system a team creates a question, with
alternatives and criteria rated on ordinal scales. Experts answer it, the
server ranks the alternatives by TOPSIS, and the question's author records
the final decision. The ranking is computed on the server, so the client only
holds small sequential rules. The model covers these:

- **Question drafts** (`CreateQuestion`): the editors of the alternatives and
  criteria lists, the criterion defaults, the save-time validation and the
  create request it builds.
- **Team invitations** (`CreateTeam`): the e-mail syntax check and the list of
  invited addresses, with its add, delete and submit rules.
- **Rating scales** (`Rating`): the four scales with their ordered labels and
  values.
- **Question preview** (`QuestionPreview`): the answer matrix, a single-cell
  answer update, draft activation, and the controls each status shows.
- **Decision page** (`QuestionDecision`): the final decision, and how it is
  looked up and shown.
- **Team page** (`TeamView`): the participant list, and which question list a
  tab shows.
- **Side menu** (`SideMenu`): which entry is highlighted.
- **Invitations page** (`Invitations`): status labels and the response toast.

Support modules:

- `Wrappers`: `Option`, and `Outcome`, the result of a server call.
- `Text`: JavaScript's whitespace set and `trim`, and decimal `toString`.
- `Seqs`: `filter`, index removal, index update and `find`, each with its properties.
- `QuestionTypes`: the shared question shapes.

Stateful React components become classes: `CreateQuestion.QuestionForm`,
`CreateTeam.TeamForm`, `QuestionPreview.PreviewPage`,
`QuestionDecision.DecisionPage`, `TeamView.TeamPage` and
`Invitations.InvitationsPage`. Their `useState` variables are fields, and each
event handler the model covers is a method whose `modifies` clause names the
state it sets. Where a handler computes the new value of a field from the old
one (the question form's list editors, a single answer change), that
computation is a pure function, and the method assigns its result. Pure helpers
become functions, and their properties are lemmas.
A server call is never made: its outcome is a parameter of the handler that
awaits it. `Success` carries the response data and `Failure` the server's
message, where "" stands for an absent one. The handlers that send a request
(`QuestionForm.Save`, `TeamForm.Submit`, `PreviewPage.Activate`,
`DecisionPage.Decide` and `InvitationsPage.RespondToInvite`) return the request
they send; the fetches of the load effects are represented only by their outcome.

The same whitespace set (ECMAScript's WhiteSpace and LineTerminator productions) serves both
`String.prototype.trim` and the regular-expression class `\s`. The e-mail
regular expression becomes a predicate that decomposes the string explicitly.
`CreateTeam.ValidEmailIff` proves that predicate equal to a character-level
description.

The scale hint in src/components/content/question/CreateQuestion.tsx:40
describes the numeric scale as running from 0 to 10. The table in
src/types/Rating.ts:28-31 runs from 1 to 10. The model follows the table, and
`Rating.NumericOptions` proves that "0" is not a numeric value.

## Model

| member | source | states |
|---|---|---|
| `Text.IsWhitespace` | src/components/content/team/CreateTeam.tsx:22 | definition of the whitespace set of `\s` and `trim`: U+0009-000D, U+0020, U+00A0, U+1680, U+2000-200A, U+2028, U+2029, U+202F, U+205F, U+3000 and U+FEFF (ECMAScript WhiteSpace and LineTerminator) |
| `Text.Trim` | src/components/content/team/CreateTeam.tsx:25 | definition of `String.prototype.trim`: strip the whitespace at the start, then at the end; its meaning is stated by the next three rows |
| `Text.TrimStartSpec` | src/components/content/team/CreateTeam.tsx:25 | trimming the start leaves a suffix; everything removed is whitespace, and the result does not start with whitespace |
| `Text.TrimEndSpec` | src/components/content/team/CreateTeam.tsx:25 | trimming the end leaves a prefix; everything removed is whitespace, and the result does not end with whitespace |
| `Text.TrimIsSlice` | src/components/content/question/CreateQuestion.tsx:95 | `trim` returns a contiguous slice of its input; whitespace surrounds it on both sides, and a non-empty result begins and ends with a non-whitespace character |
| `Text.BlankIffAllWhitespace` | src/components/content/question/CreateQuestion.tsx:96-97 | a string trims to "" exactly when every character is whitespace |
| `Text.TrimNoWhitespace` | src/components/content/team/CreateTeam.tsx:25 | a string with no whitespace is its own trim |
| `Text.TrimIdempotent` | src/components/content/team/CreateTeam.tsx:25-38 | trimming a trimmed string changes nothing |
| `Text.DigitChar` | src/types/Rating.ts:28-31 | a digit below ten maps to a character from '0' to '9' |
| `Text.DigitValue` | src/types/Rating.ts:28-31 | a digit character's value is below ten and maps back to the same character |
| `Text.NatToDecimal` | src/types/Rating.ts:28-31 | `toString` of a natural number is a non-empty digit string without a leading zero |
| `Text.DecimalRoundTrip` | src/types/Rating.ts:28-31 | parsing the decimal string of n gives back n |
| `Text.DecimalInjective` | src/types/Rating.ts:28-31 | different numbers have different decimal strings |
| `Seqs.FilterMembers` | src/components/content/question/CreateQuestion.tsx:96-97 | after `filter`, the list is no longer, and every element is an element of the input that passes; every element that passes is kept |
| `Seqs.FilterConcat` | src/components/content/question/CreateQuestion.tsx:96-97 | filtering distributes over concatenation, so the order of the kept elements is preserved |
| `Seqs.FilterMultiplicity` | src/components/content/team/CreateTeam.tsx:52 | after `filter`, every element that passes occurs as often as in the input, and every other element does not occur |
| `Seqs.FilterKeepsAll` | src/components/content/team/CreateTeam.tsx:52 | a filter that every element passes returns its input |
| `Seqs.FilterDistinct` | src/components/content/team/CreateTeam.tsx:52 | filtering a list without repetitions gives a list without repetitions |
| `Seqs.DropIndexSpec` | src/components/content/question/CreateQuestion.tsx:82-83 | `filter((_, i) => i !== index)` removes exactly the element at an in-range index and keeps the rest in order; an out-of-range index changes nothing |
| `Seqs.MapAtSpec` | src/components/content/question/CreateQuestion.tsx:84-85 | `map((x, i) => i === index ? f(x) : x)` replaces only the element at an in-range index; an out-of-range index changes nothing |
| `Seqs.FindFirst` | src/components/content/question/QuestionDecisionView.tsx:215 | `find`: the position of the first element satisfying the predicate, with no earlier element satisfying it; nothing exactly when no element does |
| `CreateQuestion.ScaleOptionValues` | src/components/content/question/CreateQuestion.tsx:28-33 | definition: the selector's values in the order shown (LONG, BASE, SHORT, NUMERIC); its properties are in `ScaleOptionsAreScaleTypes` |
| `CreateQuestion.ScaleOptionsAreScaleTypes` | src/components/content/question/CreateQuestion.tsx:28-33 | the scale selector offers every scale type, each once |
| `CreateQuestion.AddAlternative` | src/components/content/question/CreateQuestion.tsx:81 | appends exactly one empty alternative, with every existing entry unchanged |
| `CreateQuestion.RemoveAlternative` | src/components/content/question/CreateQuestion.tsx:82-83 | removes exactly the alternative at an in-range index; an out-of-range index changes nothing |
| `CreateQuestion.UpdateAlternative` | src/components/content/question/CreateQuestion.tsx:84-85 | keeps the length and changes only the alternative at the index |
| `CreateQuestion.ApplyEdit` | src/components/content/question/CreateQuestion.tsx:91-92 | a criterion edit changes the one field it names, and keeps the other two |
| `CreateQuestion.AddCriterion` | src/components/content/question/CreateQuestion.tsx:87-88 | appends exactly one criterion with an empty name, the BASE scale and MAX, with the others unchanged |
| `CreateQuestion.RemoveCriterion` | src/components/content/question/CreateQuestion.tsx:89-90 | removes exactly the criterion at an in-range index; an out-of-range index changes nothing |
| `CreateQuestion.UpdateCriterion` | src/components/content/question/CreateQuestion.tsx:91-92 | keeps the length, and changes only the named field of the criterion at the index |
| `CreateQuestion.Validate` | src/components/content/question/CreateQuestion.tsx:95-105 | definition of the three error flags: the trimmed title is empty, no alternative is non-blank, no criterion has a non-blank name; `ValidateMeaning` states what they mean |
| `CreateQuestion.FilterEmptyIff` | src/components/content/question/CreateQuestion.tsx:99 | the filtered list is empty exactly when no element passes |
| `CreateQuestion.ValidateMeaning` | src/components/content/question/CreateQuestion.tsx:99-105 | each error flag holds exactly when its field is unusable: the title is all whitespace, or every alternative is, or every criterion name is |
| `CreateQuestion.BuildRequest` | src/components/content/question/CreateQuestion.tsx:112-122 | definition of the create request: team id, trimmed title, trimmed description or none, the filtered alternatives and criteria; `RequestShape` states its properties |
| `CreateQuestion.RequestShape` | src/components/content/question/CreateQuestion.tsx:112-122 | the request carries the trimmed title; the description is trimmed, or absent when it is all whitespace; alternatives and criteria are the non-blank ones, untrimmed, each as often as in the form |
| `CreateQuestion.QuestionForm.constructor` | src/components/content/question/CreateQuestion.tsx:49-64 | the form starts with one empty alternative, one default criterion, no error flags and no banners |
| `CreateQuestion.QuestionForm.SetTitle` | src/components/content/question/CreateQuestion.tsx:164 | the title input stores the typed text |
| `CreateQuestion.QuestionForm.SetDescription` | src/components/content/question/CreateQuestion.tsx:173 | the description input stores the typed text |
| `CreateQuestion.QuestionForm.AppendAlternative` | src/components/content/question/CreateQuestion.tsx:81 | the add button sets the alternatives to `AddAlternative` of the old list |
| `CreateQuestion.QuestionForm.DeleteAlternative` | src/components/content/question/CreateQuestion.tsx:82-83 | the delete button sets the alternatives to `RemoveAlternative` of the old list at that index |
| `CreateQuestion.QuestionForm.EditAlternative` | src/components/content/question/CreateQuestion.tsx:84-85 | an alternative's field sets the list to `UpdateAlternative` of the old list |
| `CreateQuestion.QuestionForm.AppendCriterion` | src/components/content/question/CreateQuestion.tsx:87-88 | the add button sets the criteria to `AddCriterion` of the old list |
| `CreateQuestion.QuestionForm.DeleteCriterion` | src/components/content/question/CreateQuestion.tsx:89-90 | the delete button sets the criteria to `RemoveCriterion` of the old list at that index |
| `CreateQuestion.QuestionForm.EditCriterion` | src/components/content/question/CreateQuestion.tsx:91-92 | a criterion's name field or select sets the list to `UpdateCriterion` of the old list |
| `CreateQuestion.QuestionForm.Save` | src/components/content/question/CreateQuestion.tsx:94-126 | the error flags are recomputed; a request is sent exactly when no flag is set, and it is the request `RequestShape` describes; the error banner opens on errors, and the success banner opens only after an accepted request |
| `CreateTeam.IsValidEmail` | src/components/content/team/CreateTeam.tsx:21-22 | definition of `/^[^\s@]+@[^\s@]+\.[^\s@]+$/`: a split into a non-empty local part, `@`, a non-empty domain part, `.`, and a non-empty ending, none holding whitespace or `@` |
| `CreateTeam.ValidEmailIff` | src/components/content/team/CreateTeam.tsx:21-22 | the regular expression accepts a string exactly when it has no whitespace, exactly one '@' with something before it, and after the '@' a '.' with a character on either side |
| `CreateTeam.ValidEmailIsTrimmed` | src/components/content/team/CreateTeam.tsx:21-26 | a valid address has no whitespace, is its own trim, and is not blank |
| `CreateTeam.TeamForm.constructor` | src/components/content/team/CreateTeam.tsx:16-19 | the form starts with an empty input, an empty list and no errors, and the list invariant holds |
| `CreateTeam.TeamForm.EditInput` | src/components/content/team/CreateTeam.tsx:93-96 | typing stores the text and clears the address error |
| `CreateTeam.TeamForm.AddEmail` | src/components/content/team/CreateTeam.tsx:24-42 | a blank input changes nothing; an invalid or duplicate address only sets its error message; otherwise the trimmed address is appended, and the input and both errors are cleared; the list stays duplicate-free, trimmed and valid |
| `CreateTeam.TeamForm.Delete` | src/components/content/team/CreateTeam.tsx:51-56 | every occurrence of the address goes, the other entries stay, and an absent address changes nothing; the list error is set when the old length was 1; the invariant is kept |
| `CreateTeam.TeamForm.Submit` | src/components/content/team/CreateTeam.tsx:58-67 | an empty list sets the list error and sends nothing; otherwise the request carries the name and the (valid, duplicate-free) list |
| `Rating.Options` | src/types/Rating.ts:6-32 | each scale's table has 7, 5, 3 or 10 options |
| `Rating.Values` | src/types/Rating.ts:6-32 | definition: a scale's values, one per option, in table order; its properties are in `ValuesDistinct` and `NumericOptions` |
| `Rating.NumericOptions` | src/types/Rating.ts:28-31 | the numeric values are "1" to "10" in ascending order; each label equals its value, option i parses to i+1, and "0" is absent |
| `Rating.VerbalScalesAreCentredWindows` | src/types/Rating.ts:7-27 | BASE is LONG without its two extremes, and SHORT is BASE without its two extremes |
| `Rating.ValuesDistinct` | src/types/Rating.ts:7-31 | within each scale the values are pairwise distinct |
| `Rating.SharedValueSameLabel` | src/types/Rating.ts:7-27 | a value that appears in two scales carries the same label in both |
| `Rating.IndexOfValue` | src/types/Rating.ts:6-32 | the value-to-index lookup gives the unique index of a value, and gives nothing exactly for values outside the scale |
| `Wrappers.OrDefault` | src/components/content/question/QuestionPreview.tsx:98 | `message or fallback` gives the message when it is non-empty, and the fallback otherwise |
| `QuestionTypes.WithStatus` | src/components/content/question/QuestionPreview.tsx:101 | a loaded question gets the new status, with every other field kept; no question stays no question |
| `QuestionTypes.IsCreator` | src/components/content/question/QuestionDecisionView.tsx:47 | definition of `isCreator` (and of `isAuthor`, QuestionPreview.tsx:125): a signed-in user whose e-mail address is the question author's |
| `QuestionPreview.InitialAnswers` | src/components/content/question/QuestionPreview.tsx:49-56 | the answer matrix has a row for each alternative index from 0 to n-1 and no other row; every row maps every criterion name to "" |
| `QuestionPreview.AnswerChange` | src/components/content/question/QuestionPreview.tsx:83-91 | definition of `handleAnswerChange`: the row of the alternative (empty when missing) with the criterion set to the value; `AnswerChangeSpec` states what changes and what is kept |
| `QuestionPreview.AnswerChangeSpec` | src/components/content/question/QuestionPreview.tsx:83-91 | sets the one cell and keeps the rest of its row and all other rows; a missing row is created holding only that cell |
| `QuestionPreview.AnswerChangeKeepsShape` | src/components/content/question/QuestionPreview.tsx:83-91 | changing an existing cell keeps the rows and their criterion names |
| `QuestionPreview.AnswerChangeLastWins` | src/components/content/question/QuestionPreview.tsx:83-91 | of two changes to the same cell, the later one wins |
| `QuestionPreview.AnswerChangesCommute` | src/components/content/question/QuestionPreview.tsx:83-91 | changes to two different cells commute |
| `QuestionPreview.IsDraft` | src/components/content/question/QuestionPreview.tsx:126 | definition of `isDraft`: the question's status is DRAFT |
| `QuestionPreview.IsActive` | src/components/content/question/QuestionPreview.tsx:127 | definition of `isActive`: the question's status is ACTIVE |
| `QuestionPreview.VisibleControls` | src/components/content/question/QuestionPreview.tsx:136-167 | definition, one clause per JSX gate: activation is shown exactly for a draft; answer submission exactly for an active question, and finishing only for its author as well; the menu and delete only for the author, and edit only for the author of a draft |
| `QuestionPreview.SelectsDisabled` | src/components/content/question/QuestionPreview.tsx:190 | definition of `disabled={isDraft}`: the answer selects are disabled exactly for a draft |
| `QuestionPreview.DraftAndActiveExclusive` | src/components/content/question/QuestionPreview.tsx:125-127 | a question is never both a draft and active, and the selects of an active question are enabled |
| `QuestionPreview.FixedChoicesMissScaleValues` | src/components/content/question/QuestionPreview.tsx:197-201 | the fixed choices are the numeric values 1 to 5: none is a value of a verbal scale, and 6 to 10 are never offered |
| `QuestionPreview.ScaleAnswerChoices` | src/components/content/question/QuestionPreview.tsx:197-201 | the corrected choices: one per rating of the criterion's scale, in order, each found at its own index by the lookup |
| `QuestionPreview.PreviewPage.constructor` | src/components/content/question/QuestionPreview.tsx:32-38 | the page starts with no question, no answers and no banners |
| `QuestionPreview.PreviewPage.Load` | src/components/content/question/QuestionPreview.tsx:42-65 | without both route ids nothing happens; a loaded question is stored with its initial matrix; a failure shows the server's message or the default |
| `QuestionPreview.PreviewPage.ChangeAnswer` | src/components/content/question/QuestionPreview.tsx:83-91 | the page's matrix becomes the `AnswerChange` of the old matrix |
| `QuestionPreview.PreviewPage.Activate` | src/components/content/question/QuestionPreview.tsx:93-108 | without both route ids nothing is sent and nothing happens; otherwise the activation request names the route's team and question; success shows the message and makes the question active, with all other fields kept; failure shows an error and keeps the question |
| `QuestionPreview.ActivatedControls` | src/components/content/question/QuestionPreview.tsx:125-152 | an activated question offers no activation, offers answer submission, and has enabled selects |
| `QuestionDecision.DecisionPanelVisible` | src/components/content/question/QuestionDecisionView.tsx:163 | definition: the decision panel shows exactly for a question awaiting a decision whose author is the signed-in user (`isCreator`, line 47) |
| `QuestionDecision.FinalPanelVisible` | src/components/content/question/QuestionDecisionView.tsx:200 | definition: the final-decision panel shows exactly for a resolved question with a known final id |
| `QuestionDecision.ResolvedDecisionId` | src/components/content/question/QuestionDecisionView.tsx:68 | the decision id is the id of the recorded alternative, or nothing |
| `QuestionDecision.FindAlternative` | src/components/content/question/QuestionDecisionView.tsx:215-216 | `find` gives the first ranked entry with the id, or reports that none has it |
| `QuestionDecision.DisplayedDecision` | src/components/content/question/QuestionDecisionView.tsx:200-217 | the panel shows the value of the FIRST ranked entry with the final id (as `find` returns it); it shows something whenever such an entry exists, and nothing without a final id |
| `QuestionDecision.DisplayedDecisionUnique` | src/components/content/question/QuestionDecisionView.tsx:215-216 | when ranking ids are distinct, the shown decision is the value of the one entry with that id |
| `QuestionDecision.DecisionPage.constructor` | src/components/content/question/QuestionDecisionView.tsx:31-45 | the page starts loading, with no question, no selection, no decision and no messages |
| `QuestionDecision.DecisionPage.Load` | src/components/content/question/QuestionDecisionView.tsx:49-81 | without a question id nothing happens; otherwise loading ends, and success stores the question and ranking, taking the decision from a resolved question only; failure shows the load error |
| `QuestionDecision.DecisionPage.Select` | src/components/content/question/QuestionDecisionView.tsx:171-173 | choosing a radio button records its alternative id |
| `QuestionDecision.DecisionPage.Decide` | src/components/content/question/QuestionDecisionView.tsx:83-107 | no selection (or the id 0) shows 'choose an alternative' and sends nothing; otherwise the selected id is sent, and success records it and resolves the question with other fields kept; failure keeps both and reports an error |
| `QuestionDecision.ResolvedQuestionShowsDecision` | src/components/content/question/QuestionDecisionView.tsx:163-200 | after resolving, the decision panel is hidden and the final panel is shown, naming the chosen alternative when the ranking lists it |
| `TeamView.MarkCreator` | src/components/content/team/Team.tsx:129-130 | each row keeps its expert, and `isCreator` holds exactly when the id is the creator's |
| `TeamView.Participants` | src/components/content/team/Team.tsx:126-130 | definition of the participant list: the creator, then the members whose id is not the creator's, each marked by `MarkCreator`; `ParticipantsSpec` states its shape |
| `TeamView.ParticipantsSpec` | src/components/content/team/Team.tsx:126-130 | the creator comes first and is marked; every later row is one of the other members in order, is unmarked, and does not have the creator's id; the length is one plus the number of other members |
| `TeamView.ParticipantsListEveryOtherMember` | src/components/content/team/Team.tsx:128 | every member whose id is not the creator's is listed as often as in the team, and no one else is |
| `TeamView.DisplayName` | src/components/content/team/Team.tsx:140 | definition: the name, followed by a space and the surname only when the surname is non-empty; its property is in `DisplayNameSeparated` |
| `TeamView.DisplayNameSeparated` | src/components/content/team/Team.tsx:140 | the display name starts with the name, and any further text starts with a space |
| `TeamView.TabQuestions` | src/components/content/team/Team.tsx:59 | definition: tab 0 shows the active questions, any other tab the resolved ones |
| `TeamView.TeamPage.constructor` | src/components/content/team/Team.tsx:25-27 | the page starts with no team, loading, on the first tab |
| `TeamView.TeamPage.Load` | src/components/content/team/Team.tsx:35-50 | without an id nothing happens; success stores the team and ends loading; a failure changes nothing, so the spinner stays |
| `TeamView.TeamPage.SelectTab` | src/components/content/team/Team.tsx:90 | the tabs' change handler stores the chosen tab, which `TabQuestions` then reads |
| `SideMenu.IsSelected` | src/components/layout/SideMenu.tsx:35 | definition of `selected={location.pathname.startsWith(path)}`: an entry is highlighted exactly when its path is a prefix of the current path |
| `SideMenu.StartsWithIff` | src/components/layout/SideMenu.tsx:35 | `startsWith` holds exactly when the path is the prefix followed by some rest |
| `SideMenu.PathsPrefixFree` | src/components/layout/SideMenu.tsx:11-15 | no menu path is a prefix of another |
| `SideMenu.AtMostOneSelected` | src/components/layout/SideMenu.tsx:11-35 | for any path, at most one entry is highlighted |
| `SideMenu.TeamsEntrySelection` | src/components/layout/SideMenu.tsx:35 | the teams entry is highlighted for its own path, for a nested path, and for '/dashboard/teamsX', but not for '/dashboard' |
| `Invitations.StatusLabel` | src/components/content/invitation/Invitations.tsx:110-114 | definition of the status column: PENDING reads "Ожидание", ACCEPTED "Принято", and anything else "Отклонено" |
| `Invitations.StatusLabelInjective` | src/components/content/invitation/Invitations.tsx:110-114 | the three statuses have three different labels |
| `Invitations.ResponseToast` | src/components/content/invitation/Invitations.tsx:43-59 | the response toast is open, and it is a success toast exactly when the call succeeded |
| `Invitations.ResponseToastMessagesDistinct` | src/components/content/invitation/Invitations.tsx:45-57 | the four toast messages differ, so a message fixes both the answer and the outcome |
| `Invitations.InvitationsPage.constructor` | src/components/content/invitation/Invitations.tsx:20-24 | the toast starts closed and empty, of the success kind |
| `Invitations.InvitationsPage.RespondToInvite` | src/components/content/invitation/Invitations.tsx:43-59 | the request sent names the invitation and the answer; the toast becomes the `ResponseToast` for the answer and the outcome; the lists are reloaded only after success |
| `Invitations.InvitationsPage.CloseToast` | src/components/content/invitation/Invitations.tsx:125 | closing sets `open` to false and keeps the message and kind |

## Findings

| source | as written | input that shows it | evidently intended | confidence | as-written member | corrected member |
|---|---|---|---|---|---|---|
| src/components/content/question/QuestionPreview.tsx:197-201 | every answer select offers the choices '1' to '5', whatever the criterion's scale | a criterion on the BASE scale: none of '1' to '5' is one of its values ОН, Н, С, В, ОВ; on the NUMERIC scale the values 6 to 10 cannot be chosen | the ratings of the criterion's own scale (src/types/Rating.ts:6-32) | not executed; medium (the answer submission next to it is still a stub) | `QuestionPreview.FixedChoicesMissScaleValues` | `QuestionPreview.ScaleAnswerChoices` |

## Left out

- TOPSIS ranking: the server computes it, and the client only displays it. Its floating-point weight and the three-decimal formatting are not modelled, so `RankedAlternative` carries only the alternative and the rank.
- Network and transport: the HTTP client, tokens and error shapes are not modelled. A call is represented by its outcome, passed as a parameter; for an error, that outcome is the `message` field of the response.
- Concurrency: the parallel loads are not modelled separately; `Promise.all` delivers all results or fails as a whole. The three-second redirects and the snackbars' auto-hide timers are left out too.
- Navigation and session: the redirects after errors and after creation, the current-user lookup and the route parameters are not modelled; the user's e-mail and the route ids become constructor arguments, with "" standing for an absent id.
- Rendering: layout, icons, opacity and hints are not modelled, and neither are the close handlers of the error and success banners, which only reset a flag.
- The experts who answered and those still pending, on the preview and decision pages, are not modelled: the participant fetch with its error message, and the author star beside a name.
- The team fetch on the draft form and its access-denied banner are not modelled. On the team page a failed fetch only redirects or logs; neither is modelled, so `TeamView.TeamPage.Load` leaves the state unchanged on failure, and the page keeps loading as in the source.
- The team-name rule that the form library enforces on the team form is not modelled.
- The key handler on the address input is left out: it only passes Enter and space to `CreateTeam.TeamForm.AddEmail`.
- The menu's open and close handlers on the preview page are not modelled, and neither are the answer submission, finishing buttons, edit and delete actions; the source leaves these as stubs.
- Invitation list loading and tab switching on the invitations page are not modelled; `RespondToInvite` only reports whether the lists are reloaded.
- `CreateQuestion.UpdateCriterion`: the source types the new value as a string. The model uses `CriterionEdit`, which names one field and carries a value of that field's type, as the form's selects only deliver values of those types.
- Status labels: the source's chain sends any status other than pending or accepted to "declined". The model's closed status type has only the three values, so that fallback covers exactly `Declined`.
- Strings: a Dafny `string` holds Unicode scalar values, while a JavaScript string holds UTF-16 code units. A lone surrogate is a legal JavaScript string, and `[^\s@]` matches it, but the model cannot represent one. On well-formed text the behaviour is the same, because every whitespace code point of `trim` and `\s` lies in the Basic Multilingual Plane.
- src/types/Question.ts does not declare the question record the pages read. Its fields (status, author e-mail, alternatives with ids, the recorded alternative) are inferred from how the pages use it.
- The author test of both question pages compares the user's e-mail with the author's. The JavaScript comparison of a missing user with a missing question is not modelled, because the pages only evaluate it once a question is loaded.
