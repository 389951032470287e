/**
 * The team-creation form (src/components/content/team/CreateTeam.tsx): the
 * e-mail syntax check, the list of invited e-mail addresses with its add and
 * delete handlers, and the submit guard.
 */
module CreateTeam {
  import opened Wrappers
  import opened Text
  import opened Seqs

  const InvalidEmailMessage: string := "Некорректный email"
  const DuplicateEmailMessage: string := "Email уже добавлен"
  const EmptyListMessage: string := "Добавьте хотя бы одного участника"

  /** A character of the class `[^\s@]`. */
  predicate EmailChar(c: char) {
    !IsWhitespace(c) && c != '@'
  }

  predicate EmailChars(s: string) {
    forall k :: 0 <= k < |s| ==> EmailChar(s[k])
  }

  /** `isValidEmail`, the language of `^[^\s@]+@[^\s@]+\.[^\s@]+$`: the string is
      `local + "@" + domain + "." + top` with the three parts non-empty and made
      of `[^\s@]` characters (the parts may themselves contain dots). */
  predicate IsValidEmail(s: string) {
    exists at, dot | 0 < at < dot < |s| ::
      && at + 1 < dot && dot + 1 < |s|
      && s[at] == '@' && s[dot] == '.'
      && EmailChars(s[..at]) && EmailChars(s[at + 1..dot]) && EmailChars(s[dot + 1..])
  }

  /** The same language described character by character: no whitespace, exactly
      one '@' with something before it, and after the '@' a '.' with at least
      one character on either side. */
  ghost predicate EmailShape(s: string) {
    && NoWhitespace(s)
    && multiset(s)['@'] == 1
    && exists at, dot | 0 < at < dot < |s| :: at + 1 < dot && dot + 1 < |s| && s[at] == '@' && s[dot] == '.'
  }

  /** `c` occurs once in `s`, at `i`, exactly when no other position holds `c`. */
  lemma SingleOccurrence(s: string, c: char, i: nat)
    requires i < |s| && s[i] == c
    ensures multiset(s)[c] == 1 <==> forall j :: 0 <= j < |s| && j != i ==> s[j] != c
  {
    assert s == s[..i] + [c] + s[i + 1..];
    assert multiset(s)[c] == multiset(s[..i])[c] + 1 + multiset(s[i + 1..])[c];
    if multiset(s)[c] == 1 {
      forall j | 0 <= j < |s| && j != i ensures s[j] != c {
        if j < i {
          assert s[j] == s[..i][j];
          assert c !in multiset(s[..i]);
        } else {
          assert s[j] == s[i + 1..][j - i - 1];
          assert c !in multiset(s[i + 1..]);
        }
      }
    } else {
      if c in s[..i] {
        var j :| 0 <= j < i && s[..i][j] == c;
        assert s[j] == c;
      } else {
        assert c in multiset(s[i + 1..]);
        var j :| 0 <= j < |s| - i - 1 && s[i + 1..][j] == c;
        assert s[i + 1 + j] == c;
      }
    }
  }

  /** The regular expression accepts exactly the strings of the character-level
      description. */
  lemma ValidEmailIff(s: string)
    ensures IsValidEmail(s) <==> EmailShape(s)
  {
    if IsValidEmail(s) {
      ValidEmailHasShape(s);
    }
    if EmailShape(s) {
      ShapeIsValidEmail(s);
    }
  }

  lemma ValidEmailHasShape(s: string)
    requires IsValidEmail(s)
    ensures EmailShape(s)
  {
    var at, dot :| 0 < at < dot < |s| && at + 1 < dot && dot + 1 < |s| && s[at] == '@' && s[dot] == '.'
      && EmailChars(s[..at]) && EmailChars(s[at + 1..dot]) && EmailChars(s[dot + 1..]);
    forall k | 0 <= k < |s| && k != at ensures EmailChar(s[k]) {
      if k < at {
        assert s[k] == s[..at][k];
      } else if at < k < dot {
        assert s[k] == s[at + 1..dot][k - at - 1];
      } else if dot < k {
        assert s[k] == s[dot + 1..][k - dot - 1];
      }
    }
    SingleOccurrence(s, '@', at);
  }

  lemma ShapeIsValidEmail(s: string)
    requires EmailShape(s)
    ensures IsValidEmail(s)
  {
    var at, dot :| 0 < at < dot < |s| && at + 1 < dot && dot + 1 < |s| && s[at] == '@' && s[dot] == '.';
    SingleOccurrence(s, '@', at);
    assert EmailChars(s[..at]);
    assert EmailChars(s[at + 1..dot]);
    assert EmailChars(s[dot + 1..]);
  }

  /** A valid address has no whitespace, so it is non-blank and its own trim. */
  lemma ValidEmailIsTrimmed(s: string)
    requires IsValidEmail(s)
    ensures NoWhitespace(s) && Trim(s) == s && !IsBlank(s)
  {
    ValidEmailIff(s);
    TrimNoWhitespace(s);
  }

  /** The predicate of `emailList.filter(e => e !== email)`. */
  function NotEqualTo(email: string): string -> bool {
    e => e != email
  }

  /** The body of `teamApi.createTeam`. */
  datatype CreateTeamRequest = CreateTeamRequest(name: string, emails: seq<string>)

  /** The state of the form. */
  class TeamForm {
    var inputEmail: string
    var emailList: seq<string>
    var emailError: string
    var emailListError: string

    /** The list has no repetitions (each address is one chip, keyed by the
        address) and holds only trimmed, valid addresses. */
    ghost predicate Valid()
      reads this
    {
      && Distinct(emailList)
      && forall k :: 0 <= k < |emailList| ==> IsValidEmail(emailList[k]) && Trim(emailList[k]) == emailList[k]
    }

    constructor ()
      ensures Valid()
      ensures inputEmail == "" && emailList == [] && emailError == "" && emailListError == ""
    {
      inputEmail, emailList, emailError, emailListError := "", [], "", "";
    }

    /** The input's change handler: the text is stored and the address error cleared. */
    method EditInput(text: string)
      requires Valid()
      modifies this`inputEmail, this`emailError
      ensures Valid()
      ensures inputEmail == text && emailError == ""
    {
      inputEmail := text;
      emailError := "";
    }

    /** `handleAddEmail`. A blank input changes nothing; an input whose trim is not a
        valid address, or is already listed, only sets the address error; otherwise
        the trimmed address is appended, the input cleared and both errors cleared. */
    method AddEmail()
      requires Valid()
      modifies this
      ensures Valid()
      ensures Trim(old(inputEmail)) == "" ==>
        emailList == old(emailList) && inputEmail == old(inputEmail) && emailError == old(emailError) && emailListError == old(emailListError)
      ensures Trim(old(inputEmail)) != "" && !IsValidEmail(Trim(old(inputEmail))) ==>
        emailList == old(emailList) && inputEmail == old(inputEmail) && emailError == InvalidEmailMessage && emailListError == old(emailListError)
      ensures Trim(old(inputEmail)) != "" && IsValidEmail(Trim(old(inputEmail))) && Trim(old(inputEmail)) in old(emailList) ==>
        emailList == old(emailList) && inputEmail == old(inputEmail) && emailError == DuplicateEmailMessage && emailListError == old(emailListError)
      ensures Trim(old(inputEmail)) != "" && IsValidEmail(Trim(old(inputEmail))) && Trim(old(inputEmail)) !in old(emailList) ==>
        emailList == old(emailList) + [Trim(old(inputEmail))] && inputEmail == "" && emailError == "" && emailListError == ""
    {
      var trimmed := Trim(inputEmail);
      if trimmed == "" {
        return;
      }
      if !IsValidEmail(trimmed) {
        emailError := InvalidEmailMessage;
        return;
      }
      if trimmed in emailList {
        emailError := DuplicateEmailMessage;
        return;
      }
      TrimIdempotent(inputEmail);
      emailList := emailList + [trimmed];
      inputEmail := "";
      emailError := "";
      emailListError := "";
    }

    /** `handleDelete(email)`: every occurrence of `email` removed, the rest kept in
        order. The list error is set when the list had exactly one entry before,
        whether or not that entry was `email`. */
    method Delete(email: string)
      requires Valid()
      modifies this`emailList, this`emailListError
      ensures Valid()
      ensures emailList == Filter(old(emailList), NotEqualTo(email))
      ensures email !in emailList
      ensures email !in old(emailList) ==> emailList == old(emailList)
      ensures forall k :: 0 <= k < |old(emailList)| && old(emailList)[k] != email ==> old(emailList)[k] in emailList
      ensures emailListError == if |old(emailList)| - 1 == 0 then EmptyListMessage else old(emailListError)
    {
      var before := emailList;
      FilterMembers(before, NotEqualTo(email));
      FilterDistinct(before, NotEqualTo(email));
      if email !in before {
        FilterKeepsAll(before, NotEqualTo(email));
      }
      emailList := Filter(before, NotEqualTo(email));
      if |before| - 1 == 0 {
        emailListError := EmptyListMessage;
      }
    }

    /** `onSubmit`: with an empty list the list error is set and no team is created;
        otherwise the create request carries the form's name and the list. */
    method Submit(name: string) returns (request: Option<CreateTeamRequest>)
      requires Valid()
      modifies this`emailListError
      ensures Valid()
      ensures request.None? <==> emailList == []
      ensures request.Some? ==> request.value == CreateTeamRequest(name, emailList)
      ensures emailListError == if emailList == [] then EmptyListMessage else old(emailListError)
    {
      if |emailList| == 0 {
        emailListError := EmptyListMessage;
        return None;
      }
      request := Some(CreateTeamRequest(name, emailList));
    }
  }
}
