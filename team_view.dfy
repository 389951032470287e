/**
 * The team page (src/components/content/team/Team.tsx): the participant list
 * with the creator first, the display name of a participant, and the choice
 * of question list by tab, and the page's state: the loaded team and the tab.
 */
module TeamView {
  import opened Wrappers
  import opened Seqs

  /** An expert as the server returns it (src/types/Expert.ts); `position` is not used. */
  datatype Expert = Expert(id: int, name: string, email: string, surname: Option<string>)

  /** A team (src/types/Team.ts). */
  datatype Team = Team(id: int, name: string, description: Option<string>, createdBy: Expert, members: seq<Expert>)

  /** A row of the participant list: the expert and whether they created the team. */
  datatype Participant = Participant(expert: Expert, isCreator: bool)

  /** The predicate of `members.filter(m => m.id !== createdBy.id)`. */
  function IdDiffers(creatorId: int): Expert -> bool {
    (m: Expert) => m.id != creatorId
  }

  /** `.map(m => ({ m, isCreator: m.id === createdBy.id }))`. */
  function MarkCreator(experts: seq<Expert>, creatorId: int): (r: seq<Participant>)
    ensures |r| == |experts|
    ensures forall k | 0 <= k < |r| :: r[k].expert == experts[k] && (r[k].isCreator <==> experts[k].id == creatorId)
  {
    if experts == [] then []
    else [Participant(experts[0], experts[0].id == creatorId)] + MarkCreator(experts[1..], creatorId)
  }

  /** The others: the members whose id is not the creator's, in their order. */
  function OtherMembers(team: Team): seq<Expert> {
    Filter(team.members, IdDiffers(team.createdBy.id))
  }

  /** The participant list: the creator, then every other member. */
  function Participants(team: Team): seq<Participant> {
    MarkCreator([team.createdBy] + OtherMembers(team), team.createdBy.id)
  }

  /** The creator comes first and is the only row marked as creator; the later
      rows are exactly the members with another id, in their original order, so
      the list has one more row than there are such members. */
  lemma ParticipantsSpec(team: Team)
    ensures var r := Participants(team);
      && |r| == 1 + |OtherMembers(team)|
      && r[0] == Participant(team.createdBy, true)
      && (forall k | 1 <= k < |r| :: r[k] == Participant(OtherMembers(team)[k - 1], false))
      && (forall k | 1 <= k < |r| :: r[k].expert.id != team.createdBy.id)
  {
    var r := Participants(team);
    var others := OtherMembers(team);
    FilterMembers(team.members, IdDiffers(team.createdBy.id));
    forall k | 1 <= k < |r| ensures r[k] == Participant(others[k - 1], false) {
      assert ([team.createdBy] + others)[k] == others[k - 1];
      assert IdDiffers(team.createdBy.id)(others[k - 1]);
    }
  }

  /** Every member whose id is not the creator's is listed, and as often as in the
      team's member list; no member with the creator's id is listed after the first row. */
  lemma ParticipantsListEveryOtherMember(team: Team, m: Expert)
    ensures multiset(OtherMembers(team))[m] == if m.id != team.createdBy.id then multiset(team.members)[m] else 0
  {
    FilterMultiplicity(team.members, IdDiffers(team.createdBy.id), m);
  }

  /** `name`, then a space and the surname when the surname is present and non-empty. */
  function DisplayName(e: Expert): (r: string)
    ensures e.surname.None? || e.surname.value == "" ==> r == e.name
    ensures e.surname.Some? && e.surname.value != "" ==> r == e.name + " " + e.surname.value
  {
    match e.surname
    case Some(s) => if s != "" then e.name + " " + s else e.name
    case None => e.name
  }

  /** The display name starts with the name; a surname is never glued to it. */
  lemma DisplayNameSeparated(e: Expert)
    ensures |e.name| <= |DisplayName(e)| && DisplayName(e)[..|e.name|] == e.name
    ensures |DisplayName(e)| > |e.name| ==> DisplayName(e)[|e.name|] == ' '
  {
  }

  /** The question list shown under a tab: tab 0 shows the active questions, any
      other value the resolved ones. */
  function TabQuestions<Q>(tab: int, active: seq<Q>, resolved: seq<Q>): (r: seq<Q>)
    ensures tab == 0 ==> r == active
    ensures tab != 0 ==> r == resolved
  {
    if tab == 0 then active else resolved
  }

  /** The state of the page. */
  class TeamPage {
    /** The route parameter ("" when absent). */
    const id: string
    var team: Option<Team>
    var loading: bool
    var tab: int

    /** The page as first shown: no team, loading, and the first tab. */
    constructor (id: string)
      ensures this.id == id && team == None && loading && tab == 0
    {
      this.id := id;
      team, loading, tab := None, true, 0;
    }

    /** The effect that loads the team, given the outcome of the call. Without an id
        nothing happens; success stores the team and ends loading; a failure only
        navigates away or logs, so the page keeps loading. */
    method Load(outcome: Outcome<Team>)
      modifies this`team, this`loading
      ensures id != "" && outcome.Success? ==> team == Some(outcome.value) && !loading
      ensures id == "" || outcome.Failure? ==> team == old(team) && loading == old(loading)
    {
      if id == "" {
        return;
      }
      match outcome {
        case Success(t) =>
          team := Some(t);
          loading := false;
        case Failure(_) =>
      }
    }

    /** The tabs' change handler. */
    method SelectTab(newValue: int)
      modifies this`tab
      ensures tab == newValue
    {
      tab := newValue;
    }
  }
}
