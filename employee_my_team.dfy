/**
  The employee's team page: the distinct company names of the team in first-seen order,
  a selected company that an effect fills in with the first one, the members of the
  selected company, and those of them whose birthday falls in the current month.
*/
module EmployeeMyTeam {
  import opened Common

  /**
    A team member; `birthMonth` is the month of a present, valid date of birth
    (0 for January, as `getMonth` counts), `None` when there is none.
  */
  datatype Member = Member(employeeEmail: string, companyName: Option<string>, birthMonth: Option<int>)

  /** The index of the first member of `company`, or `|team|` when there is none. */
  function FirstIndexOf(team: seq<Member>, company: string): (k: nat)
    ensures k <= |team|
    ensures k < |team| ==> team[k].companyName == Some(company)
    ensures forall m :: 0 <= m < k ==> team[m].companyName != Some(company)
    decreases |team|
  {
    if team == [] then 0
    else if team[0].companyName == Some(company) then 0
    else 1 + FirstIndexOf(team[1..], company)
  }

  /** Appending a member does not move the first index of a company already present. */
  lemma {:induction false} FirstIndexOfSnoc(team: seq<Member>, m: Member, company: string)
    ensures FirstIndexOf(team + [m], company) ==
              if FirstIndexOf(team, company) < |team| then FirstIndexOf(team, company)
              else if m.companyName == Some(company) then |team| else |team| + 1
    decreases |team|
  {
    if team == [] {
      assert team + [m] == [m];
      assert [m][1..] == [];
    } else {
      assert (team + [m])[0] == team[0] && (team + [m])[1..] == team[1..] + [m];
      FirstIndexOfSnoc(team[1..], m, company);
    }
  }

  /**
    `[...new Set(team.map(e => e.companyName).filter(Boolean))]`: each non-empty company name
    once, in the order of its first member.
  */
  function Companies(team: seq<Member>): (companies: seq<string>)
    ensures forall i, j :: 0 <= i < j < |companies| ==> companies[i] != companies[j]
    ensures forall c :: c in companies <==> c != "" && FirstIndexOf(team, c) < |team|
    ensures forall i, j :: 0 <= i < j < |companies| ==> FirstIndexOf(team, companies[i]) < FirstIndexOf(team, companies[j])
    decreases |team|
  {
    if team == [] then []
    else
      var front := team[..|team| - 1];
      var last := team[|team| - 1];
      var earlier := Companies(front);
      assert team == front + [last];
      var companies := if Truthy(last.companyName) && last.companyName.value !in earlier
                       then earlier + [last.companyName.value] else earlier;
      CompaniesSnocFacts(front, last, earlier, companies);
      companies
  }

  /** The step of `Companies` that appends a member, stated on its own. */
  lemma CompaniesSnocFacts(front: seq<Member>, last: Member, earlier: seq<string>, companies: seq<string>)
    requires forall i, j :: 0 <= i < j < |earlier| ==> earlier[i] != earlier[j]
    requires forall c :: c in earlier <==> c != "" && FirstIndexOf(front, c) < |front|
    requires forall i, j :: 0 <= i < j < |earlier| ==> FirstIndexOf(front, earlier[i]) < FirstIndexOf(front, earlier[j])
    requires companies == if Truthy(last.companyName) && last.companyName.value !in earlier
                          then earlier + [last.companyName.value] else earlier
    ensures forall i, j :: 0 <= i < j < |companies| ==> companies[i] != companies[j]
    ensures forall c :: c in companies <==> c != "" && FirstIndexOf(front + [last], c) < |front + [last]|
    ensures forall i, j :: 0 <= i < j < |companies| ==>
              FirstIndexOf(front + [last], companies[i]) < FirstIndexOf(front + [last], companies[j])
  {
    forall c
      ensures FirstIndexOf(front + [last], c) ==
                if FirstIndexOf(front, c) < |front| then FirstIndexOf(front, c)
                else if last.companyName == Some(c) then |front| else |front| + 1
    {
      FirstIndexOfSnoc(front, last, c);
    }
  }

  /** `team.filter(e => e.companyName === selectedCompany)`. */
  function FilteredTeam(team: seq<Member>, selected: string): (members: seq<Member>)
    ensures forall m :: m in members <==> m in team && m.companyName == Some(selected)
    ensures forall m :: m in team ==> multiset(members)[m] == if m.companyName == Some(selected) then multiset(team)[m] else 0
  {
    Filter((m: Member) => m.companyName == Some(selected), team)
  }

  /** The members of the selected company whose date of birth falls in `currentMonth`. */
  function Birthdays(filtered: seq<Member>, currentMonth: int): (members: seq<Member>)
    ensures forall m :: m in members <==> m in filtered && m.birthMonth == Some(currentMonth)
    ensures forall m :: m in filtered ==> multiset(members)[m] == if m.birthMonth == Some(currentMonth) then multiset(filtered)[m] else 0
  {
    Filter((m: Member) => m.birthMonth == Some(currentMonth), filtered)
  }

  /** The birthday list is drawn from the shown team, in its order. */
  lemma BirthdaysWithinTeam(team: seq<Member>, selected: string, currentMonth: int)
    ensures IsSubsequence(Birthdays(FilteredTeam(team, selected), currentMonth), FilteredTeam(team, selected))
    ensures IsSubsequence(Birthdays(FilteredTeam(team, selected), currentMonth), team)
  {
    var filtered := FilteredTeam(team, selected);
    FilterIsSubsequence((m: Member) => m.birthMonth == Some(currentMonth), filtered);
    FilterIsSubsequence((m: Member) => m.companyName == Some(selected), team);
    SubsequenceTransitive(Birthdays(filtered, currentMonth), filtered, team);
  }

  /** The company selector appears only when there is a choice to make. */
  predicate ShowsSelector(companies: seq<string>)
  {
    |companies| > 1
  }

  /** The selector is shown exactly when two team members carry different non-empty company names. */
  lemma SelectorIffTwoCompanies(team: seq<Member>)
    ensures ShowsSelector(Companies(team)) <==>
              exists i, j :: 0 <= i < |team| && 0 <= j < |team| && Truthy(team[i].companyName)
                             && Truthy(team[j].companyName) && team[i].companyName != team[j].companyName
  {
    var companies := Companies(team);
    if ShowsSelector(companies) {
      var c0, c1 := companies[0], companies[1];
      assert c0 in companies && c1 in companies;
      var i, j := FirstIndexOf(team, c0), FirstIndexOf(team, c1);
      assert Truthy(team[i].companyName) && Truthy(team[j].companyName) && team[i].companyName != team[j].companyName;
    } else {
      forall i, j | 0 <= i < |team| && 0 <= j < |team| && Truthy(team[i].companyName) && Truthy(team[j].companyName)
        ensures team[i].companyName == team[j].companyName
      {
        var a, b := team[i].companyName.value, team[j].companyName.value;
        assert FirstIndexOf(team, a) <= i && FirstIndexOf(team, b) <= j;
        assert a in companies && b in companies;
      }
    }
  }

  class TeamView {
    var selected: string

    constructor ()
      ensures selected == ""
    {
      selected := "";
    }

    /** The effect on a new company list: `prev || companies[0]` when the list is not empty. */
    method OnCompaniesChanged(companies: seq<string>)
      modifies this
      ensures selected == if |companies| > 0 && old(selected) == "" then companies[0] else old(selected)
    {
      if |companies| > 0 {
        selected := if selected != "" then selected else companies[0];
      }
    }

    /** Choosing a company in the selector. */
    method Select(company: string)
      modifies this
      ensures selected == company
    {
      selected := company;
    }
  }

  /** The company the effect picks first always has members to show. */
  lemma FirstCompanyHasMembers(team: seq<Member>)
    requires Companies(team) != []
    ensures FilteredTeam(team, Companies(team)[0]) != []
  {
    var c := Companies(team)[0];
    assert c in Companies(team);
    var k := FirstIndexOf(team, c);
    assert team[k] in FilteredTeam(team, c);
  }

  /**
    On first load the selection becomes the company of the first member that has one, and
    it has members to show; with a single company no selector is shown and that company is selected.
  */
  method FirstLoadSelects(team: seq<Member>) returns (selected: string)
    requires exists k :: 0 <= k < |team| && Truthy(team[k].companyName)
    ensures Companies(team) != [] && selected == Companies(team)[0] && FilteredTeam(team, selected) != []
    ensures !ShowsSelector(Companies(team)) ==> Companies(team) == [selected]
  {
    var k :| 0 <= k < |team| && Truthy(team[k].companyName);
    var c := team[k].companyName.value;
    assert c != "" && FirstIndexOf(team, c) < |team|;
    assert c in Companies(team);
    var view := new TeamView();
    view.OnCompaniesChanged(Companies(team));
    selected := view.selected;
    FirstCompanyHasMembers(team);
  }
}
