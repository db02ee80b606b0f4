/** The dashboard shell: a loading page while the role resolves, then a sidebar whose links depend on the role. */
module DashboardLayout {
  import opened Common

  datatype SidebarLink = Homepage | AddAssets | MyAssets | MyEmployList | AllAssets | Settings

  /** Where a link leads; Settings is a button without a target. */
  function Target(l: SidebarLink): Option<string>
  {
    match l
    case Homepage => Some("/")
    case AddAssets => Some("/dashboard/addAssets")
    case MyAssets => Some("/dashboard/myAssets")
    case MyEmployList => Some("/dashboard/myEmployList")
    case AllAssets => Some("/dashboard/allAssets")
    case Settings => None
  }

  const HrLinks: seq<SidebarLink> := [AddAssets, MyAssets, MyEmployList]
  const EmployeeLinks: seq<SidebarLink> := [AllAssets]

  datatype View = LoadingPage | Sidebar(links: seq<SidebarLink>)

  /**
    While the role loads only the loading page renders. Otherwise Homepage comes first and
    Settings last for every role; "hr" adds exactly Add Assets, My Assets and My Employ List,
    "employee" adds exactly All Assets, and any other role adds nothing.
  */
  function Layout(roleLoading: bool, role: Option<string>): (v: View)
    ensures v == LoadingPage <==> roleLoading
    ensures v.Sidebar? && role == Some("hr") ==> v.links == [Homepage, AddAssets, MyAssets, MyEmployList, Settings]
    ensures v.Sidebar? && role == Some("employee") ==> v.links == [Homepage, AllAssets, Settings]
    ensures v.Sidebar? && role != Some("hr") && role != Some("employee") ==> v.links == [Homepage, Settings]
    ensures v.Sidebar? ==> (forall l :: l in HrLinks ==> (l in v.links <==> role == Some("hr")))
    ensures v.Sidebar? ==> (forall l :: l in EmployeeLinks ==> (l in v.links <==> role == Some("employee")))
    ensures v.Sidebar? ==> forall i, j :: 0 <= i < j < |v.links| ==> v.links[i] != v.links[j]
  {
    if roleLoading then LoadingPage
    else
      var middle := if role == Some("hr") then HrLinks else if role == Some("employee") then EmployeeLinks else [];
      Sidebar([Homepage] + middle + [Settings])
  }

  /** No link is offered to both roles, and every link of either role leads to a distinct dashboard page. */
  lemma RoleLinksDisjoint()
    ensures forall l :: l in HrLinks ==> l !in EmployeeLinks
    ensures forall l, m :: l in HrLinks + EmployeeLinks && m in HrLinks + EmployeeLinks && l != m ==> Target(l) != Target(m)
  {
  }
}
