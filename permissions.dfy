/** The role-permissions page: an in-memory map from role name to the list of
    reports that role may see, edited one handler at a time. The handlers'
    toasts become an `Outcome` value. */
module Permissions {
  import JsString

  type RoleName = string
  type ReportName = string

  /** The fixed report catalog, in the order the checkbox grid shows it. */
  const AvailableReports: seq<ReportName> := [
    "User Management Report",
    "Sales Report",
    "Revenue Report",
    "Performance Analytics",
    "Customer Insights",
    "Inventory Report",
    "Financial Summary",
    "Audit Logs",
    "Activity Report",
    "Compliance Report",
    "Export Data",
    "State/County Map"
  ]

  /** The seeded roles, which can never be deleted. */
  const ProtectedRoles: seq<RoleName> := ["Admin", "Manager", "Member"]

  /** The initial role map: Admin sees the whole catalog. */
  const DefaultRoles: map<RoleName, seq<ReportName>> := map[
    "Admin" := AvailableReports,
    "Manager" := [
      "Sales Report",
      "Revenue Report",
      "Performance Analytics",
      "Customer Insights",
      "Inventory Report",
      "State/County Map"
    ],
    "Member" := [
      "Sales Report",
      "Customer Insights",
      "State/County Map"
    ]
  ]

  /** What a handler reports to the user in place of a toast. */
  datatype Outcome = Ok | EmptyName | Duplicate | Protected

  predicate NoDuplicates(s: seq<ReportName>) {
    forall i, j :: 0 <= i < j < |s| ==> s[i] != s[j]
  }

  predicate FromCatalog(s: seq<ReportName>) {
    forall k :: 0 <= k < |s| ==> s[k] in AvailableReports
  }

  /** A permission list the page can produce: catalog reports, each once. */
  predicate WellFormed(s: seq<ReportName>) {
    NoDuplicates(s) && FromCatalog(s)
  }

  predicate AllWellFormed(roles: map<RoleName, seq<ReportName>>) {
    forall name :: name in roles ==> WellFormed(roles[name])
  }

  function Elements(s: seq<ReportName>): set<ReportName> {
    set x | x in s
  }

  /** `roles[selectedRole] || []`: the selected role's list, or the empty
      list when no role of that name exists. */
  function CurrentPermissions(roles: map<RoleName, seq<ReportName>>, selected: RoleName): (r: seq<ReportName>)
    ensures selected in roles ==> r == roles[selected]
    ensures selected !in roles ==> r == []
    ensures AllWellFormed(roles) ==> WellFormed(r)
  {
    if selected in roles then roles[selected] else []
  }

  /** `s.filter((r) => r !== x)`: every occurrence of `x` is dropped and
      every other element keeps its multiplicity. */
  function Without(s: seq<ReportName>, x: ReportName): (r: seq<ReportName>)
    ensures multiset(r) == multiset(s)[x := 0]
    ensures forall y :: y in r <==> y in s && y != x
    ensures x !in s ==> r == s
  {
    if s == [] then []
    else
      assert s == [s[0]] + s[1..];
      var rest := Without(s[1..], x);
      if s[0] == x then rest else [s[0]] + rest
  }

  /** The filter works element by element, so the reports it keeps stay in
      their original order: filtering a concatenation filters each part. */
  lemma {:induction false} WithoutConcat(a: seq<ReportName>, b: seq<ReportName>, x: ReportName)
    ensures Without(a + b, x) == Without(a, x) + Without(b, x)
    ensures |a| == 1 ==> Without(a, x) == if a[0] == x then [] else a
  {
    if a != [] {
      assert (a + b)[0] == a[0];
      assert (a + b)[1..] == a[1..] + b;
      WithoutConcat(a[1..], b, x);
      if |a| == 1 {
        assert a[1..] == [];
      }
    } else {
      assert [] + b == b;
    }
  }

  /** The new list `handleReportToggle` computes: a report already present
      is removed, an absent one is appended at the end. */
  function Toggled(perms: seq<ReportName>, report: ReportName): (r: seq<ReportName>)
    ensures report in r <==> report !in perms
    ensures forall y :: y != report ==> (y in r <==> y in perms)
    ensures report !in perms ==> r == perms + [report]
    ensures report in perms ==> multiset(r) == multiset(perms)[report := 0]
  {
    if report in perms then Without(perms, report) else perms + [report]
  }

  lemma {:induction false} NoDuplicatesCons(x: ReportName, s: seq<ReportName>)
    ensures NoDuplicates([x] + s) <==> x !in s && NoDuplicates(s)
  {
    var t := [x] + s;
    if NoDuplicates(t) {
      forall i, j | 0 <= i < j < |s| ensures s[i] != s[j] {
        assert s[i] == t[i + 1] && s[j] == t[j + 1];
      }
      forall k | 0 <= k < |s| ensures s[k] != x {
        assert t[0] == x && t[k + 1] == s[k];
      }
    }
  }

  lemma {:induction false} WithoutKeepsWellFormed(s: seq<ReportName>, x: ReportName)
    requires WellFormed(s)
    ensures WellFormed(Without(s, x))
  {
    if s != [] {
      assert s == [s[0]] + s[1..];
      NoDuplicatesCons(s[0], s[1..]);
      WithoutKeepsWellFormed(s[1..], x);
      if s[0] != x {
        NoDuplicatesCons(s[0], Without(s[1..], x));
      }
    }
  }

  /** Toggling a catalog report keeps a list duplicate-free and inside the
      catalog. */
  lemma ToggledKeepsWellFormed(perms: seq<ReportName>, report: ReportName)
    requires WellFormed(perms) && report in AvailableReports
    ensures WellFormed(Toggled(perms, report))
  {
    if report in perms {
      WithoutKeepsWellFormed(perms, report);
    }
  }

  /** Toggling an absent report twice gives back exactly the same list. */
  lemma {:induction false} ToggleTwiceAbsent(perms: seq<ReportName>, report: ReportName)
    requires report !in perms
    ensures Toggled(Toggled(perms, report), report) == perms
  {
    var once := perms + [report];
    assert Toggled(perms, report) == once;
    WithoutAppended(perms, report);
  }

  lemma {:induction false} WithoutAppended(s: seq<ReportName>, x: ReportName)
    requires x !in s
    ensures Without(s + [x], x) == s
  {
    if s == [] {
      assert [] + [x] == [x];
      assert [x][1..] == [];
    } else {
      assert (s + [x])[0] == s[0];
      assert (s + [x])[1..] == s[1..] + [x];
      WithoutAppended(s[1..], x);
      assert s == [s[0]] + s[1..];
    }
  }

  /** Toggling any report twice gives back the same reports: as a set always,
      and as a multiset when the list had no duplicates (only the position of
      the report may move to the end). */
  lemma ToggleTwiceSameReports(perms: seq<ReportName>, report: ReportName)
    ensures Elements(Toggled(Toggled(perms, report), report)) == Elements(perms)
    ensures NoDuplicates(perms) ==> multiset(Toggled(Toggled(perms, report), report)) == multiset(perms)
  {
    if report in perms {
      var once := Without(perms, report);
      assert Toggled(once, report) == once + [report];
      if NoDuplicates(perms) {
        DistinctOnce(perms, report);
        assert multiset(once + [report]) == multiset(once) + multiset{report};
      }
    } else {
      ToggleTwiceAbsent(perms, report);
    }
  }

  lemma DistinctOnce(s: seq<ReportName>, x: ReportName)
    requires NoDuplicates(s) && x in s
    ensures multiset(s)[x] == 1
  {
    var k :| 0 <= k < |s| && s[k] == x;
    assert s == s[..k] + [x] + s[k + 1..];
    assert x !in s[..k] && x !in s[k + 1..];
  }

  lemma {:induction false} DistinctSize(s: seq<ReportName>)
    requires NoDuplicates(s)
    ensures |Elements(s)| == |s|
  {
    if s != [] {
      assert s == [s[0]] + s[1..];
      NoDuplicatesCons(s[0], s[1..]);
      DistinctSize(s[1..]);
      assert Elements(s) == {s[0]} + Elements(s[1..]);
    }
  }

  lemma CatalogWellFormed()
    ensures WellFormed(AvailableReports) && |AvailableReports| == 12
  {
  }

  /** A well-formed list holds at most the twelve catalog reports: the page's
      "Selected: n of 12" counter never exceeds its total. */
  lemma WellFormedBounded(s: seq<ReportName>)
    requires WellFormed(s)
    ensures |s| <= |AvailableReports|
  {
    CatalogWellFormed();
    DistinctSize(s);
    DistinctSize(AvailableReports);
    var mine, all := Elements(s), Elements(AvailableReports);
    assert mine <= all;
    assert all == mine + (all - mine);
  }

  /** The seeded map satisfies the page's invariants. */
  lemma DefaultRolesWellFormed()
    ensures AllWellFormed(DefaultRoles)
    ensures forall name :: name in ProtectedRoles <==> name in DefaultRoles
  {
    CatalogWellFormed();
  }

  /** The state of one permissions page. */
  class PermissionsPage {
    var roles: map<RoleName, seq<ReportName>>
    var selectedRole: RoleName
    var newRoleName: string
    var isCreatingRole: bool

    /** Every list is drawn from the catalog without duplicates, the three
        seeded roles (so `Admin` in particular) always exist, and the
        selected role is one of the keys. */
    ghost predicate Valid()
      reads this
    {
      "Admin" in roles && "Manager" in roles && "Member" in roles &&
      selectedRole in roles && AllWellFormed(roles)
    }

    function Current(): (r: seq<ReportName>)
      reads this
      requires Valid()
      ensures WellFormed(r) && |r| <= |AvailableReports|
    {
      var r := CurrentPermissions(roles, selectedRole);
      WellFormedBounded(r);
      r
    }

    constructor ()
      ensures Valid()
      ensures roles == DefaultRoles && selectedRole == "Admin"
      ensures newRoleName == "" && !isCreatingRole
    {
      roles := DefaultRoles;
      selectedRole := "Admin";
      newRoleName := "";
      isCreatingRole := false;
      DefaultRolesWellFormed();
    }

    /** The role dropdown, whose options are the keys of `roles`. */
    method SelectRole(name: RoleName)
      requires Valid() && name in roles
      modifies this
      ensures Valid()
      ensures selectedRole == name
      ensures roles == old(roles) && newRoleName == old(newRoleName) && isCreatingRole == old(isCreatingRole)
    {
      selectedRole := name;
    }

    /** One checkbox of the catalog grid. */
    method ToggleReport(report: ReportName)
      requires Valid() && report in AvailableReports
      modifies this
      ensures Valid()
      ensures roles == old(roles)[selectedRole := Toggled(old(Current()), report)]
      ensures report in Current() <==> report !in old(Current())
      ensures selectedRole == old(selectedRole) && newRoleName == old(newRoleName) && isCreatingRole == old(isCreatingRole)
    {
      var updated := Toggled(CurrentPermissions(roles, selectedRole), report);
      ToggledKeepsWellFormed(CurrentPermissions(roles, selectedRole), report);
      roles := roles[selectedRole := updated];
    }

    method SelectAll()
      requires Valid()
      modifies this
      ensures Valid()
      ensures roles == old(roles)[selectedRole := AvailableReports]
      ensures Current() == AvailableReports
      ensures selectedRole == old(selectedRole) && newRoleName == old(newRoleName) && isCreatingRole == old(isCreatingRole)
    {
      CatalogWellFormed();
      roles := roles[selectedRole := AvailableReports];
    }

    method DeselectAll()
      requires Valid()
      modifies this
      ensures Valid()
      ensures roles == old(roles)[selectedRole := []]
      ensures Current() == []
      ensures selectedRole == old(selectedRole) && newRoleName == old(newRoleName) && isCreatingRole == old(isCreatingRole)
    {
      roles := roles[selectedRole := []];
    }

    /** The "Create Custom Role" button, which opens the name input. */
    method StartCreatingRole()
      requires Valid()
      modifies this
      ensures Valid()
      ensures isCreatingRole
      ensures roles == old(roles) && selectedRole == old(selectedRole) && newRoleName == old(newRoleName)
    {
      isCreatingRole := true;
    }

    /** The name input's change handler. */
    method SetNewRoleName(name: string)
      requires Valid()
      modifies this
      ensures Valid()
      ensures newRoleName == name
      ensures roles == old(roles) && selectedRole == old(selectedRole) && isCreatingRole == old(isCreatingRole)
    {
      newRoleName := name;
    }

    /** The "Cancel" button of the name input. */
    method CancelCreatingRole()
      requires Valid()
      modifies this
      ensures Valid()
      ensures !isCreatingRole && newRoleName == ""
      ensures roles == old(roles) && selectedRole == old(selectedRole)
    {
      isCreatingRole := false;
      newRoleName := "";
    }

    /** Creates a role named by the pending input, untrimmed. A blank name
        or a name already present is refused and nothing changes. */
    method CreateRole() returns (outcome: Outcome)
      requires Valid()
      modifies this
      ensures Valid()
      ensures outcome == EmptyName <==> JsString.AllWhitespace(old(newRoleName))
      ensures outcome == Duplicate <==> !JsString.AllWhitespace(old(newRoleName)) && old(newRoleName) in old(roles)
      ensures outcome != Protected
      ensures outcome != Ok ==>
        roles == old(roles) && selectedRole == old(selectedRole) &&
        newRoleName == old(newRoleName) && isCreatingRole == old(isCreatingRole)
      ensures outcome == Ok ==>
        roles == old(roles)[old(newRoleName) := []] &&
        selectedRole == old(newRoleName) && newRoleName == "" && !isCreatingRole
    {
      if JsString.Trim(newRoleName) == [] {
        return EmptyName;
      }
      if newRoleName in roles {
        return Duplicate;
      }
      var updated := roles[newRoleName := []];
      assert AllWellFormed(updated) by {
        assert WellFormed([]);
      }
      roles := updated;
      selectedRole := newRoleName;
      newRoleName := "";
      isCreatingRole := false;
      outcome := Ok;
    }

    /** Deletes a role. The three seeded roles are refused and nothing
        changes; any other name is removed (if present) and the selection
        returns to `Admin`. */
    method DeleteRole(roleName: RoleName) returns (outcome: Outcome)
      requires Valid()
      modifies this
      ensures Valid()
      ensures outcome == Protected <==> roleName in ProtectedRoles
      ensures outcome == Protected || outcome == Ok
      ensures outcome == Protected ==> roles == old(roles) && selectedRole == old(selectedRole)
      ensures outcome == Ok ==> roles == old(roles) - {roleName} && selectedRole == "Admin"
      ensures newRoleName == old(newRoleName) && isCreatingRole == old(isCreatingRole)
    {
      if roleName in ProtectedRoles {
        return Protected;
      }
      roles := roles - {roleName};
      selectedRole := "Admin";
      outcome := Ok;
    }

    /** "Save Permissions" only hands the current map to its log; the map it
        returns is what is handed over, and no state changes. */
    method SavePermissions() returns (saved: map<RoleName, seq<ReportName>>)
      requires Valid()
      ensures saved == roles
      ensures AllWellFormed(saved) && "Admin" in saved && "Manager" in saved && "Member" in saved
    {
      saved := roles;
    }
  }

  /** The two-button sequences of the page: the last one decides. */
  method SelectionScenario(page: PermissionsPage)
    requires page.Valid()
    modifies page
  {
    page.SelectAll();
    page.DeselectAll();
    assert page.Current() == [];
    page.SelectAll();
    assert page.Current() == AvailableReports && |page.Current()| == 12;
  }

  /** Each seeded name is refused as a duplicate, in every reachable state. */
  method SeededNameScenario(page: PermissionsPage)
    requires page.Valid()
    modifies page
  {
    assert !JsString.IsWhitespace("Manager"[0]) && !JsString.IsWhitespace("Member"[0]);
    page.SetNewRoleName("Manager");
    var outcome := page.CreateRole();
    assert outcome == Duplicate;
    page.SetNewRoleName("Member");
    outcome := page.CreateRole();
    assert outcome == Duplicate;
  }
}
