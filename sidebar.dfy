/**
 * The student sidebar: the menu table, case-insensitive matching of the
 * current path, per-item access taken from the feature flags, the decision
 * taken on a click on a restricted item, and the name and initial fallbacks.
 */
module Sidebar {
  import opened Common

  const UpgradeText := "Upgrade the plan to access this feature"
  const DefaultName := "Student"
  const DefaultInitial := "U"

  /** Feature flags by component key; a key the server leaves out reads as `false`. */
  type Flags = map<string, bool>

  /** The five flag keys, all off until the server says otherwise. */
  const DefaultFlags: Flags := map["atschecker" := false, "jobboard" := false, "myjob" := false,
                                   "mockinterview" := false, "exercise" := false]

  function Flag(flags: Flags, key: string): bool {
    key in flags && flags[key]
  }

  /** A menu entry; `access` is the flag key of a restricted entry and `None` for an open one. */
  datatype MenuItem = MenuItem(path: string, text: string, icon: string, access: Option<string>)

  const MenuItems: seq<MenuItem> := [
    MenuItem("/Dashboard", "Home", "home", None),
    MenuItem("/EnrolledCourses", "Enrolled Courses", "menu_book", None),
    MenuItem("/JobBoard", "Job Board", "work", Some("jobboard")),
    MenuItem("/MyJob", "My Job", "person", Some("myjob")),
    MenuItem("/MockInterview", "Mock Prep", "assignment", Some("mockinterview")),
    MenuItem("/Exercise", "Exercise Prep", "edit_note", Some("exercise")),
    MenuItem("/ResumeATS", "ATS Checker", "fact_check", Some("atschecker"))
  ]

  /** An item is highlighted when its path equals the current one up to letter case. */
  predicate IsActive(pathname: string, path: string) {
    Lower(pathname) == Lower(path)
  }

  lemma LowerIdempotent(s: string)
    ensures Lower(Lower(s)) == Lower(s)
  {
    forall i | 0 <= i < |s| ensures Lower(Lower(s))[i] == Lower(s)[i] {
      CaseFacts(s[i]);
    }
  }

  /** Matching is an equivalence that ignores letter case. */
  lemma IsActiveFacts(p: string, q: string, r: string)
    ensures IsActive(p, p)
    ensures IsActive(p, q) ==> IsActive(q, p)
    ensures IsActive(p, q) && IsActive(q, r) ==> IsActive(p, r)
    ensures IsActive(Lower(p), p)
  {
    LowerIdempotent(p);
  }

  /** Open items are always reachable; a restricted one exactly when its flag is on. */
  function HasAccess(item: MenuItem, flags: Flags): (ok: bool)
    ensures item.access.None? ==> ok
    ensures item.access.Some? ==> (ok <==> item.access.value in flags && flags[item.access.value])
  {
    if item.access.Some? then Flag(flags, item.access.value) else true
  }

  /** What a click on a restricted item does. */
  datatype ClickEffect = Navigate(path: string) | ShowError(message: string)

  function RestrictedClick(path: string, hasAccess: bool): (e: ClickEffect)
    ensures e.Navigate? <==> hasAccess
    ensures e.Navigate? ==> e.path == path
    ensures e.ShowError? ==> e.message == UpgradeText
  {
    if !hasAccess then ShowError(UpgradeText) else Navigate(path)
  }

  /** `userData?.fullname || "Student"`. */
  function DisplayName(user: Option<User>): (name: string)
    ensures name != ""
    ensures user.Some? && Truthy(user.value.fullname) ==> name == user.value.fullname.value
    ensures !(user.Some? && Truthy(user.value.fullname)) ==> name == DefaultName
  {
    if user.Some? then OrElse(user.value.fullname, DefaultName) else DefaultName
  }

  /** `userData?.fullname?.charAt(0)?.toUpperCase() || "U"`: one character, never empty. */
  function Initial(user: Option<User>): (c: string)
    ensures |c| == 1
    ensures user.Some? && Truthy(user.value.fullname) ==> c == [UpperChar(user.value.fullname.value[0])]
    ensures !(user.Some? && Truthy(user.value.fullname)) ==> c == DefaultInitial
  {
    if user.Some? && Truthy(user.value.fullname) then [UpperChar(user.value.fullname.value[0])]
    else DefaultInitial
  }

  /**
   * The avatar and the name shown beside it agree: the avatar is the
   * upper-cased first letter of the shown name when the user has a name,
   * and without one they fall back together, to "U" and "Student".
   */
  lemma InitialOfDisplayName(user: Option<User>)
    ensures user.Some? && Truthy(user.value.fullname) ==> Initial(user) == [UpperChar(DisplayName(user)[0])]
    ensures !(user.Some? && Truthy(user.value.fullname)) ==>
              Initial(user) == DefaultInitial && DisplayName(user) == DefaultName
  {
  }

  /** No two menu paths coincide, even ignoring letter case. */
  lemma MenuPathsDistinct(i: nat, j: nat)
    requires i < j < |MenuItems|
    ensures Lower(MenuItems[i].path) != Lower(MenuItems[j].path)
  {
    var a, b := MenuItems[i].path, MenuItems[j].path;
    if |a| == |b| {
      assert a[1] != b[1] && LowerChar(a[1]) != LowerChar(b[1]);
      assert Lower(a)[1] != Lower(b)[1];
    }
  }

  /** Whatever the current path, at most one menu item is highlighted. */
  lemma AtMostOneActive(pathname: string, i: nat, j: nat)
    requires i < |MenuItems| && j < |MenuItems|
    requires IsActive(pathname, MenuItems[i].path) && IsActive(pathname, MenuItems[j].path)
    ensures i == j
  {
    if i < j {
      MenuPathsDistinct(i, j);
    } else if j < i {
      MenuPathsDistinct(j, i);
    }
  }

  /** Every restricted item names one of the five flag keys, and each key gates exactly one item. */
  lemma MenuUsesEveryFlagOnce()
    ensures forall i :: 0 <= i < |MenuItems| && MenuItems[i].access.Some? ==> MenuItems[i].access.value in DefaultFlags
    ensures forall k :: k in DefaultFlags ==> exists i :: 0 <= i < |MenuItems| && MenuItems[i].access == Some(k)
    ensures forall i, j :: 0 <= i < j < |MenuItems| && MenuItems[i].access.Some? ==> MenuItems[i].access != MenuItems[j].access
  {
    assert MenuItems[2].access == Some("jobboard");
    assert MenuItems[3].access == Some("myjob");
    assert MenuItems[4].access == Some("mockinterview");
    assert MenuItems[5].access == Some("exercise");
    assert MenuItems[6].access == Some("atschecker");
  }

  /** Before the flags arrive every restricted item is refused and open items are allowed. */
  lemma DefaultFlagsDenyRestricted(i: nat)
    requires i < |MenuItems|
    ensures HasAccess(MenuItems[i], DefaultFlags) <==> MenuItems[i].access.None?
  {
  }

  /**
   * Before the flags arrive, every restricted item's click shows the upgrade
   * message and navigates nowhere; open items navigate to their path.
   */
  lemma DefaultFlagsClick(i: nat)
    requires i < |MenuItems|
    ensures MenuItems[i].access.Some? ==>
              RestrictedClick(MenuItems[i].path, HasAccess(MenuItems[i], DefaultFlags)) == ShowError(UpgradeText)
    ensures MenuItems[i].access.None? ==>
              RestrictedClick(MenuItems[i].path, HasAccess(MenuItems[i], DefaultFlags)) == Navigate(MenuItems[i].path)
  {
    DefaultFlagsDenyRestricted(i);
  }

  /**
   * A restricted click navigates only through the flag of that item: turning
   * any other flag on or off leaves the decision unchanged.
   */
  lemma RestrictedClickOwnFlag(i: nat, flags: Flags, key: string, value: bool)
    requires i < |MenuItems| && MenuItems[i].access.Some? && MenuItems[i].access.value != key
    ensures RestrictedClick(MenuItems[i].path, HasAccess(MenuItems[i], flags[key := value]))
            == RestrictedClick(MenuItems[i].path, HasAccess(MenuItems[i], flags))
  {
  }

  /** The access state of the sidebar, filled by its two fetches. */
  class SidebarState {
    var userData: Option<User>
    var componentsAccess: Flags

    constructor ()
      ensures userData == None && componentsAccess == DefaultFlags
    {
      userData := None;
      componentsAccess := DefaultFlags;
    }

    /** Without a stored user id no request is made; a failed one keeps the old value. */
    method FetchUserData(userId: Option<string>, response: Response<User>)
      modifies this`userData
      ensures Truthy(userId) && response.Ok? ==> userData == Some(response.data)
      ensures !Truthy(userId) || response.Failure? ==> userData == old(userData)
    {
      if Truthy(userId) && response.Ok? {
        userData := Some(response.data);
      }
    }

    /** The server's `components` object replaces the flags wholesale. */
    method FetchComponentsAccess(userId: Option<string>, response: Response<Flags>)
      modifies this`componentsAccess
      ensures Truthy(userId) && response.Ok? ==> componentsAccess == response.data
      ensures !Truthy(userId) || response.Failure? ==> componentsAccess == old(componentsAccess)
    {
      if Truthy(userId) && response.Ok? {
        componentsAccess := response.data;
      }
    }

    /** Clicking item `i`: open items are links, restricted ones go through the access decision. */
    function Click(i: nat): (e: ClickEffect)
      reads this
      requires i < |MenuItems|
      ensures e.Navigate? <==> HasAccess(MenuItems[i], componentsAccess)
      ensures e.Navigate? ==> e.path == MenuItems[i].path
    {
      if MenuItems[i].access.Some? then RestrictedClick(MenuItems[i].path, HasAccess(MenuItems[i], componentsAccess))
      else Navigate(MenuItems[i].path)
    }

    /** On a freshly mounted sidebar every restricted item shows the upgrade message. */
    lemma FreshSidebarRefuses(i: nat)
      requires i < |MenuItems| && MenuItems[i].access.Some? && componentsAccess == DefaultFlags
      ensures Click(i) == ShowError(UpgradeText)
    {
      DefaultFlagsClick(i);
    }
  }
}
