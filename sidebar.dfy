/**
 * The navigation sidebar (frontend/src/components/ProfessionalSidebar.js):
 * the menu, the access filter applied to its items and sub-items, and the
 * `collapsed` / `expandedMenus` state its handlers update. Menu titles are
 * rendered in English here; they serve only as keys.
 */
module Sidebar {
  import opened Wrappers
  import Permissions
  import opened Sequences

  /** A sub-item: the route it opens and an optional access mark. */
  datatype SubItem = SubItem(title: string, path: string, access: Option<string>)

  /** A top-level entry: a direct route, or a group of sub-items. */
  datatype MenuItem = MenuItem(title: string, path: Option<string>, access: Option<string>, submenu: seq<SubItem>)

  /**
   * `filterMenuByAccess`: an item with no (or an empty) access mark is for
   * everyone; a superadmin sees everything; `admin` admits admins and
   * superadmins; any other mark must equal the user's level.
   */
  predicate Visible(user: Option<Permissions.User>, access: Option<string>) {
    if access.None? || access.value == "" then true
    else if user.Some? && user.value.accessLevel == Permissions.SuperAdminLevel then true
    else if access.value == Permissions.AdminLevel then Permissions.IsAdmin(user)
    else user.Some? && user.value.accessLevel == access.value
  }

  /** The visibility rule stated case by case. */
  lemma VisibleCases(user: Option<Permissions.User>, access: Option<string>)
    ensures access.None? ==> Visible(user, access)
    ensures Permissions.IsSuperAdmin(user) ==> Visible(user, access)
    ensures access == Some(Permissions.AdminLevel) ==> (Visible(user, access) <==> Permissions.IsAdmin(user))
    ensures access.Some? && access.value != "" && access.value != Permissions.AdminLevel && !Permissions.IsSuperAdmin(user) ==>
              (Visible(user, access) <==> user.Some? && user.value.accessLevel == access.value)
  {
  }

  const AdminMark: Option<string> := Some(Permissions.AdminLevel)

  /** The menu as the component declares it. */
  const Menu: seq<MenuItem> := [
    MenuItem("Dashboard", Some("/"), None, []),
    MenuItem("Warehouses", None, None, [
      SubItem("Warehouse list", "/warehouses", None),
      SubItem("Warehouse receipt", "/inventory", None),
      SubItem("Warehouse transfer", "/transfer", None),
      SubItem("Transfer management", "/transfer-list", None),
      SubItem("Mismatched items", "/mismatches", AdminMark)]),
    MenuItem("Drugs", None, None, [
      SubItem("Drug list", "/drugs", None),
      SubItem("Stock matrix", "/inventory-matrix", None)]),
    MenuItem("Tools", None, None, [
      SubItem("Tool list", "/tools", None),
      SubItem("Tool receipt", "/tool-inventory", None),
      SubItem("Tool transfer", "/tool-transfer", None)]),
    MenuItem("Business partners", None, None, [
      SubItem("Suppliers", "/suppliers", None),
      SubItem("Consumers", "/consumers", None)]),
    MenuItem("Reports", None, None, [
      SubItem("Comprehensive reports", "/report", None),
      SubItem("Expired drugs", "/report-expired", None),
      SubItem("Disposed drugs", "/disposed", AdminMark)]),
    MenuItem("System", None, None, [
      SubItem("Users and access", "/users", AdminMark),
      SubItem("Operation log", "/logs", AdminMark),
      SubItem("Database backup", "/backup", AdminMark),
      SubItem("Settings", "/settings", None)])
  ]

  function VisibleItems(user: Option<Permissions.User>, items: seq<MenuItem>): (r: seq<MenuItem>)
    ensures forall it :: it in r <==> it in items && Visible(user, it.access)
  {
    if items == [] then []
    else (if Visible(user, items[0].access) then [items[0]] else []) + VisibleItems(user, items[1..])
  }

  function VisibleSubItems(user: Option<Permissions.User>, subs: seq<SubItem>): (r: seq<SubItem>)
    ensures forall s :: s in r <==> s in subs && Visible(user, s.access)
  {
    if subs == [] then []
    else (if Visible(user, subs[0].access) then [subs[0]] else []) + VisibleSubItems(user, subs[1..])
  }

  /** The visible entries keep the menu's order. */
  lemma {:induction false} VisibleItemsInOrder(user: Option<Permissions.User>, items: seq<MenuItem>)
    ensures IsSublist(VisibleItems(user, items), items)
    decreases |items|
  {
    if items != [] {
      VisibleItemsInOrder(user, items[1..]);
      var r := VisibleItems(user, items);
      var rest := VisibleItems(user, items[1..]);
      if Visible(user, items[0].access) {
        assert r == [items[0]] + rest;
        assert r[1..] == rest;
      } else {
        assert r == rest;
      }
    }
  }

  /** The visible sub-entries keep their order. */
  lemma {:induction false} VisibleSubItemsInOrder(user: Option<Permissions.User>, subs: seq<SubItem>)
    ensures IsSublist(VisibleSubItems(user, subs), subs)
    decreases |subs|
  {
    if subs != [] {
      VisibleSubItemsInOrder(user, subs[1..]);
      var r := VisibleSubItems(user, subs);
      var rest := VisibleSubItems(user, subs[1..]);
      if Visible(user, subs[0].access) {
        assert r == [subs[0]] + rest;
        assert r[1..] == rest;
      } else {
        assert r == rest;
      }
    }
  }

  /** Filtering a list whose entries are all unmarked keeps it whole. */
  lemma {:induction false} UnmarkedItemsKept(user: Option<Permissions.User>, items: seq<MenuItem>)
    requires forall i :: 0 <= i < |items| ==> items[i].access.None?
    ensures VisibleItems(user, items) == items
  {
    if items != [] {
      UnmarkedItemsKept(user, items[1..]);
    }
  }

  /** No top-level entry carries an access mark, so every user sees all seven. */
  lemma AllTopLevelVisible(user: Option<Permissions.User>)
    ensures VisibleItems(user, Menu) == Menu
  {
    UnmarkedItemsKept(user, Menu);
  }

  /** The routes only admins reach. */
  const AdminRoutes: set<string> := {"/mismatches", "/disposed", "/users", "/logs", "/backup"}

  /** Every sub-item is unmarked or marked `admin`, and the marked ones are exactly the admin routes. */
  lemma MenuMarks()
    ensures forall it, s :: it in Menu && s in it.submenu ==>
              (s.access == AdminMark <==> s.path in AdminRoutes) && (s.access == None || s.access == AdminMark)
  {
    forall i | 0 <= i < |Menu| ensures SubsMarkedRight(Menu[i].submenu) {
      ItemMarkedRight(i);
    }
  }

  /** A sub-item is marked `admin` exactly when its route is an admin route, and carries no other mark. */
  predicate MarkedRight(s: SubItem) {
    (s.access == AdminMark <==> s.path in AdminRoutes) && (s.access == None || s.access == AdminMark)
  }

  predicate SubsMarkedRight(subs: seq<SubItem>) {
    forall j :: 0 <= j < |subs| ==> MarkedRight(subs[j])
  }

  /** The sub-items of menu entry `i` are marked right, checked entry by entry. */
  lemma ItemMarkedRight(i: int)
    requires 0 <= i < |Menu|
    ensures SubsMarkedRight(Menu[i].submenu)
  {
    var subs := Menu[i].submenu;
    forall j | 0 <= j < |subs| ensures MarkedRight(subs[j]) {
      var s := subs[j];
      if s.access == None {
        assert s.path !in AdminRoutes;
      }
    }
  }

  /** Admins and superadmins see every sub-item; everyone else sees exactly those outside the admin routes. */
  lemma SubItemVisibility(user: Option<Permissions.User>, it: MenuItem, s: SubItem)
    requires it in Menu && s in it.submenu
    ensures s in VisibleSubItems(user, it.submenu) <==> Permissions.IsAdmin(user) || s.path !in AdminRoutes
  {
    MenuMarks();
    assert MarkedRight(s);
    assert s in VisibleSubItems(user, it.submenu) <==> Visible(user, s.access);
    if s.access == AdminMark {
      assert Visible(user, s.access) <==> Permissions.IsAdmin(user);
    }
  }

  /** `!expandedMenus[menu]` reads a missing key as closed. */
  function IsExpanded(menus: map<string, bool>, menu: string): bool {
    menu in menus && menus[menu]
  }

  /** `{ ...expandedMenus, [menu]: !expandedMenus[menu] }`. */
  function ToggledMenu(menus: map<string, bool>, menu: string): (r: map<string, bool>)
    ensures IsExpanded(r, menu) == !IsExpanded(menus, menu)
    ensures forall k :: k != menu ==> IsExpanded(r, k) == IsExpanded(menus, k)
  {
    menus[menu := !IsExpanded(menus, menu)]
  }

  /** Clicking the same group twice restores every flag. */
  lemma ToggleTwice(menus: map<string, bool>, menu: string, k: string)
    ensures IsExpanded(ToggledMenu(ToggledMenu(menus, menu), menu), k) == IsExpanded(menus, k)
  {
  }

  /** The sidebar's state: whether it is collapsed and which groups are open. */
  class SidebarState {
    var collapsed: bool
    var expandedMenus: map<string, bool>

    /** `useState({})` with the collapsed flag the parent passes in. */
    constructor (collapsed0: bool)
      ensures collapsed == collapsed0 && expandedMenus == map[]
    {
      collapsed := collapsed0;
      expandedMenus := map[];
    }

    /** A group's sub-items are shown when its flag is set and the sidebar is not collapsed. */
    predicate IsOpen(menu: string)
      reads this
    {
      IsExpanded(expandedMenus, menu) && !collapsed
    }

    /**
     * `handleMenuClick`: a collapsed sidebar is first expanded; then the
     * clicked group's flag flips and every other flag stays.
     */
    method HandleMenuClick(menu: string)
      modifies this
      ensures !collapsed
      ensures expandedMenus == ToggledMenu(old(expandedMenus), menu)
      ensures IsOpen(menu) == !IsExpanded(old(expandedMenus), menu)
      ensures forall k :: k != menu ==> IsOpen(k) == IsExpanded(old(expandedMenus), k)
    {
      if collapsed {
        collapsed := false;
      }
      expandedMenus := ToggledMenu(expandedMenus, menu);
    }

    /** `toggleCollapse`: collapsing closes every group, expanding leaves the flags alone. */
    method ToggleCollapse()
      modifies this
      ensures collapsed == !old(collapsed)
      ensures !old(collapsed) ==> expandedMenus == map[]
      ensures old(collapsed) ==> expandedMenus == old(expandedMenus)
      ensures forall k :: !IsOpen(k) || (old(collapsed) && IsExpanded(old(expandedMenus), k))
    {
      var wasCollapsed := collapsed;
      collapsed := !collapsed;
      if !wasCollapsed {
        expandedMenus := map[];
      }
    }
  }
}
