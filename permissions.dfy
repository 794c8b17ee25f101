/**
 * The client-side access guard (frontend/src/utils/permissions.js). A user is
 * `null` or a record with an `access_level` text and an optional list of
 * warehouse ids; admins (`admin`, `superadmin`) reach every warehouse, a
 * warehouseman only the listed ones, and a viewer may look but not edit.
 */
module Permissions {
  import opened Wrappers
  import opened Sequences

  const SuperAdminLevel: string := "superadmin"
  const AdminLevel: string := "admin"
  const WarehousemanLevel: string := "warehouseman"
  const ViewerLevel: string := "viewer"

  /** The user object the helpers receive; `warehouses` is absent (`None`) or an id list. */
  datatype User = User(accessLevel: string, warehouses: Option<seq<int>>)

  /** A warehouse as the lists hold it; only its id matters here. */
  datatype Warehouse = Warehouse(id: int, name: string)

  /** `canEdit`: anyone but a viewer, and nobody when there is no user. */
  predicate CanEdit(user: Option<User>) {
    user.Some? && user.value.accessLevel != ViewerLevel
  }

  predicate IsAdmin(user: Option<User>) {
    user.Some? && (user.value.accessLevel == AdminLevel || user.value.accessLevel == SuperAdminLevel)
  }

  predicate IsSuperAdmin(user: Option<User>) {
    user.Some? && user.value.accessLevel == SuperAdminLevel
  }

  predicate IsViewer(user: Option<User>) {
    user.Some? && user.value.accessLevel == ViewerLevel
  }

  predicate IsWarehouseman(user: Option<User>) {
    user.Some? && user.value.accessLevel == WarehousemanLevel
  }

  /** The role predicates fit together: a superadmin is an admin, the roles exclude each other, and only a viewer (or nobody) may not edit. */
  lemma RolesConsistent(user: Option<User>)
    ensures IsSuperAdmin(user) ==> IsAdmin(user)
    ensures !(IsAdmin(user) && IsViewer(user)) && !(IsAdmin(user) && IsWarehouseman(user)) && !(IsViewer(user) && IsWarehouseman(user))
    ensures CanEdit(user) <==> user.Some? && !IsViewer(user)
    ensures IsAdmin(user) || IsWarehouseman(user) ==> CanEdit(user)
  {
  }

  /** `hasWarehouseAccess(user, warehouseId)`. */
  function HasWarehouseAccess(user: Option<User>, warehouseId: int): (ok: bool)
    ensures IsAdmin(user) ==> ok
    ensures IsWarehouseman(user) ==> (ok <==> user.value.warehouses.Some? && warehouseId in user.value.warehouses.value)
    ensures !IsAdmin(user) && !IsWarehouseman(user) ==> !ok
  {
    if user.None? then false
    else if IsAdmin(user) then true
    else if IsWarehouseman(user) then
      user.value.warehouses.Some? && warehouseId in user.value.warehouses.value
    else false
  }

  /** `getAccessibleWarehouses`: `None` stands for `null`, "every warehouse". */
  function AccessibleWarehouses(user: Option<User>): (ids: Option<seq<int>>)
    ensures ids.None? <==> IsAdmin(user)
    ensures user.None? ==> ids == Some([])
    ensures user.Some? && !IsAdmin(user) && user.value.warehouses.Some? ==> ids == user.value.warehouses
    ensures user.Some? && !IsAdmin(user) && user.value.warehouses.None? ==> ids == Some([])
  {
    if user.None? then Some([])
    else if IsAdmin(user) then None
    else Some(user.value.warehouses.GetOr([]))
  }

  /** For admins and warehousemen, the accessible list and the access check agree on every warehouse. */
  lemma AccessibleAgreesWithAccess(user: Option<User>, warehouseId: int)
    requires IsAdmin(user) || IsWarehouseman(user)
    ensures HasWarehouseAccess(user, warehouseId) <==>
              (AccessibleWarehouses(user).None? || warehouseId in AccessibleWarehouses(user).value)
  {
  }

  /**
   * For a viewer the two helpers disagree: the accessible list holds the
   * viewer's own warehouses, yet the access check refuses every warehouse.
   */
  lemma ViewerListedButRefused(user: Option<User>, warehouseId: int)
    requires IsViewer(user) && user.value.warehouses.Some? && warehouseId in user.value.warehouses.value
    ensures AccessibleWarehouses(user).Some? && warehouseId in AccessibleWarehouses(user).value
    ensures !HasWarehouseAccess(user, warehouseId)
  {
  }

  /** `warehouses.filter(w => ids.includes(w.id))`. */
  function KeepListed(warehouses: seq<Warehouse>, ids: seq<int>): (r: seq<Warehouse>)
    ensures forall w :: w in r <==> w in warehouses && w.id in ids
    ensures |r| <= |warehouses|
  {
    if warehouses == [] then []
    else (if warehouses[0].id in ids then [warehouses[0]] else []) + KeepListed(warehouses[1..], ids)
  }

  lemma {:induction false} KeepListedIsSublist(warehouses: seq<Warehouse>, ids: seq<int>)
    ensures IsSublist(KeepListed(warehouses, ids), warehouses)
    decreases |warehouses|
  {
    if warehouses != [] {
      KeepListedIsSublist(warehouses[1..], ids);
      var r := KeepListed(warehouses, ids);
      var rest := KeepListed(warehouses[1..], ids);
      if warehouses[0].id in ids {
        assert r == [warehouses[0]] + rest;
        assert r[1..] == rest;
      } else {
        assert r == rest;
      }
    }
  }

  /** `filterWarehousesByAccess(warehouses, user)`; a missing list is `None`. */
  function FilterWarehousesByAccess(warehouses: Option<seq<Warehouse>>, user: Option<User>): (r: seq<Warehouse>)
    ensures user.None? || warehouses.None? ==> r == []
    ensures user.Some? && warehouses.Some? && (IsAdmin(user) || !IsWarehouseman(user) || user.value.warehouses.None?) ==>
              r == warehouses.value
    ensures IsWarehouseman(user) && user.value.warehouses.Some? && warehouses.Some? ==>
              forall w :: w in r <==> w in warehouses.value && HasWarehouseAccess(user, w.id)
  {
    if user.None? || warehouses.None? then []
    else if IsAdmin(user) then warehouses.value
    else if IsWarehouseman(user) && user.value.warehouses.Some? then KeepListed(warehouses.value, user.value.warehouses.value)
    else warehouses.value
  }

  /** The filtered list is always the input with some warehouses left out, in the input's order. */
  lemma FilterIsSublist(warehouses: seq<Warehouse>, user: Option<User>)
    requires user.Some?
    ensures IsSublist(FilterWarehousesByAccess(Some(warehouses), user), warehouses)
  {
    SublistReflexive(warehouses);
    if user.value.warehouses.Some? {
      KeepListedIsSublist(warehouses, user.value.warehouses.value);
    }
  }
}
