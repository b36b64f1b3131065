/**
 * The main menu overview with group menus taken out: it lists, sorted by
 * id, every menu that is not attached to a group as group content.
 */
module MenuListBuilder {
  import opened Seqs
  import opened Group

  /** The menu ids that `records` attach, in record order. */
  function EntityIds(records: seq<GroupContent>): (ids: seq<string>)
    ensures |ids| == |records| && forall i | 0 <= i < |records| :: ids[i] == records[i].entityId
  {
    seq(|records|, i requires 0 <= i < |records| => records[i].entityId)
  }

  /** The group menu records: those of any `group_menu:menu` content type. */
  function GroupMenuRecords(snapshot: Snapshot): seq<GroupContent>
  {
    LoadByTypes(snapshot.contents, Ids(LoadByContentPluginId(snapshot.contentTypes, MenuPluginId)))
  }

  /** The exclusion list the `in_array` guarded loop builds. */
  function ExclusionList(snapshot: Snapshot): seq<string>
  {
    Dedup(EntityIds(GroupMenuRecords(snapshot)))
  }

  /** The query: every menu id not in `excluded`, sorted by id. */
  function NotInSorted(menuIds: set<string>, excluded: seq<string>): seq<string>
  {
    SortedIds(set m | m in menuIds && m !in excluded)
  }

  /** What `getEntityIds()` returns without a pager limit, early exit included. */
  function ListedMenuIds(snapshot: Snapshot, menuIds: set<string>): (ids: seq<string>)
    ensures StrictlySorted(ids)
    ensures forall m | m in ids :: m in menuIds && m !in ExclusionList(snapshot)
  {
    if LoadByContentPluginId(snapshot.contentTypes, MenuPluginId) == [] then []
    else NotInSorted(menuIds, ExclusionList(snapshot))
  }

  lemma EntityIdsSnoc(records: seq<GroupContent>, i: nat)
    requires i < |records|
    ensures EntityIds(records[..i + 1]) == EntityIds(records[..i]) + [records[i].entityId]
  {
  }

  /** `getEntityIds()` over the stored menus `menuIds`, with no pager limit. */
  method GetEntityIds(snapshot: Snapshot, menuIds: set<string>) returns (ids: seq<string>)
    ensures ids == ListedMenuIds(snapshot, menuIds)
  {
    var groupContentTypes := LoadByContentPluginId(snapshot.contentTypes, MenuPluginId);
    if groupContentTypes == [] {
      return [];
    }
    var records := LoadByTypes(snapshot.contents, Ids(groupContentTypes));
    var menus := [];
    var i := 0;
    while i < |records|
      invariant 0 <= i <= |records|
      invariant menus == Dedup(EntityIds(records[..i]))
    {
      var menuName := records[i].entityId;
      EntityIdsSnoc(records, i);
      DedupSnoc(EntityIds(records[..i]), menuName);
      if menuName !in menus {
        menus := menus + [menuName];
      }
      i := i + 1;
    }
    assert records[..i] == records;
    ids := NotInSorted(menuIds, menus);
  }

  // ---------------------------------------------------------------------
  // Properties

  /** Without any group menu content type the overview lists nothing at all. */
  lemma NoMenuTypeListsNothing(snapshot: Snapshot, menuIds: set<string>)
    requires forall t | t in snapshot.contentTypes :: t.pluginId != MenuPluginId
    ensures ListedMenuIds(snapshot, menuIds) == []
  {
    if LoadByContentPluginId(snapshot.contentTypes, MenuPluginId) != [] {
      assert LoadByContentPluginId(snapshot.contentTypes, MenuPluginId)[0] in snapshot.contentTypes;
    }
  }

  /**
   * The exclusion list holds each group menu once, holds exactly the menus
   * of the group menu records, and keeps them in order of first occurrence.
   */
  lemma ExclusionListExact(snapshot: Snapshot)
    ensures var excluded := ExclusionList(snapshot);
      NoDuplicates(excluded) &&
      (forall m :: m in excluded <==> exists r :: r in GroupMenuRecords(snapshot) && r.entityId == m) &&
      forall i, j | 0 <= i < j < |excluded| ::
        excluded[i] in EntityIds(GroupMenuRecords(snapshot)) &&
        excluded[j] in EntityIds(GroupMenuRecords(snapshot)) &&
        FirstIndex(EntityIds(GroupMenuRecords(snapshot)), excluded[i]) <
        FirstIndex(EntityIds(GroupMenuRecords(snapshot)), excluded[j])
  {
    var ids := EntityIds(GroupMenuRecords(snapshot));
    DedupNoDuplicates(ids);
    DedupSameElements(ids);
    DedupFirstOccurrenceOrder(ids);
    forall m
      ensures m in ids <==> exists r :: r in GroupMenuRecords(snapshot) && r.entityId == m
    {
      if m in ids {
        var i :| 0 <= i < |ids| && ids[i] == m;
        assert GroupMenuRecords(snapshot)[i] in GroupMenuRecords(snapshot);
      }
    }
  }

  /**
   * Once some group menu content type exists, the overview lists exactly
   * the stored menus that are not group menus, in ascending id order.
   */
  lemma ListedMenuIdsExact(snapshot: Snapshot, menuIds: set<string>)
    requires exists t :: t in snapshot.contentTypes && t.pluginId == MenuPluginId
    ensures var ids := ListedMenuIds(snapshot, menuIds);
      StrictlySorted(ids) &&
      forall m :: m in ids <==> m in menuIds && m !in ExclusionList(snapshot)
  {
    var t :| t in snapshot.contentTypes && t.pluginId == MenuPluginId;
    assert t in LoadByContentPluginId(snapshot.contentTypes, MenuPluginId);
  }

  // ---------------------------------------------------------------------
  // The early exit

  /** The overview without the early exit: the query alone. */
  function IntendedMenuIds(snapshot: Snapshot, menuIds: set<string>): seq<string>
  {
    NotInSorted(menuIds, ExclusionList(snapshot))
  }

  /**
   * As written, the early exit hides every menu when no group menu content
   * type exists, although then no menu is group content.
   */
  lemma EarlyExitHidesUngroupedMenus()
    ensures var snapshot := Snapshot([], []);
      ExclusionList(snapshot) == [] && ListedMenuIds(snapshot, {"main"}) == [] &&
      "main" in IntendedMenuIds(snapshot, {"main"})
  {
    var snapshot := Snapshot([], []);
    assert GroupMenuRecords(snapshot) == [];
    IntendedListsEveryUngroupedMenu(snapshot, {"main"});
  }

  /**
   * Without the early exit every stored menu that is not a group menu is
   * listed, in ascending id order, and the result agrees with the code as
   * written whenever some group menu content type exists.
   */
  lemma IntendedListsEveryUngroupedMenu(snapshot: Snapshot, menuIds: set<string>)
    ensures var ids := IntendedMenuIds(snapshot, menuIds);
      StrictlySorted(ids) &&
      (forall m :: m in ids <==> m in menuIds && m !in ExclusionList(snapshot)) &&
      ((exists t :: t in snapshot.contentTypes && t.pluginId == MenuPluginId) ==>
         ids == ListedMenuIds(snapshot, menuIds))
  {
    if exists t :: t in snapshot.contentTypes && t.pluginId == MenuPluginId {
      ListedMenuIdsExact(snapshot, menuIds);
    }
  }
}
