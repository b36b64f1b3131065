/**
 * The Group module's entities as this module reads them, and the framework
 * lookups over them (`GroupContentType::loadByContentPluginId`, the
 * storages' `loadByProperties`, `Group::hasPermission`) as plain functions
 * over a snapshot of what the host currently stores.
 */
module Group {
  import opened Php
  import opened Seqs

  /** The id of the `group_menu` content plugin for menus. */
  const MenuPluginId := "group_menu:menu"

  /**
   * A group content type: installs one content plugin (`pluginId`, such as
   * `group_menu:menu` or `group_node:article`) on one group type, with that
   * plugin's configuration.
   */
  datatype GroupContentType = GroupContentType(
    id: string,
    pluginId: string,
    groupType: string,
    pluginConfig: map<string, Value>)

  /** A group content record: relates entity `entityId` to group `groupId` through content type `typeId`. */
  datatype GroupContent = GroupContent(typeId: string, groupId: string, entityId: string)

  /** The stored group content types and group content records, in storage order. */
  datatype Snapshot = Snapshot(contentTypes: seq<GroupContentType>, contents: seq<GroupContent>)

  /** An account, by the group permissions it holds in each group it belongs to. */
  datatype Account = Account(groupPermissions: map<string, set<string>>)

  /** `$group->hasPermission($permission, $account)`. */
  predicate HasPermission(account: Account, groupId: string, permission: string)
  {
    groupId in account.groupPermissions && permission in account.groupPermissions[groupId]
  }

  /** `GroupContentType::loadByContentPluginId($pluginId)`. */
  function LoadByContentPluginId(types: seq<GroupContentType>, pluginId: string): (r: seq<GroupContentType>)
    ensures forall t :: t in r <==> t in types && t.pluginId == pluginId
  {
    Filter(types, (t: GroupContentType) => t.pluginId == pluginId)
  }

  /** `loadByProperties(['content_plugin' => $pluginId, 'group_type' => $groupTypes])` on group content types. */
  function LoadByPluginAndGroupTypes(types: seq<GroupContentType>, pluginId: string, groupTypes: set<string>)
    : (r: seq<GroupContentType>)
    ensures forall t :: t in r <==> t in types && t.pluginId == pluginId && t.groupType in groupTypes
  {
    Filter(types, (t: GroupContentType) => t.pluginId == pluginId && t.groupType in groupTypes)
  }

  /** `loadByProperties(['type' => $typeIds])` on group content records. */
  function LoadByTypes(contents: seq<GroupContent>, typeIds: set<string>): (r: seq<GroupContent>)
    ensures forall c :: c in r <==> c in contents && c.typeId in typeIds
  {
    Filter(contents, (c: GroupContent) => c.typeId in typeIds)
  }

  /** `array_keys()` of a list of loaded content types: their ids. */
  function Ids(types: seq<GroupContentType>): (r: set<string>)
    ensures forall id :: id in r <==> exists t :: t in types && t.id == id
  {
    set t | t in types :: t.id
  }
}
