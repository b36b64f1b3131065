/**
 * The configuration override resolver: for every requested `node.type.*`
 * configuration, adds to its `available_menus` the group menus the current
 * user may edit in groups whose type opted in to group menus on that node
 * type's form. Nothing is persisted; two request-scoped memo fields keep the
 * stored configurations and the opted-in group types already looked up.
 */
module ConfigOverrides {
  import opened Php
  import opened Seqs
  import opened Group
  import GroupMenuPlugin

  const NodeTypePrefix := "node.type"
  /** The permission the resolver checks on each menu's group. */
  const EditPermission := "edit " + MenuPluginId + " entity"
  /** The content plugin configuration flag a group type opts in with. */
  const OptInKey := "node_form_group_menu"

  /** A stored node type configuration: its type and its `menu_ui` `available_menus` setting. */
  datatype NodeTypeConfig = NodeTypeConfig(nodeType: string, availableMenus: seq<string>)

  /** An override: the only value it sets is `third_party_settings.menu_ui.available_menus`. */
  datatype Override = Override(availableMenus: seq<string>)

  // ---------------------------------------------------------------------
  // What the resolver computes, as pure functions

  /** The `array_filter` step: `strpos($name, 'node.type') === 0`. */
  predicate IsNodeTypeName(name: string)
  {
    StartsWith(name, NodeTypePrefix)
  }

  function NodeTypeNames(names: seq<string>): (r: seq<string>)
    ensures forall n :: n in r <==> n in names && IsNodeTypeName(n)
  {
    Filter(names, IsNodeTypeName)
  }

  /** The filter keeps the requested order: the names of two runs of names are each run's names in turn. */
  lemma NodeTypeNamesAppend(a: seq<string>, b: seq<string>)
    ensures NodeTypeNames(a + b) == NodeTypeNames(a) + NodeTypeNames(b)
  {
    FilterAppend(a, b, IsNodeTypeName);
  }

  /** `$this->baseStorage->read($name)`: the stored configuration, or nothing. */
  function Read(storage: map<string, NodeTypeConfig>, name: string): (config: Option<NodeTypeConfig>)
  {
    if name in storage then Some(storage[name]) else None
  }

  /** The content plugin of a node type on a group type has the group menu option switched on. */
  predicate OptedIn(t: GroupContentType)
  {
    !EntryEmpty(t.pluginConfig, OptInKey)
  }

  /**
   * The group types, keyed by themselves, that the loop over `types`
   * collects: every opted-in content type contributes its group type.
   */
  function OptedInGroupTypes(types: seq<GroupContentType>): (r: map<string, string>)
    ensures forall g | g in r :: r[g] == g
  {
    if types == [] then map[] else
      var m := OptedInGroupTypes(types[..|types| - 1]);
      var t := types[|types| - 1];
      if OptedIn(t) then m[t.groupType := t.groupType] else m
  }

  /** What `getEnabledGroupMenuTypesByNodeType($nodeType)` returns on a cache miss. */
  function EnabledGroupTypes(snapshot: Snapshot, nodeType: string): (r: map<string, string>)
    ensures forall g | g in r :: r[g] == g
  {
    OptedInGroupTypes(LoadByContentPluginId(snapshot.contentTypes, "group_node:" + nodeType))
  }

  /** A record's menu is offered when the account may edit menus in the record's group. */
  predicate MayEdit(account: Account, record: GroupContent)
  {
    HasPermission(account, record.groupId, EditPermission)
  }

  /** The menu ids the loop over `records` appends, in record order. */
  function EditableMenuIds(records: seq<GroupContent>, account: Account): (ids: seq<string>)
  {
    if records == [] then [] else
      var ids := EditableMenuIds(records[..|records| - 1], account);
      var r := records[|records| - 1];
      if MayEdit(account, r) then ids + [r.entityId] else ids
  }

  /** The group menu content types installed on any of `groupTypes`. */
  function MenuContentTypes(snapshot: Snapshot, groupTypes: map<string, string>): seq<GroupContentType>
  {
    LoadByPluginAndGroupTypes(snapshot.contentTypes, MenuPluginId, groupTypes.Keys)
  }

  /** What `getUserGroupMenuIdsByGroupTypes($groupTypes, $account)` returns. */
  function UserGroupMenuIds(snapshot: Snapshot, groupTypes: map<string, string>, account: Account)
    : (menus: seq<string>)
  {
    var menuTypes := MenuContentTypes(snapshot, groupTypes);
    if menuTypes == [] then []
    else EditableMenuIds(LoadByTypes(snapshot.contents, Ids(menuTypes)), account)
  }

  /** The override one node type configuration name receives, if any. */
  function OverrideFor(storage: map<string, NodeTypeConfig>, snapshot: Snapshot, account: Account, name: string)
    : (o: Option<Override>)
  {
    match Read(storage, name)
    case None => None
    case Some(config) =>
      var groupTypes := EnabledGroupTypes(snapshot, config.nodeType);
      if groupTypes == map[] then None
      else
        var menus := UserGroupMenuIds(snapshot, groupTypes, account);
        if menus == [] then None
        else Some(Override(config.availableMenus + menus))
  }

  /** The overrides for the names in `nodeTypeNames`, each name keyed by itself. */
  function OverridesOf(storage: map<string, NodeTypeConfig>, snapshot: Snapshot, account: Account, nodeTypeNames: seq<string>)
    : (r: map<string, Override>)
  {
    map n | n in nodeTypeNames && OverrideFor(storage, snapshot, account, n).Some? ::
      OverrideFor(storage, snapshot, account, n).value
  }

  lemma OverridesOfAppend(storage: map<string, NodeTypeConfig>, snapshot: Snapshot, account: Account,
                          nodeTypeNames: seq<string>, name: string)
    ensures var o := OverrideFor(storage, snapshot, account, name);
      OverridesOf(storage, snapshot, account, nodeTypeNames + [name]) ==
        if o.Some? then OverridesOf(storage, snapshot, account, nodeTypeNames)[name := o.value]
        else OverridesOf(storage, snapshot, account, nodeTypeNames)
  {
    var before := OverridesOf(storage, snapshot, account, nodeTypeNames);
    var after := OverridesOf(storage, snapshot, account, nodeTypeNames + [name]);
    var o := OverrideFor(storage, snapshot, account, name);
    var expected := if o.Some? then before[name := o.value] else before;
    assert after.Keys == expected.Keys;
  }

  /** What `loadOverrides($names)` returns. */
  function Overrides(storage: map<string, NodeTypeConfig>, snapshot: Snapshot, account: Account, names: seq<string>)
    : (r: map<string, Override>)
    ensures forall n | n in r :: n in names && IsNodeTypeName(n)
  {
    OverridesOf(storage, snapshot, account, NodeTypeNames(names))
  }

  /** The names of `names`, as a set. */
  function NameSet(names: seq<string>): set<string>
  {
    set n | n in names
  }

  /** The node types of those of `names` that are stored. */
  function StoredNodeTypes(storage: map<string, NodeTypeConfig>, names: seq<string>): set<string>
  {
    set n | n in names && n in storage :: storage[n].nodeType
  }

  lemma StoredNodeTypesAppend(storage: map<string, NodeTypeConfig>, names: seq<string>, name: string)
    ensures StoredNodeTypes(storage, names + [name]) ==
      StoredNodeTypes(storage, names) + (if name in storage then {storage[name].nodeType} else {})
    ensures NameSet(names + [name]) == NameSet(names) + {name}
  {
  }

  // ---------------------------------------------------------------------
  // Properties of those functions

  /** The prefix test is bare: a name such as `node.type_x` passes it too. */
  lemma PrefixTestIsBare()
    ensures IsNodeTypeName("node.type_x") && IsNodeTypeName("node.type.article")
    ensures !IsNodeTypeName("core.node.type") && !IsNodeTypeName("node.typ")
  {
    assert "core.node.type"[0] != NodeTypePrefix[0];
  }

  /** Without any `node.type*` name among the requested ones there is no override at all. */
  lemma NoNodeTypeNamesNoOverrides(storage: map<string, NodeTypeConfig>, snapshot: Snapshot, account: Account,
                                   names: seq<string>)
    requires forall n | n in names :: !IsNodeTypeName(n)
    ensures Overrides(storage, snapshot, account, names) == map[]
  {
  }

  /** The group types collected from `types` are exactly those of its opted-in content types. */
  lemma {:induction false} OptedInGroupTypesExact(types: seq<GroupContentType>)
    ensures forall g :: g in OptedInGroupTypes(types) <==> exists t :: t in types && OptedIn(t) && t.groupType == g
  {
    if types != [] {
      var init := types[..|types| - 1];
      OptedInGroupTypesExact(init);
      assert types == init + [types[|types| - 1]];
    }
  }

  /**
   * The enabled group types of a node type are exactly the group types of
   * its `group_node:<type>` content types whose configuration has a
   * non-empty `node_form_group_menu`; each is keyed by itself.
   */
  lemma EnabledGroupTypesExact(snapshot: Snapshot, nodeType: string)
    ensures var r := EnabledGroupTypes(snapshot, nodeType);
      (forall g | g in r :: r[g] == g) &&
      forall g :: g in r <==>
        exists t :: t in snapshot.contentTypes && t.pluginId == "group_node:" + nodeType && OptedIn(t) && t.groupType == g
  {
    OptedInGroupTypesExact(LoadByContentPluginId(snapshot.contentTypes, "group_node:" + nodeType));
  }

  /** A menu id is collected iff some record carries it and its group lets the account edit menus. */
  lemma {:induction false} EditableMenuIdsExact(records: seq<GroupContent>, account: Account)
    ensures forall m :: m in EditableMenuIds(records, account) <==>
      exists r :: r in records && MayEdit(account, r) && r.entityId == m
  {
    if records != [] {
      var init := records[..|records| - 1];
      EditableMenuIdsExact(init, account);
      assert records == init + [records[|records| - 1]];
    }
  }

  /**
   * Collection follows record order and keeps duplicates: the ids of two
   * consecutive runs of records are the two runs' ids concatenated.
   */
  lemma {:induction false} EditableMenuIdsAppend(a: seq<GroupContent>, b: seq<GroupContent>, account: Account)
    ensures EditableMenuIds(a + b, account) == EditableMenuIds(a, account) + EditableMenuIds(b, account)
    decreases |b|
  {
    if b == [] {
      assert a + b == a;
    } else {
      var b' := b[..|b| - 1];
      assert (a + b)[..|a + b| - 1] == a + b';
      EditableMenuIdsAppend(a, b', account);
    }
  }

  /** No group menu content type on the given group types: no menu at all. */
  lemma NoMenuTypeNoMenus(snapshot: Snapshot, groupTypes: map<string, string>, account: Account)
    requires forall t | t in snapshot.contentTypes :: t.pluginId != MenuPluginId || t.groupType !in groupTypes
    ensures UserGroupMenuIds(snapshot, groupTypes, account) == []
  {
  }

  /**
   * The editable menus of some group types are exactly the menus of group
   * menu records whose content type belongs to one of those group types and
   * whose group grants the account `edit group_menu:menu entity`.
   */
  lemma UserGroupMenuIdsExact(snapshot: Snapshot, groupTypes: map<string, string>, account: Account)
    ensures forall m :: m in UserGroupMenuIds(snapshot, groupTypes, account) <==>
      exists t, r :: t in snapshot.contentTypes && t.pluginId == MenuPluginId && t.groupType in groupTypes &&
                     r in snapshot.contents && r.typeId == t.id && MayEdit(account, r) && r.entityId == m
  {
    var menuTypes := MenuContentTypes(snapshot, groupTypes);
    if menuTypes == [] {
      NoMenuTypeNoMenus(snapshot, groupTypes, account);
    } else {
      var records := LoadByTypes(snapshot.contents, Ids(menuTypes));
      EditableMenuIdsExact(records, account);
    }
  }

  /**
   * A requested name gets an override iff it is a `node.type*` name whose
   * configuration is stored, some group type opted in for its node type and
   * the account may edit at least one of those groups' menus; the override's
   * `available_menus` is the stored list followed by those menus, so it
   * always adds something.
   */
  lemma OverrideExact(storage: map<string, NodeTypeConfig>, snapshot: Snapshot, account: Account,
                      names: seq<string>, name: string)
    ensures var r := Overrides(storage, snapshot, account, names);
      name in r <==>
        name in names && IsNodeTypeName(name) && name in storage &&
        EnabledGroupTypes(snapshot, storage[name].nodeType) != map[] &&
        UserGroupMenuIds(snapshot, EnabledGroupTypes(snapshot, storage[name].nodeType), account) != []
    ensures var r := Overrides(storage, snapshot, account, names);
      name in r ==>
        var menus := UserGroupMenuIds(snapshot, EnabledGroupTypes(snapshot, storage[name].nodeType), account);
        r[name].availableMenus == storage[name].availableMenus + menus &&
        |r[name].availableMenus| > |storage[name].availableMenus|
  {
  }

  /**
   * A name's override does not depend on the other names requested with
   * it: resolving a batch gives each name what resolving it alone gives.
   */
  lemma BatchIndependence(storage: map<string, NodeTypeConfig>, snapshot: Snapshot, account: Account,
                          names: seq<string>, name: string)
    requires name in names
    ensures var batch := Overrides(storage, snapshot, account, names);
      var alone := Overrides(storage, snapshot, account, [name]);
      (name in batch <==> name in alone) && (name in batch ==> batch[name] == alone[name])
  {
    OverrideExact(storage, snapshot, account, names, name);
    OverrideExact(storage, snapshot, account, [name], name);
  }

  /**
   * A menu attached to a group the account may edit, in a group type that
   * opted in for the node type, shows up in that node type's override.
   */
  lemma EditableMenuIsOffered(storage: map<string, NodeTypeConfig>, snapshot: Snapshot, account: Account,
                              names: seq<string>, name: string,
                              nodeForm: GroupContentType, menuType: GroupContentType, record: GroupContent)
    requires name in names && IsNodeTypeName(name) && name in storage
    requires nodeForm in snapshot.contentTypes && OptedIn(nodeForm)
    requires nodeForm.pluginId == "group_node:" + storage[name].nodeType
    requires menuType in snapshot.contentTypes && menuType.pluginId == MenuPluginId
    requires menuType.groupType == nodeForm.groupType
    requires record in snapshot.contents && record.typeId == menuType.id && MayEdit(account, record)
    ensures var r := Overrides(storage, snapshot, account, names);
      name in r && record.entityId in r[name].availableMenus
  {
    var groupTypes := EnabledGroupTypes(snapshot, storage[name].nodeType);
    EnabledGroupTypesExact(snapshot, storage[name].nodeType);
    assert nodeForm.groupType in groupTypes;
    UserGroupMenuIdsExact(snapshot, groupTypes, account);
    assert record.entityId in UserGroupMenuIds(snapshot, groupTypes, account);
    OverrideExact(storage, snapshot, account, names, name);
  }

  /**
   * A menu the account may not edit is never offered through an override
   * unless the stored list already had it or another record offers it.
   */
  lemma OnlyEditableMenusAdded(storage: map<string, NodeTypeConfig>, snapshot: Snapshot, account: Account,
                               names: seq<string>, name: string, m: string)
    requires name in Overrides(storage, snapshot, account, names)
    requires m in Overrides(storage, snapshot, account, names)[name].availableMenus
    requires m !in storage[name].availableMenus
    ensures exists t, r ::
      (t in snapshot.contentTypes && t.pluginId == MenuPluginId &&
       r in snapshot.contents && r.typeId == t.id && MayEdit(account, r) && r.entityId == m)
  {
    OverrideExact(storage, snapshot, account, names, name);
    UserGroupMenuIdsExact(snapshot, EnabledGroupTypes(snapshot, storage[name].nodeType), account);
  }

  // An article node type whose form group type `gt1` opted in, with menu
  // `main` attached to group `g1` of that type.
  const ArticleStorage := map["node.type.article" := NodeTypeConfig("article", ["footer"])]
  const ArticleNodeForm := GroupContentType("gt1-group_node-article", "group_node:article", "gt1", map[OptInKey := Int(1)])
  const ArticleMenuType := GroupContentType("gt1-group_menu-menu", MenuPluginId, "gt1", map[])
  const ArticleRecord := GroupContent("gt1-group_menu-menu", "g1", "main")
  const ArticleSnapshot := Snapshot([ArticleNodeForm, ArticleMenuType], [ArticleRecord])

  lemma ArticleGroupTypes()
    ensures EnabledGroupTypes(ArticleSnapshot, "article") == map["gt1" := "gt1"]
  {
    assert "group_node:" + "article" == "group_node:article";
    assert "group_node:article" != MenuPluginId;
    assert [ArticleNodeForm][..0] == [];
    assert [ArticleNodeForm, ArticleMenuType][..1] == [ArticleNodeForm];
    assert LoadByContentPluginId(ArticleSnapshot.contentTypes, "group_node:article") == [ArticleNodeForm];
    assert OptedIn(ArticleNodeForm);
    assert OptedInGroupTypes([ArticleNodeForm]) == map["gt1" := "gt1"];
  }

  lemma ArticleMenus(grants: set<string>)
    ensures UserGroupMenuIds(ArticleSnapshot, map["gt1" := "gt1"], Account(map["g1" := grants])) ==
      if EditPermission in grants then ["main"] else []
  {
    var account := Account(map["g1" := grants]);
    assert "group_node:article" != MenuPluginId;
    assert [ArticleNodeForm][..0] == [] && [ArticleRecord][..0] == [];
    assert [ArticleNodeForm, ArticleMenuType][..1] == [ArticleNodeForm];
    assert map["gt1" := "gt1"].Keys == {"gt1"};
    assert LoadByPluginAndGroupTypes([ArticleNodeForm], MenuPluginId, {"gt1"}) == [];
    assert MenuContentTypes(ArticleSnapshot, map["gt1" := "gt1"]) == [ArticleMenuType];
    assert Ids([ArticleMenuType]) == {"gt1-group_menu-menu"};
    assert LoadByTypes(ArticleSnapshot.contents, {"gt1-group_menu-menu"}) == [ArticleRecord];
    assert MayEdit(account, ArticleRecord) <==> EditPermission in grants;
    assert EditableMenuIds([ArticleRecord], account) == if EditPermission in grants then ["main"] else [];
  }

  lemma ArticleOverride(grants: set<string>)
    ensures OverrideFor(ArticleStorage, ArticleSnapshot, Account(map["g1" := grants]), "node.type.article") ==
      if EditPermission in grants then Some(Override(["footer", "main"])) else None
  {
    ArticleGroupTypes();
    ArticleMenus(grants);
    assert Read(ArticleStorage, "node.type.article") == Some(NodeTypeConfig("article", ["footer"]));
    assert ["footer"] + ["main"] == ["footer", "main"];
  }

  /**
   * Requesting `node.type.article` with an unrelated name: the override adds
   * `main` to the stored `footer` exactly when the account may edit menus in
   * `g1`, and there is no entry at all otherwise.
   */
  lemma ArticleExample(grants: set<string>)
    ensures Overrides(ArticleStorage, ArticleSnapshot, Account(map["g1" := grants]), ["node.type.article", "system.site"]) ==
      if EditPermission in grants then map["node.type.article" := Override(["footer", "main"])] else map[]
  {
    var account := Account(map["g1" := grants]);
    var names := ["node.type.article", "system.site"];
    assert "system.site"[0] != NodeTypePrefix[0];
    assert IsNodeTypeName("node.type.article");
    assert NodeTypeNames(names) == [] + ["node.type.article"];
    assert OverridesOf(ArticleStorage, ArticleSnapshot, account, []) == map[];
    OverridesOfAppend(ArticleStorage, ArticleSnapshot, account, [], "node.type.article");
    ArticleOverride(grants);
  }

  /**
   * The permission the resolver checks is not one the `group_menu` plugin
   * declares: no role can be granted it through the plugin's permissions.
   */
  lemma EditPermissionUndeclared(pluginLabel: string, entityTypeLabel: string)
    ensures EditPermission !in GroupMenuPlugin.Keys(GroupMenuPlugin.Permissions(MenuPluginId, pluginLabel, entityTypeLabel))
  {
    GroupMenuPlugin.NoEditPermission(MenuPluginId, pluginLabel, entityTypeLabel);
    assert EditPermission[..4] == "edit";
  }

  // ---------------------------------------------------------------------
  // The resolver, with its memo fields

  /**
   * The configuration cache holds what the storage holds, and each cached
   * name was read from the storage exactly once.
   */
  ghost predicate ConfigCacheValid(storage: map<string, NodeTypeConfig>,
                                   configurations: map<string, Option<NodeTypeConfig>>, readLog: seq<string>)
  {
    (forall n | n in configurations :: configurations[n] == Read(storage, n)) &&
    NoDuplicates(readLog) &&
    (forall n :: n in readLog <==> n in configurations)
  }

  /**
   * The group type cache holds what a fresh lookup would find, and each
   * cached node type was looked up exactly once.
   */
  ghost predicate GroupTypeCacheValid(snapshot: Snapshot, groupTypes: map<string, map<string, string>>,
                                      queries: seq<string>)
  {
    (forall t | t in groupTypes :: groupTypes[t] == EnabledGroupTypes(snapshot, t)) &&
    NoDuplicates(queries) &&
    (forall t :: t in queries <==> t in groupTypes)
  }

  /** A name read since an earlier valid state is a name cached since then. */
  lemma NewReadsCached(storage: map<string, NodeTypeConfig>,
                       configurations0: map<string, Option<NodeTypeConfig>>, reads0: seq<string>,
                       configurations1: map<string, Option<NodeTypeConfig>>, reads1: seq<string>)
    requires ConfigCacheValid(storage, configurations0, reads0)
    requires ConfigCacheValid(storage, configurations1, reads1)
    ensures forall n | n in reads1 && n !in reads0 :: n in configurations1 && n !in configurations0
  {
  }

  /** One pass of the `foreach` of `loadOverrides` keeps its loop invariant. */
  lemma OverrideEachStep(storage: map<string, NodeTypeConfig>, snapshot: Snapshot, account: Account,
                         done: seq<string>, name: string, o: Option<Override>,
                         before: map<string, Override>, after: map<string, Override>,
                         configKeys: set<string>, beforeConfigKeys: set<string>, afterConfigKeys: set<string>,
                         groupTypeKeys: set<string>, beforeGroupTypeKeys: set<string>, afterGroupTypeKeys: set<string>)
    requires before == OverridesOf(storage, snapshot, account, done)
    requires o == OverrideFor(storage, snapshot, account, name)
    requires after == if o.Some? then before[name := o.value] else before
    requires beforeConfigKeys == configKeys + NameSet(done)
    requires afterConfigKeys == beforeConfigKeys + {name}
    requires beforeGroupTypeKeys == groupTypeKeys + StoredNodeTypes(storage, done)
    requires afterGroupTypeKeys == beforeGroupTypeKeys + (if name in storage then {storage[name].nodeType} else {})
    ensures after == OverridesOf(storage, snapshot, account, done + [name])
    ensures afterConfigKeys == configKeys + NameSet(done + [name])
    ensures afterGroupTypeKeys == groupTypeKeys + StoredNodeTypes(storage, done + [name])
  {
    OverridesOfAppend(storage, snapshot, account, done, name);
    StoredNodeTypesAppend(storage, done, name);
  }

  class GroupMenuConfigOverrides {
    const storage: map<string, NodeTypeConfig>
    const snapshot: Snapshot
    const currentUser: Account

    /** Configurations read so far, keyed by configuration name. */
    var configurations: map<string, Option<NodeTypeConfig>>
    /** Opted-in group types looked up so far, keyed by node type. */
    var groupTypes: map<string, map<string, string>>

    /** Every name read from the configuration storage, in order. */
    ghost var storageReads: seq<string>
    /** Every node type whose group content types were loaded, in order. */
    ghost var groupTypeQueries: seq<string>

    ghost predicate Valid()
      reads this
    {
      ConfigCacheValid(storage, configurations, storageReads) &&
      GroupTypeCacheValid(snapshot, groupTypes, groupTypeQueries)
    }

    constructor (storage: map<string, NodeTypeConfig>, snapshot: Snapshot, currentUser: Account)
      ensures Valid()
      ensures this.storage == storage && this.snapshot == snapshot && this.currentUser == currentUser
      ensures configurations == map[] && groupTypes == map[]
      ensures storageReads == [] && groupTypeQueries == []
    {
      this.storage := storage;
      this.snapshot := snapshot;
      this.currentUser := currentUser;
      configurations := map[];
      groupTypes := map[];
      storageReads := [];
      groupTypeQueries := [];
    }

    /** `getConfig($name)`: reads the storage only on the first request for `name`. */
    method GetConfig(name: string) returns (config: Option<NodeTypeConfig>)
      requires Valid()
      modifies this`configurations, this`storageReads
      ensures Valid()
      ensures config == Read(storage, name)
      ensures configurations == old(configurations)[name := config]
      ensures storageReads == if name in old(configurations) then old(storageReads) else old(storageReads) + [name]
    {
      if name !in configurations {
        configurations := configurations[name := Read(storage, name)];
        storageReads := storageReads + [name];
      }
      config := configurations[name];
    }

    /** `getEnabledGroupMenuTypesByNodeType($nodeType)`: memoised, an empty result included. */
    method GetEnabledGroupMenuTypesByNodeType(nodeType: string) returns (types: map<string, string>)
      requires Valid()
      modifies this`groupTypes, this`groupTypeQueries
      ensures Valid()
      ensures types == EnabledGroupTypes(snapshot, nodeType)
      ensures groupTypes == old(groupTypes)[nodeType := types]
      ensures groupTypeQueries ==
        if nodeType in old(groupTypes) then old(groupTypeQueries) else old(groupTypeQueries) + [nodeType]
    {
      if nodeType in groupTypes {
        return groupTypes[nodeType];
      }
      var contentTypes := LoadByContentPluginId(snapshot.contentTypes, "group_node:" + nodeType);
      types := map[];
      var i := 0;
      while i < |contentTypes|
        invariant 0 <= i <= |contentTypes|
        invariant types == OptedInGroupTypes(contentTypes[..i])
      {
        var t := contentTypes[i];
        assert contentTypes[..i + 1][..i] == contentTypes[..i];
        if OptedIn(t) {
          types := types[t.groupType := t.groupType];
        }
        i := i + 1;
      }
      assert contentTypes[..i] == contentTypes;
      groupTypeQueries := groupTypeQueries + [nodeType];
      groupTypes := groupTypes[nodeType := types];
    }

    /** `getUserGroupMenuIdsByGroupTypes($groupTypes, $account)`. */
    method GetUserGroupMenuIdsByGroupTypes(groupTypes: map<string, string>, account: Account)
      returns (menus: seq<string>)
      ensures menus == UserGroupMenuIds(snapshot, groupTypes, account)
    {
      var menuTypes := LoadByPluginAndGroupTypes(snapshot.contentTypes, MenuPluginId, groupTypes.Keys);
      if menuTypes == [] {
        return [];
      }
      var records := LoadByTypes(snapshot.contents, Ids(menuTypes));
      menus := [];
      var i := 0;
      while i < |records|
        invariant 0 <= i <= |records|
        invariant menus == EditableMenuIds(records[..i], account)
      {
        assert records[..i + 1][..i] == records[..i];
        if HasPermission(account, records[i].groupId, EditPermission) {
          menus := menus + [records[i].entityId];
        }
        i := i + 1;
      }
      assert records[..i] == records;
    }

    /** The body of `loadOverrides` for one `node.type` name. */
    method OverrideOne(name: string) returns (o: Option<Override>)
      requires Valid()
      modifies this`configurations, this`storageReads, this`groupTypes, this`groupTypeQueries
      ensures Valid()
      ensures o == OverrideFor(storage, snapshot, currentUser, name)
      ensures configurations.Keys == old(configurations).Keys + {name}
      ensures groupTypes.Keys == old(groupTypes).Keys + (if name in storage then {storage[name].nodeType} else {})
      ensures storageReads == old(storageReads) || storageReads == old(storageReads) + [name]
      ensures old(groupTypeQueries) <= groupTypeQueries
    {
      o := None;
      ghost var groupTypeKeys := groupTypes.Keys;
      var current := GetConfig(name);
      assert current.Some? <==> name in storage;
      if current.Some? {
        var types := GetEnabledGroupMenuTypesByNodeType(current.value.nodeType);
        assert groupTypes.Keys == groupTypeKeys + {storage[name].nodeType};
        if types != map[] {
          var menus := GetUserGroupMenuIdsByGroupTypes(types, currentUser);
          if menus != [] {
            o := Some(Override(current.value.availableMenus + menus));
          }
        }
      }
    }

    /**
     * `loadOverrides($names)`: afterwards every requested `node.type` name is
     * cached, and so is the node type of every one of them that is stored.
     */
    /** The `foreach` of `loadOverrides` over the filtered names. */
    method OverrideEach(nodeTypeNames: seq<string>) returns (overrides: map<string, Override>)
      requires Valid()
      modifies this`configurations, this`storageReads, this`groupTypes, this`groupTypeQueries
      ensures Valid()
      ensures overrides == OverridesOf(storage, snapshot, currentUser, nodeTypeNames)
      ensures configurations.Keys == old(configurations).Keys + NameSet(nodeTypeNames)
      ensures groupTypes.Keys == old(groupTypes).Keys + StoredNodeTypes(storage, nodeTypeNames)
      ensures old(storageReads) <= storageReads && old(groupTypeQueries) <= groupTypeQueries
    {
      overrides := map[];
      ghost var configKeys, groupTypeKeys := configurations.Keys, groupTypes.Keys;
      var i := 0;
      while i < |nodeTypeNames|
        invariant 0 <= i <= |nodeTypeNames|
        invariant Valid()
        invariant overrides == OverridesOf(storage, snapshot, currentUser, nodeTypeNames[..i])
        invariant configurations.Keys == configKeys + NameSet(nodeTypeNames[..i])
        invariant groupTypes.Keys == groupTypeKeys + StoredNodeTypes(storage, nodeTypeNames[..i])
        invariant old(storageReads) <= storageReads && old(groupTypeQueries) <= groupTypeQueries
      {
        var name := nodeTypeNames[i];
        assert nodeTypeNames[..i + 1] == nodeTypeNames[..i] + [name];
        ghost var before, beforeConfigKeys, beforeGroupTypeKeys := overrides, configurations.Keys, groupTypes.Keys;
        var o := OverrideOne(name);
        if o.Some? {
          overrides := overrides[name := o.value];
        }
        OverrideEachStep(storage, snapshot, currentUser, nodeTypeNames[..i], name, o, before, overrides,
                         configKeys, beforeConfigKeys, configurations.Keys,
                         groupTypeKeys, beforeGroupTypeKeys, groupTypes.Keys);
        i := i + 1;
      }
      assert nodeTypeNames[..i] == nodeTypeNames;
    }

    /**
     * `loadOverrides($names)`: afterwards every requested `node.type` name is
     * cached, and so is the node type of every one of them that is stored.
     */
    method LoadOverrides(names: seq<string>) returns (overrides: map<string, Override>)
      requires Valid()
      modifies this`configurations, this`storageReads, this`groupTypes, this`groupTypeQueries
      ensures Valid()
      ensures overrides == Overrides(storage, snapshot, currentUser, names)
      ensures configurations.Keys == old(configurations).Keys + NameSet(NodeTypeNames(names))
      ensures groupTypes.Keys == old(groupTypes).Keys + StoredNodeTypes(storage, NodeTypeNames(names))
      ensures forall n | n in storageReads && n !in old(storageReads) :: n in names && IsNodeTypeName(n)
      ensures old(storageReads) <= storageReads && old(groupTypeQueries) <= groupTypeQueries
    {
      overrides := map[];
      ghost var configurations0, reads0 := configurations, storageReads;
      var nodeTypeNames := NodeTypeNames(names);
      if nodeTypeNames != [] {
        overrides := OverrideEach(nodeTypeNames);
      }
      NewReadsCached(storage, configurations0, reads0, configurations, storageReads);
    }
  }
}
