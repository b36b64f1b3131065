# groupmenu, modelled in Dafny

A model of the logic of the Drupal `groupmenu` module, which lets menus be
attached to groups of the Group module. Three pieces are modelled:

- **The configuration override resolver** (`config_overrides.dfy`,
  `GroupMenuConfigOverrides`). When the host loads `node.type.*`
  configurations, it adds to each one's `menu_ui` `available_menus` the menus
  the current user may edit. Those are the menus attached to groups whose group type opted in
  (`node_form_group_menu`) for that node type's form. It is a class with the
  source's two memo fields, `configurations` and `groupTypes`. Two ghost logs
  record every storage read and every group-type lookup. `Valid()` ties each cache
  entry to what a fresh lookup would give and states that each name and each node type was
  looked up exactly once. Each method is proved equal to a pure function
  (`Overrides`, `EnabledGroupTypes`, `UserGroupMenuIds`), and the lemmas
  state the properties of those functions.
- **The main menu overview** (`menu_list_builder.dfy`,
  `GroupMenuListBuilder::getEntityIds`). It builds the duplicate-free list
  of menus attached to groups, then lists every other stored menu sorted by id.
- **The `group_menu` plugin tables** (`group_menu_plugin.dfy`). These are the eight
  declared permissions, the permissions guarding update, delete and create,
  the group operation and the default configuration.

`group.dfy` holds the Group module's entities (group content types, group
content records, accounts). It also holds the framework lookups this module calls, as
functions over a `Snapshot` of the stored entities:
`loadByContentPluginId`, `loadByProperties` and `hasPermission`. `php.dfy` holds PHP's
`empty()`, and `seqs.dfy` holds an order-preserving filter, the first-occurrence
de-duplication an `in_array` guard produces, and the string order used for
sorting ids.

The resolver checks the permission `edit group_menu:menu entity` on each
menu's group (src/GroupMenuConfigOverrides.php:167). `available_menus` is a
list extended with `array_merge`, with duplicates kept (line 96).
`ConfigOverrides.EditPermissionUndeclared` proves that the `group_menu`
plugin does not declare that permission. Its declared keys are only
`view`, `create`, `update` or `delete`, followed by the plugin id and `entity` or `content`.

## Model

| member | source | states |
|---|---|---|
| `ConfigOverrides.NodeTypeNames` | src/GroupMenuConfigOverrides.php:77-79 | keeps exactly the requested names that start with `node.type` |
| `ConfigOverrides.NodeTypeNamesAppend` | src/GroupMenuConfigOverrides.php:77-79 | the filter keeps the requested order: filtering two runs of names gives each run's names in turn |
| `ConfigOverrides.PrefixTestIsBare` | src/GroupMenuConfigOverrides.php:78 | the test is a bare prefix test: `node.type_x` passes it, `core.node.type` and `node.typ` do not |
| `ConfigOverrides.NoNodeTypeNamesNoOverrides` | src/GroupMenuConfigOverrides.php:75-81 | with no `node.type` name among the requested ones the result is the empty map |
| `ConfigOverrides.Overrides` | src/GroupMenuConfigOverrides.php:74-106 | every key of the result is a requested name that passes the prefix test |
| `ConfigOverrides.OverrideFor` | src/GroupMenuConfigOverrides.php:83-100 | the override one name receives: none unless its config is stored, its enabled group types are non-empty and its editable menus are non-empty, else the stored list followed by those menus; it has no contract of its own, `OverrideExact` states these facts |
| `ConfigOverrides.OverrideExact` | src/GroupMenuConfigOverrides.php:91-99 | a name gets an override iff it passes the prefix test, its config is stored, its enabled group types are non-empty and its editable menus are non-empty; the override's `available_menus` is the stored list followed by those menus, so it is longer than the stored list |
| `ConfigOverrides.BatchIndependence` | src/GroupMenuConfigOverrides.php:82-102 | a name's override is the same whether it is resolved with other names or alone |
| `ConfigOverrides.OptedInGroupTypes` | src/GroupMenuConfigOverrides.php:126-132 | every collected group type is stored with key equal to value |
| `ConfigOverrides.EnabledGroupTypes` | src/GroupMenuConfigOverrides.php:122-132 | the group types a cache miss collects for a node type, each keyed by itself |
| `ConfigOverrides.EnabledGroupTypesExact` | src/GroupMenuConfigOverrides.php:122-132 | the enabled group types of a node type are exactly the group types of its `group_node:<type>` content types with a non-empty `node_form_group_menu`, each keyed by itself |
| `ConfigOverrides.EditableMenuIdsExact` | src/GroupMenuConfigOverrides.php:164-170 | a menu id is collected iff some record carries it and the record's group grants `edit group_menu:menu entity` |
| `ConfigOverrides.EditableMenuIdsAppend` | src/GroupMenuConfigOverrides.php:164-170 | collection follows record order and keeps duplicates: it distributes over concatenation of the records |
| `ConfigOverrides.UserGroupMenuIds` | src/GroupMenuConfigOverrides.php:146-173 | the editable-menu list of the given group types: the ids of the group menu records on those types whose group grants the edit permission, in record order; it has no contract of its own, `UserGroupMenuIdsExact` and `EditableMenuIdsAppend` state these facts |
| `ConfigOverrides.NoMenuTypeNoMenus` | src/GroupMenuConfigOverrides.php:147-156 | with no `group_menu:menu` content type on the given group types the editable-menu list is empty |
| `ConfigOverrides.UserGroupMenuIdsExact` | src/GroupMenuConfigOverrides.php:146-173 | the editable menus are exactly those of group menu records, of a content type on one of the given group types, whose group grants the edit permission |
| `ConfigOverrides.EditableMenuIsOffered` | src/GroupMenuConfigOverrides.php:91-99 | a menu attached to a group the user may edit, of a group type opted in for the node type, appears in that node type's override |
| `ConfigOverrides.OnlyEditableMenusAdded` | src/GroupMenuConfigOverrides.php:93-99 | every menu an override adds to the stored list comes from a group menu record whose group grants the edit permission |
| `ConfigOverrides.ArticleOverride` | src/GroupMenuConfigOverrides.php:91-99 | in the article example the node type's override is `footer, main` exactly when `g1` grants the edit permission |
| `ConfigOverrides.ArticleExample` | src/GroupMenuConfigOverrides.php:74-106 | for one article node type, one opted-in group type and one attached menu `main`, the override is `footer, main` with the edit permission and absent without it |
| `ConfigOverrides.EditPermissionUndeclared` | src/GroupMenuConfigOverrides.php:167 | the permission the resolver checks is not among the keys the `group_menu:menu` plugin declares |
| `ConfigOverrides.GroupMenuConfigOverrides.constructor` | src/GroupMenuConfigOverrides.php:65-69 | starts with both memo fields empty and nothing read |
| `ConfigOverrides.GroupMenuConfigOverrides.GetConfig` | src/GroupMenuConfigOverrides.php:178-183 | returns the stored config; reads the storage only when the name is not cached, so each name is read at most once |
| `ConfigOverrides.GroupMenuConfigOverrides.GetEnabledGroupMenuTypesByNodeType` | src/GroupMenuConfigOverrides.php:117-135 | returns the enabled group types; a cached node type, an empty result included, is answered without a new lookup |
| `ConfigOverrides.GroupMenuConfigOverrides.GetUserGroupMenuIdsByGroupTypes` | src/GroupMenuConfigOverrides.php:146-173 | its loop returns exactly `UserGroupMenuIds`, the editable-menu list |
| `ConfigOverrides.GroupMenuConfigOverrides.OverrideOne` | src/GroupMenuConfigOverrides.php:82-99 | one pass of the loop: returns `OverrideFor` of the name, keeps the caches valid, leaves the name cached and, if it is stored, its node type; reads the storage for that name at most |
| `ConfigOverrides.GroupMenuConfigOverrides.OverrideEach` | src/GroupMenuConfigOverrides.php:81-101 | the `foreach` returns `OverridesOf` the filtered names and caches exactly those names and the node types of the stored ones, keeping the caches valid |
| `ConfigOverrides.GroupMenuConfigOverrides.LoadOverrides` | src/GroupMenuConfigOverrides.php:74-106 | returns `Overrides` of the requested names and keeps the caches valid; afterwards the configuration cache gained exactly the requested `node.type` names and the group type cache exactly their stored node types; only requested `node.type` names are read |
| `GroupMenuPlugin.Permissions` | src/Plugin/GroupContentEnabler/GroupMenu.php:53-98 | the eight declared permissions, all carrying the same title and description arguments |
| `GroupMenuPlugin.PermissionKey` | src/Plugin/GroupContentEnabler/GroupMenu.php:70-95 | each key has the form `"<op> <plugin_id> <kind>"`, kind being `entity` or `content` |
| `GroupMenuPlugin.PermissionKeyInjective` | src/Plugin/GroupContentEnabler/GroupMenu.php:70-95 | different operation or kind gives a different key |
| `GroupMenuPlugin.KeysDistinct` | src/Plugin/GroupContentEnabler/GroupMenu.php:70-95 | no permission key is declared twice |
| `GroupMenuPlugin.KeysComplete` | src/Plugin/GroupContentEnabler/GroupMenu.php:70-95 | the key of every operation and kind is declared |
| `GroupMenuPlugin.KeysWellFormed` | src/Plugin/GroupContentEnabler/GroupMenu.php:70-95 | every declared key is the key of some operation and kind |
| `GroupMenuPlugin.PermissionKeysExact` | src/Plugin/GroupContentEnabler/GroupMenu.php:53-98 | exactly 8 keys, all distinct, exactly `{view,create,update,delete} x {entity,content}` |
| `GroupMenuPlugin.PermissionTitlesAndDescriptions` | src/Plugin/GroupContentEnabler/GroupMenu.php:60-95 | entity titles start `%plugin_name - Entity:`, relation titles `%plugin_name - Relationship:`; only `create` entries have a description; every entry has the same title and description arguments |
| `GroupMenuPlugin.NoEditPermission` | src/Plugin/GroupContentEnabler/GroupMenu.php:70-95 | no declared key starts with `edit` |
| `GroupMenuPlugin.UpdateAccess` | src/Plugin/GroupContentEnabler/GroupMenu.php:103-107 | allowed iff the group grants `update <plugin_id> content` |
| `GroupMenuPlugin.DeleteAccess` | src/Plugin/GroupContentEnabler/GroupMenu.php:112-116 | allowed iff the group grants `delete <plugin_id> content` |
| `GroupMenuPlugin.GuardsAreDeclared` | src/Plugin/GroupContentEnabler/GroupMenu.php:103-116 | the update, delete and create guards are declared permissions |
| `GroupMenuPlugin.GroupOperations` | src/Plugin/GroupContentEnabler/GroupMenu.php:33-48 | the result is empty or exactly `groupmenu-create`; that entry is present iff the group grants `create <plugin_id> entity`, and has weight 30 and the group content create route with the group and plugin id |
| `GroupMenuPlugin.DefaultConfiguration` | src/Plugin/GroupContentEnabler/GroupMenu.php:121-126 | the parent's defaults with `entity_cardinality = 1` and `node_form_group_menu = 1`; every other key unchanged |
| `GroupMenuPlugin.DefaultConfigurationStable` | src/Plugin/GroupContentEnabler/GroupMenu.php:121-126 | applying the defaults twice changes nothing, and `node_form_group_menu` is then not empty |
| `MenuListBuilder.ListedMenuIds` | src/GroupMenuListBuilder.php:16-49 | what the overview lists: strictly sorted, and only stored menus outside the exclusion list |
| `MenuListBuilder.GetEntityIds` | src/GroupMenuListBuilder.php:16-49 | its `in_array` loop builds the exclusion list and the query returns exactly `ListedMenuIds`, whose order and contents `ExclusionListExact` and `ListedMenuIdsExact` state |
| `MenuListBuilder.NoMenuTypeListsNothing` | src/GroupMenuListBuilder.php:18-21 | without a `group_menu:menu` content type the result is empty |
| `MenuListBuilder.ExclusionListExact` | src/GroupMenuListBuilder.php:29-36 | the exclusion list has no duplicates, holds exactly the menus of the group menu records, in order of first occurrence |
| `MenuListBuilder.ListedMenuIdsExact` | src/GroupMenuListBuilder.php:39-48 | once a group menu content type exists, the result is strictly sorted and holds exactly the stored menus not in the exclusion list |
| `MenuListBuilder.EarlyExitHidesUngroupedMenus` | src/GroupMenuListBuilder.php:19-21 | with no group content types and one stored menu `main`, nothing is excluded yet nothing is listed |
| `MenuListBuilder.IntendedListsEveryUngroupedMenu` | src/GroupMenuListBuilder.php:39-48 | without the early exit every stored menu outside the exclusion list is listed, sorted, and the result equals the as-written one whenever a group menu content type exists |

## Findings

| source | as written | input that shows it | evidently intended | confidence | as-written member | corrected member |
|---|---|---|---|---|---|---|
| src/GroupMenuListBuilder.php:19-21 | returns no menu ids at all when no `group_menu:menu` content type exists | no group content types, one stored menu `main` | list every stored menu, since none of them is group content | medium, not executed | `MenuListBuilder.EarlyExitHidesUngroupedMenus` | `MenuListBuilder.IntendedListsEveryUngroupedMenu` |

## Left out

- src/GroupMenuContentListBuilder.php is not part of this model: it only renders the group menu list (columns, labels, URLs, redirect destinations).
- Framework services are not modelled as behaviour. Group content type and group content loading, configuration storage reads and group permission checks are functions over a `Snapshot`, a stored-config map and an `Account`'s per-group permission sets.
- Records come back from `loadByProperties` in the order of the `Snapshot` sequence. The storage's real load order is not modelled.
- `ConfigOverrides.GroupMenuConfigOverrides.LoadOverrides`: when a `node.type` name has no stored configuration, the model gives no override and does no group-type lookup. PHP also gives no override, but first looks up (and caches) the group types of a null node type. PHP's null/false coercions are not modelled.
- The cross-request lifetime of the memo fields belongs to the host. The model covers one resolver instance over one unchanging snapshot.
- `getCacheSuffix`, `getCacheableMetadata` and `createConfigObject` return constants and are not modelled.
- `buildConfigurationForm` is not modelled. It only disables a form field.
- Translation (`$this->t`) is not modelled: titles and descriptions are the untranslated strings. The operation's `Url` object is its route name and parameters.
- `MenuListBuilder.GetEntityIds`: the pager (`$this->limit`) is not modelled, so the result is the unpaged query. The ids come back as a list, not as PHP's id-keyed array.
- The query sorts by character code. The database collation is not modelled.
- PHP's loose comparisons are not modelled: `in_array` at src/GroupMenuListBuilder.php:33 treats numeric strings such as `10` and `1e1` as equal, while `Seqs.Dedup` compares exactly. A stored node type without `third_party_settings.menu_ui.available_menus` (null passed to `array_merge` at src/GroupMenuConfigOverrides.php:96) cannot be represented by `NodeTypeConfig`.
- The plugin label and the entity type's lower-case label are inputs to `GroupMenuPlugin.Permissions`, and the plugin id is an input to the plugin functions. The current user is a parameter of `GroupOperations`.
- PHP's conversion of numeric-string array keys to integers is not modelled.
