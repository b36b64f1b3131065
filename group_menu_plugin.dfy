/**
 * The `group_menu` content enabler plugin: the permissions it declares, the
 * permission that guards each operation on a group menu relation, the group
 * operations it offers and its default configuration.
 */
module GroupMenuPlugin {
  import opened Php
  import opened Seqs
  import opened Group

  /** The four operations a permission is about. */
  datatype Op = View | Create | Update | Delete

  /** Whether a permission is about the menu entity itself or about its relation to the group. */
  datatype Kind = Entity | Relationship

  function OpName(op: Op): string
  {
    match op
    case View => "view"
    case Create => "create"
    case Update => "update"
    case Delete => "delete"
  }

  function KindName(kind: Kind): string
  {
    match kind
    case Entity => "entity"
    case Relationship => "content"
  }

  /** The permission string `"<op> <plugin_id> <entity|content>"`. */
  function PermissionKey(op: Op, pluginId: string, kind: Kind): (key: string)
    ensures StartsWith(key, OpName(op) + " " + pluginId + " ")
  {
    OpName(op) + " " + pluginId + " " + KindName(kind)
  }

  /** One declared permission: its title, its optional description and their placeholder arguments. */
  datatype Permission = Permission(
    key: string,
    title: string,
    description: Option<string>,
    titleArgs: map<string, string>,
    descriptionArgs: map<string, string>)

  const EntityPrefix := "%plugin_name - Entity:"
  const RelationPrefix := "%plugin_name - Relationship:"

  function EntityTitle(op: Op): string
  {
    match op
    case View => " View %entity_type entities"
    case Create => " Add %entity_type entities"
    case Update => " Edit %entity_type entities"
    case Delete => " Delete %entity_type entities"
  }

  function RelationTitle(op: Op): string
  {
    match op
    case View => " View entity relations"
    case Create => " Add entity relation"
    case Update => " Edit entity relations"
    case Delete => " Delete entity relations"
  }

  function Title(op: Op, kind: Kind): string
  {
    match kind
    case Entity => EntityPrefix + EntityTitle(op)
    case Relationship => RelationPrefix + RelationTitle(op)
  }

  function Description(op: Op, kind: Kind): Option<string>
  {
    match (op, kind)
    case (Create, Entity) => Some("Allows you to create a new %entity_type entity and relate it to the group.")
    case (Create, Relationship) => Some("Allows you to relate an existing %entity_type entity to the group.")
    case _ => None
  }

  /** The `title_args` / `description_args` shared by every permission. */
  function TranslationArgs(pluginLabel: string, entityTypeLabel: string): map<string, string>
  {
    map["%plugin_name" := pluginLabel, "%entity_type" := entityTypeLabel]
  }

  function Entry(op: Op, kind: Kind, pluginId: string, args: map<string, string>): Permission
  {
    Permission(PermissionKey(op, pluginId, kind), Title(op, kind), Description(op, kind), args, args)
  }

  /** The (operation, kind) of each declared permission, in declaration order. */
  const Table: seq<(Op, Kind)> := [
    (View, Entity), (Create, Entity), (Update, Entity), (Delete, Entity),
    (View, Relationship), (Create, Relationship), (Update, Relationship), (Delete, Relationship)]

  /** `getPermissions()`: the eight permissions, in declaration order. */
  function Permissions(pluginId: string, pluginLabel: string, entityTypeLabel: string): (perms: seq<Permission>)
    ensures |perms| == 8
    ensures forall p | p in perms ::
      p.titleArgs == p.descriptionArgs == TranslationArgs(pluginLabel, entityTypeLabel)
  {
    var args := TranslationArgs(pluginLabel, entityTypeLabel);
    seq(|Table|, i requires 0 <= i < |Table| => Entry(Table[i].0, Table[i].1, pluginId, args))
  }

  function Keys(perms: seq<Permission>): seq<string>
  {
    seq(|perms|, i requires 0 <= i < |perms| => perms[i].key)
  }

  lemma ConcatStartsWith(a: string, b: string)
    ensures StartsWith(a + b, a)
  {
    assert (a + b)[..|a|] == a;
  }

  /** Distinct operations or kinds give distinct permission strings. */
  lemma PermissionKeyInjective(op1: Op, kind1: Kind, op2: Op, kind2: Kind, pluginId: string)
    requires PermissionKey(op1, pluginId, kind1) == PermissionKey(op2, pluginId, kind2)
    ensures op1 == op2 && kind1 == kind2
  {
    var k1 := PermissionKey(op1, pluginId, kind1);
    var k2 := PermissionKey(op2, pluginId, kind2);
    assert k1[0] == OpName(op1)[0];
    assert k2[0] == OpName(op2)[0];
    assert k1[|k1| - 1] == KindName(kind1)[|KindName(kind1)| - 1];
    assert k2[|k2| - 1] == KindName(kind2)[|KindName(kind2)| - 1];
  }

  lemma KeysAt(pluginId: string, pluginLabel: string, entityTypeLabel: string)
    ensures var keys := Keys(Permissions(pluginId, pluginLabel, entityTypeLabel));
      |keys| == |Table| &&
      forall i | 0 <= i < |Table| :: keys[i] == PermissionKey(Table[i].0, pluginId, Table[i].1)
  {
  }

  /** Where `(op, kind)` sits in the declaration order. */
  function TableIndex(op: Op, kind: Kind): (i: nat)
    ensures i < |Table| && Table[i] == (op, kind)
  {
    (match op case View => 0 case Create => 1 case Update => 2 case Delete => 3) +
    (if kind == Entity then 0 else 4)
  }

  lemma TableIndexInverse()
    ensures forall i | 0 <= i < |Table| :: TableIndex(Table[i].0, Table[i].1) == i
  {
  }

  /** No key is declared twice. */
  lemma KeysDistinct(pluginId: string, pluginLabel: string, entityTypeLabel: string)
    ensures NoDuplicates(Keys(Permissions(pluginId, pluginLabel, entityTypeLabel)))
  {
    var keys := Keys(Permissions(pluginId, pluginLabel, entityTypeLabel));
    KeysAt(pluginId, pluginLabel, entityTypeLabel);
    TableIndexInverse();
    forall i, j | 0 <= i < j < |keys|
      ensures keys[i] != keys[j]
    {
      if keys[i] == keys[j] {
        PermissionKeyInjective(Table[i].0, Table[i].1, Table[j].0, Table[j].1, pluginId);
      }
    }
  }

  /** Every (operation, kind) pair has its key declared. */
  lemma KeysComplete(pluginId: string, pluginLabel: string, entityTypeLabel: string)
    ensures forall op: Op, kind: Kind :: PermissionKey(op, pluginId, kind) in Keys(Permissions(pluginId, pluginLabel, entityTypeLabel))
  {
    var keys := Keys(Permissions(pluginId, pluginLabel, entityTypeLabel));
    KeysAt(pluginId, pluginLabel, entityTypeLabel);
    forall op: Op, kind: Kind
      ensures PermissionKey(op, pluginId, kind) in keys
    {
      assert keys[TableIndex(op, kind)] == PermissionKey(op, pluginId, kind);
    }
  }

  /** Every declared key is the key of some (operation, kind) pair. */
  lemma KeysWellFormed(pluginId: string, pluginLabel: string, entityTypeLabel: string)
    ensures forall key | key in Keys(Permissions(pluginId, pluginLabel, entityTypeLabel)) ::
      exists op: Op, kind: Kind :: key == PermissionKey(op, pluginId, kind)
  {
    var keys := Keys(Permissions(pluginId, pluginLabel, entityTypeLabel));
    KeysAt(pluginId, pluginLabel, entityTypeLabel);
    forall key | key in keys
      ensures exists op: Op, kind: Kind :: key == PermissionKey(op, pluginId, kind)
    {
      var i :| 0 <= i < |keys| && keys[i] == key;
      assert key == PermissionKey(Table[i].0, pluginId, Table[i].1);
    }
  }

  /**
   * `getPermissions()` declares exactly the eight keys
   * {view, create, update, delete} x {entity, content}, each once.
   */
  lemma PermissionKeysExact(pluginId: string, pluginLabel: string, entityTypeLabel: string)
    ensures var keys := Keys(Permissions(pluginId, pluginLabel, entityTypeLabel));
      |keys| == 8 &&
      NoDuplicates(keys) &&
      (forall op: Op, kind: Kind :: PermissionKey(op, pluginId, kind) in keys) &&
      (forall key | key in keys :: exists op: Op, kind: Kind :: key == PermissionKey(op, pluginId, kind))
  {
    KeysDistinct(pluginId, pluginLabel, entityTypeLabel);
    KeysComplete(pluginId, pluginLabel, entityTypeLabel);
    KeysWellFormed(pluginId, pluginLabel, entityTypeLabel);
  }

  /** The title prefix and the description rule, per operation and kind. */
  lemma EntryShape(op: Op, kind: Kind)
    ensures kind == Entity ==> StartsWith(Title(op, kind), EntityPrefix)
    ensures kind == Relationship ==> StartsWith(Title(op, kind), RelationPrefix)
    ensures Description(op, kind).Some? <==> op == Create
  {
    match kind
    case Entity => ConcatStartsWith(EntityPrefix, EntityTitle(op));
    case Relationship => ConcatStartsWith(RelationPrefix, RelationTitle(op));
  }

  /**
   * Entity permissions are titled `%plugin_name - Entity: ...`, relation
   * permissions `%plugin_name - Relationship: ...`; only the two `create`
   * permissions carry a description; every entry carries the same
   * placeholder arguments.
   */
  lemma PermissionTitlesAndDescriptions(pluginId: string, pluginLabel: string, entityTypeLabel: string)
    ensures var perms := Permissions(pluginId, pluginLabel, entityTypeLabel);
      forall i | 0 <= i < |perms| ::
        var (op, kind) := Table[i];
        perms[i].key == PermissionKey(op, pluginId, kind) &&
        (kind == Entity ==> StartsWith(perms[i].title, EntityPrefix)) &&
        (kind == Relationship ==> StartsWith(perms[i].title, RelationPrefix)) &&
        (perms[i].description.Some? <==> op == Create) &&
        perms[i].titleArgs == perms[i].descriptionArgs == TranslationArgs(pluginLabel, entityTypeLabel)
  {
    forall i | 0 <= i < |Table| {
      EntryShape(Table[i].0, Table[i].1);
    }
  }

  /** No declared permission starts with `edit`: the plugin has no "edit" permission of any kind. */
  lemma NoEditPermission(pluginId: string, pluginLabel: string, entityTypeLabel: string)
    ensures forall key | key in Keys(Permissions(pluginId, pluginLabel, entityTypeLabel)) :: !StartsWith(key, "edit")
  {
    PermissionKeysExact(pluginId, pluginLabel, entityTypeLabel);
    forall op: Op, kind: Kind
      ensures !StartsWith(PermissionKey(op, pluginId, kind), "edit")
    {
      StartsWithFirstChar(PermissionKey(op, pluginId, kind), "edit");
    }
  }

  // ---------------------------------------------------------------------
  // Access checks and operations

  /** `GroupAccessResult::allowedIfHasGroupPermission()`: allowed, or neutral. */
  datatype AccessResult = Allowed | Neutral

  function AllowedIfHasGroupPermission(account: Account, groupId: string, permission: string): AccessResult
  {
    if HasPermission(account, groupId, permission) then Allowed else Neutral
  }

  /** `updateAccess()` on a group menu relation in group `groupId`. */
  function UpdateAccess(pluginId: string, account: Account, groupId: string): (r: AccessResult)
    ensures r == Allowed <==> HasPermission(account, groupId, PermissionKey(Update, pluginId, Relationship))
  {
    AllowedIfHasGroupPermission(account, groupId, PermissionKey(Update, pluginId, Relationship))
  }

  /** `deleteAccess()` on a group menu relation in group `groupId`. */
  function DeleteAccess(pluginId: string, account: Account, groupId: string): (r: AccessResult)
    ensures r == Allowed <==> HasPermission(account, groupId, PermissionKey(Delete, pluginId, Relationship))
  {
    AllowedIfHasGroupPermission(account, groupId, PermissionKey(Delete, pluginId, Relationship))
  }

  /** The permissions guarding update, delete and create are among the declared ones. */
  lemma GuardsAreDeclared(pluginId: string, pluginLabel: string, entityTypeLabel: string)
    ensures var keys := Keys(Permissions(pluginId, pluginLabel, entityTypeLabel));
      PermissionKey(Update, pluginId, Relationship) in keys &&
      PermissionKey(Delete, pluginId, Relationship) in keys &&
      PermissionKey(Create, pluginId, Entity) in keys
  {
    PermissionKeysExact(pluginId, pluginLabel, entityTypeLabel);
  }

  /** A group operation link: its title, route, route parameters and weight. */
  datatype Operation = Operation(title: string, route: string, routeParams: map<string, string>, weight: int)

  const CreateOperation := "groupmenu-create"

  /** `getGroupOperations($group)` for the current account. */
  function GroupOperations(pluginId: string, account: Account, groupId: string): (ops: map<string, Operation>)
    ensures ops.Keys == {} || ops.Keys == {CreateOperation}
    ensures CreateOperation in ops <==> HasPermission(account, groupId, PermissionKey(Create, pluginId, Entity))
    ensures CreateOperation in ops ==>
      ops[CreateOperation].weight == 30 &&
      ops[CreateOperation].route == "entity.group_content.create_form" &&
      ops[CreateOperation].routeParams == map["group" := groupId, "plugin_id" := pluginId]
  {
    if HasPermission(account, groupId, PermissionKey(Create, pluginId, Entity)) then
      var params := map["group" := groupId, "plugin_id" := pluginId];
      map[CreateOperation := Operation("Create menu", "entity.group_content.create_form", params, 30)]
    else
      map[]
  }

  // ---------------------------------------------------------------------
  // Default configuration

  /** `defaultConfiguration()`: the parent's defaults with cardinality 1 and the node form menu option on. */
  function DefaultConfiguration(parent: map<string, Value>): (config: map<string, Value>)
    ensures config.Keys == parent.Keys + {"entity_cardinality", "node_form_group_menu"}
    ensures config["entity_cardinality"] == Int(1) && config["node_form_group_menu"] == Int(1)
    ensures forall k | k in parent && k != "entity_cardinality" && k != "node_form_group_menu" :: config[k] == parent[k]
  {
    parent["entity_cardinality" := Int(1)]["node_form_group_menu" := Int(1)]
  }

  /** Applying the defaults twice changes nothing, and the node form menu option reads as set. */
  lemma DefaultConfigurationStable(parent: map<string, Value>)
    ensures DefaultConfiguration(DefaultConfiguration(parent)) == DefaultConfiguration(parent)
    ensures !EntryEmpty(DefaultConfiguration(parent), "node_form_group_menu")
  {
  }
}
