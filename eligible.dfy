/**
 * The listing of eligible role scopes used by the `elevate` command: every
 * entry of the `value` array becomes a `ScopeEntry` of four strings, in order.
 * The HTTP exchange is replaced by the decoded response body.
 */
module Eligible {
  import opened Wrappers
  import opened Json
  import RoleModel

  /** `ScopeEntry`: the four strings, kept verbatim. */
  datatype ScopeEntry = ScopeEntry(name: string, scope: string, scopeName: string, roleDefinitionId: string)

  datatype ListError = MissingValueArray | NoRoleName | NoScopeId | NoScopeName | NoRoleDefinitionId

  /** One entry: the four fields are required, in this order. */
  function EntryOf(v: Value): (r: Result<ScopeEntry, ListError>)
    ensures r.Ok? <==>
      && AsStr(At(v, RoleModel.RoleNamePath)).Some?
      && AsStr(At(v, RoleModel.ScopeIdPath)).Some?
      && AsStr(At(v, RoleModel.ScopeNamePath)).Some?
      && AsStr(At(v, RoleModel.RoleDefinitionIdPath)).Some?
    ensures r.Ok? ==> r.value == ScopeEntry(
      AsStr(At(v, RoleModel.RoleNamePath)).value, AsStr(At(v, RoleModel.ScopeIdPath)).value,
      AsStr(At(v, RoleModel.ScopeNamePath)).value, AsStr(At(v, RoleModel.RoleDefinitionIdPath)).value)
    ensures r.Err? && AsStr(At(v, RoleModel.RoleNamePath)).None? ==> r.error == NoRoleName
    ensures AsStr(At(v, RoleModel.RoleNamePath)).Some? && AsStr(At(v, RoleModel.ScopeIdPath)).None?
            ==> r == Err(NoScopeId)
    ensures AsStr(At(v, RoleModel.RoleNamePath)).Some? && AsStr(At(v, RoleModel.ScopeIdPath)).Some?
            && AsStr(At(v, RoleModel.ScopeNamePath)).None?
            ==> r == Err(NoScopeName)
    ensures AsStr(At(v, RoleModel.RoleNamePath)).Some? && AsStr(At(v, RoleModel.ScopeIdPath)).Some?
            && AsStr(At(v, RoleModel.ScopeNamePath)).Some? && AsStr(At(v, RoleModel.RoleDefinitionIdPath)).None?
            ==> r == Err(NoRoleDefinitionId)
  {
    var name := AsStr(At(v, RoleModel.RoleNamePath));
    var scope := AsStr(At(v, RoleModel.ScopeIdPath));
    var scopeName := AsStr(At(v, RoleModel.ScopeNamePath));
    var definition := AsStr(At(v, RoleModel.RoleDefinitionIdPath));
    if name.None? then Err(NoRoleName)
    else if scope.None? then Err(NoScopeId)
    else if scopeName.None? then Err(NoScopeName)
    else if definition.None? then Err(NoRoleDefinitionId)
    else Ok(ScopeEntry(name.value, scope.value, scopeName.value, definition.value))
  }

  /**
   * Every entry the role-assignment parser accepts is accepted here with the
   * same strings; this listing is the more lenient of the two.
   */
  lemma AcceptsWhatAssignmentParserAccepts(v: Value, withPrincipal: bool)
    requires RoleModel.ParseEntry(v, withPrincipal).Ok?
    ensures EntryOf(v).Ok?
    ensures var a := RoleModel.ParseEntry(v, withPrincipal).value;
      EntryOf(v).value == ScopeEntry(a.role.name, a.scope.path, a.scopeName, a.roleDefinitionId)
  {
  }

  /** A scope id without a leading `/` is listed here, though the role-assignment parser rejects it. */
  lemma NoLeadingSlashCheck()
    ensures var v := Object(map["properties" := Object(map[
        "roleDefinitionId" := Str("d"),
        "expandedProperties" := Object(map[
          "roleDefinition" := Object(map["displayName" := Str("Reader")]),
          "scope" := Object(map["id" := Str("x"), "displayName" := Str("X")])])])]);
      EntryOf(v) == Ok(ScopeEntry("Reader", "x", "X", "d")) && RoleModel.ParseEntry(v, false).Err?
  {
    var v := Object(map["properties" := Object(map[
        "roleDefinitionId" := Str("d"),
        "expandedProperties" := Object(map[
          "roleDefinition" := Object(map["displayName" := Str("Reader")]),
          "scope" := Object(map["id" := Str("x"), "displayName" := Str("X")])])])]);
    AtFour(v, "properties", "expandedProperties", "roleDefinition", "displayName");
    AtFour(v, "properties", "expandedProperties", "scope", "id");
    AtFour(v, "properties", "expandedProperties", "scope", "displayName");
    AtTwo(v, "properties", "roleDefinitionId");
  }

  /** The response-parsing loop of `list`. */
  method List(body: Value) returns (r: Result<seq<ScopeEntry>, ListError>)
    ensures AsArray(Index(body, "value")).None? ==> r == Err(MissingValueArray)
    ensures AsArray(Index(body, "value")).Some? ==>
      var values := AsArray(Index(body, "value")).value;
      && (r.Ok? <==> forall v :: v in values ==> EntryOf(v).Ok?)
      && (r.Ok? ==> |r.value| == |values| && forall i :: 0 <= i < |values| ==> r.value[i] == EntryOf(values[i]).value)
      && (r.Err? ==> exists k :: 0 <= k < |values| && EntryOf(values[k]) == Err(r.error)
                                && forall j :: 0 <= j < k ==> EntryOf(values[j]).Ok?)
  {
    var values := AsArray(Index(body, "value"));
    if values.None? {
      return Err(MissingValueArray);
    }
    var results := [];
    var i := 0;
    while i < |values.value|
      invariant 0 <= i <= |values.value|
      invariant |results| == i
      invariant forall j :: 0 <= j < i ==> EntryOf(values.value[j]).Ok? && results[j] == EntryOf(values.value[j]).value
    {
      var entry := EntryOf(values.value[i]);
      if entry.Err? {
        return Err(entry.error);
      }
      results := results + [entry.value];
      i := i + 1;
    }
    r := Ok(results);
  }
}
