/**
 * The command-line layer of `az-pim`: `KEY=value` arguments, the assembly of
 * the set of assignments to activate, the all-or-nothing report of activating
 * a set, and the mapping from verbosity flags to a log level.
 */
module Cli {
  import opened Wrappers
  import opened Text
  import opened RoleModel
  import Scopes

  datatype KeyValError<E> = NoEquals(input: string) | InvalidKey(keyError: E) | InvalidValue(valueError: E)

  /** `parse_key_val`: splits at the first `=`, then parses the key and then the value. */
  function ParseKeyVal<K, V, E>(s: string, parseKey: string -> Result<K, E>, parseValue: string -> Result<V, E>)
    : (r: Result<(K, V), KeyValError<E>>)
    ensures '=' !in s ==> r == Err(NoEquals(s))
    ensures '=' in s ==>
      var parts := SplitOnce(s, '=').value;
      && s == parts.0 + "=" + parts.1 && '=' !in parts.0
      && (r.Ok? <==> parseKey(parts.0).Ok? && parseValue(parts.1).Ok?)
      && (r.Ok? ==> r.value == (parseKey(parts.0).value, parseValue(parts.1).value))
      && (parseKey(parts.0).Err? ==> r == Err(InvalidKey(parseKey(parts.0).error)))
      && (parseKey(parts.0).Ok? && parseValue(parts.1).Err? ==> r == Err(InvalidValue(parseValue(parts.1).error)))
  {
    match SplitOnce(s, '=')
    case None => Err(NoEquals(s))
    case Some((key, value)) =>
      match parseKey(key)
      case Err(e) => Err(InvalidKey(e))
      case Ok(k) =>
        match parseValue(value)
        case Err(e) => Err(InvalidValue(e))
        case Ok(v) => Ok((k, v))
  }

  /** The `--role ROLE=SCOPE` argument. */
  function ParseRoleScope(s: string): Result<(Role, Scopes.Scope), KeyValError<Scopes.ScopeError>> {
    ParseKeyVal(s, RoleFromStr, Scopes.New)
  }

  /**
   * Writing a role and a scope as `ROLE=SCOPE` reads them back, as long as the
   * role name has no `=`; the scope may contain `=`.
   */
  lemma RoleScopeRoundTrip(role: Role, scope: Scopes.Scope)
    requires '=' !in role.name
    requires StartsWith(scope.path, "/")
    ensures ParseRoleScope(role.name + "=" + scope.path) == Ok((role, scope))
  {
    SplitOnceJoined(role.name, '=', scope.path);
    assert role.name + "=" + scope.path == role.name + ['='] + scope.path;
  }

  /** A scope that lacks its leading `/` is rejected, naming the scope error. */
  lemma RoleScopeNeedsSlash(role: string, scope: string)
    requires '=' !in role
    requires !StartsWith(scope, "/")
    ensures ParseRoleScope(role + "=" + scope) == Err(InvalidValue(Scopes.LeadingSlash))
  {
    SplitOnceJoined(role, '=', scope);
    assert role + "=" + scope == role + ['='] + scope;
  }

  datatype BuildError = RoleNotFound(role: Role, scope: Scopes.Scope)

  /** The eligible assignment `find` picks for a requested pair (`Find` searches the same way). */
  function Lookup(available: RoleAssignments, p: (Role, Scopes.Scope)): (r: Option<RoleAssignment>)
    reads available
    ensures r.Some? ==> r.value in available.items
  {
    FindIn(available.items, p.0, p.1)
  }

  /** The assignments `build_set` finds for `desired`, taking the pairs in order. */
  function Found(desired: seq<(Role, Scopes.Scope)>, available: RoleAssignments): set<RoleAssignment>
    reads available
    decreases |desired|
  {
    if desired == [] then {}
    else
      var last := Lookup(available, desired[|desired| - 1]);
      Found(desired[..|desired| - 1], available) + (if last.Some? then {last.value} else {})
  }

  /** At most one assignment per requested pair, each of them eligible. */
  lemma {:induction false} FoundBounds(desired: seq<(Role, Scopes.Scope)>, available: RoleAssignments)
    ensures |Found(desired, available)| <= |desired|
    ensures forall a :: a in Found(desired, available) ==> a in available.items
    decreases |desired|
  {
    if desired != [] {
      FoundBounds(desired[..|desired| - 1], available);
    }
  }

  /** An assignment is found exactly when some requested pair looks it up. */
  lemma {:induction false} FoundMembers(desired: seq<(Role, Scopes.Scope)>, available: RoleAssignments, a: RoleAssignment)
    ensures a in Found(desired, available) <==> exists p :: p in desired && Lookup(available, p) == Some(a)
    decreases |desired|
  {
    if desired != [] {
      var init := desired[..|desired| - 1];
      FoundMembers(init, available, a);
      assert desired == init + [desired[|desired| - 1]];
      assert forall p :: p in desired <==> p in init || p == desired[|desired| - 1];
    }
  }

  /** Every requested pair is found, checked pair by pair. */
  predicate AllFound(desired: seq<(Role, Scopes.Scope)>, available: RoleAssignments)
    reads available
    decreases |desired|
  {
    desired == [] || (AllFound(desired[..|desired| - 1], available) && Lookup(available, desired[|desired| - 1]).Some?)
  }

  /** Checking pair by pair is checking every member of the request. */
  lemma {:induction false} AllFoundMeans(desired: seq<(Role, Scopes.Scope)>, available: RoleAssignments)
    ensures AllFound(desired, available) <==> forall p :: p in desired ==> Lookup(available, p).Some?
    decreases |desired|
  {
    if desired != [] {
      var init := desired[..|desired| - 1];
      AllFoundMeans(init, available);
      assert desired == init + [desired[|desired| - 1]];
      assert forall p :: p in desired <==> p in init || p == desired[|desired| - 1];
    }
  }

  /**
   * The loop of `build_set` over the requested pairs: the first pair not found
   * stops it with that pair; otherwise the found entries are collected into a set.
   */
  method FindAll(desired: seq<(Role, Scopes.Scope)>, available: RoleAssignments)
    returns (r: Result<set<RoleAssignment>, BuildError>)
    ensures r.Ok? <==> AllFound(desired, available)
    ensures r.Ok? ==> r.value == Found(desired, available)
    ensures r.Err? ==> exists k :: 0 <= k < |desired| && r.error == RoleNotFound(desired[k].0, desired[k].1)
                                && AllFound(desired[..k], available) && Lookup(available, desired[k]).None?
                                && forall j :: 0 <= j < k ==> Lookup(available, desired[j]).Some?
  {
    var toAdd: set<RoleAssignment> := {};
    var i := 0;
    while i < |desired|
      invariant 0 <= i <= |desired|
      invariant AllFound(desired[..i], available)
      invariant toAdd == Found(desired[..i], available)
    {
      var entry := Lookup(available, desired[i]);
      if entry.None? {
        assert !AllFound(desired, available) by {
          NotFoundStops(desired, i, available);
        }
        assert forall j :: 0 <= j < i ==> Lookup(available, desired[j]).Some? by {
          AllFoundMeans(desired[..i], available);
          assert forall j :: 0 <= j < i ==> desired[j] in desired[..i];
        }
        return Err(RoleNotFound(desired[i].0, desired[i].1));
      }
      assert desired[..i + 1][..i] == desired[..i];
      toAdd := toAdd + {entry.value};
      i := i + 1;
    }
    assert desired[..|desired|] == desired;
    r := Ok(toAdd);
  }

  /** One pair that is not found fails the whole request. */
  lemma NotFoundStops(desired: seq<(Role, Scopes.Scope)>, i: nat, available: RoleAssignments)
    requires i < |desired| && Lookup(available, desired[i]).None?
    ensures !AllFound(desired, available)
  {
    AllFoundMeans(desired, available);
  }

  /**
   * `build_set`: the command-line pairs, then the configuration file's, must all
   * be found among the eligible assignments.
   */
  method BuildSet(cliRoles: Option<seq<(Role, Scopes.Scope)>>, configRoles: seq<(Role, Scopes.Scope)>, available: RoleAssignments)
    returns (r: Result<set<RoleAssignment>, BuildError>)
    ensures var desired := cliRoles.GetOr([]) + configRoles;
      && (r.Ok? <==> forall p :: p in desired ==> Lookup(available, p).Some?)
      && (r.Err? ==> exists k :: 0 <= k < |desired| && r.error == RoleNotFound(desired[k].0, desired[k].1)
                                && Lookup(available, desired[k]).None?
                                && forall j :: 0 <= j < k ==> Lookup(available, desired[j]).Some?)
      && (r.Ok? ==> r.value == Found(desired, available))
  {
    var desired := cliRoles.GetOr([]) + configRoles;
    r := FindAll(desired, available);
    AllFoundMeans(desired, available);
  }

  datatype ActivateSetError = NoRolesSpecified | CurrentUserUnavailable(reason: string) | NotAllElevated

  /** An activation outcome that counts as success: a submitted request or nothing to do. */
  predicate Succeeded(outcome: Result<Option<string>, string>) {
    outcome.Ok?
  }

  /**
   * `activate_set`: rejects an empty set, needs the current user, then tries
   * every entry (a failure does not stop the others) and succeeds only if all
   * did. `attempted` lists the entries tried.
   */
  method ActivateSet(assignments: seq<RoleAssignment>, principal: Result<string, string>,
                     activate: (string, RoleAssignment) -> Result<Option<string>, string>)
    returns (r: Result<(), ActivateSetError>, attempted: seq<RoleAssignment>)
    ensures assignments == [] ==> r == Err(NoRolesSpecified) && attempted == []
    ensures assignments != [] && principal.Err? ==> r == Err(CurrentUserUnavailable(principal.error)) && attempted == []
    ensures assignments != [] && principal.Ok? ==>
      && attempted == assignments
      && (r.Ok? <==> forall a :: a in assignments ==> Succeeded(activate(principal.value, a)))
      && (r.Err? ==> r.error == NotAllElevated)
  {
    if assignments == [] {
      return Err(NoRolesSpecified), [];
    }
    if principal.Err? {
      return Err(CurrentUserUnavailable(principal.error)), [];
    }
    var results: seq<bool> := [];
    attempted := [];
    var i := 0;
    while i < |assignments|
      invariant 0 <= i <= |assignments|
      invariant attempted == assignments[..i] && |results| == i
      invariant forall j :: 0 <= j < i ==> results[j] == Succeeded(activate(principal.value, assignments[j]))
    {
      var outcome := activate(principal.value, assignments[i]);
      var ok := match outcome
        case Ok(Some(_)) => true
        case Ok(None) => true
        case Err(_) => false;
      results := results + [ok];
      attempted := attempted + [assignments[i]];
      i := i + 1;
    }
    assert assignments[..|assignments|] == assignments;
    if forall j :: 0 <= j < |results| ==> results[j] {
      r := Ok(());
    } else {
      r := Err(NotAllElevated);
    }
  }

  /** `tracing`'s `LevelFilter`, least to most verbose. */
  datatype LevelFilter = Off | Error | Warn | Info | Debug | Trace

  function Rank(l: LevelFilter): nat {
    match l
    case Off => 0
    case Error => 1
    case Warn => 2
    case Info => 3
    case Debug => 4
    case Trace => 5
  }

  type U8 = x: int | 0 <= x < 256

  /** `Verbosity::get_level` */
  function GetLevel(quiet: bool, verbose: U8): (l: LevelFilter)
    ensures quiet ==> l == Error
    ensures !quiet ==> Rank(l) == if verbose < 2 then Rank(Info) + verbose else Rank(Trace)
  {
    if quiet then Error
    else
      match verbose
      case 0 => Info
      case 1 => Debug
      case _ => Trace
  }

  /** More `--verbose` flags never lower the level, and `--quiet` is below every other choice. */
  lemma GetLevelMonotone(v1: U8, v2: U8)
    requires v1 <= v2
    ensures Rank(GetLevel(false, v1)) <= Rank(GetLevel(false, v2))
    ensures Rank(GetLevel(true, v1)) < Rank(GetLevel(false, v2))
  {
  }
}
