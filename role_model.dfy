/**
 * Role assignments: the `RoleAssignment` record and its derived ordering, the
 * ordered set `RoleAssignments` that holds them (a strictly ascending sequence,
 * which is the iteration order of the set), its lookup by role and scope, and
 * the parsing of a role-assignment listing into such a set.
 */
module RoleModel {
  import opened Wrappers
  import opened Text
  import opened Order
  import opened Json
  import Scopes
  import Directory

  /** `Role`: a role's display name. */
  datatype Role = Role(name: string)

  /** `Role::from_str`: never fails and keeps the text exactly. */
  function RoleFromStr(s: string): (r: Result<Role, Scopes.ScopeError>)
    ensures r.Ok? && r.value.name == s
  {
    Ok(Role(s))
  }

  /** Displaying a role and reading it back gives the same role. */
  lemma RoleRoundTrip(role: Role)
    ensures RoleFromStr(role.name) == Ok(role)
  {
  }

  /** `RoleAssignment`, fields in declaration order (the order the derived `Ord` uses). */
  datatype RoleAssignment = RoleAssignment(
    role: Role,
    scope: Scopes.Scope,
    scopeName: string,
    roleDefinitionId: string,
    principalId: Option<string>,
    principalType: Option<string>,
    graphObject: Option<Directory.Object>)

  /** The derived `Ord` of `graph::Object`. */
  function CmpObject(a: Directory.Object, b: Directory.Object): Ordering {
    Then(CmpString(a.id, b.id), Then(CmpString(a.displayName, b.displayName), CmpOptString(a.upn, b.upn)))
  }

  /** `Ord` for `Option<Object>`. */
  function CmpOptObject(a: Option<Directory.Object>, b: Option<Directory.Object>): Ordering {
    match (a, b)
    case (None, None) => Equal
    case (None, Some(_)) => Less
    case (Some(_), None) => Greater
    case (Some(x), Some(y)) => CmpObject(x, y)
  }

  /** The derived `Ord` of `RoleAssignment`: field by field, the first difference decides. */
  function Cmp(a: RoleAssignment, b: RoleAssignment): Ordering {
    Then(CmpString(a.role.name, b.role.name),
    Then(CmpString(a.scope.path, b.scope.path),
    Then(CmpString(a.scopeName, b.scopeName),
    Then(CmpString(a.roleDefinitionId, b.roleDefinitionId),
    Then(CmpOptString(a.principalId, b.principalId),
    Then(CmpOptString(a.principalType, b.principalType),
         CmpOptObject(a.graphObject, b.graphObject)))))))
  }

  /*
   * The ordering is shown to be a strict total order by flattening an assignment
   * into a sequence of optional strings whose lexicographic order is the same.
   */

  type Key = seq<Option<string>>

  function CmpKeys(s: Key, t: Key): Ordering
    decreases |s|
  {
    if s == [] then (if t == [] then Equal else Less)
    else if t == [] then Greater
    else Then(CmpOptString(s[0], t[0]), CmpKeys(s[1..], t[1..]))
  }

  function ObjectKey(o: Option<Directory.Object>): Key {
    match o
    case None => [None]
    case Some(x) => [Some(""), Some(x.id), Some(x.displayName), x.upn]
  }

  function KeyOf(a: RoleAssignment): Key {
    [Some(a.role.name), Some(a.scope.path), Some(a.scopeName), Some(a.roleDefinitionId), a.principalId, a.principalType]
      + ObjectKey(a.graphObject)
  }

  lemma {:induction false} CmpKeysEqualReverse(s: Key, t: Key)
    ensures CmpKeys(s, t) == Equal <==> s == t
    ensures CmpKeys(t, s) == CmpKeys(s, t).Reverse()
    decreases |s|
  {
    if s != [] && t != [] {
      CmpOptStringEqualReverse(s[0], t[0]);
      CmpKeysEqualReverse(s[1..], t[1..]);
      assert s == [s[0]] + s[1..] && t == [t[0]] + t[1..];
    }
  }

  lemma {:induction false} CmpKeysTransitive(s: Key, t: Key, u: Key)
    requires CmpKeys(s, t) == Less && CmpKeys(t, u) == Less
    ensures CmpKeys(s, u) == Less
    decreases |s|
  {
    if s != [] && t != [] && u != [] {
      CmpOptStringEqualReverse(s[0], t[0]);
      CmpOptStringEqualReverse(t[0], u[0]);
      if CmpOptString(s[0], t[0]) == Less && CmpOptString(t[0], u[0]) == Less {
        CmpOptStringTransitive(s[0], t[0], u[0]);
      } else if CmpOptString(s[0], t[0]) == Equal && CmpOptString(t[0], u[0]) == Equal {
        CmpKeysTransitive(s[1..], t[1..], u[1..]);
      }
    }
  }

  /** Comparing two concatenations of equal-length prefixes: the prefixes decide first. */
  lemma {:induction false} CmpKeysAppend(s: Key, t: Key, s2: Key, t2: Key)
    requires |s| == |t|
    ensures CmpKeys(s + s2, t + t2) == Then(CmpKeys(s, t), CmpKeys(s2, t2))
    decreases |s|
  {
    if s == [] {
      assert s + s2 == s2 && t + t2 == t2;
    } else {
      assert (s + s2)[1..] == s[1..] + s2 && (t + t2)[1..] == t[1..] + t2;
      CmpKeysAppend(s[1..], t[1..], s2, t2);
    }
  }

  lemma CmpKeysCons(x: Option<string>, y: Option<string>, s: Key, t: Key)
    ensures CmpKeys([x] + s, [y] + t) == Then(CmpOptString(x, y), CmpKeys(s, t))
  {
    assert ([x] + s)[1..] == s && ([y] + t)[1..] == t;
  }

  lemma SomeStringOrder(x: string, y: string)
    ensures CmpOptString(Some(x), Some(y)) == CmpString(x, y)
  {
  }

  lemma ObjectKeyOrder(a: Option<Directory.Object>, b: Option<Directory.Object>)
    ensures CmpKeys(ObjectKey(a), ObjectKey(b)) == CmpOptObject(a, b)
  {
    match (a, b)
    case (None, None) =>
      CmpKeysCons(None, None, [], []);
    case (None, Some(y)) =>
      CmpKeysCons(None, Some(""), [], [Some(y.id), Some(y.displayName), y.upn]);
    case (Some(x), None) =>
      CmpKeysCons(Some(""), None, [Some(x.id), Some(x.displayName), x.upn], []);
    case (Some(x), Some(y)) =>
      CmpKeysCons(x.upn, y.upn, [], []);
      CmpKeysCons(Some(x.displayName), Some(y.displayName), [x.upn], [y.upn]);
      CmpKeysCons(Some(x.id), Some(y.id), [Some(x.displayName), x.upn], [Some(y.displayName), y.upn]);
      CmpKeysCons(Some(""), Some(""), [Some(x.id), Some(x.displayName), x.upn], [Some(y.id), Some(y.displayName), y.upn]);
      assert ObjectKey(a) == [Some("")] + [Some(x.id), Some(x.displayName), x.upn];
      assert ObjectKey(b) == [Some("")] + [Some(y.id), Some(y.displayName), y.upn];
  }

  /** The derived ordering is the lexicographic order of the keys. */
  lemma CmpIsKeyOrder(a: RoleAssignment, b: RoleAssignment)
    ensures Cmp(a, b) == CmpKeys(KeyOf(a), KeyOf(b))
  {
    KeyOrderChain(a, b);
    SomeStringOrder(a.role.name, b.role.name);
    SomeStringOrder(a.scope.path, b.scope.path);
    SomeStringOrder(a.scopeName, b.scopeName);
    SomeStringOrder(a.roleDefinitionId, b.roleDefinitionId);
  }

  /** The key of an assignment, taken apart one field at a time. */
  lemma KeyOfNested(a: RoleAssignment)
    ensures KeyOf(a) == [Some(a.role.name)] + ([Some(a.scope.path)] + ([Some(a.scopeName)] + ([Some(a.roleDefinitionId)]
                     + ([a.principalId] + ([a.principalType] + ObjectKey(a.graphObject))))))
  {
  }

  /** Comparing keys compares field after field. */
  lemma KeyOrderChain(a: RoleAssignment, b: RoleAssignment)
    ensures CmpKeys(KeyOf(a), KeyOf(b))
         == Then(CmpOptString(Some(a.role.name), Some(b.role.name)),
            Then(CmpOptString(Some(a.scope.path), Some(b.scope.path)),
            Then(CmpOptString(Some(a.scopeName), Some(b.scopeName)),
            Then(CmpOptString(Some(a.roleDefinitionId), Some(b.roleDefinitionId)),
            Then(CmpOptString(a.principalId, b.principalId),
            Then(CmpOptString(a.principalType, b.principalType),
                 CmpOptObject(a.graphObject, b.graphObject)))))))
  {
    var oa, ob := ObjectKey(a.graphObject), ObjectKey(b.graphObject);
    var s5, t5 := [a.principalType] + oa, [b.principalType] + ob;
    var s4, t4 := [a.principalId] + s5, [b.principalId] + t5;
    var s3, t3 := [Some(a.roleDefinitionId)] + s4, [Some(b.roleDefinitionId)] + t4;
    var s2, t2 := [Some(a.scopeName)] + s3, [Some(b.scopeName)] + t3;
    var s1, t1 := [Some(a.scope.path)] + s2, [Some(b.scope.path)] + t2;
    ObjectKeyOrder(a.graphObject, b.graphObject);
    CmpKeysCons(a.principalType, b.principalType, oa, ob);
    CmpKeysCons(a.principalId, b.principalId, s5, t5);
    CmpKeysCons(Some(a.roleDefinitionId), Some(b.roleDefinitionId), s4, t4);
    CmpKeysCons(Some(a.scopeName), Some(b.scopeName), s3, t3);
    CmpKeysCons(Some(a.scope.path), Some(b.scope.path), s2, t2);
    CmpKeysCons(Some(a.role.name), Some(b.role.name), s1, t1);
    KeyOfNested(a);
    KeyOfNested(b);
  }

  lemma KeyOfInjective(a: RoleAssignment, b: RoleAssignment)
    requires KeyOf(a) == KeyOf(b)
    ensures a == b
  {
    var ka, kb := KeyOf(a), KeyOf(b);
    assert ka[0] == kb[0] && ka[1] == kb[1] && ka[2] == kb[2] && ka[3] == kb[3] && ka[4] == kb[4] && ka[5] == kb[5];
    assert ka[6..] == ObjectKey(a.graphObject) && kb[6..] == ObjectKey(b.graphObject);
    if a.graphObject.Some? && b.graphObject.Some? {
      assert ka[7] == kb[7] && ka[8] == kb[8] && ka[9] == kb[9];
    }
  }

  /** `Equal` exactly on equal assignments, and swapping the operands reverses the answer. */
  lemma CmpEqualReverse(a: RoleAssignment, b: RoleAssignment)
    ensures Cmp(a, b) == Equal <==> a == b
    ensures Cmp(b, a) == Cmp(a, b).Reverse()
  {
    CmpIsKeyOrder(a, b);
    CmpIsKeyOrder(b, a);
    CmpKeysEqualReverse(KeyOf(a), KeyOf(b));
    if KeyOf(a) == KeyOf(b) {
      KeyOfInjective(a, b);
    }
  }

  /** The derived ordering is transitive. */
  lemma CmpTransitive(a: RoleAssignment, b: RoleAssignment, c: RoleAssignment)
    requires Cmp(a, b) == Less && Cmp(b, c) == Less
    ensures Cmp(a, c) == Less
  {
    CmpIsKeyOrder(a, b);
    CmpIsKeyOrder(b, c);
    CmpIsKeyOrder(a, c);
    CmpKeysTransitive(KeyOf(a), KeyOf(b), KeyOf(c));
  }

  /** The iteration order of a `BTreeSet`: strictly ascending, so without duplicates. */
  ghost predicate StrictlySorted(s: seq<RoleAssignment>) {
    forall i, j :: 0 <= i < j < |s| ==> Cmp(s[i], s[j]) == Less
  }

  lemma SortedDistinct(s: seq<RoleAssignment>, i: nat, j: nat)
    requires StrictlySorted(s) && i < j < |s|
    ensures s[i] != s[j]
  {
    CmpEqualReverse(s[i], s[j]);
  }

  /** A head below every element of a sorted tail gives a sorted sequence. */
  lemma ConsSorted(h: RoleAssignment, rest: seq<RoleAssignment>)
    requires StrictlySorted(rest)
    requires forall y :: y in rest ==> Cmp(h, y) == Less
    ensures StrictlySorted([h] + rest)
  {
    var r := [h] + rest;
    forall i, j | 0 <= i < j < |r|
      ensures Cmp(r[i], r[j]) == Less
    {
      assert r[j] == rest[j - 1];
      if i > 0 {
        assert r[i] == rest[i - 1];
      }
    }
  }

  /** An element below the first of a sorted sequence is below all of them, so not among them. */
  lemma BelowFirst(x: RoleAssignment, s: seq<RoleAssignment>)
    requires StrictlySorted(s) && s != [] && Cmp(x, s[0]) == Less
    ensures forall y :: y in s ==> Cmp(x, y) == Less
    ensures x !in s
  {
    forall y | y in s
      ensures Cmp(x, y) == Less && y != x
    {
      var j :| 0 <= j < |s| && s[j] == y;
      if j > 0 {
        CmpTransitive(x, s[0], s[j]);
      }
      CmpEqualReverse(x, y);
    }
  }

  /** `BTreeSet::insert` on the ascending sequence. */
  function InsertSorted(s: seq<RoleAssignment>, x: RoleAssignment): (r: seq<RoleAssignment>)
    requires StrictlySorted(s)
    ensures StrictlySorted(r)
    ensures forall y :: y in r <==> y in s || y == x
    ensures x in s ==> r == s
    ensures x !in s ==> |r| == |s| + 1
    decreases |s|
  {
    if s == [] then [x]
    else
      match Cmp(x, s[0])
      case Equal =>
        CmpEqualReverse(x, s[0]);
        s
      case Less =>
        BelowFirst(x, s);
        ConsSorted(x, s);
        [x] + s
      case Greater =>
        CmpEqualReverse(x, s[0]);
        FirstBelowRest(s);
        var rest := InsertSorted(s[1..], x);
        ConsSorted(s[0], rest);
        assert s == [s[0]] + s[1..];
        [s[0]] + rest
  }

  /** The first element of a sorted sequence is below the rest, which stay sorted. */
  lemma FirstBelowRest(s: seq<RoleAssignment>)
    requires StrictlySorted(s) && s != []
    ensures StrictlySorted(s[1..])
    ensures forall y :: y in s[1..] ==> Cmp(s[0], y) == Less
  {
    forall y | y in s[1..]
      ensures Cmp(s[0], y) == Less
    {
      var k :| 0 <= k < |s[1..]| && s[1..][k] == y;
      assert s[k + 1] == y;
    }
  }

  /** `contains` on the ordered set: the search stops at the first larger element. */
  function ContainsSorted(s: seq<RoleAssignment>, x: RoleAssignment): (b: bool)
    requires StrictlySorted(s)
    ensures b <==> x in s
    decreases |s|
  {
    if s == [] then false
    else
      match Cmp(x, s[0])
      case Less =>
        BelowFirst(x, s);
        false
      case Equal =>
        CmpEqualReverse(x, s[0]);
        true
      case Greater =>
        CmpEqualReverse(x, s[0]);
        assert s == [s[0]] + s[1..];
        ContainsSorted(s[1..], x)
  }

  /** The elements `keep` accepts, in their order. */
  function Filter(s: seq<RoleAssignment>, keep: RoleAssignment -> bool): (r: seq<RoleAssignment>)
    ensures forall y :: y in r <==> y in s && keep(y)
    ensures |r| <= |s|
    decreases |s|
  {
    if s == [] then []
    else
      var init := s[..|s| - 1];
      var last := s[|s| - 1];
      assert forall y :: y in s <==> y in init || y == last by {
        assert s == init + [last];
      }
      Filter(init, keep) + (if keep(last) then [last] else [])
  }

  /** Filtering an ordered sequence leaves it ordered. */
  lemma {:induction false} FilterSorted(s: seq<RoleAssignment>, keep: RoleAssignment -> bool)
    requires StrictlySorted(s)
    ensures StrictlySorted(Filter(s, keep))
    decreases |s|
  {
    if s != [] {
      var init, last := s[..|s| - 1], s[|s| - 1];
      assert StrictlySorted(init);
      FilterSorted(init, keep);
      if keep(last) {
        var f := Filter(init, keep);
        forall y | y in f
          ensures Cmp(y, last) == Less
        {
          var k :| 0 <= k < |init| && init[k] == y;
          assert s[k] == y;
        }
        SnocSorted(f, last);
      }
    }
  }

  /** An element above every element of a sorted sequence can be appended to it. */
  lemma SnocSorted(f: seq<RoleAssignment>, last: RoleAssignment)
    requires StrictlySorted(f)
    requires forall y :: y in f ==> Cmp(y, last) == Less
    ensures StrictlySorted(f + [last])
  {
    var r := f + [last];
    forall i, j | 0 <= i < j < |r|
      ensures Cmp(r[i], r[j]) == Less
    {
      if j < |f| {
        assert r[i] == f[i] && r[j] == f[j];
      } else {
        assert r[i] == f[i] && f[i] in f;
      }
    }
  }

  /** `find`'s first test: same role and same scope id, both ignoring ASCII case. */
  predicate MatchesId(a: RoleAssignment, role: Role, scope: Scopes.Scope) {
    Lower(a.role.name) == Lower(role.name) && Lower(a.scope.path) == Lower(scope.path)
  }

  /** `find`'s fallback test: same role and a scope display name equal to the scope. */
  predicate MatchesName(a: RoleAssignment, role: Role, scope: Scopes.Scope) {
    Lower(a.role.name) == Lower(role.name) && Lower(a.scopeName) == Lower(scope.path)
  }

  /** `Iterator::find`: the index of the first element `p` accepts, or `|s|`. */
  function FirstIndex(s: seq<RoleAssignment>, p: RoleAssignment -> bool): (i: nat)
    ensures i <= |s|
    ensures i < |s| ==> p(s[i])
    ensures forall j :: 0 <= j < i ==> !p(s[j])
    decreases |s|
  {
    if s == [] then 0
    else if p(s[0]) then 0
    else 1 + FirstIndex(s[1..], p)
  }

  /** The search `find` performs over the assignments in set order. */
  function FindIn(items: seq<RoleAssignment>, role: Role, scope: Scopes.Scope): (r: Option<RoleAssignment>)
    ensures r.Some? ==> r.value in items
  {
    var i := FirstIndex(items, a => MatchesId(a, role, scope));
    if i < |items| then Some(items[i])
    else
      var j := FirstIndex(items, a => MatchesName(a, role, scope));
      if j < |items| then Some(items[j]) else None
  }

  /** The search prefers the first id match, and otherwise takes the first name match. */
  lemma FindInChoosesFirst(items: seq<RoleAssignment>, role: Role, scope: Scopes.Scope)
    ensures var r := FindIn(items, role, scope);
      && (r.None? <==> forall a :: a in items ==> !MatchesId(a, role, scope) && !MatchesName(a, role, scope))
      && ((exists a :: a in items && MatchesId(a, role, scope)) ==>
          r.Some? && MatchesId(r.value, role, scope) &&
          exists k :: 0 <= k < |items| && items[k] == r.value && forall j :: 0 <= j < k ==> !MatchesId(items[j], role, scope))
      && ((forall a :: a in items ==> !MatchesId(a, role, scope)) && r.Some? ==>
          MatchesName(r.value, role, scope) &&
          exists k :: 0 <= k < |items| && items[k] == r.value && forall j :: 0 <= j < k ==> !MatchesName(items[j], role, scope))
  {
  }

  /** `RoleAssignments`: the ordered set of assignments. */
  class RoleAssignments {
    var items: seq<RoleAssignment>

    ghost predicate Valid()
      reads this
    {
      StrictlySorted(items)
    }

    /** `RoleAssignments::default` */
    constructor ()
      ensures Valid() && items == []
    {
      items := [];
    }

    /**
     * `find`: the first assignment in set order that matches by scope id; if
     * none does, the first that matches by scope display name.
     */
    function Find(role: Role, scope: Scopes.Scope): (r: Option<RoleAssignment>)
      reads this
      ensures r.Some? ==> r.value in items
      ensures r.None? <==> forall a :: a in items ==> !MatchesId(a, role, scope) && !MatchesName(a, role, scope)
      ensures (exists a :: a in items && MatchesId(a, role, scope)) ==>
        r.Some? && MatchesId(r.value, role, scope) &&
        exists k :: 0 <= k < |items| && items[k] == r.value && forall j :: 0 <= j < k ==> !MatchesId(items[j], role, scope)
      ensures (forall a :: a in items ==> !MatchesId(a, role, scope)) && r.Some? ==>
        MatchesName(r.value, role, scope) &&
        exists k :: 0 <= k < |items| && items[k] == r.value && forall j :: 0 <= j < k ==> !MatchesName(items[j], role, scope)
    {
      FindInChoosesFirst(items, role, scope);
      FindIn(items, role, scope)
    }

    /** `contains` */
    function Contains(entry: RoleAssignment): (b: bool)
      requires Valid()
      reads this
      ensures b <==> entry in items
    {
      ContainsSorted(items, entry)
    }

    /** `is_empty` */
    function IsEmpty(): (b: bool)
      reads this
      ensures b <==> |items| == 0
    {
      items == []
    }

    /** `insert`: true iff the entry was not yet present. */
    method Insert(entry: RoleAssignment) returns (added: bool)
      requires Valid()
      modifies this
      ensures Valid()
      ensures items == InsertSorted(old(items), entry)
      ensures added <==> entry !in old(items)
    {
      added := !ContainsSorted(items, entry);
      items := InsertSorted(items, entry);
    }

    /** `retain`: keeps, in order, the assignments `keep` accepts. */
    method Retain(keep: RoleAssignment -> bool)
      requires Valid()
      modifies this
      ensures Valid()
      ensures items == Filter(old(items), keep)
    {
      var kept := [];
      var i := 0;
      while i < |items|
        invariant 0 <= i <= |items|
        invariant kept == Filter(items[..i], keep)
      {
        assert items[..i + 1][..i] == items[..i];
        assert Filter(items[..i + 1], keep) == kept + (if keep(items[i]) then [items[i]] else []);
        if keep(items[i]) {
          kept := kept + [items[i]];
        }
        i := i + 1;
      }
      assert items[..|items|] == items;
      assert kept == Filter(old(items), keep);
      FilterSorted(old(items), keep);
      items := kept;
    }
  }

  /** Inserting an entry twice changes nothing the second time. */
  lemma InsertIdempotent(s: seq<RoleAssignment>, x: RoleAssignment)
    requires StrictlySorted(s)
    ensures InsertSorted(InsertSorted(s, x), x) == InsertSorted(s, x)
  {
  }

  /** Where `parse` reads each field of an entry. */
  const RoleNamePath := ["properties", "expandedProperties", "roleDefinition", "displayName"]
  const ScopeIdPath := ["properties", "expandedProperties", "scope", "id"]
  const ScopeNamePath := ["properties", "expandedProperties", "scope", "displayName"]
  const RoleDefinitionIdPath := ["properties", "roleDefinitionId"]
  const PrincipalIdPath := ["properties", "principalId"]
  const PrincipalTypePath := ["properties", "principalType"]

  datatype ParseError = MissingValueArray | NoRoleName | NoScopeId | NoScopeName | NoRoleDefinitionId

  /** One entry of the listing: the four mandatory fields are checked in this order. */
  function ParseEntry(entry: Value, withPrincipal: bool): (r: Result<RoleAssignment, ParseError>)
    ensures r.Ok? <==>
      && AsStr(At(entry, RoleNamePath)).Some?
      && AsStr(At(entry, ScopeIdPath)).Some? && Scopes.New(AsStr(At(entry, ScopeIdPath)).value).Ok?
      && AsStr(At(entry, ScopeNamePath)).Some?
      && AsStr(At(entry, RoleDefinitionIdPath)).Some?
    ensures r.Err? && AsStr(At(entry, RoleNamePath)).None? ==> r.error == NoRoleName
    ensures AsStr(At(entry, RoleNamePath)).Some?
            && (AsStr(At(entry, ScopeIdPath)).None? || Scopes.New(AsStr(At(entry, ScopeIdPath)).value).Err?)
            ==> r == Err(NoScopeId)
    ensures AsStr(At(entry, RoleNamePath)).Some? && Scopes.New(AsStr(At(entry, ScopeIdPath)).GetOr("")).Ok?
            && AsStr(At(entry, ScopeNamePath)).None?
            ==> r == Err(NoScopeName)
    ensures AsStr(At(entry, RoleNamePath)).Some? && Scopes.New(AsStr(At(entry, ScopeIdPath)).GetOr("")).Ok?
            && AsStr(At(entry, ScopeNamePath)).Some? && AsStr(At(entry, RoleDefinitionIdPath)).None?
            ==> r == Err(NoRoleDefinitionId)
    ensures r.Ok? ==>
      && r.value.role.name == AsStr(At(entry, RoleNamePath)).value
      && r.value.scope.path == AsStr(At(entry, ScopeIdPath)).value
      && r.value.scopeName == AsStr(At(entry, ScopeNamePath)).value
      && r.value.roleDefinitionId == AsStr(At(entry, RoleDefinitionIdPath)).value
    ensures r.Ok? ==> r.value.graphObject.None?
    ensures r.Ok? && !withPrincipal ==> r.value.principalId.None? && r.value.principalType.None?
    ensures r.Ok? && withPrincipal ==>
      r.value.principalId == AsStr(At(entry, PrincipalIdPath)) && r.value.principalType == AsStr(At(entry, PrincipalTypePath))
  {
    var roleName := AsStr(At(entry, RoleNamePath));
    if roleName.None? then Err(NoRoleName)
    else
      var scopeId := AsStr(At(entry, ScopeIdPath));
      if scopeId.None? || Scopes.New(scopeId.value).Err? then Err(NoScopeId)
      else
        var scopeName := AsStr(At(entry, ScopeNamePath));
        if scopeName.None? then Err(NoScopeName)
        else
          var definition := AsStr(At(entry, RoleDefinitionIdPath));
          if definition.None? then Err(NoRoleDefinitionId)
          else
            var principalId := if withPrincipal then AsStr(At(entry, PrincipalIdPath)) else None;
            var principalType := if withPrincipal then AsStr(At(entry, PrincipalTypePath)) else None;
            Ok(RoleAssignment(RoleFromStr(roleName.value).value, Scopes.New(scopeId.value).value, scopeName.value,
                              definition.value, principalId, principalType, None))
  }

  /** The entries of a listing in order, or the first entry's error. */
  function ParseEntries(values: seq<Value>, withPrincipal: bool): (r: Result<seq<RoleAssignment>, ParseError>)
    ensures r.Ok? <==> forall v :: v in values ==> ParseEntry(v, withPrincipal).Ok?
    ensures r.Ok? ==> |r.value| == |values| && forall i :: 0 <= i < |values| ==> r.value[i] == ParseEntry(values[i], withPrincipal).value
    decreases |values|
  {
    if values == [] then Ok([])
    else
      var init := ParseEntries(values[..|values| - 1], withPrincipal);
      var last := ParseEntry(values[|values| - 1], withPrincipal);
      assert forall v :: v in values <==> v in values[..|values| - 1] || v == values[|values| - 1] by {
        assert values == values[..|values| - 1] + [values[|values| - 1]];
      }
      if init.Err? then init
      else if last.Err? then Err(last.error)
      else Ok(init.value + [last.value])
  }

  /** `RoleAssignments::parse`: the listing's entries collected into an ordered set. */
  method Parse(body: Value, withPrincipal: bool) returns (r: Result<RoleAssignments, ParseError>)
    ensures AsArray(Index(body, "value")).None? ==> r == Err(MissingValueArray)
    ensures AsArray(Index(body, "value")).Some? ==>
      var entries := ParseEntries(AsArray(Index(body, "value")).value, withPrincipal);
      && (r.Ok? <==> entries.Ok?)
      && (r.Err? ==> r.error == entries.error)
      && (r.Ok? ==> fresh(r.value) && r.value.Valid()
                    && |r.value.items| <= |entries.value|
                    && forall a :: a in r.value.items <==> a in entries.value)
  {
    var values := AsArray(Index(body, "value"));
    if values.None? {
      return Err(MissingValueArray);
    }
    var results := new RoleAssignments();
    ghost var parsed: seq<RoleAssignment> := [];
    var i := 0;
    while i < |values.value|
      invariant 0 <= i <= |values.value|
      invariant results.Valid() && fresh(results)
      invariant ParseEntries(values.value[..i], withPrincipal) == Ok(parsed)
      invariant |results.items| <= |parsed| == i
      invariant forall a :: a in results.items <==> a in parsed
    {
      var entry := ParseEntry(values.value[i], withPrincipal);
      if entry.Err? {
        PrefixErrorPropagates(values.value, i + 1, withPrincipal);
        return Err(entry.error);
      }
      ParseEntriesSnoc(values.value, i, withPrincipal);
      var _ := results.Insert(entry.value);
      parsed := parsed + [entry.value];
      i := i + 1;
    }
    assert values.value[..|values.value|] == values.value;
    r := Ok(results);
  }

  /** One more accepted entry extends the parsed listing by that entry. */
  lemma ParseEntriesSnoc(values: seq<Value>, i: nat, withPrincipal: bool)
    requires i < |values|
    requires ParseEntries(values[..i], withPrincipal).Ok? && ParseEntry(values[i], withPrincipal).Ok?
    ensures ParseEntries(values[..i + 1], withPrincipal) ==
      Ok(ParseEntries(values[..i], withPrincipal).value + [ParseEntry(values[i], withPrincipal).value])
  {
    assert values[..i + 1][..i] == values[..i];
  }

  /** The first failing entry decides the listing's error, whatever follows it. */
  lemma {:induction false} PrefixErrorPropagates(values: seq<Value>, n: nat, withPrincipal: bool)
    requires 0 < n <= |values|
    requires ParseEntries(values[..n - 1], withPrincipal).Ok? && ParseEntry(values[n - 1], withPrincipal).Err?
    ensures ParseEntries(values, withPrincipal) == Err(ParseEntry(values[n - 1], withPrincipal).error)
    decreases |values|
  {
    assert values[..n][..n - 1] == values[..n - 1];
    if n < |values| {
      var init := values[..|values| - 1];
      assert init[..n - 1] == values[..n - 1];
      PrefixErrorPropagates(init, n, withPrincipal);
    }
  }

  /** Without `with_principal`, no parsed assignment carries principal details or an object. */
  lemma ParsedWithoutPrincipal(values: seq<Value>)
    requires ParseEntries(values, false).Ok?
    ensures forall a :: a in ParseEntries(values, false).value ==>
      a.principalId.None? && a.principalType.None? && a.graphObject.None?
  {
  }
}
