/**
 * `Scope`: a resource path such as `/subscriptions/<uuid>/resourceGroups/<rg>`.
 * Containment is a prefix test on the `/`-separated segments of two paths, not
 * on their characters, and `ScopeBuilder` assembles a scope from the
 * subscription, resource-group and provider parts given on the command line.
 */
module Scopes {
  import opened Wrappers
  import opened Text
  import Uuid

  datatype ScopeError = LeadingSlash

  /** The path is kept verbatim; `New` is the only checked way to build one. */
  datatype Scope = Scope(path: string)

  /** `Scope::new`: only a path that starts with `/` is a scope. */
  function New(value: string): (r: Result<Scope, ScopeError>)
    ensures r.Ok? <==> StartsWith(value, "/")
    ensures r.Ok? ==> r.value.path == value
    ensures r.Err? ==> r.error == LeadingSlash
  {
    if |value| > 0 && value[0] == '/' then Ok(Scope(value)) else Err(LeadingSlash)
  }

  /** `Scope::from_subscription` */
  function FromSubscription(subscription: Uuid.Uuid): Scope {
    Scope("/subscriptions/" + Uuid.Format(subscription))
  }

  /** `Scope::from_resource_group` */
  function FromResourceGroup(subscription: Uuid.Uuid, resourceGroup: string): Scope {
    Scope("/subscriptions/" + Uuid.Format(subscription) + "/resourceGroups/" + resourceGroup)
  }

  /** `Scope::from_provider` */
  function FromProvider(subscription: Uuid.Uuid, resourceGroup: string, provider: string): Scope {
    Scope("/subscriptions/" + Uuid.Format(subscription) + "/resourceGroups/" + resourceGroup + "/providers/" + provider)
  }

  /** The `/`-separated segments of a path; a path starting with `/` has `""` first. */
  function Segments(s: Scope): seq<string> {
    Split(s.path, '/')
  }

  /** `Scope::is_subscription` */
  predicate IsSubscription(s: Scope) {
    StartsWith(s.path, "/subscriptions/") && !HasInfix(s.path, "/resourceGroups/")
  }

  /** `Scope::subscription`: segment 1 must be `subscriptions` and segment 2 a UUID. */
  function Subscription(s: Scope): Option<Uuid.Uuid> {
    var entries := Segments(s);
    if |entries| < 2 || entries[1] != "subscriptions" || |entries| < 3 then None
    else Uuid.Parse(entries[2])
  }

  /** `Scope::contains`: the segments of `self` are the leading segments of `other`. */
  predicate Contains(self: Scope, other: Scope) {
    var first, second := Segments(self), Segments(other);
    |first| <= |second| && second[..|first|] == first
  }

  /** Every scope contains itself. */
  lemma ContainsReflexive(a: Scope)
    ensures Contains(a, a)
  {
  }

  /** Containment is transitive. */
  lemma ContainsTransitive(a: Scope, b: Scope, c: Scope)
    requires Contains(a, b) && Contains(b, c)
    ensures Contains(a, c)
  {
    var sa, sb, sc := Segments(a), Segments(b), Segments(c);
    assert sc[..|sa|] == sc[..|sb|][..|sa|];
  }

  /** Two scopes that contain each other are the same scope. */
  lemma ContainsAntisymmetric(a: Scope, b: Scope)
    requires Contains(a, b) && Contains(b, a)
    ensures a == b
  {
    SplitInjective(a.path, b.path, '/');
  }

  /** A scope with fewer segments than `a` is never inside `a`: a child never contains its parent. */
  lemma FewerSegmentsNotContained(a: Scope, b: Scope)
    requires |Segments(b)| < |Segments(a)|
    ensures !Contains(a, b)
  {
  }

  /**
   * Segment-wise containment in terms of characters: `a` contains `b` exactly
   * when `b` is `a` itself or continues `a` with a `/`.
   */
  lemma ContainsIffPathPrefix(a: Scope, b: Scope)
    ensures Contains(a, b) <==> b.path == a.path || StartsWith(b.path, a.path + "/")
  {
    var first, second := Segments(a), Segments(b);
    if Contains(a, b) && b.path != a.path {
      if |first| == |second| {
        assert second == first;
        SplitInjective(a.path, b.path, '/');
      }
      var rest := second[|first|..];
      assert second == first + rest;
      JoinAppend(first, rest, '/');
      JoinSplit(a.path, '/');
      JoinSplit(b.path, '/');
      assert b.path == a.path + "/" + Join(rest, '/');
      assert b.path[..|a.path + "/"|] == a.path + "/";
    }
    if StartsWith(b.path, a.path + "/") {
      var y := b.path[|a.path| + 1..];
      assert b.path == a.path + "/" + y;
      SplitConcat(a.path, '/', y);
      assert second[..|first|] == first;
    }
  }

  /** Appending `/` and anything to a scope's path gives a scope it contains. */
  lemma ContainsExtension(a: Scope, rest: string)
    ensures Contains(a, Scope(a.path + "/" + rest))
  {
    var b := Scope(a.path + "/" + rest);
    assert b.path[..|a.path + "/"|] == a.path + "/";
    ContainsIffPathPrefix(a, b);
  }

  /** `from_subscription(u)` splits into `""`, `subscriptions` and the UUID. */
  lemma SubscriptionSegments(u: Uuid.Uuid)
    ensures Segments(FromSubscription(u)) == ["", "subscriptions", Uuid.Format(u)]
  {
    var f := Uuid.Format(u);
    Uuid.FormatNoSlash(u);
    var parts := ["", "subscriptions", f];
    assert parts[1..][1..] == [f];
    assert Join(parts[1..], '/') == "subscriptions" + ['/'] + f;
    assert Join(parts, '/') == "" + ['/'] + ("subscriptions" + ['/'] + f);
    assert "" + ['/'] + ("subscriptions" + ['/'] + f) == FromSubscription(u).path;
    assert '/' !in parts[1] by {
      assert parts[1] == "subscriptions";
    }
    SplitJoin(parts, '/');
  }

  /** The three constructors build each path by extending the previous one. */
  lemma ConstructorPaths(u: Uuid.Uuid, resourceGroup: string, provider: string)
    ensures FromResourceGroup(u, resourceGroup).path == FromSubscription(u).path + "/" + ("resourceGroups/" + resourceGroup)
    ensures FromProvider(u, resourceGroup, provider).path == FromResourceGroup(u, resourceGroup).path + "/" + ("providers/" + provider)
  {
    var f := Uuid.Format(u);
    assert "/subscriptions/" + f + "/resourceGroups/" + resourceGroup == ("/subscriptions/" + f) + "/" + ("resourceGroups/" + resourceGroup);
    var rg := "/subscriptions/" + f + "/resourceGroups/" + resourceGroup;
    assert rg + "/providers/" + provider == rg + "/" + ("providers/" + provider);
  }

  /** The subscription, resource-group and provider scopes nest. */
  lemma ConstructorsNest(u: Uuid.Uuid, resourceGroup: string, provider: string)
    ensures Contains(FromSubscription(u), FromResourceGroup(u, resourceGroup))
    ensures Contains(FromResourceGroup(u, resourceGroup), FromProvider(u, resourceGroup, provider))
    ensures Contains(FromSubscription(u), FromProvider(u, resourceGroup, provider))
  {
    var sub, rg, prov := FromSubscription(u), FromResourceGroup(u, resourceGroup), FromProvider(u, resourceGroup, provider);
    ConstructorPaths(u, resourceGroup, provider);
    ContainsExtension(sub, "resourceGroups/" + resourceGroup);
    ContainsExtension(rg, "providers/" + provider);
    ContainsTransitive(sub, rg, prov);
  }

  /** Subscription scopes with different ids do not contain each other. */
  lemma DistinctSubscriptionsDisjoint(u: Uuid.Uuid, v: Uuid.Uuid)
    requires u != v
    ensures !Contains(FromSubscription(u), FromSubscription(v))
  {
    SubscriptionSegments(u);
    SubscriptionSegments(v);
    if Contains(FromSubscription(u), FromSubscription(v)) {
      assert Segments(FromSubscription(u))[2] == Segments(FromSubscription(v))[2];
      Uuid.FormatInjective(u, v);
    }
  }

  /**
   * Containment is not a character prefix test: the path of resource group `r`
   * is a character prefix of a provider path under resource group `rg`, yet
   * the first scope does not contain the second.
   */
  lemma CharacterPrefixIsNotContainment(u: Uuid.Uuid)
    ensures StartsWith(FromProvider(u, "rg", "provider").path, FromResourceGroup(u, "r").path)
    ensures !Contains(FromResourceGroup(u, "r"), FromProvider(u, "rg", "provider"))
  {
    var a, b := FromResourceGroup(u, "r"), FromProvider(u, "rg", "provider");
    var rest := "g/providers/provider";
    assert b.path == a.path + rest by {
      var p := "/subscriptions/" + Uuid.Format(u) + "/resourceGroups/";
      assert a.path == p + "r";
      assert b.path == p + "rg" + "/providers/" + "provider";
      assert "rg" + "/providers/" + "provider" == "r" + rest;
    }
    PrefixOfAppend(a.path, rest);
    assert b.path[..|a.path + "/"|][|a.path|] == 'g';
    ContainsIffPathPrefix(a, b);
  }

  /** `x` is a character prefix of `x + y`, followed by the first character of `y`. */
  lemma PrefixOfAppend(x: string, y: string)
    requires |y| > 0
    ensures StartsWith(x + y, x) && (x + y)[|x|] == y[0]
  {
    assert (x + y)[..|x|] == x;
  }

  /** Every scope under a subscription scope names that subscription. */
  lemma SubscriptionInherited(a: Scope, b: Scope)
    requires Contains(a, b) && Subscription(a).Some?
    ensures Subscription(b) == Subscription(a)
  {
    var first, second := Segments(a), Segments(b);
    assert second[1] == second[..|first|][1] == first[1];
    assert second[2] == second[..|first|][2] == first[2];
  }

  /** What the source's scope tests check of the three constructors. */
  lemma ConstructorsSubscription(u: Uuid.Uuid, resourceGroup: string, provider: string)
    ensures IsSubscription(FromSubscription(u)) && Subscription(FromSubscription(u)) == Some(u)
    ensures !IsSubscription(FromResourceGroup(u, resourceGroup))
    ensures Subscription(FromResourceGroup(u, resourceGroup)) == Some(u)
    ensures Subscription(FromProvider(u, resourceGroup, provider)) == Some(u)
  {
    var sub := FromSubscription(u);
    var f := Uuid.Format(u);
    SubscriptionSegments(u);
    Uuid.ParseFormat(u);
    // no "/resourceGroups/" in "/subscriptions/<uuid>": its 16th character would be a slash inside the UUID
    Uuid.FormatNoSlash(u);
    var t := "/resourceGroups/";
    forall i | 0 <= i <= |sub.path| - |t|
      ensures !StartsWith(sub.path[i..], t)
    {
      assert sub.path[i + 15] == f[i];
      assert t[15] == '/';
    }
    assert sub.path[..15] == "/subscriptions/";
    var rg := FromResourceGroup(u, resourceGroup);
    assert rg.path == sub.path + t + resourceGroup;
    assert rg.path[|sub.path|..][..|t|] == t;
    ConstructorsNest(u, resourceGroup, provider);
    SubscriptionInherited(sub, rg);
    SubscriptionInherited(sub, FromProvider(u, resourceGroup, provider));
  }

  /**
   * `ScopeBuilder`: the four optional command-line arguments. The argument
   * parser guarantees that a resource group comes with a subscription, a
   * provider with a resource group, and an explicit scope without a subscription.
   */
  datatype ScopeBuilder = ScopeBuilder(
    subscription: Option<Uuid.Uuid>,
    resourceGroup: Option<string>,
    provider: Option<string>,
    scope: Option<Scope>)

  /** The combinations the argument parser lets through; any other one panics in `build`. */
  predicate Accepted(b: ScopeBuilder) {
    && (b.resourceGroup.Some? ==> b.subscription.Some?)
    && (b.provider.Some? ==> b.resourceGroup.Some?)
    && !(b.scope.Some? && b.subscription.Some?)
  }

  /** `ScopeBuilder::build` */
  function Build(b: ScopeBuilder): (r: Option<Scope>)
    requires Accepted(b)
    ensures r.None? <==> b.subscription.None? && b.resourceGroup.None? && b.provider.None? && b.scope.None?
    ensures b.scope.Some? ==> r == b.scope
    ensures b.subscription.Some? ==> r.Some? && Contains(FromSubscription(b.subscription.value), r.value)
    ensures b.subscription.Some? ==> r.Some? && Subscription(r.value) == b.subscription
    ensures b.resourceGroup.Some? ==> r.Some? && Contains(FromResourceGroup(b.subscription.value, b.resourceGroup.value), r.value)
    ensures b.subscription.Some? && b.resourceGroup.None? ==> r == Some(FromSubscription(b.subscription.value))
    ensures b.resourceGroup.Some? && b.provider.None? ==> r == Some(FromResourceGroup(b.subscription.value, b.resourceGroup.value))
    ensures b.provider.Some? ==> r == Some(FromProvider(b.subscription.value, b.resourceGroup.value, b.provider.value))
  {
    if b.scope.Some? then b.scope
    else if b.subscription.None? then None
    else
      var u := b.subscription.value;
      ConstructorsSubscription(u, b.resourceGroup.GetOr(""), b.provider.GetOr(""));
      if b.resourceGroup.None? then Some(FromSubscription(u))
      else
        ConstructorsNest(u, b.resourceGroup.value, b.provider.GetOr(""));
        ContainsReflexive(FromResourceGroup(u, b.resourceGroup.value));
        if b.provider.None? then Some(FromResourceGroup(u, b.resourceGroup.value))
        else Some(FromProvider(u, b.resourceGroup.value, b.provider.value))
  }
}
