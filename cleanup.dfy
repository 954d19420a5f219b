/**
 * The candidate selection of the orphaned-assignment cleanup: among the
 * eligible and active assignments, those on a subscription-based scope with an
 * administrative role are kept; the kept ones not yet active are to be
 * activated, and the scopes of all kept ones are to be cleaned.
 */
module Cleanup {
  import opened Wrappers
  import Scopes
  import RoleModel

  type RoleAssignment = RoleModel.RoleAssignment

  /** The roles that can delete role assignments. */
  const AdminRoles: seq<string> := ["Owner", "Role Based Access Control Administrator"]

  /** Whether the loop keeps an assignment: its scope has a subscription id and its role is an admin role. */
  predicate Kept(a: RoleAssignment) {
    Scopes.Subscription(a.scope).Some? && a.role.name in AdminRoles
  }

  /** The kept assignments of `pool` that are not active yet. */
  function Candidates(pool: set<RoleAssignment>, active: set<RoleAssignment>): set<RoleAssignment> {
    set a | a in pool && Kept(a) && a !in active
  }

  /** The scopes of the kept assignments of `pool`. */
  function CleanupScopes(pool: set<RoleAssignment>): set<Scopes.Scope> {
    set a | a in pool && Kept(a) :: a.scope
  }

  /**
   * The loop of the cleanup example over `eligible ∪ active`. The order of the
   * union does not change the two sets, so elements are taken in any order.
   * `activate` tells whether activation (and the wait for it) happens.
   */
  method SelectCandidates(eligible: set<RoleAssignment>, active: set<RoleAssignment>)
    returns (toActivate: set<RoleAssignment>, scopes: set<Scopes.Scope>, activate: bool)
    ensures toActivate == Candidates(eligible + active, active)
    ensures scopes == CleanupScopes(eligible + active)
    ensures activate <==> toActivate != {}
  {
    var pool := eligible + active;
    var total := pool;
    toActivate, scopes := {}, {};
    while total != {}
      invariant total <= pool
      invariant toActivate == Candidates(pool - total, active)
      invariant scopes == CleanupScopes(pool - total)
      decreases |total|
    {
      var entry :| entry in total;
      TakeOne(pool, total, entry);
      CandidatesStep(pool - total, entry, active);
      total := total - {entry};
      toActivate, scopes := Visit(entry, active, toActivate, scopes);
    }
    assert pool - total == pool;
    activate := toActivate != {};
  }

  /** One pass of the loop body: skip the assignment unless it is kept. */
  method Visit(entry: RoleAssignment, active: set<RoleAssignment>, toActivate: set<RoleAssignment>, scopes: set<Scopes.Scope>)
    returns (toActivate': set<RoleAssignment>, scopes': set<Scopes.Scope>)
    ensures toActivate' == toActivate + (if Kept(entry) && entry !in active then {entry} else {})
    ensures scopes' == scopes + (if Kept(entry) then {entry.scope} else {})
  {
    toActivate', scopes' := toActivate, scopes;
    if Scopes.Subscription(entry.scope).None? {
      return;
    }
    if entry.role.name !in AdminRoles {
      return;
    }
    if entry !in active {
      toActivate' := toActivate' + {entry};
    }
    scopes' := scopes' + {entry.scope};
  }

  /** Taking one element out of what is left adds it to what was seen. */
  lemma TakeOne(pool: set<RoleAssignment>, total: set<RoleAssignment>, entry: RoleAssignment)
    requires total <= pool && entry in total
    ensures pool - (total - {entry}) == (pool - total) + {entry}
  {
  }

  /** Looking at one more assignment adds it to the two sets exactly when it is kept. */
  lemma CandidatesStep(seen: set<RoleAssignment>, entry: RoleAssignment, active: set<RoleAssignment>)
    ensures Candidates(seen + {entry}, active)
         == Candidates(seen, active) + (if Kept(entry) && entry !in active then {entry} else {})
    ensures CleanupScopes(seen + {entry}) == CleanupScopes(seen) + (if Kept(entry) then {entry.scope} else {})
  {
  }

  /**
   * Nothing already active is activated again, every assignment to activate
   * has its scope cleaned, and every cleaned scope has a subscription id.
   */
  lemma CandidatesConsistent(eligible: set<RoleAssignment>, active: set<RoleAssignment>)
    ensures var toActivate, scopes := Candidates(eligible + active, active), CleanupScopes(eligible + active);
      && toActivate !! active
      && toActivate <= eligible
      && (forall a :: a in toActivate ==> a.scope in scopes)
      && (forall s :: s in scopes ==> Scopes.Subscription(s).Some?)
  {
    var scopes := CleanupScopes(eligible + active);
    forall s | s in scopes
      ensures Scopes.Subscription(s).Some?
    {
      var a :| a in eligible + active && Kept(a) && a.scope == s;
    }
  }
}
