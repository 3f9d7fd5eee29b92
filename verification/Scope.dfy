/** The org scope of a request: from the orgs a caller's roles name to the projects a query can find. */
module Scopes {
  import opened Tenancy
  import opened Worlds
  import R = Roles
  import T = Transactions

  /** The caller of an authenticated request. */
  datatype Caller = Caller(roles: seq<string>, orgNames: seq<string>)

  /** The names of the active orgs among the given ones, in that order. */
  function OrgNamesOf(db: Db, ids: seq<Uuid>): seq<string> {
    if ids == [] then []
    else
      var o := ids[|ids| - 1];
      OrgNamesOf(db, ids[..|ids| - 1]) + if o in db.orgs && !db.orgs[o].deleted then [db.orgs[o].name] else []
  }

  /** The middleware's look-up: all the names in one query, then one for each id that was found; when
      the query fails the caller has no org names. */
  method ResolveCaller(db: Db, roles: seq<string>, parse: string -> Option<Uuid>, down: bool)
    returns (caller: Caller, ghost ids: seq<Uuid>, ghost at: seq<nat>)
    ensures caller.roles == roles && R.FirstOccurrences(roles, parse, ids, at)
    ensures caller.orgNames == if down then [] else OrgNamesOf(db, ids)
  {
    var found;
    found, at := R.ExtractOrgUUIDs(roles, parse);
    ids := found;
    var names: seq<string> := [];
    if |found| > 0 && !down {
      var byId := map o | o in found && o in db.orgs && !db.orgs[o].deleted :: db.orgs[o].name;
      for i := 0 to |found|
        invariant names == OrgNamesOf(db, found[..i])
      {
        assert found[..i + 1][..i] == found[..i];
        if found[i] in byId { names := names + [byId[found[i]]]; }
      }
      assert found[..|found|] == found;
    }
    caller := Caller(roles, names);
  }

  /** The scope: absent for every org, present for the named ones. */
  function ResolveOrgNames(caller: Option<Caller>, org: string): Option<seq<string>> {
    if org != "" then
      match caller
      case None => Some([org])
      case Some(c) =>
        if R.HasRole(c.roles, "admin") then Some([org])
        else if org in c.orgNames then Some([org])
        else Some([])
    else if caller.Some? && |caller.value.orgNames| > 0 then Some(caller.value.orgNames)
    else None
  }

  function ResolveOrgNamesWithDefault(caller: Option<Caller>, org: string, defaultOrg: string): Option<seq<string>> {
    var names := ResolveOrgNames(caller, org);
    if names.Some? then names else if defaultOrg != "" then Some([defaultOrg]) else None
  }

  predicate IsOrgScopeDenied(scope: Option<seq<string>>) { scope.Some? && |scope.value| == 0 }

  /** Access is denied exactly when a caller without the admin role asks for an org that its roles do not
      lead to, also where there is a default org; and the scope is absent only when nobody has asked for
      an org and none is known for the caller. */
  lemma DeniedExactly(caller: Option<Caller>, org: string, defaultOrg: string)
    ensures IsOrgScopeDenied(ResolveOrgNames(caller, org)) <==>
              caller.Some? && org != "" && "admin" !in caller.value.roles && org !in caller.value.orgNames
    ensures IsOrgScopeDenied(ResolveOrgNamesWithDefault(caller, org, defaultOrg)) <==>
        IsOrgScopeDenied(ResolveOrgNames(caller, org))
    ensures ResolveOrgNames(caller, org) == None <==> org == "" && (caller == None || caller.value.orgNames == [])
    ensures ResolveOrgNamesWithDefault(caller, org, defaultOrg) == None <==>
        ResolveOrgNames(caller, org) == None && defaultOrg == ""
  {
  }

  /** The scope in every case: an org that is asked for is the scope of an admin, of a request without a
      caller and of a caller that has the org, and nobody else's; where none is asked for a caller gets the
      orgs it has, and only where that says nothing the default org counts. */
  lemma ScopeExactly(caller: Option<Caller>, org: string, defaultOrg: string)
    ensures org != "" && caller == None ==> ResolveOrgNames(caller, org) == Some([org])
    ensures org != "" && caller.Some? ==>
              ResolveOrgNames(caller, org) ==
                  Some(if "admin" in caller.value.roles || org in caller.value.orgNames then [org] else [])
    ensures org == "" && caller.Some? && caller.value.orgNames != [] ==>
              ResolveOrgNames(caller, org) == Some(caller.value.orgNames)
    ensures org == "" && (caller == None || caller.value.orgNames == []) ==>
              && ResolveOrgNames(caller, org) == None
              && ResolveOrgNamesWithDefault(caller, org, defaultOrg) ==
                  if defaultOrg == "" then None else Some([defaultOrg])
    ensures org != "" || (caller.Some? && caller.value.orgNames != []) ==>
              ResolveOrgNamesWithDefault(caller, org, defaultOrg) == ResolveOrgNames(caller, org)
  {
  }

  lemma {:induction false} ListedNames(db: Db, ids: seq<Uuid>, name: string)
    ensures name in OrgNamesOf(db, ids) <==> exists o :: o in ids && IsOrg(db, name, o)
    decreases |ids|
  {
    if ids != [] {
      var n := |ids| - 1;
      ListedNames(db, ids[..n], name);
      assert forall o :: o in ids <==> o in ids[..n] || o == ids[n];
      assert name in OrgNamesOf(db, ids) <==> name in OrgNamesOf(db, ids[..n]) || IsOrg(db, name, ids[n]);
    }
  }

  /** An active org that one of the caller's roles names, and that is the one asked for. */
  ghost predicate Reaches(db: Db, caller: Caller, parse: string -> Option<Uuid>, org: string, o: Uuid) {
    o in db.orgs && !db.orgs[o].deleted && R.Names(caller.roles, parse, o) && (org != "" ==> db.orgs[o].name == org)
  }

  lemma ScopeNames(db: Db, caller: Caller, parse: string -> Option<Uuid>, ids: seq<Uuid>, at: seq<nat>, org: string,
        o: Uuid)
    requires OrgNamesUnique(db.orgs) && o in db.orgs && !db.orgs[o].deleted
    requires R.FirstOccurrences(caller.roles, parse, ids, at) && caller.orgNames == OrgNamesOf(db, ids)
    requires "admin" !in caller.roles && ResolveOrgNames(Some(caller), org).Some?
    ensures db.orgs[o].name in ResolveOrgNames(Some(caller), org).value <==> Reaches(db, caller, parse, org, o)
  {
    ListedNames(db, ids, db.orgs[o].name);
    R.ExtractedAreNamed(caller.roles, parse, ids, at, o);
    assert IsOrg(db, db.orgs[o].name, o);
  }

  /** A caller without the admin role whose request has a scope finds exactly the active projects of the
      name that lie in active orgs one of its roles names, and in the org asked for; it is denied exactly if
      it asks for an org and no role of its own names an active one of that name; and then it finds nothing,
      with or without the handlers' own guard. */
  lemma ScopeFollowsRoles(w: World, caller: Caller, parse: string -> Option<Uuid>, ids: seq<Uuid>, at: seq<nat>,
        org: string, name: string, p: Uuid)
    requires Inv(w) && R.FirstOccurrences(caller.roles, parse, ids, at) && caller.orgNames == OrgNamesOf(w.db, ids)
    requires "admin" !in caller.roles && ResolveOrgNames(Some(caller), org).Some?
    ensures var scope := ResolveOrgNames(Some(caller), org);
            && (p in Matching(w.db, name, scope) <==>
                  && p in w.db.projects && !w.db.projects[p].deleted && w.db.projects[p].name == name
                  && exists o :: OrgOf(w.db, w.db.projects[p]) == Some(o) && Reaches(w.db, caller, parse, org, o))
            && (IsOrgScopeDenied(scope) <==>
                  org != "" && forall o :: IsOrg(w.db, org, o) ==> !R.Names(caller.roles, parse, o))
            && (IsOrgScopeDenied(scope) ==> T.FindProject(w.db, name, scope) == Err(NotFound))
  {
    var scope := ResolveOrgNames(Some(caller), org);
    forall o | o in w.db.orgs && !w.db.orgs[o].deleted
      ensures w.db.orgs[o].name in scope.value <==> Reaches(w.db, caller, parse, org, o)
    {
      ScopeNames(w.db, caller, parse, ids, at, org, o);
    }
    DenialFollowsRoles(w.db, caller, parse, ids, at, org);
    if IsOrgScopeDenied(scope) { assert Matching(w.db, name, scope) == {}; }
  }

  lemma DenialFollowsRoles(db: Db, caller: Caller, parse: string -> Option<Uuid>, ids: seq<Uuid>, at: seq<nat>,
        org: string)
    requires R.FirstOccurrences(caller.roles, parse, ids, at) && caller.orgNames == OrgNamesOf(db, ids)
    requires "admin" !in caller.roles
    ensures IsOrgScopeDenied(ResolveOrgNames(Some(caller), org)) <==>
        org != "" && forall o :: IsOrg(db, org, o) ==> !R.Names(caller.roles, parse, o)
  {
    DeniedExactly(Some(caller), org, "");
    ListedNames(db, ids, org);
    forall o { R.ExtractedAreNamed(caller.roles, parse, ids, at, o); }
  }
}
