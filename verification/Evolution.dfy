/** How the world may change in one step of anybody, as seen by somebody who read it earlier. */
module Evolution {
  import opened Tenancy
  import opened EventLog
  import opened Worlds
  import T = Transactions

  /** Rows never come back once gone, a project never changes its folder, and a dead org gains
      neither projects nor folders. */
  ghost predicate RowsEvolve(v: View, before: Db, after: Db) {
    && (forall r :: r in v.born && T.HasRow(after, r) ==> T.HasRow(before, r))
    && (forall p :: p in before.projects && p in after.projects ==>
        after.projects[p].folder == before.projects[p].folder)
    && (forall o :: Resource(OrgKind, o) in v.Dead() ==>
          ProjectsOf(after, o) <= ProjectsOf(before, o) && FoldersOf(after, o) <= FoldersOf(before, o))
  }

  ghost predicate Evolves(before: World, after: World) {
    && before.log <= after.log
    && before.used <= after.used
    && Base(before) <= Base(after)
    && RowsEvolve(before.View(), before.db, after.db)
  }

  lemma ViewExtends(before: World, after: World)
    requires WellFormed(after.log) && before.log <= after.log
    ensures Extends(before.View(), after.View())
    ensures WellFormed(before.log)
  {
    PrefixExtends(after.log, |before.log|, |after.log|);
    assert after.log[..|before.log|] == before.log && after.log[..|after.log|] == after.log;
    WellFormedPrefix(after.log, |before.log|);
  }

  lemma SameEvolves(w: World)
    requires Inv(w)
    ensures Evolves(w, w)
  {
  }

  lemma RowsWithNewOrg(v: View, db: Db, o: Uuid, f: Uuid, row: Org)
    requires f !in db.folders && forall r :: r in v.born ==> r.id != o
    requires forall p :: p in db.projects ==> db.projects[p].folder != f
    ensures RowsEvolve(v, db, db.(orgs := db.orgs[o := row], folders := db.folders[f := Folder(DEFAULT_FOLDER, o)]))
  {
  }

  lemma AddOrgEvolves(w: World, o: Uuid, f: Uuid, name: string, description: string, now: int)
    requires Inv(w) && Timely(w, now) && Fresh(w, o) && Fresh(w, f) && o != f && !OrgNameTaken(w.db, name)
    ensures Evolves(w, AddOrg(w, o, f, name, description, now))
  {
    RowsWithNewOrg(w.View(), w.db, o, f, Org(name, description, false));
  }

  lemma RowsWithNewProject(v: View, db: Db, p: Uuid, row: Project)
    requires forall r :: r in v.born ==> r.id != p
    requires p !in db.projects && row.folder in db.folders && Resource(OrgKind, db.folders[row.folder].org) in v.live
    ensures RowsEvolve(v, db, db.(projects := db.projects[p := row]))
  {
  }

  lemma AddProjectEvolves(w: World, p: Uuid, f: Uuid, name: string, description: string, now: int)
    requires OrgRows(w.db.orgs, w.View()) && IdsInv(w) && Fresh(w, p)
    requires f in w.db.folders && w.db.folders[f].org in w.db.orgs && !w.db.orgs[w.db.folders[f].org].deleted
    ensures Evolves(w, AddProject(w, p, f, name, description, now))
  {
    assert Resource(OrgKind, w.db.folders[f].org) in w.View().live;
    RowsWithNewProject(w.View(), w.db, p, Project(name, description, f, false));
  }

  /** Steps that neither add rows nor move a project, and only append to the log. */
  lemma ShrinkEvolves(w: World, w': World)
    requires w.log <= w'.log && w.used <= w'.used && Base(w) <= Base(w')
    requires w'.db.orgs.Keys <= w.db.orgs.Keys && w'.db.projects.Keys <= w.db.projects.Keys
    requires forall f :: f in w'.db.folders ==> f in w.db.folders && w'.db.folders[f] == w.db.folders[f]
    requires forall p :: p in w'.db.projects ==> w'.db.projects[p].folder == w.db.projects[p].folder
    ensures Evolves(w, w')
  {
  }

  lemma CreateOrgEvolves(w: World, name: string, description: string, o: Uuid, f: Uuid, now: int)
    requires Inv(w) && Timely(w, now) && Fresh(w, o) && Fresh(w, f) && o != f
    ensures var r := T.CreateOrg(w, name, description, o, f, now); r.Ok? ==> Evolves(w, r.value)
  {
    if T.CreateOrg(w, name, description, o, f, now).Ok? { AddOrgEvolves(w, o, f, name, description, now); }
  }

  lemma CreateProjectEvolves(w: World, orgName: string, name: string, description: string, p: Uuid, now: int)
    requires Inv(w) && Timely(w, now) && Fresh(w, p)
    ensures var r := T.CreateProject(w, orgName, name, description, p, now); r.Ok? ==> Evolves(w, r.value)
  {
    if T.CreateProject(w, orgName, name, description, p, now).Ok? {
      var o := T.FindOrg(w.db, orgName).value;
      var f :| T.IsDefaultFolder(w.db, o, f);
      assert forall g :: T.IsDefaultFolder(w.db, o, g) ==> g == f;
      AddProjectEvolves(w, p, f, name, description, now);
    }
  }

  lemma DropOrgEvolves(w: World, o: Uuid, order: seq<Uuid>, now: int)
    requires Inv(w) && Timely(w, now) && o in w.db.orgs && !w.db.orgs[o].deleted
        && Lists(order, ActiveProjectsOf(w.db, o))
    ensures Evolves(w, DropOrg(w, o, order, now))
  {
    DropProjectsOnlyDeletes(w, order, now);
    DropProjectsKeepsOrgs(w, order, now);
    DropProjectsGrowsLog(w, order, now);
    ShrinkEvolves(w, DropOrg(w, o, order, now));
  }

  lemma DeleteOrgEvolves(w: World, name: string, order: seq<Uuid>, now: int)
    requires Inv(w) && Timely(w, now)
    ensures var r := T.DeleteOrg(w, name, order, now); r.Ok? ==> Evolves(w, r.value)
  {
    if T.DeleteOrg(w, name, order, now).Ok? {
      DropOrgEvolves(w, T.FindOrg(w.db, name).value, order, now);
    }
  }

  lemma DeleteProjectEvolves(w: World, name: string, scope: Option<seq<string>>, now: int)
    requires Inv(w) && Timely(w, now)
    ensures var r := T.DeleteProject(w, name, scope, now); r.Ok? ==> Evolves(w, r.value)
  {
    if T.DeleteProject(w, name, scope, now).Ok? {
      var p := T.FindProject(w.db, name, scope).value;
      assert p in Matching(w.db, name, scope);
      ShrinkEvolves(w, DropProject(w, p, now));
    }
  }

  lemma UpdateOrgEvolves(w: World, name: string, description: string)
    requires Inv(w)
    ensures var r := T.UpdateOrg(w, name, description); r.Ok? ==> Evolves(w, r.value)
  {
    if T.UpdateOrg(w, name, description).Ok? {
      ShrinkEvolves(w, T.UpdateOrg(w, name, description).value);
    }
  }

  lemma UpdateProjectEvolves(w: World, name: string, scope: Option<seq<string>>, description: string)
    requires Inv(w)
    ensures var r := T.UpdateProject(w, name, scope, description); r.Ok? ==> Evolves(w, r.value)
  {
    if T.UpdateProject(w, name, scope, description).Ok? {
      assert T.FindProject(w.db, name, scope).value in Matching(w.db, name, scope);
      ShrinkEvolves(w, T.UpdateProject(w, name, scope, description).value);
    }
  }

  lemma TruncateEvolves(w: World, cutoff: int)
    requires Inv(w)
    ensures Evolves(w, Truncate(w, cutoff))
  {
    TruncateKeepsInv(w, cutoff);
    ShrinkEvolves(w, Truncate(w, cutoff));
  }

  lemma StatusesEvolve(w: World, statuses: map<StatusKey, StatusRow>)
    requires Inv(w)
    ensures Evolves(w, w.(db := w.db.(statuses := statuses)))
  {
  }

  lemma BurnEvolves(w: World, ids: nat)
    requires Inv(w)
    ensures Evolves(w, w.(nextId := w.nextId + ids))
  {
  }

  lemma EraseProjectEvolves(w: World, p: Uuid)
    requires Inv(w) && Resource(ProjectKind, p) !in w.View().live
    ensures Evolves(w, EraseProject(w, p))
  {
    ShrinkEvolves(w, EraseProject(w, p));
  }

  lemma EraseFoldersEvolves(w: World, o: Uuid)
    requires Inv(w) && Resource(OrgKind, o) !in w.View().live && ProjectsOf(w.db, o) == {}
    ensures Evolves(w, EraseFolders(w, o))
  {
    ShrinkEvolves(w, EraseFolders(w, o));
  }

  lemma EraseOrgEvolves(w: World, o: Uuid)
    requires Inv(w) && Resource(OrgKind, o) !in w.View().live && FoldersOf(w.db, o) == {}
    ensures Evolves(w, EraseOrg(w, o))
  {
    ShrinkEvolves(w, EraseOrg(w, o));
  }
}
