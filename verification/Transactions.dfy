/** What each store operation must do, as a function of the world before it: the world after it, or
    the error it reports with nothing changed. Fresh UUIDs, the listing a query happens to return and
    the clock are arguments. */
module Transactions {
  import opened Tenancy
  import opened EventLog
  import opened Worlds

  ghost function FindOrg(db: Db, name: string): (r: Option<Uuid>)
    ensures r.Some? ==> IsOrg(db, name, r.value)
    ensures r.None? ==> forall o :: !IsOrg(db, name, o)
  {
    if exists o :: IsOrg(db, name, o) then
      var o :| IsOrg(db, name, o);
      Some(o)
    else
      None
  }

  lemma FindOrgIsUnique(db: Db, name: string, o: Uuid)
    requires OrgNamesUnique(db.orgs) && IsOrg(db, name, o)
    ensures FindOrg(db, name) == Some(o)
  {
  }

  ghost function FindProject(db: Db, name: string, scope: Option<seq<string>>): (r: Result<Uuid>)
    ensures r.Ok? <==> exists p :: Matching(db, name, scope) == {p}
    ensures r.Ok? ==> Matching(db, name, scope) == {r.value}
    ensures r.Err? ==> r.error == if Matching(db, name, scope) == {} then NotFound else Ambiguous
  {
    var s := Matching(db, name, scope);
    if exists p :: s == {p} then
      var p :| s == {p};
      Ok(p)
    else if s == {} then Err(NotFound)
    else Err(Ambiguous)
  }

  ghost predicate SlotTaken(db: Db, f: Uuid, name: string) {
    exists p :: p in db.projects && db.projects[p].folder == f && db.projects[p].name == name
  }

  ghost predicate IsDefaultFolder(db: Db, o: Uuid, f: Uuid) {
    f in db.folders && db.folders[f].name == DEFAULT_FOLDER && db.folders[f].org == o
  }

  ghost function CreateOrg(w: World, name: string, description: string, o: Uuid, f: Uuid, now: int): Result<World> {
    if !ValidName(name) then Err(Invalid)
    else if OrgNameTaken(w.db, name) then Err(Constraint)
    else Ok(AddOrg(w, o, f, name, description, now))
  }

  ghost function CreateProject(w: World, orgName: string, name: string, description: string, p: Uuid,
        now: int): Result<World>
  {
    match FindOrg(w.db, orgName)
    case None => Err(NotFound)
    case Some(o) =>
      if exists f :: IsDefaultFolder(w.db, o, f) then
        var f :| IsDefaultFolder(w.db, o, f);
        if !ValidName(name) then Err(Invalid)
        else if SlotTaken(w.db, f, name) then Err(Constraint)
        else Ok(AddProject(w, p, f, name, description, now))
      else Err(NotFound)
  }

  ghost function DeleteOrg(w: World, name: string, order: seq<Uuid>, now: int): Result<World> {
    match FindOrg(w.db, name)
    case None => Err(NotFound)
    case Some(o) =>
      if Lists(order, ActiveProjectsOf(w.db, o)) then Ok(DropOrg(w, o, order, now)) else Err(Unavailable)
  }

  ghost function DeleteProject(w: World, name: string, scope: Option<seq<string>>, now: int): Result<World> {
    match FindProject(w.db, name, scope)
    case Err(e) => Err(e)
    case Ok(p) => assert p in Matching(w.db, name, scope); Ok(DropProject(w, p, now))
  }

  ghost function UpdateOrg(w: World, name: string, description: string): Result<World> {
    match FindOrg(w.db, name)
    case None => Err(NotFound)
    case Some(o) => Ok(Redescribe(w, o, description))
  }

  ghost function UpdateProject(w: World, name: string, scope: Option<seq<string>>, description: string): Result<World> {
    match FindProject(w.db, name, scope)
    case Err(e) => Err(e)
    case Ok(p) => assert p in Matching(w.db, name, scope); Ok(RedescribeProject(w, p, description))
  }

  // --- Each operation keeps the invariant ---

  lemma CreateOrgKeepsInv(w: World, name: string, description: string, o: Uuid, f: Uuid, now: int)
    requires Inv(w) && Timely(w, now) && Fresh(w, o) && Fresh(w, f) && o != f
    ensures var r := CreateOrg(w, name, description, o, f, now); r.Ok? ==> Inv(r.value)
  {
    if CreateOrg(w, name, description, o, f, now).Ok? { AddOrgKeepsInv(w, o, f, name, description, now); }
  }

  lemma CreateProjectKeepsInv(w: World, orgName: string, name: string, description: string, p: Uuid, now: int)
    requires Inv(w) && Timely(w, now) && Fresh(w, p)
    ensures var r := CreateProject(w, orgName, name, description, p, now); r.Ok? ==> Inv(r.value)
  {
    if CreateProject(w, orgName, name, description, p, now).Ok? {
      var f :| IsDefaultFolder(w.db, FindOrg(w.db, orgName).value, f);
      assert forall g :: IsDefaultFolder(w.db, FindOrg(w.db, orgName).value, g) ==> g == f;
      AddProjectKeepsInv(w, p, f, name, description, now);
    }
  }

  lemma DeleteOrgKeepsInv(w: World, name: string, order: seq<Uuid>, now: int)
    requires Inv(w) && Timely(w, now)
    ensures var r := DeleteOrg(w, name, order, now); r.Ok? ==> Inv(r.value)
  {
    if DeleteOrg(w, name, order, now).Ok? { DropOrgKeepsInv(w, FindOrg(w.db, name).value, order, now); }
  }

  lemma DeleteProjectKeepsInv(w: World, name: string, scope: Option<seq<string>>, now: int)
    requires Inv(w) && Timely(w, now)
    ensures var r := DeleteProject(w, name, scope, now); r.Ok? ==> Inv(r.value)
  {
    if DeleteProject(w, name, scope, now).Ok? {
      var p := FindProject(w.db, name, scope).value;
      assert p in Matching(w.db, name, scope);
      DropProjectKeepsInv(w, p, now);
    }
  }

  lemma UpdatesKeepInv(w: World, name: string, scope: Option<seq<string>>, description: string)
    requires Inv(w)
    ensures var r := UpdateOrg(w, name, description); r.Ok? ==> Inv(r.value)
    ensures var r := UpdateProject(w, name, scope, description); r.Ok? ==> Inv(r.value)
  {
    if UpdateOrg(w, name, description).Ok? { RedescribeKeepsInv(w, FindOrg(w.db, name).value, description); }
    if UpdateProject(w, name, scope, description).Ok? {
      var p := FindProject(w.db, name, scope).value;
      assert p in Matching(w.db, name, scope);
      RedescribeProjectKeepsInv(w, p, description);
    }
  }

  // --- Consequences of the invariant for queries ---

  ghost predicate NamesActiveOrgs(db: Db, names: seq<string>) {
    forall n :: n in names <==> exists o :: IsOrg(db, n, o)
  }

  /** Because no active project lies under a deleted or missing org, a query without a scope finds the
      same projects as one scoped to the names of all active orgs; the empty scope finds nothing. */
  lemma UnscopedIsScopedToAllOrgs(w: World, name: string, names: seq<string>)
    requires Inv(w) && NamesActiveOrgs(w.db, names)
    ensures Matching(w.db, name, None) == Matching(w.db, name, Some(names))
    ensures FindProject(w.db, name, None) == FindProject(w.db, name, Some(names))
    ensures FindProject(w.db, name, Some([])) == Err(NotFound)
  {
    var db, v := w.db, w.View();
    WellFormedIsClosed(w.log);
    forall p | p in db.projects && !db.projects[p].deleted ensures InScope(db, db.projects[p], Some(names)) {
      assert Resource(ProjectKind, p) in v.live;
      var o := v.parent[p];
      assert Resource(OrgKind, o) in v.live;
      assert IsOrg(db, db.orgs[o].name, o);
    }
    assert Matching(db, name, Some([])) == {};
  }

  /** The hierarchy of every state that keeps the invariant. */
  lemma Hierarchy(w: World)
    requires Inv(w)
    ensures forall p :: p in w.db.projects ==>
              && w.db.projects[p].folder in w.db.folders
              && w.db.folders[w.db.projects[p].folder].org in w.db.orgs
              && (!w.db.projects[p].deleted ==> !w.db.orgs[w.db.folders[w.db.projects[p].folder].org].deleted)
    ensures forall o :: o in w.db.orgs && !w.db.orgs[o].deleted ==>
              exists f :: FoldersOf(w.db, o) == {f} && w.db.folders[f].name == DEFAULT_FOLDER
  {
    var db, v := w.db, w.View();
    WellFormedIsClosed(w.log);
    forall p | p in db.projects && !db.projects[p].deleted
      ensures !db.orgs[db.folders[db.projects[p].folder].org].deleted
    {
      assert Resource(ProjectKind, p) in v.live;
      assert Resource(OrgKind, v.parent[p]) in v.live;
    }
    forall o | o in db.orgs && !db.orgs[o].deleted
      ensures exists f :: FoldersOf(db, o) == {f} && db.folders[f].name == DEFAULT_FOLDER
    {
      assert HasFolder(db.folders, o);
      var f :| f in db.folders && db.folders[f].org == o;
      assert FoldersOf(db, o) == {f};
    }
  }

  predicate IsActive(db: Db, r: Resource) {
    match r.kind
    case OrgKind => r.id in db.orgs && !db.orgs[r.id].deleted
    case ProjectKind => r.id in db.projects && !db.projects[r.id].deleted
  }

  predicate HasRow(db: Db, r: Resource) {
    match r.kind
    case OrgKind => r.id in db.orgs
    case ProjectKind => r.id in db.projects
  }

  lemma ActiveIsLive(db: Db, v: View, r: Resource)
    requires RowsInv(db, v)
    ensures r in v.live <==> IsActive(db, r)
    ensures HasRow(db, r) ==> r in v.born
  {
    assert r == Resource(r.kind, r.id);
  }

  /** The log refines the tables: folding it gives exactly the active rows; what has a row has a
      created event; and what was ever created has a deleted event exactly when it is not active. */
  lemma LogRefinesTables(w: World, r: Resource)
    requires Inv(w)
    ensures r in Fold(w.log).live <==> IsActive(w.db, r)
    ensures HasRow(w.db, r) ==> Has(w.log, Created, r)
    ensures Has(w.log, Created, r) ==> (Has(w.log, Deleted, r) <==> !IsActive(w.db, r))
    ensures Has(w.log, Deleted, r) ==> Has(w.log, Created, r)
  {
    FoldIsHistory(w.log, r);
    WellFormedIsClosed(w.log);
    ActiveIsLive(w.db, Fold(w.log), r);
  }
}
