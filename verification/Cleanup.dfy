/** Which rows one undisturbed, error-free pass of hard-deletion removes, and that it agrees with the
    status shown for deleted resources and leaves nothing for a second pass. */
module Cleanup {
  import opened Tenancy
  import opened EventLog
  import opened Worlds
  import opened Statuses

  /** No controller registered for the resource has a status row for it. */
  predicate Unreported(db: Db, cfg: Config, kind: Kind, id: Uuid) {
    forall c :: c in cfg.For(kind) ==> StatusKey(c, kind, id) !in db.statuses
  }

  function DoomedProjects(db: Db, cfg: Config): set<Uuid> {
    set p | p in db.projects && db.projects[p].deleted && Unreported(db, cfg, ProjectKind, p)
  }

  /** The deleted orgs no controller reports on and no project row belongs to, apart from `gone`. */
  function DoomedOrgs(db: Db, cfg: Config, gone: set<Uuid>): set<Uuid> {
    set o | o in db.orgs && db.orgs[o].deleted && ProjectsOf(db, o) <= gone && Unreported(db, cfg, OrgKind, o)
  }

  /** A status row that goes with its resource: with no controller registered none does. */
  predicate Orphaned(cfg: Config, k: StatusKey, kind: Kind, ids: set<Uuid>) {
    k.kind == kind && k.id in ids && |cfg.For(kind)| > 0 && k.controller !in cfg.For(kind)
  }

  /** The tables without the given projects, and without the given orgs and their folders. */
  function Purge(db: Db, cfg: Config, ps: set<Uuid>, os: set<Uuid>): Db {
    db.(projects := db.projects - ps,
        orgs := db.orgs - os,
        folders := map f | f in db.folders && db.folders[f].org !in os :: db.folders[f],
        statuses := map k | k in db.statuses && !Orphaned(cfg, k, ProjectKind, ps) && !Orphaned(cfg, k, OrgKind, os)
                    :: db.statuses[k])
  }

  function Sweep(db: Db, cfg: Config): Db {
    var ps := DoomedProjects(db, cfg);
    Purge(db, cfg, ps, DoomedOrgs(db, cfg, ps))
  }

  // --- Agreement with the derived status ---

  function RowsFor(db: Db, kind: Kind, id: Uuid): map<string, StatusRow> {
    map k | k in db.statuses && k.kind == kind && k.id == id :: k.controller := db.statuses[k]
  }

  ghost function StatusOf(db: Db, cfg: Config, kind: Kind, id: Uuid, deleted: bool): Indication {
    Indicate(RowsFor(db, kind, id), deleted, SetOf(cfg.For(kind)))
  }

  lemma UnreportedIsGone(db: Db, cfg: Config, kind: Kind, id: Uuid)
    ensures Unreported(db, cfg, kind, id) <==> StatusOf(db, cfg, kind, id, true) == Gone
  {
    var rows, registered := RowsFor(db, kind, id), SetOf(cfg.For(kind));
    forall c ensures c in rows <==> StatusKey(c, kind, id) in db.statuses {
      if StatusKey(c, kind, id) in db.statuses { assert c in rows; }
    }
    if SomeRow(rows, registered) {
      var c :| c in registered && c in rows;
      assert StatusKey(c, kind, id) in db.statuses;
    } else {
      forall c | c in cfg.For(kind) ensures StatusKey(c, kind, id) !in db.statuses { assert c in registered; }
    }
  }

  /** One pass removes exactly the deleted projects whose status is Gone, and the deleted orgs whose
      status is Gone and all of whose projects it removed too; nothing of theirs remains. */
  lemma SweepAgreesWithStatus(db: Db, cfg: Config)
    ensures var after := Sweep(db, cfg);
            && (forall p :: p in after.projects <==>
                  p in db.projects && !(db.projects[p].deleted && StatusOf(db, cfg, ProjectKind, p, true) == Gone))
            && (forall p :: p in after.projects ==> after.projects[p] == db.projects[p])
            && (forall o :: o in after.orgs <==>
                  o in db.orgs && !(db.orgs[o].deleted && StatusOf(db, cfg, OrgKind, o, true) == Gone
                      && ProjectsOf(db, o) !! after.projects.Keys))
            && (forall o :: o in after.orgs ==> after.orgs[o] == db.orgs[o])
            && (forall f :: f in after.folders <==>
                  f in db.folders && (db.folders[f].org in db.orgs ==> db.folders[f].org in after.orgs))
            && (forall f :: f in after.folders ==> after.folders[f] == db.folders[f])
            && after.events == db.events
  {
    forall kind, id ensures Unreported(db, cfg, kind, id) <==> StatusOf(db, cfg, kind, id, true) == Gone {
      UnreportedIsGone(db, cfg, kind, id);
    }
    var ps := DoomedProjects(db, cfg);
    var after := Sweep(db, cfg);
    forall o | o in db.orgs ensures ProjectsOf(db, o) <= ps <==> ProjectsOf(db, o) !! after.projects.Keys {
      assert ProjectsOf(db, o) <= db.projects.Keys;
      assert after.projects.Keys == db.projects.Keys - ps;
    }
  }

  /** With controllers registered for both kinds no status row of a removed resource survives; where
      none is registered for a kind, the rows of that kind are left alone. */
  lemma SweepLeavesNoStatus(db: Db, cfg: Config, k: StatusKey)
    requires k in Sweep(db, cfg).statuses
    requires match k.kind
             case ProjectKind => k.id in db.projects && k.id !in Sweep(db, cfg).projects
             case OrgKind => k.id in db.orgs && k.id !in Sweep(db, cfg).orgs
    ensures cfg.For(k.kind) == []
  {
  }

  lemma SweepKeepsOtherStatuses(db: Db, cfg: Config, k: StatusKey)
    requires k in db.statuses
    requires k.controller in cfg.For(k.kind) || cfg.For(k.kind) == [] ||
             match k.kind
             case ProjectKind => k.id !in DoomedProjects(db, cfg)
             case OrgKind => k.id !in db.orgs || k.id in Sweep(db, cfg).orgs
    ensures k in Sweep(db, cfg).statuses && Sweep(db, cfg).statuses[k] == db.statuses[k]
  {
  }

  lemma PurgeKeepsReports(db: Db, cfg: Config, ps: set<Uuid>, os: set<Uuid>, kind: Kind, id: Uuid)
    ensures Unreported(Purge(db, cfg, ps, os), cfg, kind, id) <==> Unreported(db, cfg, kind, id)
  {
    forall c | c in cfg.For(kind)
      ensures StatusKey(c, kind, id) in Purge(db, cfg, ps, os).statuses <==> StatusKey(c, kind, id) in db.statuses
    {
    }
  }

  lemma PurgeOfNothing(db: Db, cfg: Config)
    ensures Purge(db, cfg, {}, {}) == db
  {
    assert Purge(db, cfg, {}, {}).statuses == db.statuses;
    assert Purge(db, cfg, {}, {}).folders == db.folders;
  }

  lemma PurgedProjectsOf(db: Db, cfg: Config, ps: set<Uuid>, os: set<Uuid>, o: Uuid)
    requires o !in os
    ensures ProjectsOf(Purge(db, cfg, ps, os), o) == ProjectsOf(db, o) - ps
  {
  }

  /** A second pass finds nothing to remove. */
  lemma SweepIsIdempotent(db: Db, cfg: Config)
    ensures Sweep(Sweep(db, cfg), cfg) == Sweep(db, cfg)
  {
    var ps := DoomedProjects(db, cfg);
    var os := DoomedOrgs(db, cfg, ps);
    var after := Sweep(db, cfg);
    forall kind, id ensures Unreported(after, cfg, kind, id) <==> Unreported(db, cfg, kind, id) {
      PurgeKeepsReports(db, cfg, ps, os, kind, id);
    }
    assert DoomedProjects(after, cfg) == {};
    forall o | o in after.orgs ensures o !in DoomedOrgs(after, cfg, {}) {
      PurgedProjectsOf(db, cfg, ps, os, o);
      DifferenceIsEmpty(ProjectsOf(db, o), ps);
      assert ProjectsOf(after, o) <= {} ==> ProjectsOf(after, o) == {};
    }
    assert DoomedOrgs(after, cfg, {}) == {};
    PurgeOfNothing(after, cfg);
  }

  // --- The pass keeps the invariant ---

  lemma SweepKeepsSchema(db: Db, cfg: Config)
    requires SchemaInv(db)
    ensures SchemaInv(Sweep(db, cfg))
  {
    var ps := DoomedProjects(db, cfg);
    var os := DoomedOrgs(db, cfg, ps);
    var after := Sweep(db, cfg);
    forall o | o in after.orgs && !after.orgs[o].deleted ensures HasFolder(after.folders, o) {
      var f :| f in db.folders && db.folders[f].org == o;
      assert o !in os && f in after.folders && after.folders[f].org == o;
    }
  }

  lemma SweepKeepsRows(db: Db, cfg: Config, v: View)
    requires RowsInv(db, v)
    ensures RowsInv(Sweep(db, cfg), v)
  {
    var ps := DoomedProjects(db, cfg);
    var os := DoomedOrgs(db, cfg, ps);
    var after := Sweep(db, cfg);
    forall p | p in after.projects
      ensures after.projects[p].folder in after.folders && after.folders[after.projects[p].folder].org == v.parent[p]
    {
      var f := db.projects[p].folder;
      assert p in ProjectsOf(db, db.folders[f].org) && p !in ps;
      assert db.folders[f].org !in os;
    }
  }

  lemma SweepKeepsInv(w: World, cfg: Config)
    requires Inv(w)
    ensures Inv(w.(db := Sweep(w.db, cfg)))
  {
    SweepKeepsSchema(w.db, cfg);
    SweepKeepsRows(w.db, cfg, w.View());
  }

  // --- The pass, one resource at a time ---

  function WithoutOrphans(db: Db, cfg: Config, kind: Kind, id: Uuid): Db {
    db.(statuses := map k | k in db.statuses && !Orphaned(cfg, k, kind, {id}) :: db.statuses[k])
  }

  function PurgeProject(db: Db, cfg: Config, p: Uuid): Db {
    db.(projects := db.projects - {p},
        statuses := map k | k in db.statuses && !Orphaned(cfg, k, ProjectKind, {p}) :: db.statuses[k])
  }

  function FoldersBut(db: Db, o: Uuid): map<Uuid, Folder> {
    map f | f in db.folders && db.folders[f].org != o :: db.folders[f]
  }

  lemma ErasedFolders(w: World, o: Uuid)
    ensures EraseFolders(w, o) == w.(db := w.db.(folders := FoldersBut(w.db, o)))
  {
    assert EraseFolders(w, o).db.folders == FoldersBut(w.db, o);
  }

  function PurgeOrg(db: Db, cfg: Config, o: Uuid): Db {
    db.(orgs := db.orgs - {o},
        folders := FoldersBut(db, o),
        statuses := map k | k in db.statuses && !Orphaned(cfg, k, OrgKind, {o}) :: db.statuses[k])
  }

  lemma PurgeAnotherProject(db: Db, cfg: Config, ps: set<Uuid>, os: set<Uuid>, p: Uuid)
    ensures Purge(db, cfg, ps + {p}, os) == PurgeProject(Purge(db, cfg, ps, os), cfg, p)
  {
    var a, b := Purge(db, cfg, ps + {p}, os), PurgeProject(Purge(db, cfg, ps, os), cfg, p);
    assert a.projects == b.projects;
    assert a.statuses == b.statuses;
  }

  lemma PurgeAnotherOrg(db: Db, cfg: Config, ps: set<Uuid>, os: set<Uuid>, o: Uuid)
    ensures Purge(db, cfg, ps, os + {o}) == PurgeOrg(Purge(db, cfg, ps, os), cfg, o)
  {
    var a, b := Purge(db, cfg, ps, os + {o}), PurgeOrg(Purge(db, cfg, ps, os), cfg, o);
    assert a.orgs == b.orgs && a.folders == b.folders;
    assert a.statuses == b.statuses;
  }

  /** What a pass makes of one listed project, and of one listed org. */
  function AfterProject(db: Db, cfg: Config, p: Uuid): Db {
    if Unreported(db, cfg, ProjectKind, p) then PurgeProject(db, cfg, p) else db
  }

  function AfterOrg(db: Db, cfg: Config, o: Uuid): Db {
    if ProjectsOf(db, o) == {} && Unreported(db, cfg, OrgKind, o) then PurgeOrg(db, cfg, o) else db
  }

  function ProjectsAmong(db: Db, cfg: Config, listed: seq<Uuid>): set<Uuid> {
    set p | p in listed && Unreported(db, cfg, ProjectKind, p)
  }

  function OrgsAmong(db: Db, cfg: Config, listed: seq<Uuid>): set<Uuid> {
    set o | o in listed && ProjectsOf(db, o) <= DoomedProjects(db, cfg) && Unreported(db, cfg, OrgKind, o)
  }

  /** The tables when a pass has dealt with the listed projects, and then with the listed orgs. */
  function WithoutProjects(db: Db, cfg: Config, listed: seq<Uuid>): Db {
    Purge(db, cfg, ProjectsAmong(db, cfg, listed), {})
  }

  function WithoutOrgs(db: Db, cfg: Config, listed: seq<Uuid>): Db {
    Purge(db, cfg, DoomedProjects(db, cfg), OrgsAmong(db, cfg, listed))
  }

  lemma NoneAmong(db: Db, cfg: Config, listed: seq<Uuid>)
    ensures WithoutProjects(db, cfg, listed[..0]) == db
  {
    assert ProjectsAmong(db, cfg, listed[..0]) == {};
    PurgeOfNothing(db, cfg);
  }

  lemma AnotherProject(db: Db, cfg: Config, listed: seq<Uuid>, i: nat)
    requires i < |listed|
    ensures AfterProject(WithoutProjects(db, cfg, listed[..i]), cfg, listed[i]) ==
        WithoutProjects(db, cfg, listed[..i + 1])
  {
    var ps, p := ProjectsAmong(db, cfg, listed[..i]), listed[i];
    assert listed[..i + 1] == listed[..i] + [p];
    PurgeKeepsReports(db, cfg, ps, {}, ProjectKind, p);
    PurgeAnotherProject(db, cfg, ps, {}, p);
    assert ProjectsAmong(db, cfg, listed[..i + 1]) == if Unreported(db, cfg, ProjectKind, p) then ps + {p} else ps;
  }

  lemma AllProjects(db: Db, cfg: Config, listed: seq<Uuid>)
    requires Lists(listed, DeletedProjects(db))
    ensures WithoutProjects(db, cfg, listed[..|listed|]) == Purge(db, cfg, DoomedProjects(db, cfg), {})
  {
    assert listed[..|listed|] == listed;
    assert ProjectsAmong(db, cfg, listed) == DoomedProjects(db, cfg);
  }

  lemma NoOrgAmong(db: Db, cfg: Config, listed: seq<Uuid>)
    ensures WithoutOrgs(db, cfg, listed[..0]) == Purge(db, cfg, DoomedProjects(db, cfg), {})
  {
    assert OrgsAmong(db, cfg, listed[..0]) == {};
  }

  lemma DifferenceIsEmpty(a: set<Uuid>, b: set<Uuid>)
    ensures a - b == {} <==> a <= b
  {
    if a - b == {} {
      forall x | x in a ensures x in b { assert x !in a - b; }
    }
  }

  lemma AnotherOrg(db: Db, cfg: Config, listed: seq<Uuid>, i: nat)
    requires i < |listed| && forall j, k :: 0 <= j < k < |listed| ==> listed[j] != listed[k]
    ensures AfterOrg(WithoutOrgs(db, cfg, listed[..i]), cfg, listed[i]) == WithoutOrgs(db, cfg, listed[..i + 1])
  {
    var ps, os, o := DoomedProjects(db, cfg), OrgsAmong(db, cfg, listed[..i]), listed[i];
    assert listed[..i + 1] == listed[..i] + [o] && o !in listed[..i];
    PurgeKeepsReports(db, cfg, ps, os, OrgKind, o);
    PurgedProjectsOf(db, cfg, ps, os, o);
    DifferenceIsEmpty(ProjectsOf(db, o), ps);
    PurgeAnotherOrg(db, cfg, ps, os, o);
    assert OrgsAmong(db, cfg, listed[..i + 1]) ==
           if ProjectsOf(db, o) <= ps && Unreported(db, cfg, OrgKind, o) then os + {o} else os;
  }

  lemma AllOrgs(db: Db, cfg: Config, listed: seq<Uuid>)
    requires Lists(listed, DeletedOrgs(db))
    ensures WithoutOrgs(db, cfg, listed[..|listed|]) == Sweep(db, cfg)
  {
    assert listed[..|listed|] == listed;
    assert OrgsAmong(db, cfg, listed) == DoomedOrgs(db, cfg, DoomedProjects(db, cfg));
  }
}
