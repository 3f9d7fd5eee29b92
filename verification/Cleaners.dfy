/** Hard deletion as it really runs: no transaction, every query and every delete a statement of its
    own, between which anybody else may commit, and each of which may fail. */
module Cleaners {
  import opened Tenancy
  import opened EventLog
  import opened Worlds
  import opened Evolution
  import T = Transactions
  import C = Cleanup

  /** Where a pass stands, with the rows its queries returned and it has not dealt with yet. */
  datatype Cleaner =
    | Idle
    | AtProjects(todo: seq<Uuid>)                 // the next project's status rows are queried
    | ProjectQuiet(p: Uuid, todo: seq<Uuid>)      // its orphaned status rows are removed
    | ProjectDelete(p: Uuid, todo: seq<Uuid>)     // its row is removed
    | AtOrgs(todo: seq<Uuid>)                     // the next org's projects are counted
    | OrgEmpty(o: Uuid, todo: seq<Uuid>)          // its status rows are queried
    | OrgQuiet(o: Uuid, todo: seq<Uuid>)          // its orphaned status rows are removed
    | OrgFolders(o: Uuid, todo: seq<Uuid>)        // its folders are removed
    | OrgDelete(o: Uuid, todo: seq<Uuid>, emptied: bool)  // its row is removed

  function WithoutOrphans(w: World, cfg: Config, kind: Kind, id: Uuid): World {
    w.(db := C.WithoutOrphans(w.db, cfg, kind, id))
  }

  /** The foreign keys: a folder cannot go while a project refers to it, nor an org while a folder
      does. */
  predicate FoldersFree(db: Db, o: Uuid) { ProjectsOf(db, o) == {} }

  predicate OrgFree(db: Db, o: Uuid) { FoldersOf(db, o) == {} }

  /** One statement: `ok` says whether the database executes it, `order` is the listing a query
      returns. */
  ghost function Next(w: World, cfg: Config, c: Cleaner, order: seq<Uuid>, ok: bool): (World, Cleaner) {
    match c
    case Idle =>
      (w, if ok && Lists(order, DeletedProjects(w.db)) then AtProjects(order) else Idle)
    case AtProjects(todo) =>
      if todo == [] then
        (w, if ok && Lists(order, DeletedOrgs(w.db)) then AtOrgs(order) else Idle)
      else
        (w, if ok && C.Unreported(w.db, cfg, ProjectKind, todo[0])
            then ProjectQuiet(todo[0], todo[1..]) else AtProjects(todo[1..]))
    case ProjectQuiet(p, todo) =>
      (if ok then WithoutOrphans(w, cfg, ProjectKind, p) else w, ProjectDelete(p, todo))
    case ProjectDelete(p, todo) =>
      (if ok then EraseProject(w, p) else w, AtProjects(todo))
    case AtOrgs(todo) =>
      if todo == [] then (w, Idle)
      else (w, if ok && ProjectsOf(w.db, todo[0]) == {} then OrgEmpty(todo[0], todo[1..]) else AtOrgs(todo[1..]))
    case OrgEmpty(o, todo) =>
      (w, if ok && C.Unreported(w.db, cfg, OrgKind, o) then OrgQuiet(o, todo) else AtOrgs(todo))
    case OrgQuiet(o, todo) =>
      (if ok then WithoutOrphans(w, cfg, OrgKind, o) else w, OrgFolders(o, todo))
    case OrgFolders(o, todo) =>
      if ok && FoldersFree(w.db, o) then (EraseFolders(w, o), OrgDelete(o, todo, true))
      else (w, OrgDelete(o, todo, false))
    case OrgDelete(o, todo, _) =>
      (if ok && OrgFree(w.db, o) then EraseOrg(w, o) else w, AtOrgs(todo))
  }

  ghost predicate AllDead(v: View, kind: Kind, ids: seq<Uuid>) {
    forall u :: u in ids ==> Resource(kind, u) in v.Dead()
  }

  /** What a pass knows stays true whatever others do: everything it lists is dead, and an org it
      found empty stays empty. */
  ghost predicate CleanerInv(w: World, c: Cleaner) {
    var v := w.View();
    match c
    case Idle => true
    case AtProjects(todo) => AllDead(v, ProjectKind, todo)
    case ProjectQuiet(p, todo) => Resource(ProjectKind, p) in v.Dead() && AllDead(v, ProjectKind, todo)
    case ProjectDelete(p, todo) => Resource(ProjectKind, p) in v.Dead() && AllDead(v, ProjectKind, todo)
    case AtOrgs(todo) => AllDead(v, OrgKind, todo)
    case OrgEmpty(o, todo) => Resource(OrgKind, o) in v.Dead() && AllDead(v, OrgKind, todo) && FoldersFree(w.db, o)
    case OrgQuiet(o, todo) => Resource(OrgKind, o) in v.Dead() && AllDead(v, OrgKind, todo) && FoldersFree(w.db, o)
    case OrgFolders(o, todo) => Resource(OrgKind, o) in v.Dead() && AllDead(v, OrgKind, todo) && FoldersFree(w.db, o)
    case OrgDelete(o, todo, emptied) =>
      Resource(OrgKind, o) in v.Dead() && AllDead(v, OrgKind, todo) && (emptied ==> OrgFree(w.db, o))
  }

  lemma CleanerIsStable(before: World, after: World, c: Cleaner)
    requires Evolves(before, after) && Inv(after) && CleanerInv(before, c)
    ensures CleanerInv(after, c)
  {
    ViewExtends(before, after);
    var v, u := before.View(), after.View();
    assert forall kind, ids :: AllDead(v, kind, ids) ==> AllDead(u, kind, ids);
  }

  lemma DeletedRowsAreDead(w: World)
    requires OrgRows(w.db.orgs, w.View()) && ProjectRows(w.db.projects, w.View())
    ensures forall p :: p in DeletedProjects(w.db) ==> Resource(ProjectKind, p) in w.View().Dead()
    ensures forall o :: o in DeletedOrgs(w.db) ==> Resource(OrgKind, o) in w.View().Dead()
  {
  }

  lemma ErasuresKeepInv(w: World, c: Cleaner)
    requires Inv(w) && CleanerInv(w, c)
    ensures c.ProjectDelete? ==> Inv(EraseProject(w, c.p)) && Evolves(w, EraseProject(w, c.p))
    ensures c.OrgFolders? ==> Inv(EraseFolders(w, c.o)) && Evolves(w, EraseFolders(w, c.o))
    ensures c.OrgFolders? ==> OrgFree(EraseFolders(w, c.o).db, c.o)
    ensures c.OrgDelete? && OrgFree(w.db, c.o) ==> Inv(EraseOrg(w, c.o)) && Evolves(w, EraseOrg(w, c.o))
  {
    if c.ProjectDelete? {
      EraseProjectKeepsInv(w, c.p);
      EraseProjectEvolves(w, c.p);
    } else if c.OrgFolders? {
      EraseFoldersKeepsInv(w, c.o);
      EraseFoldersEvolves(w, c.o);
    } else if c.OrgDelete? && OrgFree(w.db, c.o) {
      EraseOrgKeepsInv(w, c.o);
      EraseOrgEvolves(w, c.o);
    }
  }

  /** A statement of a pass keeps the invariant of the store and of the pass. */
  lemma StepKeepsWorld(w: World, cfg: Config, c: Cleaner, order: seq<Uuid>, ok: bool)
    requires Inv(w) && CleanerInv(w, c)
    ensures var (w', c') := Next(w, cfg, c, order, ok); Inv(w') && Evolves(w, w')
  {
    SameEvolves(w);
    ErasuresKeepInv(w, c);
    match c
    case ProjectQuiet(p, _) => StatusesEvolve(w, WithoutOrphans(w, cfg, ProjectKind, p).db.statuses);
    case OrgQuiet(o, _) => StatusesEvolve(w, WithoutOrphans(w, cfg, OrgKind, o).db.statuses);
    case _ =>
  }

  lemma ErasedFoldersAreFree(w: World, o: Uuid)
    ensures OrgFree(EraseFolders(w, o).db, o)
  {
  }

  lemma StepKeepsCleaner(w: World, cfg: Config, c: Cleaner, order: seq<Uuid>, ok: bool)
    requires OrgRows(w.db.orgs, w.View()) && ProjectRows(w.db.projects, w.View()) && CleanerInv(w, c)
    ensures var (w', c') := Next(w, cfg, c, order, ok); CleanerInv(w', c')
  {
    match c
    case Idle =>
      if Lists(order, DeletedProjects(w.db)) { DeletedRowsAreDead(w); }
    case AtProjects(todo) =>
      if Lists(order, DeletedOrgs(w.db)) { DeletedRowsAreDead(w); }
    case OrgFolders(o, _) => ErasedFoldersAreFree(w, o);
    case _ =>
  }

  /** Hard deletion removes the row of nothing but what is dead, and a row goes only in the statement
      meant for it; an org or folder goes only when no project row refers to it. */
  lemma OnlyDeadRowsGo(w: World, cfg: Config, c: Cleaner, order: seq<Uuid>, ok: bool, r: Resource)
    requires Inv(w) && CleanerInv(w, c)
    requires T.HasRow(w.db, r) && !T.HasRow(Next(w, cfg, c, order, ok).0.db, r)
    ensures r in w.View().Dead() && !T.IsActive(w.db, r)
    ensures match r.kind
            case ProjectKind => c.ProjectDelete? && c.p == r.id
            case OrgKind => c.OrgDelete? && c.o == r.id && ProjectsOf(w.db, r.id) == {}
  {
    T.ActiveIsLive(w.db, w.View(), r);
    if r.kind.OrgKind? && c.OrgDelete? {
      forall p | p in w.db.projects ensures p !in ProjectsOf(w.db, r.id) {
        assert w.db.projects[p].folder !in FoldersOf(w.db, r.id);
      }
    }
  }

  lemma OnlyFreeFoldersGo(w: World, cfg: Config, c: Cleaner, order: seq<Uuid>, ok: bool, f: Uuid)
    requires CleanerInv(w, c)
    requires f in w.db.folders && f !in Next(w, cfg, c, order, ok).0.db.folders
    ensures forall p :: p in w.db.projects ==> w.db.projects[p].folder != f
    ensures Resource(OrgKind, w.db.folders[f].org) in w.View().Dead()
  {
    forall p | p in w.db.projects ensures w.db.projects[p].folder != f {
      assert p !in ProjectsOf(w.db, w.db.folders[f].org);
    }
  }

  /** The foreign keys never get in the way: when a pass reaches the deletion of folders no project
      refers to them, and after that deletion no folder refers to the org. */
  lemma ForeignKeysNeverBlock(w: World, c: Cleaner)
    requires Inv(w) && CleanerInv(w, c)
    ensures c.OrgFolders? ==> FoldersFree(w.db, c.o)
    ensures c.OrgDelete? && c.emptied ==> OrgFree(w.db, c.o)
  {
  }

  // --- A pass with nobody else at work ---

  /** n statements of a pass, none of which fails, with the listings its two queries return. */
  ghost function Advance(w: World, cfg: Config, c: Cleaner, projects: seq<Uuid>, orgs: seq<Uuid>, n: nat):
        (World, Cleaner)
    decreases n
  {
    if n == 0 then (w, c)
    else
      var (w', c') := Next(w, cfg, c, if c.Idle? then projects else orgs, true);
      Advance(w', cfg, c', projects, orgs, n - 1)
  }

  lemma {:induction false} AdvanceFurther(w: World, cfg: Config, c: Cleaner, projects: seq<Uuid>, orgs: seq<Uuid>,
        m: nat, n: nat)
    ensures var (w', c') := Advance(w, cfg, c, projects, orgs, m);
            Advance(w, cfg, c, projects, orgs, m + n) == Advance(w', cfg, c', projects, orgs, n)
    decreases m
  {
    if m > 0 {
      var (w', c') := Next(w, cfg, c, if c.Idle? then projects else orgs, true);
      AdvanceFurther(w', cfg, c', projects, orgs, m - 1, n);
    }
  }

  /** The statements for one project. */
  lemma ProjectTurn(w: World, cfg: Config, todo: seq<Uuid>, ps: seq<Uuid>, os: seq<Uuid>) returns (n: nat)
    requires todo != []
    ensures Advance(w, cfg, AtProjects(todo), ps, os, n)
         == (w.(db := C.AfterProject(w.db, cfg, todo[0])), AtProjects(todo[1..]))
  {
    if C.Unreported(w.db, cfg, ProjectKind, todo[0]) {
      var quiet := WithoutOrphans(w, cfg, ProjectKind, todo[0]);
      assert Advance(w, cfg, AtProjects(todo), ps, os, 3)
          == Advance(w, cfg, ProjectQuiet(todo[0], todo[1..]), ps, os, 2)
          == Advance(quiet, cfg, ProjectDelete(todo[0], todo[1..]), ps, os, 1)
          == Advance(EraseProject(quiet, todo[0]), cfg, AtProjects(todo[1..]), ps, os, 0);
      n := 3;
    } else {
      assert Advance(w, cfg, AtProjects(todo), ps, os, 1) == Advance(w, cfg, AtProjects(todo[1..]), ps, os, 0);
      n := 1;
    }
  }

  /** And for one org. */
  lemma OrgTurn(w: World, cfg: Config, todo: seq<Uuid>, ps: seq<Uuid>, os: seq<Uuid>) returns (n: nat)
    requires todo != []
    ensures Advance(w, cfg, AtOrgs(todo), ps, os, n)
         == (w.(db := C.AfterOrg(w.db, cfg, todo[0])), AtOrgs(todo[1..]))
  {
    var o, rest := todo[0], todo[1..];
    if ProjectsOf(w.db, o) == {} && C.Unreported(w.db, cfg, OrgKind, o) {
      var quiet := WithoutOrphans(w, cfg, OrgKind, o);
      assert ProjectsOf(quiet.db, o) == {};
      var bare := EraseFolders(quiet, o);
      C.ErasedFolders(quiet, o);
      ErasedFoldersAreFree(quiet, o);
      assert Advance(w, cfg, AtOrgs(todo), ps, os, 5)
          == Advance(w, cfg, OrgEmpty(o, rest), ps, os, 4)
          == Advance(w, cfg, OrgQuiet(o, rest), ps, os, 3)
          == Advance(quiet, cfg, OrgFolders(o, rest), ps, os, 2)
          == Advance(bare, cfg, OrgDelete(o, rest, true), ps, os, 1)
          == Advance(EraseOrg(bare, o), cfg, AtOrgs(rest), ps, os, 0);
      n := 5;
    } else if ProjectsOf(w.db, o) == {} {
      assert Advance(w, cfg, AtOrgs(todo), ps, os, 2) == Advance(w, cfg, OrgEmpty(o, rest), ps, os, 1)
          == Advance(w, cfg, AtOrgs(rest), ps, os, 0);
      n := 2;
    } else {
      assert Advance(w, cfg, AtOrgs(todo), ps, os, 1) == Advance(w, cfg, AtOrgs(rest), ps, os, 0);
      n := 1;
    }
  }

  lemma {:induction false} ProjectTurns(w: World, cfg: Config, ps: seq<Uuid>, os: seq<Uuid>, i: nat) returns (n: nat)
    requires i <= |ps|
    ensures Advance(w.(db := C.WithoutProjects(w.db, cfg, ps[..i])), cfg, AtProjects(ps[i..]), ps, os, n)
         == (w.(db := C.WithoutProjects(w.db, cfg, ps)), AtProjects([]))
    decreases |ps| - i
  {
    var now := w.(db := C.WithoutProjects(w.db, cfg, ps[..i]));
    if i == |ps| {
      assert ps[..i] == ps && ps[i..] == [];
      n := 0;
    } else {
      var m := ProjectTurn(now, cfg, ps[i..], ps, os);
      C.AnotherProject(w.db, cfg, ps, i);
      assert ps[i..][1..] == ps[i + 1..];
      var rest := ProjectTurns(w, cfg, ps, os, i + 1);
      AdvanceFurther(now, cfg, AtProjects(ps[i..]), ps, os, m, rest);
      n := m + rest;
    }
  }

  lemma {:induction false} OrgTurns(w: World, cfg: Config, ps: seq<Uuid>, os: seq<Uuid>, i: nat) returns (n: nat)
    requires i <= |os| && forall j, k :: 0 <= j < k < |os| ==> os[j] != os[k]
    ensures Advance(w.(db := C.WithoutOrgs(w.db, cfg, os[..i])), cfg, AtOrgs(os[i..]), ps, os, n)
         == (w.(db := C.WithoutOrgs(w.db, cfg, os)), AtOrgs([]))
    decreases |os| - i
  {
    var now := w.(db := C.WithoutOrgs(w.db, cfg, os[..i]));
    if i == |os| {
      assert os[..i] == os && os[i..] == [];
      n := 0;
    } else {
      var m := OrgTurn(now, cfg, os[i..], ps, os);
      C.AnotherOrg(w.db, cfg, os, i);
      assert os[i..][1..] == os[i + 1..];
      var rest := OrgTurns(w, cfg, ps, os, i + 1);
      AdvanceFurther(now, cfg, AtOrgs(os[i..]), ps, os, m, rest);
      n := m + rest;
    }
  }

  lemma FirstHalf(w: World, cfg: Config, ps: seq<Uuid>, os: seq<Uuid>) returns (n: nat)
    requires Lists(ps, DeletedProjects(w.db))
    ensures Advance(w, cfg, Idle, ps, os, n)
         == (w.(db := C.Purge(w.db, cfg, C.DoomedProjects(w.db, cfg), {})), AtProjects([]))
  {
    C.NoneAmong(w.db, cfg, ps);
    C.AllProjects(w.db, cfg, ps);
    assert ps[..|ps|] == ps && ps[0..] == ps;
    var m := ProjectTurns(w, cfg, ps, os, 0);
    assert w.(db := C.WithoutProjects(w.db, cfg, ps[..0])) == w;
    n := 1 + m;
  }

  lemma SecondHalf(w: World, cfg: Config, ps: seq<Uuid>, os: seq<Uuid>) returns (n: nat)
    requires Lists(os, DeletedOrgs(w.db))
    ensures Advance(w.(db := C.Purge(w.db, cfg, C.DoomedProjects(w.db, cfg), {})), cfg, AtProjects([]), ps, os, n)
         == (w.(db := C.Sweep(w.db, cfg)), Idle)
  {
    var now := w.(db := C.Purge(w.db, cfg, C.DoomedProjects(w.db, cfg), {}));
    assert DeletedOrgs(now.db) == DeletedOrgs(w.db);
    C.NoOrgAmong(w.db, cfg, os);
    C.AllOrgs(w.db, cfg, os);
    assert os[..|os|] == os && os[0..] == os;
    var m := OrgTurns(w, cfg, ps, os, 0);
    AdvanceFurther(now, cfg, AtOrgs(os), ps, os, m, 1);
    var swept := w.(db := C.Sweep(w.db, cfg));
    assert Advance(swept, cfg, AtOrgs([]), ps, os, 1) == Advance(swept, cfg, Idle, ps, os, 0);
    n := 1 + (m + 1);
  }

  /** A pass of which no statement fails and during which nobody else commits comes to its end, and has
      then removed exactly what the specification of a pass says, whatever the order of the listings. */
  lemma UndisturbedPassIsSweep(w: World, cfg: Config, projects: seq<Uuid>, orgs: seq<Uuid>) returns (n: nat)
    requires Lists(projects, DeletedProjects(w.db)) && Lists(orgs, DeletedOrgs(w.db))
    ensures n > 0 && Advance(w, cfg, Idle, projects, orgs, n) == (w.(db := C.Sweep(w.db, cfg)), Idle)
  {
    var first := FirstHalf(w, cfg, projects, orgs);
    var second := SecondHalf(w, cfg, projects, orgs);
    AdvanceFurther(w, cfg, Idle, projects, orgs, first, second);
    n := first + second;
  }
}
