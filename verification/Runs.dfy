/** What holds of every run of the store with everybody around it: convergence of a controller, safety
    of hard deletion, and when a restarted controller keeps something it should have let go. */
module Runs {
  import opened Tenancy
  import opened EventLog
  import opened Worlds
  import opened Evolution
  import opened Fleets
  import Cleaners
  import K = Controllers
  import T = Transactions

  // --- Convergence ---

  /** In every run, whatever happened between the controller's reads: once it has caught up it regards
      as existing exactly the active orgs and projects, and the orphans. */
  lemma EveryRunConverges(cfg: Config, actions: seq<Action>)
    ensures var s := Run(Init(cfg), actions);
            && FleetInv(s)
            && (K.CaughtUp(s.w, s.ctl) ==>
                  && (forall r :: r in s.ctl.regarded <==> T.IsActive(s.w.db, r) || r in K.Orphans(s.w, s.ctl))
                  && (forall r :: r in K.Orphans(s.w, s.ctl) ==> !T.IsActive(s.w.db, r)))
  {
    InitInv(cfg);
    RunKeepsInv(Init(cfg), actions);
    var s := Run(Init(cfg), actions);
    if K.CaughtUp(s.w, s.ctl) {
      K.Converges(s.w, s.ctl);
      forall r: Resource ensures r in s.w.View().live <==> T.IsActive(s.w.db, r) {
        T.ActiveIsLive(s.w.db, s.w.View(), r);
      }
    }
  }

  // --- Tables and log ---

  /** In every run, creates, updates, deletes and clean-ups mixed as they come: folding the full log gives
      exactly the active orgs and projects; whatever was ever created has one created event, and one
      deleted event or none, according to whether it is active; and nothing is deleted that was not
      created. */
  lemma EveryRunLogsEachChangeOnce(cfg: Config, actions: seq<Action>, r: Resource)
    ensures var s := Run(Init(cfg), actions);
            && (r in Fold(s.w.log).live <==> T.IsActive(s.w.db, r))
            && (T.HasRow(s.w.db, r) ==> Has(s.w.log, Created, r))
            && (Has(s.w.log, Created, r) ==> HasOnce(s.w.log, Created, r))
            && (Has(s.w.log, Created, r) && T.IsActive(s.w.db, r) ==> !Has(s.w.log, Deleted, r))
            && (Has(s.w.log, Created, r) && !T.IsActive(s.w.db, r) ==> HasOnce(s.w.log, Deleted, r))
            && (Has(s.w.log, Deleted, r) ==> Has(s.w.log, Created, r))
  {
    InitInv(cfg);
    RunKeepsInv(Init(cfg), actions);
    var w := Run(Init(cfg), actions).w;
    T.LogRefinesTables(w, r);
    if Has(w.log, Created, r) { HasIsOnce(w.log, Created, r); }
    if Has(w.log, Deleted, r) { HasIsOnce(w.log, Deleted, r); }
  }

  /** In every run: every project leads through an existing folder to an existing org, which is active
      while the project is; and every active org has exactly one folder, the default one. */
  lemma EveryRunKeepsHierarchy(cfg: Config, actions: seq<Action>)
    ensures var db := Run(Init(cfg), actions).w.db;
            && (forall p :: p in db.projects ==>
                  && db.projects[p].folder in db.folders && db.folders[db.projects[p].folder].org in db.orgs
                  && (!db.projects[p].deleted ==> !db.orgs[db.folders[db.projects[p].folder].org].deleted))
            && (forall o :: o in db.orgs && !db.orgs[o].deleted ==>
                  exists f :: FoldersOf(db, o) == {f} && db.folders[f].name == DEFAULT_FOLDER)
  {
    InitInv(cfg);
    RunKeepsInv(Init(cfg), actions);
    T.Hierarchy(Run(Init(cfg), actions).w);
  }

  // --- Hard deletion ---

  /** Soft deletion is final, projects stay where they are, and what their rows refer to stays too. */
  ghost predicate KeepsReferences(before: Db, after: Db) {
    && (forall r :: T.HasRow(before, r) && !T.IsActive(before, r) ==> !T.IsActive(after, r))
    && (forall p :: p in before.projects && p in after.projects ==>
          && after.projects[p].folder == before.projects[p].folder
          && before.projects[p].folder in after.folders
          && after.folders[before.projects[p].folder].org in after.orgs)
  }

  lemma ReferencesAreKept(w: World, w': World)
    requires Inv(w) && Inv(w') && Evolves(w, w')
    ensures KeepsReferences(w.db, w'.db)
  {
    ViewExtends(w, w');
    WellFormedIsClosed(w.log);
    T.Hierarchy(w');
    forall r | T.HasRow(w.db, r) && !T.IsActive(w.db, r) ensures !T.IsActive(w'.db, r) {
      DeletionIsFinal(w, w', r);
    }
    forall p | p in w.db.projects && p in w'.db.projects ensures w'.db.projects[p].folder == w.db.projects[p].folder {
      FolderStays(w, w', p);
    }
  }

  /** In every run no action removes the row of an active org or project, nor a folder or org that a
      remaining project row refers to, and none brings a deleted resource back. */
  lemma NothingInUseGoes(cfg: Config, actions: seq<Action>, a: Action)
    ensures var s := Run(Init(cfg), actions);
            && KeepsReferences(s.w.db, Next(s, a).w.db)
            && (forall r :: T.IsActive(s.w.db, r) ==> T.HasRow(Next(s, a).w.db, r))
  {
    InitInv(cfg);
    RunKeepsInv(Init(cfg), actions);
    var s := Run(Init(cfg), actions);
    NextKeepsInv(s, a);
    ReferencesAreKept(s.w, Next(s, a).w);
    ActiveRowsStay(s, a);
  }

  predicate KeepsKeys(before: Db, after: Db) {
    before.orgs.Keys <= after.orgs.Keys && before.projects.Keys <= after.projects.Keys
  }

  lemma CreationKeepsKeys(w: World, a: Action)
    requires a.CreateOrg? || a.CreateProject?
    ensures KeepsKeys(w.db, Request(w, a).db)
  {
  }

  lemma DropOrgKeepsKeys(w: World, o: Uuid, order: seq<Uuid>, now: int)
    requires o in w.db.orgs && forall p :: p in order ==> p in w.db.projects
    ensures KeepsKeys(w.db, DropOrg(w, o, order, now).db)
  {
    DropProjectsKeepsOrgs(w, order, now);
  }

  lemma DeletionKeepsKeys(w: World, a: Action)
    requires a.DeleteOrg? || a.DeleteProject?
    ensures KeepsKeys(w.db, Request(w, a).db)
  {
    if a.DeleteOrg? && T.DeleteOrg(w, a.name, a.order, a.now).Ok? {
      DropOrgKeepsKeys(w, T.FindOrg(w.db, a.name).value, a.order, a.now);
    }
  }

  lemma UpdateKeepsKeys(w: World, a: Action)
    requires a.UpdateOrg? || a.UpdateProject?
    ensures KeepsKeys(w.db, Request(w, a).db)
  {
  }

  /** Only hard deletion removes rows. */
  lemma RowsStay(s: Fleet, a: Action)
    requires !a.Clean?
    ensures KeepsKeys(s.w.db, NextWorld(s, a).db)
  {
    if a.CreateOrg? || a.CreateProject? {
      CreationKeepsKeys(s.w, a);
    } else if a.DeleteOrg? || a.DeleteProject? {
      DeletionKeepsKeys(s.w, a);
    } else if a.UpdateOrg? || a.UpdateProject? {
      UpdateKeepsKeys(s.w, a);
    }
  }

  lemma ActiveRowsSurvive(w: World, cfg: Config, c: Cleaners.Cleaner, order: seq<Uuid>, ok: bool, r: Resource)
    requires Inv(w) && Cleaners.CleanerInv(w, c) && T.IsActive(w.db, r)
    ensures T.HasRow(Cleaners.Next(w, cfg, c, order, ok).0.db, r)
  {
    if !T.HasRow(Cleaners.Next(w, cfg, c, order, ok).0.db, r) { Cleaners.OnlyDeadRowsGo(w, cfg, c, order, ok, r); }
  }

  lemma ActiveRowsStay(s: Fleet, a: Action)
    requires FleetInv(s)
    ensures forall r :: T.IsActive(s.w.db, r) ==> T.HasRow(NextWorld(s, a).db, r)
  {
    if a.Clean? {
      var c := CleanerOf(s, a.cleaner);
      forall r | T.IsActive(s.w.db, r) ensures T.HasRow(Cleaners.Next(s.w, s.cfg, c, a.order, a.ok).0.db, r) {
        ActiveRowsSurvive(s.w, s.cfg, c, a.order, a.ok, r);
      }
    } else {
      RowsStay(s, a);
    }
  }

  lemma FolderStays(w: World, w': World, p: Uuid)
    requires Evolves(w, w') && p in w.db.projects && p in w'.db.projects
    ensures w'.db.projects[p].folder == w.db.projects[p].folder
  {
  }

  lemma DeletionIsFinal(w: World, w': World, r: Resource)
    requires RowsInv(w.db, w.View()) && RowsInv(w'.db, w'.View()) && Extends(w.View(), w'.View())
        && w.View().live <= w.View().born
    ensures T.HasRow(w.db, r) && !T.IsActive(w.db, r) ==> !T.IsActive(w'.db, r)
  {
    T.ActiveIsLive(w.db, w.View(), r);
    T.ActiveIsLive(w'.db, w'.View(), r);
    if r in w.View().born && r !in w.View().live { assert r in w.View().Dead() && r in w'.View().Dead(); }
  }
}
