/** What events say: whoever is fed a replay is told the same as whoever read the log. */
module Payloads {
  import opened Tenancy
  import opened EventLog
  import opened Worlds
  import opened Evolution
  import opened Fleets
  import L = Cleaners
  import R = Replays
  import T = Transactions

  /** An event as the tables would tell it now. */
  function Retold(db: Db, e: Event): Event
    requires T.HasRow(db, e.Subject())
  {
    match e.kind
    case OrgKind => OrgEvent(e.id, e.change, e.resource, db.orgs[e.resource].name, e.at)
    case ProjectKind => ProjectEvent(db, e.id, e.change, e.resource, db.projects[e.resource], e.at)
  }

  ghost predicate True(db: Db, e: Event) { T.HasRow(db, e.Subject()) ==> Retold(db, e) == e }

  ghost predicate Truthful(w: World) { forall e :: e in w.log ==> True(w.db, e) }

  /** Names do not change, nor does the org of a folder. */
  ghost predicate SameNames(before: Db, after: Db) {
    && (forall o :: o in before.orgs && o in after.orgs ==> after.orgs[o].name == before.orgs[o].name)
    && (forall p :: p in before.projects && p in after.projects ==> after.projects[p].name == before.projects[p].name)
    && (forall f :: f in before.folders && f in after.folders ==> after.folders[f] == before.folders[f])
  }

  /** Every project leads to an org row. */
  ghost predicate Rooted(db: Db) {
    forall p :: p in db.projects ==>
        db.projects[p].folder in db.folders && db.folders[db.projects[p].folder].org in db.orgs
  }

  lemma InvIsRooted(w: World)
    requires Lineage(w.db.projects, w.db.folders, w.View().parent) && FoldersOwned(w.db.folders, w.db.orgs)
    ensures Rooted(w.db)
  {
  }

  /** What was true of a resource stays true while it has a row. */
  lemma StaysTrue(v: View, before: Db, after: Db, e: Event)
    requires Rooted(before) && Rooted(after) && SameNames(before, after) && RowsEvolve(v, before, after)
    requires e.Subject() in v.born && True(before, e)
    ensures True(after, e)
  {
    if T.HasRow(after, e.Subject()) {
      assert T.HasRow(before, e.Subject());
      if e.kind.ProjectKind? {
        assert after.projects[e.resource].folder == before.projects[e.resource].folder;
      }
    }
  }

  lemma LogIsOfTheBorn(log: seq<Event>, e: Event)
    requires WellFormed(log) && e in log
    ensures e.Subject() in Fold(log).born
  {
    var i :| 0 <= i < |log| && log[i] == e;
    SubjectAfter(log, i, |log|);
    assert log[..|log|] == log;
  }

  ghost predicate TellsTrue(w: World, w': World) { forall e :: e in w'.log && e !in w.log ==> True(w'.db, e) }

  lemma TruthIsKept(w: World, w': World)
    requires WellFormed(w.log) && Rooted(w.db) && Rooted(w'.db) && RowsEvolve(w.View(), w.db, w'.db)
    requires SameNames(w.db, w'.db) && Truthful(w) && TellsTrue(w, w')
    ensures Truthful(w')
  {
    forall e | e in w'.log ensures True(w'.db, e) {
      if e in w.log {
        LogIsOfTheBorn(w.log, e);
        StaysTrue(w.View(), w.db, w'.db, e);
      }
    }
  }

  // --- Step by step ---

  lemma AddOrgTellsTrue(w: World, o: Uuid, f: Uuid, name: string, description: string, now: int)
    requires o !in w.db.orgs && f !in w.db.folders
    ensures var w' := AddOrg(w, o, f, name, description, now); SameNames(w.db, w'.db) && TellsTrue(w, w')
  {
  }

  lemma AddProjectTellsTrue(w: World, p: Uuid, f: Uuid, name: string, description: string, now: int)
    requires p !in w.db.projects
    ensures var w' := AddProject(w, p, f, name, description, now); SameNames(w.db, w'.db) && TellsTrue(w, w')
  {
    var row := Project(name, description, f, false);
    var e, db' := ProjectEvent(w.db, w.nextId, Created, p, row, now), AddProject(w, p, f, name, description, now).db;
    assert db'.projects[p] == row && db'.folders == w.db.folders && db'.orgs == w.db.orgs;
    assert OrgOf(db', row) == OrgOf(w.db, row);
    assert Retold(db', e) == e;
  }

  lemma CreationTellsTrue(w: World, a: Action)
    requires w.db.orgs.Keys <= w.used && w.db.folders.Keys <= w.used && w.db.projects.Keys <= w.used
    requires a.CreateOrg? || a.CreateProject?
    ensures SameNames(w.db, Request(w, a).db) && TellsTrue(w, Request(w, a))
  {
    if a.CreateOrg? {
      if Fresh(w, a.o) && Fresh(w, a.f) { AddOrgTellsTrue(w, a.o, a.f, a.name, a.description, a.now); }
    } else if Fresh(w, a.p) && T.CreateProject(w, a.orgName, a.name, a.description, a.p, a.now).Ok? {
      var o := T.FindOrg(w.db, a.orgName).value;
      forall f | T.IsDefaultFolder(w.db, o, f)
        ensures var w' := AddProject(w, a.p, f, a.name, a.description, a.now);
                SameNames(w.db, w'.db) && TellsTrue(w, w')
      {
        AddProjectTellsTrue(w, a.p, f, a.name, a.description, a.now);
      }
    }
  }

  lemma DropOrgTellsTrue(w: World, o: Uuid, order: seq<Uuid>, now: int)
    requires o in w.db.orgs && AllActive(w, order) && Rooted(w.db)
    ensures SameNames(w.db, DropOrg(w, o, order, now).db) && TellsTrue(w, DropOrg(w, o, order, now))
  {
    DropProjectsOnlyDeletes(w, order, now);
    DropProjectsKeepsOrgs(w, order, now);
    DropProjectsGrowsLog(w, order, now);
    var w1, w' := DropProjects(w, order, now), DropOrg(w, o, order, now);
    assert forall k :: 0 <= k < |w.log| ==> w1.log[k] == w1.log[..|w.log|][k] && w.log[k] == w'.log[k];
    forall e | e in w'.log && e !in w.log ensures True(w'.db, e) {
      var i :| 0 <= i < |w'.log| && w'.log[i] == e;
      if |w.log| <= i < |w1.log| {
        DropProjectsLogs(w, order, now, i - |w.log|);
        assert order[i - |w.log|] in order;
      }
    }
  }

  lemma DeletionTellsTrue(w: World, a: Action)
    requires Rooted(w.db) && (a.DeleteOrg? || a.DeleteProject?)
    ensures SameNames(w.db, Request(w, a).db) && TellsTrue(w, Request(w, a))
  {
    if a.DeleteOrg? && T.DeleteOrg(w, a.name, a.order, a.now).Ok? {
      DropOrgTellsTrue(w, T.FindOrg(w.db, a.name).value, a.order, a.now);
    }
  }

  lemma UpdateTellsTrue(w: World, a: Action)
    requires a.UpdateOrg? || a.UpdateProject?
    ensures SameNames(w.db, Request(w, a).db) && TellsTrue(w, Request(w, a))
  {
  }

  lemma StatementTellsTrue(w: World, cfg: Config, c: L.Cleaner, order: seq<Uuid>, ok: bool)
    ensures SameNames(w.db, L.Next(w, cfg, c, order, ok).0.db) && TellsTrue(w, L.Next(w, cfg, c, order, ok).0)
  {
  }

  lemma StepTellsTrue(s: Fleet, a: Action)
    requires Inv(s.w) && Rooted(s.w.db)
    ensures SameNames(s.w.db, NextWorld(s, a).db) && TellsTrue(s.w, NextWorld(s, a))
  {
    if a.CreateOrg? || a.CreateProject? {
      CreationTellsTrue(s.w, a);
    } else if a.DeleteOrg? || a.DeleteProject? {
      DeletionTellsTrue(s.w, a);
    } else if a.UpdateOrg? || a.UpdateProject? {
      UpdateTellsTrue(s.w, a);
    } else if a.Clean? {
      StatementTellsTrue(s.w, s.cfg, CleanerOf(s, a.cleaner), a.order, a.ok);
    }
  }

  lemma NextKeepsTruth(s: Fleet, a: Action)
    requires FleetInv(s) && Truthful(s.w)
    ensures FleetInv(Next(s, a)) && Truthful(Next(s, a).w)
  {
    NextKeepsInv(s, a);
    InvIsRooted(s.w);
    InvIsRooted(Next(s, a).w);
    StepTellsTrue(s, a);
    TruthIsKept(s.w, Next(s, a).w);
  }

  lemma {:induction false} RunKeepsTruth(cfg: Config, actions: seq<Action>)
    ensures FleetInv(Run(Init(cfg), actions)) && Truthful(Run(Init(cfg), actions).w)
    decreases |actions|
  {
    if actions == [] {
      InitInv(cfg);
    } else {
      RunKeepsTruth(cfg, actions[..|actions| - 1]);
      NextKeepsTruth(Run(Init(cfg), actions[..|actions| - 1]), actions[|actions| - 1]);
    }
  }

  // --- The replay against the log ---

  lemma SnapshotIsRetold(db: Db, o: R.Orders, i: nat)
    requires R.ListsRows(db, o) && i < |R.Snapshot(db, o)|
    ensures T.HasRow(db, R.Snapshot(db, o)[i].Subject()) && Retold(db, R.Snapshot(db, o)[i]) == R.Snapshot(db, o)[i]
    ensures R.Snapshot(db, o)[i].id == 0 && R.Snapshot(db, o)[i].at == 0
    ensures R.Snapshot(db, o)[i].change == if T.IsActive(db, R.Snapshot(db, o)[i].Subject()) then Created else Deleted
  {
    R.SnapshotAt(db, o, i);
  }

  lemma RetoldAgrees(db: Db, e: Event, d: Event)
    requires T.HasRow(db, e.Subject()) && e.Subject() == d.Subject() && e.change == d.change
    requires Retold(db, e) == e && Retold(db, d) == d
    ensures e == d.(id := e.id, at := e.at)
  {
  }

  lemma SnapshotRepeatsLog(w: World, o: R.Orders, i: nat)
    requires Inv(w) && Truthful(w) && R.ListsRows(w.db, o) && i < |R.Snapshot(w.db, o)|
    ensures exists e :: e in w.log && R.Snapshot(w.db, o)[i] == e.(id := 0, at := 0)
  {
    var d := R.Snapshot(w.db, o)[i];
    SnapshotIsRetold(w.db, o, i);
    T.LogRefinesTables(w, d.Subject());
    assert Has(w.log, d.change, d.Subject());
    var j :| 0 <= j < |w.log| && w.log[j].change == d.change && w.log[j].Subject() == d.Subject();
    assert True(w.db, w.log[j]);
    RetoldAgrees(w.db, d, w.log[j]);
    assert w.log[j] in w.log;
  }

  /** In every run, every event of a replay read in one snapshot is an event of the full log again, but
      for the id and the time: with the same names, org and folder. */
  lemma ReplayRepeatsTheLog(cfg: Config, actions: seq<Action>, o: R.Orders, i: nat)
    requires R.ListsRows(Run(Init(cfg), actions).w.db, o) && i < |R.Snapshot(Run(Init(cfg), actions).w.db, o)|
    ensures var w := Run(Init(cfg), actions).w;
            exists e :: e in w.log && R.Snapshot(w.db, o)[i] == e.(id := 0, at := 0)
  {
    RunKeepsTruth(cfg, actions);
    SnapshotRepeatsLog(Run(Init(cfg), actions).w, o, i);
  }
}
