/** The store with everybody around it: requests, hard-deletion passes, and a controller that may
    restart at any time. One action is one commit, one statement outside a transaction, one read, or one
    handled event; a run is any sequence of actions. */
module Fleets {
  import opened Tenancy
  import opened EventLog
  import opened Worlds
  import opened Evolution
  import opened Cleaners
  import K = Controllers
  import T = Transactions

  datatype Fleet = Fleet(w: World, cfg: Config, cleaners: map<nat, Cleaner>, ctl: K.Controller)

  datatype Action =
    | CreateOrg(name: string, description: string, o: Uuid, f: Uuid, now: int)
    | CreateProject(orgName: string, name: string, description: string, p: Uuid, now: int)
    | UpdateOrg(name: string, description: string)
    | UpdateProject(name: string, scope: Option<seq<string>>, description: string)
    | DeleteOrg(name: string, order: seq<Uuid>, now: int)
    | DeleteProject(name: string, scope: Option<seq<string>>, now: int)
    | Burn(ids: nat)                                       // a rolled-back transaction had drawn ids
    | Truncate(cutoff: int)
    | Report(key: StatusKey, row: StatusRow)
    | Withdraw(key: StatusKey)
    | Clean(cleaner: nat, order: seq<Uuid>, ok: bool)      // the next statement of a hard-deletion pass
    | Read(order: seq<Uuid>)                               // the controller's next read for its replay
    | Fetch(limit: nat)
    | Deliver
    | Attempt
    | Restart

  function Commit(w: World, r: Result<World>): World {
    if r.Ok? then r.value else w
  }

  /** What a request commits, if anything. UUIDs are fresh and clocks do not run backwards. */
  ghost function Request(w: World, a: Action): World {
    match a
    case CreateOrg(name, description, o, f, now) =>
      if Timely(w, now) && Fresh(w, o) && Fresh(w, f) && o != f
      then Commit(w, T.CreateOrg(w, name, description, o, f, now)) else w
    case CreateProject(orgName, name, description, p, now) =>
      if Timely(w, now) && Fresh(w, p) then Commit(w, T.CreateProject(w, orgName, name, description, p, now)) else w
    case UpdateOrg(name, description) => Commit(w, T.UpdateOrg(w, name, description))
    case UpdateProject(name, scope, description) => Commit(w, T.UpdateProject(w, name, scope, description))
    case DeleteOrg(name, order, now) => if Timely(w, now) then Commit(w, T.DeleteOrg(w, name, order, now)) else w
    case DeleteProject(name, scope, now) =>
      if Timely(w, now) then Commit(w, T.DeleteProject(w, name, scope, now)) else w
    case _ => w
  }

  /** The store's part of an action. */
  ghost function NextWorld(s: Fleet, a: Action): World {
    var w := s.w;
    match a
    case Burn(ids) => w.(nextId := w.nextId + ids)
    case Truncate(cutoff) => Worlds.Truncate(w, cutoff)
    case Report(key, row) => w.(db := w.db.(statuses := w.db.statuses[key := row]))
    case Withdraw(key) => w.(db := w.db.(statuses := w.db.statuses - {key}))
    case Clean(id, order, ok) => Cleaners.Next(w, s.cfg, CleanerOf(s, id), order, ok).0
    case _ => Request(w, a)
  }

  function CleanerOf(s: Fleet, id: nat): Cleaner {
    if id in s.cleaners then s.cleaners[id] else Idle
  }

  ghost function NextController(s: Fleet, a: Action): K.Controller {
    match a
    case Read(order) => K.Read(s.w, s.ctl, order)
    case Fetch(limit) => K.Fetch(s.w, s.ctl, limit)
    case Deliver => K.Deliver(s.ctl)
    case Attempt => K.Attempt(s.ctl)
    case Restart => K.Session(s.ctl.regarded)
    case _ => s.ctl
  }

  ghost function Next(s: Fleet, a: Action): Fleet {
    Fleet(NextWorld(s, a), s.cfg,
          if a.Clean?
          then s.cleaners[a.cleaner := Cleaners.Next(s.w, s.cfg, CleanerOf(s, a.cleaner), a.order, a.ok).1]
          else s.cleaners,
          NextController(s, a))
  }

  ghost function Run(s: Fleet, actions: seq<Action>): Fleet {
    if actions == [] then s else Next(Run(s, actions[..|actions| - 1]), actions[|actions| - 1])
  }

  function Init(cfg: Config): Fleet {
    Fleet(EMPTY_WORLD, cfg, map[], K.Session({}))
  }

  // --- The invariant of every run ---

  ghost predicate FleetInv(s: Fleet) {
    && Inv(s.w)
    && (forall id :: id in s.cleaners ==> CleanerInv(s.w, s.cleaners[id]))
    && K.ControllerInv(s.w, s.ctl)
    && K.ReceiptsOk(s.w, s.ctl)
  }

  lemma CreationSteps(w: World, a: Action)
    requires Inv(w) && (a.CreateOrg? || a.CreateProject?)
    ensures Inv(Request(w, a)) && Evolves(w, Request(w, a))
  {
    SameEvolves(w);
    match a
    case CreateOrg(name, description, o, f, now) =>
      if Timely(w, now) && Fresh(w, o) && Fresh(w, f) && o != f {
        T.CreateOrgKeepsInv(w, name, description, o, f, now);
        CreateOrgEvolves(w, name, description, o, f, now);
      }
    case CreateProject(orgName, name, description, p, now) =>
      if Timely(w, now) && Fresh(w, p) {
        T.CreateProjectKeepsInv(w, orgName, name, description, p, now);
        CreateProjectEvolves(w, orgName, name, description, p, now);
      }
  }

  lemma DeletionSteps(w: World, a: Action)
    requires Inv(w) && (a.DeleteOrg? || a.DeleteProject?)
    ensures Inv(Request(w, a)) && Evolves(w, Request(w, a))
  {
    SameEvolves(w);
    match a
    case DeleteOrg(name, order, now) =>
      if Timely(w, now) {
        T.DeleteOrgKeepsInv(w, name, order, now);
        DeleteOrgEvolves(w, name, order, now);
      }
    case DeleteProject(name, scope, now) =>
      if Timely(w, now) {
        T.DeleteProjectKeepsInv(w, name, scope, now);
        DeleteProjectEvolves(w, name, scope, now);
      }
  }

  lemma UpdateSteps(w: World, a: Action)
    requires Inv(w) && (a.UpdateOrg? || a.UpdateProject?)
    ensures Inv(Request(w, a)) && Evolves(w, Request(w, a))
  {
    SameEvolves(w);
    match a
    case UpdateOrg(name, description) =>
      T.UpdatesKeepInv(w, name, None, description);
      UpdateOrgEvolves(w, name, description);
    case UpdateProject(name, scope, description) =>
      T.UpdatesKeepInv(w, name, scope, description);
      UpdateProjectEvolves(w, name, scope, description);
  }

  lemma HousekeepingSteps(s: Fleet, a: Action)
    requires Inv(s.w) && (a.Burn? || a.Truncate? || a.Report? || a.Withdraw?)
    ensures Inv(NextWorld(s, a)) && Evolves(s.w, NextWorld(s, a))
  {
    var w := s.w;
    match a
    case Burn(ids) => BurnEvolves(w, ids);
    case Truncate(cutoff) =>
      TruncateKeepsInv(w, cutoff);
      TruncateEvolves(w, cutoff);
    case Report(key, row) => StatusesEvolve(w, w.db.statuses[key := row]);
    case Withdraw(key) => StatusesEvolve(w, w.db.statuses - {key});
  }

  lemma WorldStep(s: Fleet, a: Action)
    requires Inv(s.w) && (a.Clean? ==> CleanerInv(s.w, CleanerOf(s, a.cleaner)))
    ensures Inv(NextWorld(s, a)) && Evolves(s.w, NextWorld(s, a))
  {
    if a.CreateOrg? || a.CreateProject? {
      CreationSteps(s.w, a);
    } else if a.DeleteOrg? || a.DeleteProject? {
      DeletionSteps(s.w, a);
    } else if a.UpdateOrg? || a.UpdateProject? {
      UpdateSteps(s.w, a);
    } else if a.Burn? || a.Truncate? || a.Report? || a.Withdraw? {
      HousekeepingSteps(s, a);
    } else if a.Clean? {
      StepKeepsWorld(s.w, s.cfg, CleanerOf(s, a.cleaner), a.order, a.ok);
    } else {
      SameEvolves(s.w);
    }
  }

  lemma ReadStep(w: World, c: K.Controller, order: seq<Uuid>)
    requires Inv(w) && K.ControllerInv(w, c) && K.ReceiptsOk(w, c)
    ensures K.ControllerInv(w, K.Read(w, c, order)) && K.ReceiptsOk(w, K.Read(w, c, order))
  {
    K.ReadKeepsInv(w, c, order);
    K.ReadKeepsReceipts(w, c, order);
  }

  lemma ControllerStep(s: Fleet, a: Action)
    requires Inv(s.w) && K.ControllerInv(s.w, s.ctl) && K.ReceiptsOk(s.w, s.ctl)
    ensures K.ControllerInv(s.w, NextController(s, a)) && K.ReceiptsOk(s.w, NextController(s, a))
  {
    match a
    case Read(order) =>
      ReadStep(s.w, s.ctl, order);
    case Fetch(limit) =>
      K.FetchKeepsInv(s.w, s.ctl, limit);
      K.FetchKeepsReceipts(s.w, s.ctl, limit);
    case Deliver =>
      K.DeliverKeepsInv(s.w, s.ctl);
      K.DeliverKeepsReceipts(s.w, s.ctl);
    case Attempt =>
      K.AttemptKeepsInv(s.w, s.ctl);
      K.DeliverKeepsReceipts(s.w, s.ctl);
    case Restart => K.SessionKeepsInv(s.w, s.ctl.regarded);
    case _ =>
  }

  lemma CleanerStep(s: Fleet, a: Action, id: nat)
    requires OrgRows(s.w.db.orgs, s.w.View()) && ProjectRows(s.w.db.projects, s.w.View())
    requires Inv(NextWorld(s, a)) && Evolves(s.w, NextWorld(s, a)) && CleanerInv(s.w, CleanerOf(s, id))
    ensures CleanerInv(NextWorld(s, a), CleanerOf(Next(s, a), id))
  {
    if a.Clean? && a.cleaner == id {
      StepKeepsCleaner(s.w, s.cfg, CleanerOf(s, id), a.order, a.ok);
    } else {
      CleanerIsStable(s.w, NextWorld(s, a), CleanerOf(s, id));
    }
  }

  lemma CleanersStep(s: Fleet, a: Action)
    requires FleetInv(s) && Inv(NextWorld(s, a)) && Evolves(s.w, NextWorld(s, a))
    ensures var s' := Next(s, a); forall id :: id in s'.cleaners ==> CleanerInv(s'.w, s'.cleaners[id])
  {
    var s' := Next(s, a);
    forall id | id in s'.cleaners ensures CleanerInv(s'.w, s'.cleaners[id]) {
      CleanerStep(s, a, id);
    }
  }

  lemma NextKeepsInv(s: Fleet, a: Action)
    requires FleetInv(s)
    ensures FleetInv(Next(s, a)) && Evolves(s.w, Next(s, a).w)
  {
    WorldStep(s, a);
    CleanersStep(s, a);
    var s' := Next(s, a);
    if s'.w == s.w {
      ControllerStep(s, a);
    } else {
      K.ControllerIsStable(s.w, s'.w, s.ctl);
      K.ReceiptsAreStable(s.w, s'.w, s.ctl);
    }
  }

  lemma InitInv(cfg: Config)
    ensures FleetInv(Init(cfg))
  {
    EmptyInv();
    K.SessionKeepsInv(EMPTY_WORLD, {});
  }

  lemma {:induction false} RunKeepsInv(s: Fleet, actions: seq<Action>)
    requires FleetInv(s)
    ensures FleetInv(Run(s, actions))
    decreases |actions|
  {
    if actions != [] {
      RunKeepsInv(s, actions[..|actions| - 1]);
      NextKeepsInv(Run(s, actions[..|actions| - 1]), actions[|actions| - 1]);
    }
  }
}
