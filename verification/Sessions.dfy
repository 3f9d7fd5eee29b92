/** Which of the resources a controller still held when it restarted it will let go. The replay can name
    a deleted resource only while its row is there, and the row is there for as long as a registered
    controller reports on it. */
module Sessions {
  import opened Tenancy
  import opened EventLog
  import opened Worlds
  import opened Evolution
  import opened Fleets
  import opened Runs
  import opened K = Controllers
  import L = Cleaners
  import T = Transactions

  /** A hard-deletion pass that has found no report on the resource and is about to remove it. */
  predicate Past(c: L.Cleaner, r: Resource) {
    match c
    case ProjectQuiet(p, _) => r == Resource(ProjectKind, p)
    case ProjectDelete(p, _) => r == Resource(ProjectKind, p)
    case OrgQuiet(o, _) => r == Resource(OrgKind, o)
    case OrgFolders(o, _) => r == Resource(OrgKind, o)
    case OrgDelete(o, _, _) => r == Resource(OrgKind, o)
    case _ => false
  }

  /** The report of the registered controller `k` keeps the row of a resource in its table. */
  ghost predicate Shielded(s: Fleet, k: string, r: Resource) {
    && k in s.cfg.For(r.kind)
    && StatusKey(k, r.kind, r.id) in s.w.db.statuses
    && T.HasRow(s.w.db, r)
    && forall id :: id in s.cleaners ==> !Past(s.cleaners[id], r)
  }

  lemma RequestKeepsStatuses(w: World, a: Action)
    ensures Request(w, a).db.statuses == w.db.statuses
  {
    if a.DeleteOrg? && T.DeleteOrg(w, a.name, a.order, a.now).Ok? { DropProjectsKeepsOrgs(w, a.order, a.now); }
  }

  lemma StatementKeepsShield(w: World, cfg: Config, c: L.Cleaner, order: seq<Uuid>, ok: bool, k: string, r: Resource)
    requires k in cfg.For(r.kind) && StatusKey(k, r.kind, r.id) in w.db.statuses && T.HasRow(w.db, r) && !Past(c, r)
    ensures var (w', c') := L.Next(w, cfg, c, order, ok);
            StatusKey(k, r.kind, r.id) in w'.db.statuses && T.HasRow(w'.db, r) && !Past(c', r)
  {
  }

  /** Only the withdrawal of the report itself lifts the shield. */
  lemma ShieldHolds(s: Fleet, a: Action, k: string, r: Resource)
    requires Shielded(s, k, r) && a != Withdraw(StatusKey(k, r.kind, r.id))
    ensures Shielded(Next(s, a), k, r)
  {
    if a.Clean? {
      StatementKeepsShield(s.w, s.cfg, CleanerOf(s, a.cleaner), a.order, a.ok, k, r);
    } else {
      RowsStay(s, a);
      RequestKeepsStatuses(s.w, a);
    }
  }

  // --- A session during which every held resource is shielded ---

  /** From when on a resource that was dead when the session began is among those read as deleted, and is
      announced as deleted. */
  ghost predicate AnnouncedInTime(c: Controller, r: Resource) {
    match c.phase
    case DeadFolders(order, _) => r.kind.ProjectKind? ==> r.id in order
    case DeadParents(order, _, _) => r.kind.ProjectKind? ==> r.id in order
    case DeadOrgs => r.kind.ProjectKind? ==> Mentions(c.replay, Deleted, r)
    case Polling => Mentions(c.replay, Deleted, r)
    case _ => true
  }

  ghost predicate Announcing(w: World, c: Controller)
    requires c.start <= |w.log|
  {
    forall r: Resource :: r in c.held && r in StartView(w, c).Dead() ==> AnnouncedInTime(c, r)
  }

  ghost predicate Guarded(s: Fleet, k: string) {
    !s.ctl.phase.Polling? ==> forall r :: r in s.ctl.held ==> Shielded(s, k, r)
  }

  lemma ShieldedIsListed(w: World, v0: View, r: Resource)
    requires RowsInv(w.db, w.View()) && Extends(v0, w.View()) && r in v0.Dead() && T.HasRow(w.db, r)
    ensures r.kind.ProjectKind? ==> r.id in DeletedProjects(w.db)
    ensures r.kind.OrgKind? ==> r.id in DeletedOrgs(w.db)
  {
    T.ActiveIsLive(w.db, w.View(), r);
    assert r in w.View().Dead();
  }

  lemma OrgListingMentions(orgs: map<Uuid, Org>, order: seq<Uuid>, r: Resource)
    requires forall o :: o in order ==> o in orgs
    ensures Mentions(OrgEvents(Deleted, order, orgs), Deleted, r) <==> r.kind.OrgKind? && r.id in order
    ensures !Mentions(OrgEvents(Created, order, orgs), Deleted, r)
  {
    var es := OrgEvents(Deleted, order, orgs);
    if r.kind.OrgKind? && r.id in order {
      var i :| 0 <= i < |order| && order[i] == r.id;
      assert es[i] in es && es[i].Subject() == r;
    }
  }

  lemma ProjectListingMentions(order: seq<Uuid>, rows: map<Uuid, Project>, folders: map<Uuid, Folder>,
        orgs: map<Uuid, Org>, r: Resource)
    requires forall p :: p in order ==> p in rows
    ensures Mentions(ProjectEvents(Deleted, order, rows, folders, orgs), Deleted, r) <==>
        r.kind.ProjectKind? && r.id in order
    ensures !Mentions(ProjectEvents(Created, order, rows, folders, orgs), Deleted, r)
  {
    var es := ProjectEvents(Deleted, order, rows, folders, orgs);
    if r.kind.ProjectKind? && r.id in order {
      var i :| 0 <= i < |order| && order[i] == r.id;
      assert es[i] in es && es[i].Subject() == r;
    }
  }

  /** What a read adds to the announcements of deletion: nothing, or what the listing of the deleted rows
      of one kind names. */
  lemma ReadAnnounces(w: World, c: Controller, order: seq<Uuid>, r: Resource)
    ensures var c' := K.Read(w, c, order);
            Mentions(c'.replay, Deleted, r) <==>
              || Mentions(c.replay, Deleted, r)
              || (c.phase.DeadParents? && c' != c && r.kind.ProjectKind? && r.id in c.phase.order)
              || (c.phase.DeadOrgs? && c' != c && r.kind.OrgKind? && r.id in DeletedOrgs(w.db))
  {
    match c.phase
    case Orgs =>
      if Lists(order, ActiveOrgs(w.db)) {
        OrgListingMentions(w.db.orgs, order, r);
        MentionsAppend(c.replay, OrgEvents(Created, order, w.db.orgs), Deleted, r);
      }
    case Parents(o, rows, folders) =>
      if forall p :: p in o ==> p in rows {
        ProjectListingMentions(o, rows, folders, w.db.orgs, r);
        MentionsAppend(c.replay, ProjectEvents(Created, o, rows, folders, w.db.orgs), Deleted, r);
      }
    case DeadParents(o, rows, folders) =>
      if forall p :: p in o ==> p in rows {
        ProjectListingMentions(o, rows, folders, w.db.orgs, r);
        MentionsAppend(c.replay, ProjectEvents(Deleted, o, rows, folders, w.db.orgs), Deleted, r);
      }
    case DeadOrgs =>
      if Lists(order, DeletedOrgs(w.db)) {
        OrgListingMentions(w.db.orgs, order, r);
        MentionsAppend(c.replay, OrgEvents(Deleted, order, w.db.orgs), Deleted, r);
      }
    case _ =>
  }

  lemma ReadInTime(w: World, c: Controller, order: seq<Uuid>, r: Resource)
    requires AnnouncedInTime(c, r)
    requires !c.phase.Polling? ==>
        if r.kind.ProjectKind? then r.id in DeletedProjects(w.db) else r.id in DeletedOrgs(w.db)
    ensures AnnouncedInTime(K.Read(w, c, order), r)
  {
    ReadAnnounces(w, c, order, r);
  }

  lemma ReadKeepsAnnouncing(s: Fleet, k: string, order: seq<Uuid>)
    requires RowsInv(s.w.db, s.w.View()) && s.ctl.start <= |s.w.log|
    requires Extends(StartView(s.w, s.ctl), s.w.View())
    requires Announcing(s.w, s.ctl) && Guarded(s, k)
    ensures K.Read(s.w, s.ctl, order).start <= |s.w.log| && Announcing(s.w, K.Read(s.w, s.ctl, order))
  {
    var w, c, c' := s.w, s.ctl, K.Read(s.w, s.ctl, order);
    if !c.phase.Connecting? {
      forall r | r in c.held && r in StartView(w, c).Dead() ensures AnnouncedInTime(c', r) {
        if !c.phase.Polling? { ShieldedIsListed(w, StartView(w, c), r); }
        ReadInTime(w, c, order, r);
      }
    }
  }

  lemma AnnouncingIsStable(before: World, after: World, c: Controller)
    requires c.start <= |before.log| && before.log <= after.log && Announcing(before, c)
    ensures Announcing(after, c)
  {
    assert after.log[..c.start] == before.log[..c.start];
  }

  /** The controller's own reports are withdrawn only once it polls, and it does not restart again. */
  ghost predicate Careful(s: Fleet, k: string, a: Action) {
    !a.Restart? && (a.Withdraw? && a.key.controller == k ==> s.ctl.phase.Polling?)
  }

  lemma GuardedStep(s: Fleet, k: string, a: Action)
    requires Guarded(s, k) && Careful(s, k, a)
    ensures Guarded(Next(s, a), k)
  {
    if !Next(s, a).ctl.phase.Polling? {
      forall r | r in s.ctl.held ensures Shielded(Next(s, a), k, r) { ShieldHolds(s, a, k, r); }
    }
  }

  lemma AnnouncingStep(s: Fleet, k: string, a: Action)
    requires Inv(s.w) && s.ctl.start <= |s.w.log| && s.w.log <= Next(s, a).w.log && Announcing(s.w, s.ctl)
        && Guarded(s, k) && Careful(s, k, a)
    ensures Next(s, a).ctl.start <= |Next(s, a).w.log| && Announcing(Next(s, a).w, Next(s, a).ctl)
  {
    if a.Read? {
      SessionViews(s.w, s.ctl);
      ReadKeepsAnnouncing(s, k, a.order);
    } else {
      AnnouncingIsStable(s.w, Next(s, a).w, s.ctl);
    }
  }

  ghost predicate CarefulRun(s: Fleet, k: string, actions: seq<Action>) {
    forall i :: 0 <= i < |actions| ==> Careful(Run(s, actions[..i]), k, actions[i])
  }

  lemma CarefulPrefix(s: Fleet, k: string, actions: seq<Action>)
    requires actions != [] && CarefulRun(s, k, actions)
    ensures CarefulRun(s, k, actions[..|actions| - 1])
    ensures Careful(Run(s, actions[..|actions| - 1]), k, actions[|actions| - 1])
  {
    var n := |actions| - 1;
    forall i | 0 <= i < n ensures Careful(Run(s, actions[..n][..i]), k, actions[..n][i]) {
      assert actions[..n][..i] == actions[..i];
    }
  }

  lemma {:induction false} ShieldedSession(s: Fleet, k: string, actions: seq<Action>)
    requires FleetInv(s) && s.ctl == Session(s.ctl.regarded) && CarefulRun(s, k, actions)
    requires forall r :: r in s.ctl.held ==> Shielded(s, k, r)
    ensures var s' := Run(s, actions); FleetInv(s') && Guarded(s', k) && Announcing(s'.w, s'.ctl)
    decreases |actions|
  {
    if actions != [] {
      var n := |actions| - 1;
      CarefulPrefix(s, k, actions);
      ShieldedSession(s, k, actions[..n]);
      var t := Run(s, actions[..n]);
      NextKeepsInv(t, actions[n]);
      GuardedStep(t, k, actions[n]);
      AnnouncingStep(t, k, actions[n]);
    }
  }

  /** A controller that restarts while its reports shield everything it holds, and withdraws them only
      when it polls again, has no orphans: once caught up it regards as existing exactly the active orgs
      and projects. */
  lemma ShieldedSessionHasNoOrphans(s: Fleet, k: string, actions: seq<Action>)
    requires FleetInv(s) && s.ctl == Session(s.ctl.regarded) && CarefulRun(s, k, actions)
    requires forall r :: r in s.ctl.held ==> Shielded(s, k, r)
    ensures var s' := Run(s, actions);
            K.CaughtUp(s'.w, s'.ctl) ==> forall r :: r in s'.ctl.regarded <==> T.IsActive(s'.w.db, r)
  {
    ShieldedSession(s, k, actions);
    var s' := Run(s, actions);
    if CaughtUp(s'.w, s'.ctl) {
      Converges(s'.w, s'.ctl);
      assert Orphans(s'.w, s'.ctl) == {};
      forall r: Resource ensures r in s'.w.View().live <==> T.IsActive(s'.w.db, r) {
        T.ActiveIsLive(s'.w.db, s'.w.View(), r);
      }
    }
  }

  // --- A run with any number of restarts ---

  /** What a run must observe at each step: a restart happens only while every resource regarded as
      existing is shielded by the reports of `k`, and these are withdrawn only while the controller
      polls. */
  ghost predicate Discipline(s: Fleet, k: string, a: Action) {
    && (a.Restart? ==> forall r :: r in s.ctl.regarded ==> Shielded(s, k, r))
    && (a.Withdraw? && a.key.controller == k ==> s.ctl.phase.Polling?)
  }

  ghost predicate Disciplined(cfg: Config, k: string, actions: seq<Action>) {
    forall i :: 0 <= i < |actions| ==> Discipline(Run(Init(cfg), actions[..i]), k, actions[i])
  }

  lemma DisciplinedPrefix(cfg: Config, k: string, actions: seq<Action>)
    requires actions != [] && Disciplined(cfg, k, actions)
    ensures Disciplined(cfg, k, actions[..|actions| - 1])
    ensures Discipline(Run(Init(cfg), actions[..|actions| - 1]), k, actions[|actions| - 1])
  {
    var n := |actions| - 1;
    forall i | 0 <= i < n ensures Discipline(Run(Init(cfg), actions[..n][..i]), k, actions[..n][i]) {
      assert actions[..n][..i] == actions[..i];
    }
  }

  lemma RestartIsGuarded(s: Fleet, k: string)
    requires forall r :: r in s.ctl.regarded ==> Shielded(s, k, r)
    ensures Guarded(Next(s, Restart), k)
    ensures Announcing(Next(s, Restart).w, Next(s, Restart).ctl)
  {
    forall r | r in s.ctl.regarded ensures Shielded(Next(s, Restart), k, r) { ShieldHolds(s, Restart, k, r); }
  }

  lemma {:induction false} DisciplineGuards(cfg: Config, k: string, actions: seq<Action>)
    requires Disciplined(cfg, k, actions)
    ensures var s := Run(Init(cfg), actions); FleetInv(s) && Guarded(s, k) && Announcing(s.w, s.ctl)
    decreases |actions|
  {
    if actions == [] {
      InitInv(cfg);
    } else {
      var n := |actions| - 1;
      DisciplinedPrefix(cfg, k, actions);
      DisciplineGuards(cfg, k, actions[..n]);
      var s := Run(Init(cfg), actions[..n]);
      NextKeepsInv(s, actions[n]);
      if actions[n].Restart? {
        RestartIsGuarded(s, k);
      } else {
        GuardedStep(s, k, actions[n]);
        AnnouncingStep(s, k, actions[n]);
      }
    }
  }

  /** In every disciplined run, with any number of restarts: a controller that polls has no orphans, and
      one that has caught up regards as existing exactly the active orgs and projects. */
  lemma DisciplinedRunsHaveNoOrphans(cfg: Config, k: string, actions: seq<Action>)
    requires Disciplined(cfg, k, actions)
    ensures var s := Run(Init(cfg), actions);
            && FleetInv(s)
            && (s.ctl.phase.Polling? ==> Orphans(s.w, s.ctl) == {})
            && (CaughtUp(s.w, s.ctl) ==> forall r :: r in s.ctl.regarded <==> T.IsActive(s.w.db, r))
  {
    DisciplineGuards(cfg, k, actions);
    var s := Run(Init(cfg), actions);
    if s.ctl.phase.Polling? { assert Orphans(s.w, s.ctl) == {}; }
    if CaughtUp(s.w, s.ctl) {
      Converges(s.w, s.ctl);
      forall r: Resource ensures r in s.w.View().live <==> T.IsActive(s.w.db, r) {
        T.ActiveIsLive(s.w.db, s.w.View(), r);
      }
    }
  }

  // --- Without a shield ---

  /** A held resource whose row is gone when the session begins. */
  ghost predicate Forgotten(w: World, c: Controller, r: Resource)
    requires c.start <= |w.log|
  {
    && r in c.held && r in w.View().Dead() && !T.HasRow(w.db, r)
    && !Mentions(c.replay, Deleted, r)
    && (!c.phase.Connecting? ==> r in StartView(w, c).Dead())
    && (c.phase.DeadFolders? || c.phase.DeadParents? ==> r.kind.ProjectKind? ==> r.id !in c.phase.order)
  }

  lemma ForgottenIsStable(before: World, after: World, c: Controller, r: Resource)
    requires c.start <= |before.log| && WellFormed(after.log) && Evolves(before, after)
        && before.View().live <= before.View().born
    requires Forgotten(before, c, r)
    ensures Forgotten(after, c, r)
  {
    ViewExtends(before, after);
    assert after.log[..c.start] == before.log[..c.start];
  }

  lemma ForgottenRead(w: World, c: Controller, order: seq<Uuid>, r: Resource)
    requires c.start <= |w.log| && Forgotten(w, c, r)
    ensures K.Read(w, c, order).start <= |w.log| && Forgotten(w, K.Read(w, c, order), r)
  {
    ReadAnnounces(w, c, order, r);
    assert w.log[..|w.log|] == w.log;
  }

  lemma ForgottenStep(s: Fleet, a: Action, r: Resource)
    requires FleetInv(s) && !a.Restart? && Forgotten(s.w, s.ctl, r)
    ensures FleetInv(Next(s, a)) && Forgotten(Next(s, a).w, Next(s, a).ctl, r)
  {
    NextKeepsInv(s, a);
    WellFormedIsClosed(s.w.log);
    if a.Read? {
      ForgottenRead(s.w, s.ctl, a.order, r);
    } else {
      ForgottenIsStable(s.w, Next(s, a).w, s.ctl, r);
    }
  }

  /** A resource that a restarting controller holds and whose row is already gone is regarded as
      existing for the whole session, however long it runs. */
  lemma {:induction false} RowlessIsOrphaned(s: Fleet, actions: seq<Action>, r: Resource)
    requires FleetInv(s) && s.ctl == Session(s.ctl.regarded) && r in s.ctl.held && !T.HasRow(s.w.db, r)
    requires forall a :: a in actions ==> !a.Restart?
    ensures var s' := Run(s, actions);
            FleetInv(s') && Forgotten(s'.w, s'.ctl, r) && (s'.ctl.phase.Polling? ==> r in Orphans(s'.w, s'.ctl))
    decreases |actions|
  {
    if actions == [] {
      T.ActiveIsLive(s.w.db, s.w.View(), r);
    } else {
      var n := |actions| - 1;
      RowlessIsOrphaned(s, actions[..n], r);
      ForgottenStep(Run(s, actions[..n]), actions[n], r);
    }
  }

  // --- The orphans, exactly ---

  /** As long as its row is there, a held resource that was dead when the session began is announced in
      time. */
  ghost predicate AnnouncedWhileThere(w: World, c: Controller)
    requires c.start <= |w.log|
  {
    forall r: Resource :: r in c.held && r in StartView(w, c).Dead() && T.HasRow(w.db, r) ==> AnnouncedInTime(c, r)
  }

  lemma ReadWhileThere(w: World, c: Controller, order: seq<Uuid>)
    requires RowsInv(w.db, w.View()) && c.start <= |w.log| && Extends(StartView(w, c), w.View())
    requires AnnouncedWhileThere(w, c)
    ensures K.Read(w, c, order).start <= |w.log| && AnnouncedWhileThere(w, K.Read(w, c, order))
  {
    var c' := K.Read(w, c, order);
    if !c.phase.Connecting? {
      forall r | r in c.held && r in StartView(w, c).Dead() && T.HasRow(w.db, r) ensures AnnouncedInTime(c', r) {
        ShieldedIsListed(w, StartView(w, c), r);
        ReadInTime(w, c, order, r);
      }
    }
  }

  lemma StaysWhileThere(before: World, after: World, c: Controller)
    requires c.start <= |before.log| && Evolves(before, after) && c.held <= before.View().born
    requires AnnouncedWhileThere(before, c)
    ensures AnnouncedWhileThere(after, c)
  {
    assert after.log[..c.start] == before.log[..c.start];
  }

  lemma StepWhileThere(s: Fleet, a: Action)
    requires Inv(s.w) && s.ctl.start <= |s.w.log| && s.ctl.held <= s.w.View().born && AnnouncedWhileThere(s.w, s.ctl)
    requires !a.Restart? && Evolves(s.w, NextWorld(s, a))
    ensures Next(s, a).ctl.start <= |Next(s, a).w.log| && AnnouncedWhileThere(Next(s, a).w, Next(s, a).ctl)
  {
    if a.Read? { ReadKeepsThere(s.w, s.ctl, a.order); } else { StaysWhileThere(s.w, NextWorld(s, a), s.ctl); }
  }

  lemma ReadKeepsThere(w: World, c: Controller, order: seq<Uuid>)
    requires Inv(w) && c.start <= |w.log| && AnnouncedWhileThere(w, c)
    ensures K.Read(w, c, order).start <= |w.log| && AnnouncedWhileThere(w, K.Read(w, c, order))
  {
    SessionViews(w, c);
    ReadWhileThere(w, c, order);
  }

  lemma {:induction false} SessionWhileThere(s: Fleet, actions: seq<Action>)
    requires FleetInv(s) && AnnouncedWhileThere(s.w, s.ctl) && forall a :: a in actions ==> !a.Restart?
    ensures FleetInv(Run(s, actions)) && AnnouncedWhileThere(Run(s, actions).w, Run(s, actions).ctl)
    ensures Run(s, actions).ctl.held == s.ctl.held
    decreases |actions|
  {
    if actions != [] {
      var n := |actions| - 1;
      SessionWhileThere(s, actions[..n]);
      NextKeepsInv(Run(s, actions[..n]), actions[n]);
      StepWhileThere(Run(s, actions[..n]), actions[n]);
      HeldStays(Run(s, actions[..n]), actions[n]);
    }
  }

  lemma HeldStays(s: Fleet, a: Action)
    requires !a.Restart?
    ensures Next(s, a).ctl.held == s.ctl.held
  {
  }

  lemma NewSessionWhileThere(w: World, c: Controller)
    requires c == Session(c.regarded)
    ensures AnnouncedWhileThere(w, c)
  {
  }

  lemma OrphansAreRowless(w: World, c: Controller, r: Resource)
    requires c.start <= |w.log| && c.phase.Polling? && AnnouncedWhileThere(w, c) && r in Orphans(w, c)
    ensures r in c.held && !T.HasRow(w.db, r)
  {
  }

  lemma OrphansBounds(s: Fleet, actions: seq<Action>, r: Resource)
    requires FleetInv(s) && s.ctl == Session(s.ctl.regarded) && forall a :: a in actions ==> !a.Restart?
    requires Run(s, actions).ctl.phase.Polling?
    ensures var s' := Run(s, actions);
            && FleetInv(s')
            && (r in s.ctl.held && !T.HasRow(s.w.db, r) ==> r in Orphans(s'.w, s'.ctl))
            && (r in Orphans(s'.w, s'.ctl) ==> r in s.ctl.held && !T.HasRow(s'.w.db, r))
  {
    NewSessionWhileThere(s.w, s.ctl);
    SessionWhileThere(s, actions);
    var s' := Run(s, actions);
    if r in Orphans(s'.w, s'.ctl) { OrphansAreRowless(s'.w, s'.ctl, r); }
    if r in s.ctl.held && !T.HasRow(s.w.db, r) { RowlessIsOrphaned(s, actions, r); }
  }

  /** Of a session that begins at a restart, whatever happens during it: what was held and has no row by
      then is an orphan, and an orphan has no row once the controller polls. So where no held resource
      loses its row while the session lasts, the session has orphans if and only if something held has no
      row at the restart, and exactly these. */
  lemma OrphansExactly(s: Fleet, actions: seq<Action>)
    requires FleetInv(s) && s.ctl == Session(s.ctl.regarded) && forall a :: a in actions ==> !a.Restart?
    requires Run(s, actions).ctl.phase.Polling?
    ensures var s' := Run(s, actions);
            && FleetInv(s')
            && (forall r :: r in s.ctl.held && !T.HasRow(s.w.db, r) ==> r in Orphans(s'.w, s'.ctl))
            && (forall r :: r in Orphans(s'.w, s'.ctl) ==> r in s.ctl.held && !T.HasRow(s'.w.db, r))
            && ((forall r :: r in s.ctl.held && T.HasRow(s.w.db, r) ==> T.HasRow(s'.w.db, r)) ==>
                  Orphans(s'.w, s'.ctl) == set r | r in s.ctl.held && !T.HasRow(s.w.db, r))
  {
    RunKeepsInv(s, actions);
    forall r { OrphansBounds(s, actions, r); }
  }
}
